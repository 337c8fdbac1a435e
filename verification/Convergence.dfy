/**
 * End to end: clients with their outbox, editor and React state, the server document and
 * ordered delivery while connected. Requests may be processed late or more than once.
 * Clients also save snapshots: the server merges a checkpoint into the document, and once
 * it is written sends the whole state, as it then was, to the rest of the room.
 */
module Convergence {
  import opened Crdt
  import opened Prelude
  import O = Outbox

  type PeerId = nat

  /**
   * A client's own id, the name the server stamps on its updates, and the clients that may save
   * snapshots over the socket. A snapshot saved over HTTP or from the initial content is merged
   * all the same, but never announced.
   */
  datatype Setup = Setup(clientId: PeerId -> string, actor: PeerId -> string, writers: set<PeerId>)

  datatype Message =
    | Joined(state: Doc)
    | Broadcast(update: Doc, author: string)
    | Whole(state: Doc)
    | Ack(number: nat, state: Doc)
    | Nack(number: nat, rateLimited: bool)

  /** A request on its way to the server, with the connection it was sent over. */
  datatype Sent = Sent(update: Doc, epoch: nat)

  /** The state encoded when a snapshot was merged, waiting for its database write, and the connection that asked. */
  datatype Saved = Saved(state: Doc, epoch: nat)

  datatype Remote = Remote(update: Doc, author: string, sequence: nat)

  datatype Peer = Peer(
    outbox: O.Client,
    replica: Doc,            // the editor's Y.Doc
    drafts: Doc,             // pendingLocalUpdatesRef
    room: bool,              // the current socket is in the session's room
    epoch: nat,              // connections so far
    inbox: seq<Message>,     // sent by the server over the current connection, not yet handled
    wire: seq<Sent>,         // every request ever sent, by number
    saves: seq<Saved>,       // this client's snapshots merged but not yet written
    yjsState: Doc,           // yjsStateBase64, empty for null
    remote: Option<Remote>,  // remoteYjsUpdate
    sequence: nat,           // yjsUpdateSequenceRef
    applied: nat,            // appliedRemoteSequenceRef
    answer: Doc,             // history: the join answer last handled
    missed: Doc              // history: what the client has let go of since then without showing it
  )

  /** `checkpoints` are the operations snapshots added to the document; the sender of one is never answered with them. */
  datatype System = System(doc: Doc, checkpoints: Doc, peers: map<PeerId, Peer>)

  function NewPeer(session: O.SessionId): Peer {
    Peer(O.Mounted(session), {}, {}, false, 0, [], [], [], {}, None, 0, 0, {}, {})
  }

  ghost predicate Initial(s: System) {
    s.checkpoints == {} && forall i :: i in s.peers ==> exists session :: s.peers[i] == NewPeer(session)
  }

  datatype Event =
    | Edit(i: PeerId, update: Doc)
    | SendDrafts(i: PeerId)
    | Timeout(i: PeerId)
    | RetryTimer(i: PeerId)
    | Connect(i: PeerId)
    | Disconnect(i: PeerId)
    | Join(i: PeerId)
    | Process(i: PeerId, number: nat)
    | Reject(i: PeerId, number: nat, rateLimited: bool)
    | Checkpoint(i: PeerId, ops: Doc)
    | Announce(i: PeerId, index: nat)
    | Deliver(i: PeerId)
    | Effects(i: PeerId)

  /** The outbox moves on to `c`; a newly sent request goes onto the wire. */
  function WithOutbox(p: Peer, c: O.Client): Peer {
    if c.sends > p.outbox.sends && c.requests != [] then
      p.(outbox := c, wire := p.wire + [Sent(c.requests[|c.requests| - 1].sent.update, p.epoch)])
    else p.(outbox := c)
  }

  function Outboxed(p: Peer, e: O.Event): Peer
    requires O.Enabled(p.outbox, e)
  {
    WithOutbox(p, O.Step(p.outbox, e))
  }

  predicate Awaits(p: Peer, number: nat) {
    p.outbox.requests != [] && p.outbox.requests[0].number == number
  }

  /** The client handles one message; an answer to a request that has timed out is ignored. */
  function Receive(p: Peer, m: Message): Peer
    requires m.Joined? ==> p.outbox.connected
  {
    match m
    case Joined(state) => Outboxed(p.(yjsState := state, remote := None, answer := state, missed := {}), O.JoinAck)
    case Broadcast(update, author) =>
      var merged := if p.remote.Some? then p.remote.value.update + update else update;
      p.(sequence := p.sequence + 1, remote := Some(Remote(merged, author, p.sequence + 1)))
    // A join answer the editor has yet to apply is replaced.
    case Whole(state) => p.(yjsState := state, missed := p.missed + (p.answer - p.replica - state))
    case Ack(number, state) =>
      if Awaits(p, number) then Outboxed(p, O.Settle(0, O.Accepted)).(yjsState := state) else p
    case Nack(number, rateLimited) =>
      if Awaits(p, number) then Outboxed(p, O.Settle(0, if rateLimited then O.RateLimited else O.Refused)) else p
  }

  /** React runs the editor's two effects on the latest state; intermediate states may have been batched away. */
  function RunEffects(p: Peer, clientId: string): Peer {
    var p1 := p.(replica := p.replica + p.yjsState);
    if p.remote.None? || p.remote.value.sequence <= p.applied then p1
    else
      var p2 := p1.(applied := p.remote.value.sequence);
      // The whole batch is skipped when its last update carries the client's own id.
      if p.remote.value.author == clientId then p2.(missed := p2.missed + (p.remote.value.update - p2.replica))
      else p2.(replica := p2.replica + p.remote.value.update)
  }

  predicate EnabledFor(p: Peer, e: Event) {
    match e
    case Edit(_, _) => true
    case SendDrafts(_) => true
    case Timeout(_) => p.outbox.requests != []
    case RetryTimer(_) => p.outbox.timers > 0
    case Connect(_) => !p.outbox.connected
    case Disconnect(_) => p.outbox.connected
    case Join(_) => p.outbox.connected && !p.room
    case Process(_, n) => n < |p.wire|
    case Reject(_, n, _) => n < |p.wire|
    case Checkpoint(_, _) => true
    case Announce(_, n) => n < |p.saves|
    case Deliver(_) => p.inbox != [] && p.outbox.connected
    case Effects(_) => true
  }

  predicate Enabled(s: System, e: Event) {
    e.i in s.peers && EnabledFor(s.peers[e.i], e)
  }

  predicate Permitted(e: Event, setup: Setup) {
    e.Announce? ==> e.i in setup.writers
  }

  predicate Current(p: Peer, number: nat)
    requires number < |p.wire|
  {
    p.room && p.wire[number].epoch == p.epoch
  }

  function Send(p: Peer, m: Message): Peer {
    p.(inbox := p.inbox + [m])
  }

  /** What the processing of request `number` of peer `i` sends to peer `k`: `socket.to(room)` skips the sending socket only. */
  function Notified(s: System, i: PeerId, number: nat, k: PeerId, setup: Setup): Peer
    requires i in s.peers && k in s.peers && number < |s.peers[i].wire|
  {
    var p := s.peers[k];
    var update := s.peers[i].wire[number].update;
    if k == i && Current(p, number) then Send(p, Ack(number, s.doc + update))
    else if p.room then Send(p, Broadcast(update, setup.actor(i)))
    else p
  }

  /** What announcing snapshot `n` of peer `i` sends to peer `k`: everyone in the room but the socket that asked. */
  function Announced(s: System, i: PeerId, n: nat, k: PeerId): Peer
    requires i in s.peers && k in s.peers && n < |s.peers[i].saves|
  {
    var saved := s.peers[i].saves[n];
    var p := if k == i then s.peers[k].(saves := RemoveAt(s.peers[k].saves, n)) else s.peers[k];
    if p.room && !(k == i && saved.epoch == p.epoch) then Send(p, Whole(saved.state)) else p
  }

  /** Events that concern one client alone. */
  predicate Local(e: Event) {
    !e.Process? && !e.Checkpoint? && !e.Announce?
  }

  function PeerStep(p: Peer, e: Event, doc: Doc, setup: Setup): Peer
    requires EnabledFor(p, e) && Local(e)
  {
    match e
    case Edit(_, update) => p.(replica := p.replica + update, drafts := p.drafts + update)
    case SendDrafts(_) => Outboxed(p.(drafts := {}), O.Edit(p.drafts))
    case Timeout(_) => Outboxed(p, O.Settle(0, O.TimedOut))
    case RetryTimer(_) => Outboxed(p, O.TimerFire)
    case Connect(_) => Outboxed(p.(epoch := p.epoch + 1), O.Connect)
    case Disconnect(_) => Outboxed(p.(room := false, inbox := []), O.Disconnect)
    // The state read and the room entry of a join are one step.
    case Join(_) => Send(p.(room := true), Joined(doc))
    case Reject(_, number, rateLimited) => if Current(p, number) then Send(p, Nack(number, rateLimited)) else p
    case Deliver(_) => Receive(p.(inbox := p.inbox[1..]), p.inbox[0])
    case Effects(i) => RunEffects(p, setup.clientId(i))
  }

  function Step(s: System, e: Event, setup: Setup): System
    requires Enabled(s, e)
  {
    match e
    case Process(i, number) =>
      s.(doc := s.doc + s.peers[i].wire[number].update, peers := map k | k in s.peers :: Notified(s, i, number, k, setup))
    // Merged and encoded; nor is a snapshot announced whose write fails.
    case Checkpoint(i, ops) =>
      var p := s.peers[i];
      System(s.doc + ops, s.checkpoints + ops,
             s.peers[i := p.(saves := p.saves + [Saved(s.doc + ops, p.epoch)])])
    case Announce(i, n) => s.(peers := map k | k in s.peers :: Announced(s, i, n, k))
    case _ => s.(peers := s.peers[e.i := PeerStep(s.peers[e.i], e, s.doc, setup)])
  }

  predicate Legal(s: System, es: seq<Event>, setup: Setup)
    decreases |es|
  {
    es == [] || (Enabled(s, es[0]) && Permitted(es[0], setup) && Legal(Step(s, es[0], setup), es[1..], setup))
  }

  function Exec(s: System, es: seq<Event>, setup: Setup): System
    requires Legal(s, es, setup)
    decreases |es|
  {
    if es == [] then s else Exec(Step(s, es[0], setup), es[1..], setup)
  }

  /** Joined, nothing left to send, everything delivered, and React has run its effects. */
  predicate Idle(p: Peer) {
    && p.room && p.inbox == [] && p.drafts == {} && p.outbox.pending.None?
    && p.yjsState <= p.replica
    && (p.remote.Some? ==> p.remote.value.sequence <= p.applied)
  }

  /** The client shows the server document, checkpoints aside. */
  predicate Converged(p: Peer, s: System) {
    p.replica - s.checkpoints == s.doc - s.checkpoints
  }

  /** No update is stamped with a name that some client compares with its own id. */
  ghost predicate NamesApart(setup: Setup, ids: set<PeerId>) {
    forall i, j :: i in ids && j in ids ==> setup.actor(i) != setup.clientId(j)
  }

  // The invariant of one peer, given the server document.

  function RemoteOps(p: Peer): Doc {
    if p.remote.Some? then p.remote.value.update else {}
  }

  function Broadcasts(inbox: seq<Message>): Doc {
    set m, x | m in inbox && m.Broadcast? && x in m.update :: x
  }

  predicate OutboxInv(p: Peer) {
    && O.Inv(p.outbox)
    && p.outbox.dropped == {}
    && (p.outbox.pending.Some? ==> p.outbox.pending.value.session == p.outbox.session)
    && |p.wire| == p.outbox.sends
    && (forall r :: r in p.outbox.requests ==> r.number < |p.wire| && p.wire[r.number].update == r.sent.update)
    && (forall n :: 0 <= n < |p.wire| ==> p.wire[n].update <= p.replica)
    && O.Unacked(p.outbox) + p.drafts <= p.replica
  }

  predicate MessageInv(p: Peer, m: Message, doc: Doc) {
    match m
    case Joined(state) => state <= doc && p.outbox.connected
    case Broadcast(update, _) => update <= doc
    case Whole(state) => state <= doc
    case Ack(number, state) => state <= doc && number < |p.wire| && p.wire[number].update <= doc
    case Nack(_, _) => true
  }

  /** The client's React state holds nothing the server does not have, and what it has passed over was shown or missed. */
  predicate EditorInv(p: Peer, doc: Doc) {
    && p.yjsState + RemoteOps(p) + p.answer + p.missed <= doc
    && p.applied <= p.sequence
    && (p.remote.Some? ==>
          && p.remote.value.sequence <= p.sequence
          && (p.remote.value.sequence <= p.applied ==> p.remote.value.update <= p.replica + p.missed))
  }

  predicate AwaitsAnswer(p: Peer) {
    p.inbox != [] && p.inbox[0].Joined?
  }

  /** The latest join answer, handled or not. */
  function Answer(p: Peer): Doc {
    if AwaitsAnswer(p) then p.inbox[0].state else p.answer
  }

  /** What the client was told since it joined, but for the broadcasts still in its inbox. */
  function Base(p: Peer): Doc {
    if AwaitsAnswer(p) then p.inbox[0].state else p.answer + RemoteOps(p)
  }

  /** The join answer comes first, and acknowledgements carry at least as much. A whole state may be older than both. */
  predicate OrderInv(p: Peer) {
    && (!p.room ==> p.inbox == [])
    && (forall k :: 0 < k < |p.inbox| ==> !p.inbox[k].Joined?)
    && (forall m :: m in p.inbox && m.Ack? ==> Answer(p) <= m.state)
  }

  ghost predicate PeerInv(p: Peer, doc: Doc, marks: Doc) {
    && OutboxInv(p)
    && (forall m :: m in p.inbox ==> MessageInv(p, m, doc))
    && EditorInv(p, doc)
    && OrderInv(p)
    && p.replica <= doc + O.Unacked(p.outbox) + p.drafts
    && (forall v :: v in p.saves ==> v.state <= doc)
    && (p.room && !AwaitsAnswer(p) ==> p.answer <= p.replica + p.yjsState + p.missed)
    && (p.room ==> doc <= p.replica + Base(p) + Broadcasts(p.inbox) + marks)
  }

  ghost predicate Inv(s: System) {
    && s.checkpoints <= s.doc
    && forall i :: i in s.peers ==> PeerInv(s.peers[i], s.doc, s.checkpoints)
  }

  // Preservation.

  /** What a step of the outbox sends, and what it leaves unacknowledged. */
  predicate Outcomes(c: O.Client, e: O.Event, c': O.Client)
    requires O.Enabled(c, e)
  {
    && c'.session == c.session && c'.dropped == c.dropped
    && (c'.pending.Some? ==> c'.pending.value.session == c'.session)
    && (|| (c'.sends == c.sends && forall r :: r in c'.requests ==> r in c.requests)
        || (c'.sends == c.sends + 1 && c'.pending.Some? && c'.requests == [O.Request(c.sends, c'.pending.value)]))
    && O.Unacked(c') <= O.Unacked(c) + (if e.Edit? then e.update else {})
    && O.Unacked(c) <= O.Unacked(c') + (if e.Settle? && e.outcome.Accepted? then c.requests[e.index].sent.update else {})
    && (e.Edit? ==> e.update <= O.Unacked(c'))
  }

  lemma AfterHandle(c: O.Client, sent: O.Pending, outcome: O.Outcome)
    requires c.requests == []
    ensures
      var c' := O.Handle(c, sent, outcome);
      && c'.requests == [] && c'.sends == c.sends && c'.session == c.session && c'.dropped == c.dropped
      && c'.connected == c.connected
      && (c'.pending == c.pending
          || (c'.pending.None? && outcome.Accepted? && c.pending.Some? && c.pending.value.version == sent.version))
  {
  }

  lemma AfterFinally(c: O.Client, sent: O.Pending)
    requires c.requests == []
    ensures
      var c' := O.Finally(c, sent);
      && c'.pending == c.pending && c'.session == c.session && c'.dropped == c.dropped && c'.connected == c.connected
      && (|| (c'.requests == [] && c'.sends == c.sends)
          || (c.pending.Some? && c'.sends == c.sends + 1 && c'.requests == [O.Request(c.sends, c.pending.value)]))
  {
  }

  lemma OutboxSettle(c: O.Client, e: O.Event)
    requires O.Inv(c) && O.Enabled(c, e) && e.Settle?
    requires c.pending.Some? ==> c.pending.value.session == c.session
    ensures Outcomes(c, e, O.Step(c, e)) && O.Step(c, e).connected == c.connected
  {
    var r := c.requests[e.index];
    assert r in c.requests && e.index == 0 && O.RequestInv(c, r);
    var c0 := c.(requests := []);
    assert RemoveAt(c.requests, 0) == [];
    AfterHandle(c0, r.sent, e.outcome);
    AfterFinally(O.Handle(c0, r.sent, e.outcome), r.sent);
  }

  lemma OutboxStep(c: O.Client, e: O.Event)
    requires O.Inv(c) && O.Enabled(c, e) && !e.Remount?
    requires c.pending.Some? ==> c.pending.value.session == c.session
    ensures O.Inv(O.Step(c, e)) && Outcomes(c, e, O.Step(c, e))
  {
    O.StepKeepsInv(c, e);
    if e.Settle? {
      OutboxSettle(c, e);
    }
  }

  /** The requests of `c` are those of the peer's outbox, or one new request for the pending update. */
  predicate Continues(p: Peer, c: O.Client) {
    || (c.sends == p.outbox.sends && forall r :: r in c.requests ==> r in p.outbox.requests)
    || (c.sends == p.outbox.sends + 1 && c.pending.Some? && c.requests == [O.Request(p.outbox.sends, c.pending.value)])
  }

  lemma WithOutboxKeepsInv(p: Peer, c: O.Client)
    requires OutboxInv(p) && O.Inv(c) && Continues(p, c)
    requires c.dropped == {} && (c.pending.Some? ==> c.pending.value.session == c.session)
    requires O.Unacked(c) + p.drafts <= p.replica
    ensures OutboxInv(WithOutbox(p, c))
    ensures |p.wire| <= |WithOutbox(p, c).wire| && WithOutbox(p, c).wire[..|p.wire|] == p.wire
  {
    var q := WithOutbox(p, c);
    if c.sends > p.outbox.sends {
      assert q.wire == p.wire + [Sent(c.pending.value.update, p.epoch)];
    } else {
      assert q.wire == p.wire;
    }
  }

  lemma OutboxedKeepsInv(p: Peer, e: O.Event)
    requires OutboxInv(p) && O.Enabled(p.outbox, e) && !e.Remount?
    requires e.Edit? ==> e.update <= p.replica && e.update + p.drafts <= p.replica
    ensures OutboxInv(Outboxed(p, e))
    ensures |p.wire| <= |Outboxed(p, e).wire| && Outboxed(p, e).wire[..|p.wire|] == p.wire
    ensures Outboxed(p, e) == p.(outbox := O.Step(p.outbox, e), wire := Outboxed(p, e).wire)
  {
    OutboxStep(p.outbox, e);
    WithOutboxKeepsInv(p, O.Step(p.outbox, e));
  }

  lemma MessagesKept(p: Peer, q: Peer, doc: Doc)
    requires forall m :: m in p.inbox ==> MessageInv(p, m, doc)
    requires |p.wire| <= |q.wire| && q.wire[..|p.wire|] == p.wire && q.outbox.connected == p.outbox.connected
    ensures forall m :: m in p.inbox ==> MessageInv(q, m, doc)
  {
    forall m | m in p.inbox ensures MessageInv(q, m, doc) {
      assert MessageInv(p, m, doc);
      if m.Ack? {
        assert q.wire[..|p.wire|][m.number] == p.wire[m.number];
      }
    }
  }

  /** An outbox step that acknowledges only what the server has keeps the peer's invariant. */
  lemma OutboxedKeepsPeer(p: Peer, e: O.Event, doc: Doc, marks: Doc)
    requires PeerInv(p, doc, marks) && O.Enabled(p.outbox, e)
    requires !e.Remount? && !e.Connect? && !e.Disconnect? && !e.Edit?
    requires e.Settle? && e.outcome.Accepted? ==> p.outbox.requests[e.index].sent.update <= doc
    ensures PeerInv(Outboxed(p, e), doc, marks)
  {
    OutboxedKeepsInv(p, e);
    OutboxStep(p.outbox, e);
    OutboxConnected(p.outbox, e);
    MessagesKept(p, Outboxed(p, e), doc);
  }

  lemma OutboxConnected(c: O.Client, e: O.Event)
    requires O.Inv(c) && (c.pending.Some? ==> c.pending.value.session == c.session)
    requires O.Enabled(c, e) && !e.Remount? && !e.Connect? && !e.Disconnect?
    ensures O.Step(c, e).connected == c.connected
  {
    if e.Settle? {
      OutboxSettle(c, e);
    }
  }

  lemma EditKeepsPeer(p: Peer, update: Doc, doc: Doc, marks: Doc)
    requires PeerInv(p, doc, marks)
    ensures PeerInv(p.(replica := p.replica + update, drafts := p.drafts + update), doc, marks)
  {
    MessagesKept(p, p.(replica := p.replica + update, drafts := p.drafts + update), doc);
  }

  lemma SendDraftsKeepsPeer(p: Peer, doc: Doc, marks: Doc)
    requires PeerInv(p, doc, marks)
    ensures PeerInv(Outboxed(p.(drafts := {}), O.Edit(p.drafts)), doc, marks)
  {
    var q := Outboxed(p.(drafts := {}), O.Edit(p.drafts));
    OutboxedKeepsInv(p.(drafts := {}), O.Edit(p.drafts));
    OutboxStep(p.outbox, O.Edit(p.drafts));
    MessagesKept(p, q, doc);
  }

  lemma EffectsKeepPeer(p: Peer, clientId: string, doc: Doc, marks: Doc)
    requires PeerInv(p, doc, marks)
    ensures PeerInv(RunEffects(p, clientId), doc, marks)
  {
    var q := RunEffects(p, clientId);
    assert q.replica <= p.replica + p.yjsState + RemoteOps(p);
    ShownKeepsPeer(p, q, doc, marks);
  }

  /** The editor shows more of what the client holds, and may miss some. */
  lemma ShownKeepsPeer(p: Peer, q: Peer, doc: Doc, marks: Doc)
    requires PeerInv(p, doc, marks) && EditorInv(q, doc)
    requires q == p.(replica := q.replica, applied := q.applied, missed := q.missed)
    requires p.replica <= q.replica <= p.replica + doc && p.missed <= q.missed
    ensures PeerInv(q, doc, marks)
  {
    MessagesKept(p, q, doc);
  }

  lemma ConnectKeepsPeer(p: Peer, doc: Doc, marks: Doc)
    requires PeerInv(p, doc, marks) && !p.outbox.connected
    ensures PeerInv(Outboxed(p.(epoch := p.epoch + 1), O.Connect), doc, marks)
  {
    OutboxedKeepsInv(p.(epoch := p.epoch + 1), O.Connect);
    forall m | m in p.inbox ensures !m.Joined? {
      assert MessageInv(p, m, doc);
    }
    MessagesKept(p, p.(epoch := p.epoch + 1), doc);
  }

  lemma DisconnectKeepsPeer(p: Peer, doc: Doc, marks: Doc)
    requires PeerInv(p, doc, marks)
    ensures PeerInv(Outboxed(p.(room := false, inbox := []), O.Disconnect), doc, marks)
  {
    OutboxedKeepsInv(p.(room := false, inbox := []), O.Disconnect);
  }

  lemma JoinKeepsPeer(p: Peer, doc: Doc, marks: Doc)
    requires PeerInv(p, doc, marks) && p.outbox.connected && !p.room
    ensures PeerInv(Send(p.(room := true), Joined(doc)), doc, marks)
  {
    var q := Send(p.(room := true), Joined(doc));
    assert p.inbox == [] && q.inbox == [Joined(doc)];
    assert OutboxInv(q) && EditorInv(q, doc) && OrderInv(q);
    assert Base(q) == doc;
  }

  lemma SendKeepsOrder(p: Peer, m: Message, doc: Doc)
    requires OrderInv(p) && p.room && !m.Joined? && Answer(p) <= doc
    requires m.Ack? ==> doc <= m.state
    ensures OrderInv(Send(p, m)) && Base(Send(p, m)) == Base(p) && AwaitsAnswer(Send(p, m)) == AwaitsAnswer(p)
  {
    var q := Send(p, m);
    assert forall k :: 0 <= k < |p.inbox| ==> q.inbox[k] == p.inbox[k];
    assert Answer(q) == Answer(p);
  }

  lemma SendKeepsMessages(p: Peer, m: Message, doc: Doc, doc': Doc)
    requires doc <= doc' && (forall m' :: m' in p.inbox ==> MessageInv(p, m', doc))
    requires MessageInv(Send(p, m), m, doc')
    ensures forall m' :: m' in Send(p, m).inbox ==> MessageInv(Send(p, m), m', doc')
  {
    var q := Send(p, m);
    forall m' | m' in q.inbox ensures MessageInv(q, m', doc') {
      assert m' == m || MessageInv(p, m', doc);
    }
  }

  /** A message carrying what was added to the server document keeps the peer in step with it. */
  lemma SendKeepsPeer(p: Peer, m: Message, doc: Doc, marks: Doc, doc': Doc, marks': Doc)
    requires PeerInv(p, doc, marks) && doc <= doc' && marks <= marks' && p.room && !m.Joined?
    requires m.Ack? ==> m.state == doc' && m.number < |p.wire| && p.wire[m.number].update <= doc'
    requires m.Broadcast? ==> m.update <= doc'
    requires m.Whole? ==> m.state <= doc'
    requires doc' <= doc + (if m.Broadcast? then m.update else p.replica) + marks'
    ensures PeerInv(Send(p, m), doc', marks')
  {
    var q := Send(p, m);
    assert Answer(p) <= doc by {
      assert p.inbox != [] ==> MessageInv(p, p.inbox[0], doc);
    }
    SendKeepsOrder(p, m, doc);
    SendKeepsMessages(p, m, doc, doc');
    SendAddsBroadcast(p, m);
  }

  lemma SendAddsBroadcast(p: Peer, m: Message)
    ensures Broadcasts(Send(p, m).inbox) == Broadcasts(p.inbox) + (if m.Broadcast? then m.update else {})
  {
    assert forall m' :: m' in Send(p, m).inbox <==> m' in p.inbox || m' == m;
  }

  /** The document may grow by what the peer may lack, and unnoticed by a peer outside the room. */
  lemma GrowthKeepsPeer(p: Peer, doc: Doc, marks: Doc, doc': Doc, marks': Doc)
    requires PeerInv(p, doc, marks) && doc <= doc' && marks <= marks'
    requires p.room ==> doc' <= doc + marks'
    ensures PeerInv(p, doc', marks')
  {
    forall m | m in p.inbox ensures MessageInv(p, m, doc') {
      assert MessageInv(p, m, doc);
    }
  }

  /** The peer without its first message, whose content is accounted for by its React state and history. */
  lemma PopKeepsPeer(p: Peer, q: Peer, doc: Doc, marks: Doc)
    requires PeerInv(p, doc, marks) && p.inbox != []
    requires q == p.(inbox := p.inbox[1..], yjsState := q.yjsState, remote := q.remote, sequence := q.sequence,
                     answer := q.answer, missed := q.missed)
    requires EditorInv(q, doc) && q.answer <= q.replica + q.yjsState + q.missed
    requires p.inbox[0].Broadcast? ==> p.inbox[0].update <= RemoteOps(q)
    requires if p.inbox[0].Joined? then q.answer == p.inbox[0].state
             else q.answer == p.answer && RemoteOps(p) <= RemoteOps(q)
    ensures PeerInv(q, doc, marks)
  {
    var m := p.inbox[0];
    assert p.inbox == [m] + q.inbox;
    assert forall k :: 0 <= k < |q.inbox| ==> q.inbox[k] == p.inbox[k + 1];
    forall m' | m' in q.inbox ensures MessageInv(q, m', doc) {
      assert MessageInv(p, m', doc);
    }
    assert !AwaitsAnswer(q) && Answer(q) == Answer(p);
    assert Broadcasts(p.inbox) == Broadcasts(q.inbox) + (if m.Broadcast? then m.update else {});
  }

  lemma DeliverStateKeepsPeer(p: Peer, doc: Doc, marks: Doc)
    requires PeerInv(p, doc, marks) && p.inbox != [] && p.outbox.connected
    requires p.inbox[0].Joined? || p.inbox[0].Broadcast? || p.inbox[0].Whole?
    ensures PeerInv(Receive(p.(inbox := p.inbox[1..]), p.inbox[0]), doc, marks)
  {
    var m := p.inbox[0];
    var p0 := p.(inbox := p.inbox[1..]);
    assert MessageInv(p, m, doc) && p.room;
    if m.Joined? {
      var q := p0.(yjsState := m.state, remote := None, answer := m.state, missed := {});
      PopKeepsPeer(p, q, doc, marks);
      OutboxedKeepsPeer(q, O.JoinAck, doc, marks);
    } else {
      PopKeepsPeer(p, Receive(p0, m), doc, marks);
    }
  }

  lemma DeliverAckKeepsPeer(p: Peer, doc: Doc, marks: Doc)
    requires PeerInv(p, doc, marks) && p.inbox != [] && p.outbox.connected && p.inbox[0].Ack?
    ensures PeerInv(Receive(p.(inbox := p.inbox[1..]), p.inbox[0]), doc, marks)
  {
    var m := p.inbox[0];
    var p0 := p.(inbox := p.inbox[1..]);
    assert MessageInv(p, m, doc) && p.room && Answer(p) == p.answer;
    if Awaits(p0, m.number) {
      assert p.outbox.requests[0] in p.outbox.requests;
      PopKeepsPeer(p, p0.(yjsState := m.state), doc, marks);
      OutboxedKeepsPeer(p0.(yjsState := m.state), O.Settle(0, O.Accepted), doc, marks);
    } else {
      PopKeepsPeer(p, p0, doc, marks);
    }
  }

  lemma DeliverKeepsPeer(p: Peer, doc: Doc, marks: Doc)
    requires PeerInv(p, doc, marks) && p.inbox != [] && p.outbox.connected
    ensures PeerInv(Receive(p.(inbox := p.inbox[1..]), p.inbox[0]), doc, marks)
  {
    var m := p.inbox[0];
    if m.Nack? {
      var p0 := p.(inbox := p.inbox[1..]);
      PopKeepsPeer(p, p0, doc, marks);
      if Awaits(p0, m.number) {
        OutboxedKeepsPeer(p0, O.Settle(0, if m.rateLimited then O.RateLimited else O.Refused), doc, marks);
      }
    } else if m.Ack? {
      DeliverAckKeepsPeer(p, doc, marks);
    } else {
      DeliverStateKeepsPeer(p, doc, marks);
    }
  }

  lemma PeerStepKeepsPeer(p: Peer, e: Event, doc: Doc, marks: Doc, setup: Setup)
    requires PeerInv(p, doc, marks) && EnabledFor(p, e) && Local(e)
    ensures PeerInv(PeerStep(p, e, doc, setup), doc, marks)
  {
    var clientId := setup.clientId(e.i);
    match e
    case Edit(_, update) => EditKeepsPeer(p, update, doc, marks);
    case SendDrafts(_) => SendDraftsKeepsPeer(p, doc, marks);
    case Timeout(_) => OutboxedKeepsPeer(p, O.Settle(0, O.TimedOut), doc, marks);
    case RetryTimer(_) => OutboxedKeepsPeer(p, O.TimerFire, doc, marks);
    case Connect(_) => ConnectKeepsPeer(p, doc, marks);
    case Disconnect(_) => DisconnectKeepsPeer(p, doc, marks);
    case Join(_) => JoinKeepsPeer(p, doc, marks);
    case Reject(_, number, rateLimited) =>
      if Current(p, number) {
        SendKeepsPeer(p, Nack(number, rateLimited), doc, marks, doc, marks);
      }
    case Deliver(_) => DeliverKeepsPeer(p, doc, marks);
    case Effects(_) => EffectsKeepPeer(p, clientId, doc, marks);
  }

  lemma NotifiedKeepsPeer(s: System, i: PeerId, number: nat, k: PeerId, setup: Setup)
    requires Inv(s) && i in s.peers && k in s.peers && number < |s.peers[i].wire|
    ensures PeerInv(Notified(s, i, number, k, setup), s.doc + s.peers[i].wire[number].update, s.checkpoints)
  {
    var p := s.peers[k];
    var update := s.peers[i].wire[number].update;
    var marks := s.checkpoints;
    assert OutboxInv(s.peers[i]);
    if k == i && Current(p, number) {
      SendKeepsPeer(p, Ack(number, s.doc + update), s.doc, marks, s.doc + update, marks);
    } else if p.room {
      SendKeepsPeer(p, Broadcast(update, setup.actor(i)), s.doc, marks, s.doc + update, marks);
    } else {
      GrowthKeepsPeer(p, s.doc, marks, s.doc + update, marks);
    }
  }

  lemma ProcessKeepsInv(s: System, e: Event, setup: Setup)
    requires Inv(s) && Enabled(s, e) && e.Process?
    ensures Inv(Step(s, e, setup)) && Step(s, e, setup).peers.Keys == s.peers.Keys
  {
    var t := Step(s, e, setup);
    forall k | k in t.peers ensures PeerInv(t.peers[k], t.doc, t.checkpoints) {
      NotifiedKeepsPeer(s, e.i, e.number, k, setup);
    }
  }

  lemma SavesKeepPeer(p: Peer, saves: seq<Saved>, doc: Doc, marks: Doc)
    requires PeerInv(p, doc, marks) && forall v :: v in saves ==> v.state <= doc
    ensures PeerInv(p.(saves := saves), doc, marks)
  {
    MessagesKept(p, p.(saves := saves), doc);
  }

  lemma SavesWithin(s: System, k: PeerId)
    requires Inv(s) && k in s.peers
    ensures forall v :: v in s.peers[k].saves ==> v.state <= s.doc
  {
    assert PeerInv(s.peers[k], s.doc, s.checkpoints);
  }

  lemma CheckpointKeepsPeer(s: System, t: System, k: PeerId)
    requires Inv(s) && k in s.peers && k in t.peers
    requires t.peers[k] == s.peers[k].(saves := t.peers[k].saves)
    requires forall v :: v in t.peers[k].saves ==> v in s.peers[k].saves || v.state == t.doc
    requires s.doc <= t.doc <= s.doc + t.checkpoints && s.checkpoints <= t.checkpoints <= t.doc
    ensures PeerInv(t.peers[k], t.doc, t.checkpoints)
  {
    SavesWithin(s, k);
    GrowthKeepsPeer(s.peers[k], s.doc, s.checkpoints, t.doc, t.checkpoints);
    SavesKeepPeer(s.peers[k], t.peers[k].saves, t.doc, t.checkpoints);
  }

  lemma CheckpointSaves(s: System, i: PeerId, ops: Doc, k: PeerId)
    requires i in s.peers && k in s.peers
    ensures
      var p, saved := s.peers[i], Saved(s.doc + ops, s.peers[i].epoch);
      var q := s.peers[i := p.(saves := p.saves + [saved])][k];
      && q == s.peers[k].(saves := q.saves)
      && forall v :: v in q.saves ==> v in s.peers[k].saves || v == saved
  {
  }

  lemma CheckpointKeepsInv(s: System, e: Event, setup: Setup)
    requires Inv(s) && Enabled(s, e) && e.Checkpoint?
    ensures Inv(Step(s, e, setup)) && Step(s, e, setup).peers.Keys == s.peers.Keys
  {
    var t := Step(s, e, setup);
    forall k | k in t.peers ensures PeerInv(t.peers[k], t.doc, t.checkpoints) {
      CheckpointSaves(s, e.i, e.ops, k);
      CheckpointKeepsPeer(s, t, k);
    }
  }

  lemma AnnouncedKeepsPeer(s: System, i: PeerId, n: nat, k: PeerId)
    requires Inv(s) && i in s.peers && k in s.peers && n < |s.peers[i].saves|
    ensures PeerInv(Announced(s, i, n, k), s.doc, s.checkpoints)
  {
    var p, marks := s.peers[k], s.checkpoints;
    var saved := s.peers[i].saves[n];
    SavesWithin(s, i);
    assert saved in s.peers[i].saves;
    var q := if k == i then p.(saves := RemoveAt(p.saves, n)) else p;
    SavesKeepPeer(p, q.saves, s.doc, marks);
    if p.room {
      SendKeepsPeer(q, Whole(saved.state), s.doc, marks, s.doc, marks);
    }
  }

  lemma AnnounceKeepsInv(s: System, e: Event, setup: Setup)
    requires Inv(s) && Enabled(s, e) && e.Announce?
    ensures Inv(Step(s, e, setup)) && Step(s, e, setup).peers.Keys == s.peers.Keys
  {
    var t := Step(s, e, setup);
    forall k | k in t.peers ensures PeerInv(t.peers[k], t.doc, t.checkpoints) {
      AnnouncedKeepsPeer(s, e.i, e.index, k);
    }
  }

  lemma LocalStepKeepsInv(s: System, e: Event, setup: Setup)
    requires Inv(s) && Enabled(s, e) && Local(e)
    ensures Inv(Step(s, e, setup)) && Step(s, e, setup).peers.Keys == s.peers.Keys
  {
    var p := s.peers[e.i];
    assert PeerInv(p, s.doc, s.checkpoints);
    PeerStepKeepsPeer(p, e, s.doc, s.checkpoints, setup);
    PeerReplaced(s, e.i, PeerStep(p, e, s.doc, setup));
    LocalStepIs(s, e, setup);
  }

  lemma LocalStepIs(s: System, e: Event, setup: Setup)
    requires Enabled(s, e) && Local(e)
    ensures Step(s, e, setup) == s.(peers := s.peers[e.i := PeerStep(s.peers[e.i], e, s.doc, setup)])
  {
  }

  lemma PeerReplaced(s: System, i: PeerId, q: Peer)
    requires Inv(s) && i in s.peers && PeerInv(q, s.doc, s.checkpoints)
    ensures Inv(s.(peers := s.peers[i := q]))
  {
  }

  /** Whatever the names, and whoever saves snapshots. */
  lemma StepKeepsInv(s: System, e: Event, setup: Setup)
    requires Inv(s) && Enabled(s, e)
    ensures Inv(Step(s, e, setup)) && Step(s, e, setup).peers.Keys == s.peers.Keys
  {
    if e.Process? {
      ProcessKeepsInv(s, e, setup);
    } else if e.Checkpoint? {
      CheckpointKeepsInv(s, e, setup);
    } else if e.Announce? {
      AnnounceKeepsInv(s, e, setup);
    } else {
      LocalStepKeepsInv(s, e, setup);
    }
  }

  lemma {:induction false} RunKeepsInv(s: System, es: seq<Event>, setup: Setup)
    requires Inv(s) && Legal(s, es, setup)
    ensures Inv(Exec(s, es, setup)) && Exec(s, es, setup).peers.Keys == s.peers.Keys
    decreases |es|
  {
    if es == [] {
    } else {
      StepKeepsInv(s, es[0], setup);
      RunKeepsInv(Step(s, es[0], setup), es[1..], setup);
    }
  }

  lemma InitialInv(s: System)
    requires Initial(s)
    ensures Inv(s)
  {
  }

  // What an idle client shows.

  lemma IdlePeerLacks(p: Peer, doc: Doc, marks: Doc)
    requires PeerInv(p, doc, marks) && Idle(p)
    ensures p.replica + p.missed <= doc <= p.replica + p.missed + marks
  {
    assert Broadcasts(p.inbox) == {};
  }

  lemma LackAsSets(replica: Doc, missed: Doc, doc: Doc, marks: Doc)
    requires replica + missed <= doc <= replica + missed + marks
    ensures doc - marks - replica == missed - marks - replica
    ensures replica - marks == doc - marks <==> missed <= replica + marks
  {
    if missed <= replica + marks {
      assert replica - marks == doc - marks;
    } else {
      var x :| x in missed && x !in replica + marks;
      assert x in doc - marks && x !in replica - marks;
    }
  }

  /**
   * Exactly how far a client can be off, in every run of edits, timeouts, late and duplicate processing,
   * rejections, snapshots, disconnects and rejoins, with any names: what a joined client with nothing
   * left to send or receive lacks of the server document, checkpoints aside, is what it has let go of
   * since its last join answer and not been shown since. So it has converged if and only if it has been
   * shown all of that.
   */
  lemma IdleLacksWhatItMissed(s: System, es: seq<Event>, setup: Setup, i: PeerId)
    requires Initial(s) && Legal(s, es, setup) && i in s.peers
    ensures
      var t := Exec(s, es, setup);
      && i in t.peers
      && var p := t.peers[i];
      Idle(p) ==>
        && p.replica <= t.doc
        && t.doc - t.checkpoints - p.replica == p.missed - t.checkpoints - p.replica
        && (Converged(p, t) <==> p.missed <= p.replica + t.checkpoints)
  {
    InitialInv(s);
    RunKeepsInv(s, es, setup);
    IdleInInvLacks(Exec(s, es, setup), i);
  }

  lemma IdleInInvLacks(t: System, i: PeerId)
    requires Inv(t) && i in t.peers
    ensures
      var p := t.peers[i];
      Idle(p) ==>
        && p.replica <= t.doc
        && t.doc - t.checkpoints - p.replica == p.missed - t.checkpoints - p.replica
        && (Converged(p, t) <==> p.missed <= p.replica + t.checkpoints)
  {
    var p := t.peers[i];
    if Idle(p) {
      IdlePeerLacks(p, t.doc, t.checkpoints);
      LackAsSets(p.replica, p.missed, t.doc, t.checkpoints);
    }
  }

  /** What a message tells of the document. */
  function Told(m: Message): Doc {
    match m
    case Joined(state) => state
    case Broadcast(update, _) => update
    case Whole(state) => state
    case Ack(_, state) => state
    case Nack(_, _) => {}
  }

  /**
   * What is handled is shown: once the effects have run, the editor has all that a join answer, whole state
   * or awaited acknowledgement tells, and all that a broadcast of another's tells.
   */
  lemma HandledIsShown(p: Peer, doc: Doc, marks: Doc, clientId: string)
    requires PeerInv(p, doc, marks) && p.inbox != [] && p.outbox.connected
    ensures
      var m := p.inbox[0];
      var q := RunEffects(Receive(p.(inbox := p.inbox[1..]), m), clientId);
      && (m.Broadcast? ==> m.author != clientId)
      && (m.Ack? ==> Awaits(p, m.number))
      ==> p.replica <= q.replica && Told(m) <= q.replica
  {
    var m, p0 := p.inbox[0], p.(inbox := p.inbox[1..]);
    match m
    case Joined(state) => OutboxedKeepsRest(p0.(yjsState := state, remote := None, answer := state, missed := {}), O.JoinAck);
    case Ack(number, _) =>
      if Awaits(p0, number) {
        OutboxedKeepsRest(p0, O.Settle(0, O.Accepted));
      }
    case Nack(number, limited) =>
      if Awaits(p0, number) {
        OutboxedKeepsRest(p0, O.Settle(0, if limited then O.RateLimited else O.Refused));
      }
    case _ =>
  }

  /** A client's own steps are its outbox's: drafts are passed on as one edit, timeouts and timers as they come. */
  lemma StepsOfOutbox(p: Peer, e: Event, doc: Doc, setup: Setup)
    requires EnabledFor(p, e) && Local(e)
    ensures
      var c := PeerStep(p, e, doc, setup).outbox;
      match e
      case SendDrafts(_) => c == O.Step(p.outbox, O.Edit(p.drafts))
      case Timeout(_) => c == O.Step(p.outbox, O.Settle(0, O.TimedOut))
      case RetryTimer(_) => c == O.Step(p.outbox, O.TimerFire)
      case Connect(_) => c == O.Step(p.outbox, O.Connect)
      case Disconnect(_) => c == O.Step(p.outbox, O.Disconnect)
      case Deliver(_) => p.inbox[0].Broadcast? || p.inbox[0].Whole? ==> c == p.outbox
      case _ => c == p.outbox
  {
  }

  /** A request goes onto the wire with what it carries and the connection it was sent over, and stays there. */
  lemma SentIsOnTheWire(p: Peer, e: O.Event)
    requires OutboxInv(p) && O.Enabled(p.outbox, e) && !e.Remount?
    ensures
      var c := O.Step(p.outbox, e);
      Outboxed(p, e).wire == p.wire
        + if c.sends > p.outbox.sends && c.pending.Some? then [Sent(c.pending.value.update, p.epoch)] else []
  {
    OutboxStep(p.outbox, e);
  }

  /** A rejection reaches the socket that asked, and no other connection. */
  lemma RejectionIsTold(p: Peer, i: PeerId, number: nat, rateLimited: bool, doc: Doc, setup: Setup)
    requires number < |p.wire|
    ensures
      PeerStep(p, Reject(i, number, rateLimited), doc, setup) ==
      if p.room && p.wire[number].epoch == p.epoch then p.(inbox := p.inbox + [Nack(number, rateLimited)]) else p
  {
  }

  /** A whole state about to be handled replaces no join answer that the editor has yet to apply. */
  predicate Applied(p: Peer, e: Event)
    requires EnabledFor(p, e)
  {
    e.Deliver? && p.inbox[0].Whole? ==> p.answer <= p.replica + p.inbox[0].state
  }

  /** So it is for client `i` throughout the run. */
  predicate AlwaysApplied(s: System, es: seq<Event>, setup: Setup, i: PeerId)
    requires Legal(s, es, setup)
    decreases |es|
  {
    es == [] || ((es[0].i == i ==> Applied(s.peers[i], es[0])) && AlwaysApplied(Step(s, es[0], setup), es[1..], setup, i))
  }

  /** No update on its way to the client, or waiting for its editor, carries its own id. */
  predicate ForeignAuthors(p: Peer, clientId: string) {
    && (forall m :: m in p.inbox && m.Broadcast? ==> m.author != clientId)
    && (p.remote.Some? ==> p.remote.value.author != clientId)
  }

  ghost predicate AuthorsInv(s: System, setup: Setup) {
    forall i :: i in s.peers ==> ForeignAuthors(s.peers[i], setup.clientId(i))
  }

  lemma OutboxedKeepsRest(p: Peer, e: O.Event)
    requires O.Enabled(p.outbox, e)
    ensures var q := Outboxed(p, e); q == p.(outbox := q.outbox, wire := q.wire)
  {
  }

  lemma DeliverKeepsAuthors(p: Peer, clientId: string)
    requires ForeignAuthors(p, clientId) && p.inbox != [] && p.outbox.connected
    ensures
      var q := Receive(p.(inbox := p.inbox[1..]), p.inbox[0]);
      ForeignAuthors(q, clientId) && (p.missed == {} && Applied(p, Deliver(0)) ==> q.missed == {})
  {
    var m, p0 := p.inbox[0], p.(inbox := p.inbox[1..]);
    assert m in p.inbox && forall m' :: m' in p0.inbox ==> m' in p.inbox;
    match m
    case Joined(state) => OutboxedKeepsRest(p0.(yjsState := state, remote := None, answer := state, missed := {}), O.JoinAck);
    case Ack(number, _) =>
      if Awaits(p0, number) {
        OutboxedKeepsRest(p0, O.Settle(0, O.Accepted));
      }
    case Nack(number, limited) =>
      if Awaits(p0, number) {
        OutboxedKeepsRest(p0, O.Settle(0, if limited then O.RateLimited else O.Refused));
      }
    case _ =>
  }

  lemma LocalStepKeepsAuthors(p: Peer, e: Event, doc: Doc, setup: Setup)
    requires ForeignAuthors(p, setup.clientId(e.i)) && EnabledFor(p, e) && Local(e)
    ensures ForeignAuthors(PeerStep(p, e, doc, setup), setup.clientId(e.i))
    ensures p.missed == {} && Applied(p, e) ==> PeerStep(p, e, doc, setup).missed == {}
  {
    match e
    case SendDrafts(_) => OutboxedKeepsRest(p.(drafts := {}), O.Edit(p.drafts));
    case Timeout(_) => OutboxedKeepsRest(p, O.Settle(0, O.TimedOut));
    case RetryTimer(_) => OutboxedKeepsRest(p, O.TimerFire);
    case Connect(_) => OutboxedKeepsRest(p.(epoch := p.epoch + 1), O.Connect);
    case Disconnect(_) => OutboxedKeepsRest(p.(room := false, inbox := []), O.Disconnect);
    case Deliver(_) => DeliverKeepsAuthors(p, setup.clientId(e.i));
    case _ =>
  }

  predicate SharedStepKeepsAuthors(p: Peer, q: Peer, clientId: string) {
    ForeignAuthors(q, clientId) && q.missed == p.missed
  }

  lemma PeerInSharedStep(s: System, e: Event, setup: Setup, k: PeerId)
    requires AuthorsInv(s, setup) && NamesApart(setup, s.peers.Keys) && Enabled(s, e) && !Local(e) && k in s.peers
    ensures Step(s, e, setup).peers.Keys == s.peers.Keys
    ensures SharedStepKeepsAuthors(s.peers[k], Step(s, e, setup).peers[k], setup.clientId(k))
  {
    assert ForeignAuthors(s.peers[k], setup.clientId(k));
    match e
    case Process(i, number) => assert Step(s, e, setup).peers[k] == Notified(s, i, number, k, setup);
    case Announce(i, n) => assert Step(s, e, setup).peers[k] == Announced(s, i, n, k);
    case Checkpoint(_, _) =>
  }

  lemma StepKeepsAuthors(s: System, e: Event, setup: Setup, i: PeerId)
    requires AuthorsInv(s, setup) && NamesApart(setup, s.peers.Keys) && Enabled(s, e) && i in s.peers
    ensures AuthorsInv(Step(s, e, setup), setup) && Step(s, e, setup).peers.Keys == s.peers.Keys
    ensures s.peers[i].missed == {} && (e.i == i ==> Applied(s.peers[i], e)) ==> Step(s, e, setup).peers[i].missed == {}
  {
    var t := Step(s, e, setup);
    if Local(e) {
      LocalStepKeepsAuthors(s.peers[e.i], e, s.doc, setup);
      LocalStepIs(s, e, setup);
    } else {
      forall k | k in t.peers ensures SharedStepKeepsAuthors(s.peers[k], t.peers[k], setup.clientId(k)) {
        PeerInSharedStep(s, e, setup, k);
      }
    }
  }

  lemma {:induction false} RunMissesNothing(s: System, es: seq<Event>, setup: Setup, i: PeerId)
    requires AuthorsInv(s, setup) && NamesApart(setup, s.peers.Keys) && Legal(s, es, setup) && i in s.peers
    requires s.peers[i].missed == {} && AlwaysApplied(s, es, setup, i)
    ensures i in Exec(s, es, setup).peers && Exec(s, es, setup).peers[i].missed == {}
    decreases |es|
  {
    if es == [] {
    } else {
      StepKeepsAuthors(s, es[0], setup, i);
      RunMissesNothing(Step(s, es[0], setup), es[1..], setup, i);
    }
  }

  lemma {:induction false} RunKeepsAuthors(s: System, es: seq<Event>, setup: Setup)
    requires AuthorsInv(s, setup) && NamesApart(setup, s.peers.Keys) && Legal(s, es, setup)
    ensures AuthorsInv(Exec(s, es, setup), setup) && Exec(s, es, setup).peers.Keys == s.peers.Keys
    decreases |es|
  {
    if es == [] {
    } else {
      StepKeepsAuthors(s, es[0], setup, es[0].i);
      RunKeepsAuthors(Step(s, es[0], setup), es[1..], setup);
    }
  }

  /** A join answer makes good all that was missed before it. */
  lemma JoinAnswerMakesGood(s: System, i: PeerId, setup: Setup)
    requires Enabled(s, Deliver(i)) && s.peers[i].inbox[0].Joined?
    ensures var p := Step(s, Deliver(i), setup).peers[i]; p.missed == {} && p.answer == s.peers[i].inbox[0].state
  {
  }

  /**
   * Convergence. No update being stamped with a client's own id: in every run, from any point at which
   * the client has missed nothing, such as the start or a join answer, as long as no whole state replaces
   * a join answer its editor has yet to apply, it shows exactly the server document, checkpoints aside,
   * whenever it is joined and has nothing left to send or receive, however React batched the updates.
   */
  lemma IdleMeansConverged(s: System, es: seq<Event>, fs: seq<Event>, setup: Setup, i: PeerId)
    requires Initial(s) && NamesApart(setup, s.peers.Keys) && i in s.peers
    requires Legal(s, es, setup) && Legal(Exec(s, es, setup), fs, setup)
    requires
      var u := Exec(s, es, setup);
      i in u.peers && u.peers[i].missed == {} && AlwaysApplied(u, fs, setup, i)
    ensures
      var t := Exec(Exec(s, es, setup), fs, setup);
      i in t.peers && (Idle(t.peers[i]) ==> Converged(t.peers[i], t))
  {
    InitialInv(s);
    RunKeepsInv(s, es, setup);
    RunKeepsAuthors(s, es, setup);
    var u := Exec(s, es, setup);
    RunKeepsInv(u, fs, setup);
    RunMissesNothing(u, fs, setup, i);
    IdleInInvLacks(Exec(u, fs, setup), i);
  }

  // Without announced snapshots there are no whole states.

  ghost predicate NoWhole(s: System) {
    forall i, m :: i in s.peers && m in s.peers[i].inbox ==> !m.Whole?
  }

  lemma LocalStepSendsNoWhole(p: Peer, e: Event, doc: Doc, setup: Setup)
    requires EnabledFor(p, e) && Local(e) && forall m :: m in p.inbox ==> !m.Whole?
    ensures forall m :: m in PeerStep(p, e, doc, setup).inbox ==> !m.Whole?
  {
    var q := PeerStep(p, e, doc, setup);
    assert forall m :: m in q.inbox ==> m in p.inbox || m.Joined? || m.Nack?;
  }

  lemma StepSendsNoWhole(s: System, e: Event, setup: Setup)
    requires NoWhole(s) && Enabled(s, e) && !e.Announce?
    ensures NoWhole(Step(s, e, setup)) && Step(s, e, setup).peers.Keys == s.peers.Keys
  {
    var t := Step(s, e, setup);
    if Local(e) {
      LocalStepSendsNoWhole(s.peers[e.i], e, s.doc, setup);
      LocalStepIs(s, e, setup);
    } else if e.Process? {
      forall k, m | k in t.peers && m in t.peers[k].inbox ensures !m.Whole? {
        assert t.peers[k] == Notified(s, e.i, e.number, k, setup);
        assert m in s.peers[k].inbox || m.Ack? || m.Broadcast?;
      }
    }
  }

  lemma {:induction false} RunSendsNoWhole(s: System, es: seq<Event>, setup: Setup, i: PeerId)
    requires NoWhole(s) && Legal(s, es, setup) && setup.writers !! s.peers.Keys
    ensures AlwaysApplied(s, es, setup, i) && NoWhole(Exec(s, es, setup))
    decreases |es|
  {
    if es == [] {
    } else {
      if es[0].i == i && es[0].Deliver? {
        assert s.peers[i].inbox[0] in s.peers[i].inbox;
      }
      StepSendsNoWhole(s, es[0], setup);
      RunSendsNoWhole(Step(s, es[0], setup), es[1..], setup, i);
    }
  }
}
