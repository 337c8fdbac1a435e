/** Runs of the system put together step by step, and the states a client passes through in them. */
module ConvergenceRuns {
  import opened Crdt
  import opened Prelude
  import opened Convergence
  import O = Outbox

  ghost predicate Reaches(s: System, t: System, setup: Setup) {
    exists es :: Legal(s, es, setup) && Exec(s, es, setup) == t
  }

  lemma {:induction false} ExecConcat(s: System, es: seq<Event>, fs: seq<Event>, setup: Setup)
    requires Legal(s, es, setup) && Legal(Exec(s, es, setup), fs, setup)
    ensures Legal(s, es + fs, setup) && Exec(s, es + fs, setup) == Exec(Exec(s, es, setup), fs, setup)
    decreases |es|
  {
    if es == [] {
      assert es + fs == fs;
    } else {
      assert (es + fs)[1..] == es[1..] + fs;
      ExecConcat(Step(s, es[0], setup), es[1..], fs, setup);
    }
  }

  lemma ReachesNow(s: System, setup: Setup)
    ensures Reaches(s, s, setup)
  {
    assert Legal(s, [], setup);
  }

  lemma Then(s: System, t: System, e: Event, setup: Setup)
    requires Reaches(s, t, setup) && Enabled(t, e) && Permitted(e, setup)
    ensures Reaches(s, Step(t, e, setup), setup)
  {
    var es :| Legal(s, es, setup) && Exec(s, es, setup) == t;
    assert [e][1..] == [];
    assert Legal(t, [e], setup);
    ExecConcat(s, es, [e], setup);
  }

  /** A step of one peer alone, from the explicit peer it starts from to the one it ends in. */
  lemma ThenPeer(s: System, t: System, i: PeerId, p: Peer, e: Event, q: Peer, setup: Setup)
    requires i in t.peers && e.i == i && Local(e)
    requires EnabledFor(p, e) && PeerStep(p, e, t.doc, setup) == q
    requires Reaches(s, At(t, i, p), setup)
    ensures Reaches(s, At(t, i, q), setup)
  {
    Then(s, At(t, i, p), e, setup);
    assert t.peers[i := p][i := q] == t.peers[i := q];
  }

  /** `t` with peer `i` replaced. */
  function At(t: System, i: PeerId, p: Peer): System {
    t.(peers := t.peers[i := p])
  }

  lemma AtTwice(t: System, i: PeerId, p: Peer, q: Peer)
    ensures At(At(t, i, p), i, q) == At(t, i, q)
  {
    assert t.peers[i := p][i := q] == t.peers[i := q];
  }

  function FreshSystem(ids: set<PeerId>): System {
    System({}, {}, map k | k in ids :: NewPeer(""))
  }

  const ONLINE: O.Client := O.Mounted("").(connected := true, joined := true)

  /** A peer that has just joined a session whose document is `doc`. */
  function Entered(doc: Doc): Peer {
    NewPeer("").(outbox := ONLINE, room := true, epoch := 1, yjsState := doc, answer := doc)
  }

  /** Peer `i` connects and joins; the answer is in its inbox. */
  lemma ConnectAndJoin(s: System, t: System, i: PeerId, p: Peer, setup: Setup)
    requires i in t.peers && Reaches(s, At(t, i, p), setup)
    requires !p.outbox.connected && !p.room && p.inbox == []
    ensures
      var q := p.(epoch := p.epoch + 1, outbox := p.outbox.(connected := true), room := true, inbox := [Joined(t.doc)]);
      Reaches(s, At(t, i, q), setup)
  {
    var p1 := p.(epoch := p.epoch + 1, outbox := p.outbox.(connected := true));
    ThenPeer(s, t, i, p, Connect(i), p1, setup);
    var p2 := p1.(room := true, inbox := [Joined(t.doc)]);
    assert p1.inbox + [Joined(t.doc)] == [Joined(t.doc)];
    ThenPeer(s, t, i, p1, Join(i), p2, setup);
  }

  lemma Enter(s: System, t: System, i: PeerId, setup: Setup)
    requires i in t.peers && t.peers[i] == NewPeer("") && Reaches(s, t, setup)
    ensures Reaches(s, At(t, i, Entered(t.doc)), setup)
  {
    var p := NewPeer("");
    assert At(t, i, p) == t;
    ConnectAndJoin(s, t, i, p, setup);
    var q := p.(epoch := 1, outbox := p.outbox.(connected := true), room := true, inbox := [Joined(t.doc)]);
    ThenPeer(s, t, i, q, Deliver(i), Entered(t.doc), setup);
  }

  /** A joined peer after its first edit, with the request for it in flight. */
  function Edited(doc: Doc, update: Doc): Peer {
    var pending := O.Pending("", update, 1);
    Entered(doc).(
      replica := update,
      outbox := ONLINE.(pending := Some(pending), inFlight := true, sends := 1,
                        requests := [O.Request(0, pending)], local := update),
      wire := [Sent(update, 1)])
  }

  lemma FirstEdit(s: System, t: System, i: PeerId, update: Doc, setup: Setup)
    requires i in t.peers && t.peers[i] == Entered(t.doc) && Reaches(s, t, setup)
    ensures Reaches(s, At(t, i, Edited(t.doc, update)), setup)
  {
    var p0 := Entered(t.doc);
    assert At(t, i, p0) == t;
    assert {} + update == update;
    var p1 := p0.(replica := update, drafts := update);
    ThenPeer(s, t, i, p0, Edit(i, update), p1, setup);
    var p2 := Edited(t.doc, update);
    assert [] + [O.Request(0, O.Pending("", update, 1))] == [O.Request(0, O.Pending("", update, 1))];
    assert [] + [Sent(update, 1)] == [Sent(update, 1)];
    ThenPeer(s, t, i, p1, SendDrafts(i), p2, setup);
  }

  /** A broadcast reaches peer `j`, who is otherwise idle, and React runs: it is skipped if it carries j's id. */
  lemma SkippedBroadcast(s: System, t: System, j: PeerId, p: Peer, update: Doc, author: string, setup: Setup)
    requires j in t.peers && Reaches(s, At(t, j, p), setup)
    requires p == Entered({}).(inbox := [Broadcast(update, author)]) && author == setup.clientId(j)
    ensures Reaches(s, At(t, j, Entered({}).(remote := Some(Remote(update, author, 1)), sequence := 1, applied := 1, missed := update)), setup)
  {
    var p1 := Entered({}).(remote := Some(Remote(update, author, 1)), sequence := 1);
    ThenPeer(s, t, j, p, Deliver(j), p1, setup);
    assert update - {} == update && {} + update == update;
    ThenPeer(s, t, j, p1, Effects(j), p1.(applied := 1, missed := update), setup);
  }

  /** The first request is lost with its connection; the peer reconnects and resends. */
  function Resent(update: Doc): Peer {
    var pending := O.Pending("", update, 1);
    Edited({}, update).(
      epoch := 2,
      outbox := ONLINE.(pending := Some(pending), inFlight := true, sends := 2,
                        requests := [O.Request(1, pending)], local := update),
      wire := [Sent(update, 1), Sent(update, 2)])
  }

  /** The peer after its first request has timed out without a connection. */
  function Lost(update: Doc): Peer {
    var e := Edited({}, update);
    e.(room := false,
       outbox := e.outbox.(connected := false, joined := false, inFlight := false, requests := [],
                           retryAttempts := 1, timers := 1, handle := true))
  }

  lemma LoseRequest(s: System, t: System, i: PeerId, update: Doc, setup: Setup)
    requires i in t.peers && t.peers[i] == Edited({}, update) && Reaches(s, t, setup)
    ensures Reaches(s, At(t, i, Lost(update)), setup)
  {
    var p0 := Edited({}, update);
    assert At(t, i, p0) == t;
    var p1 := p0.(room := false, outbox := p0.outbox.(connected := false, joined := false));
    ThenPeer(s, t, i, p0, Disconnect(i), p1, setup);
    ThenPeer(s, t, i, p1, Timeout(i), Lost(update), setup);
  }

  lemma Resend(s: System, t: System, i: PeerId, update: Doc, setup: Setup)
    requires i in t.peers && t.doc == {} && Reaches(s, At(t, i, Lost(update)), setup)
    ensures Reaches(s, At(t, i, Resent(update)), setup)
  {
    var p := Lost(update);
    ConnectAndJoin(s, t, i, p, setup);
    var q := p.(epoch := 2, outbox := p.outbox.(connected := true), room := true, inbox := [Joined({})]);
    assert [Sent(update, 1)] + [Sent(update, 2)] == [Sent(update, 1), Sent(update, 2)];
    assert [] + [O.Request(1, O.Pending("", update, 1))] == [O.Request(1, O.Pending("", update, 1))];
    ThenPeer(s, t, i, q, Deliver(i), Resent(update), setup);
  }

  /** The peer of `Resent` once the second request is acknowledged; the first one is still on its way. */
  function Acknowledged(update: Doc): Peer {
    Resent(update).(
      outbox := ONLINE.(sends := 2, local := update, acked := update),
      yjsState := update)
  }

  lemma AckResent(s: System, t: System, i: PeerId, p: Peer, update: Doc, setup: Setup)
    requires i in t.peers && Reaches(s, At(t, i, p), setup)
    requires p == Resent(update).(inbox := [Ack(1, update)])
    ensures Reaches(s, At(t, i, Acknowledged(update)), setup)
  {
    assert {} + update == update;
    ThenPeer(s, t, i, p, Deliver(i), Acknowledged(update), setup);
  }

  /** Two broadcasts batched by React, the last one an echo of the peer's own update: the other one is skipped with it. */
  lemma SkippedBatch(s: System, t: System, i: PeerId, p: Peer, own: Doc, other: Doc, author: string, setup: Setup)
    requires i in t.peers && Reaches(s, At(t, i, p), setup)
    requires p == Acknowledged(own).(inbox := [Broadcast(other, author), Broadcast(own, setup.clientId(i))])
    ensures Reaches(s, At(t, i, Acknowledged(own).(
      remote := Some(Remote(other + own, setup.clientId(i), 2)), sequence := 2, applied := 2, missed := other + own - own)), setup)
  {
    var p1 := p.(inbox := [Broadcast(own, setup.clientId(i))], remote := Some(Remote(other, author, 1)), sequence := 1);
    assert p.inbox[1..] == [Broadcast(own, setup.clientId(i))];
    ThenPeer(s, t, i, p, Deliver(i), p1, setup);
    var p2 := p1.(inbox := [], remote := Some(Remote(other + own, setup.clientId(i), 2)), sequence := 2);
    ThenPeer(s, t, i, p1, Deliver(i), p2, setup);
    ThenPeer(s, t, i, p2, Effects(i), p2.(applied := 2, missed := other + own - own), setup);
  }

  lemma ResentRun(ids: set<PeerId>, setup: Setup, i: PeerId)
    requires i in ids
    ensures Reaches(FreshSystem(ids), At(FreshSystem(ids), i, Resent({0})), setup)
  {
    var s := FreshSystem(ids);
    ReachesNow(s, setup);
    Enter(s, s, i, setup);
    var s1 := At(s, i, Entered({}));
    FirstEdit(s, s1, i, {0}, setup);
    var s2 := At(s1, i, Edited({}, {0}));
    LoseRequest(s, s2, i, {0}, setup);
    Resend(s, s2, i, {0}, setup);
    AtTwice(s1, i, Edited({}, {0}), Resent({0}));
    AtTwice(s, i, Entered({}), Resent({0}));
  }

  /** Peer `i` edits, loses the connection, resends and is acknowledged, while everyone else is still away. */
  lemma ReconnectRun(ids: set<PeerId>, setup: Setup, i: PeerId) returns (t: System)
    requires i in ids
    ensures Reaches(FreshSystem(ids), t, setup)
    ensures t.doc == {0} && t.checkpoints == {} && t.peers.Keys == ids && t.peers[i] == Acknowledged({0})
    ensures forall k :: k in ids && k != i ==> t.peers[k] == NewPeer("")
  {
    var s := FreshSystem(ids);
    ResentRun(ids, setup, i);
    var s3 := At(s, i, Resent({0}));
    Then(s, s3, Process(i, 1), setup);
    var s4 := Step(s3, Process(i, 1), setup);
    var p4 := Resent({0}).(inbox := [Ack(1, {0})]);
    assert s4.doc == {0} && s4.peers[i] == p4;
    assert At(s4, i, p4) == s4;
    AckResent(s, s4, i, p4, {0}, setup);
    t := At(s4, i, Acknowledged({0}));
  }

  /** ... then client `k` joins and edits, and the late duplicate of i's first request is processed after that edit. */
  lemma DuplicateRun(ids: set<PeerId>, setup: Setup, i: PeerId, k: PeerId) returns (t: System)
    requires i in ids && k in ids && i != k
    ensures Reaches(FreshSystem(ids), t, setup)
    ensures i in t.peers && 1 in t.doc && t.checkpoints == {}
    ensures t.peers[i] == Acknowledged({0}).(inbox := [Broadcast({1}, setup.actor(k))])
    ensures t.peers[i].wire[0].update == {0}
  {
    var s := FreshSystem(ids);
    var s5 := ReconnectRun(ids, setup, i);
    Enter(s, s5, k, setup);
    var s6 := At(s5, k, Entered({0}));
    FirstEdit(s, s6, k, {1}, setup);
    var s7 := At(s6, k, Edited({0}, {1}));
    Then(s, s7, Process(k, 0), setup);
    t := Step(s7, Process(k, 0), setup);
    assert t.peers[i] == Notified(s7, k, 0, i, setup);
  }

  /** `i` has joined, and waits for the database write of a snapshot it saved then. */
  function Saving(ops: Doc): Peer {
    Entered({}).(saves := [Saved(ops, 1)])
  }

  /** While the snapshot of `i` awaits its write, client `k` joins, and an edit of `k` is processed. */
  lemma EditDuringWrite(ids: set<PeerId>, setup: Setup, i: PeerId, k: PeerId) returns (t: System)
    requires i in ids && k in ids && i != k && i in setup.writers
    ensures Reaches(FreshSystem(ids), t, setup) && i in t.peers
    ensures t.doc == {0, 1} && t.checkpoints == {0}
    ensures t.peers[i] == Saving({0}).(inbox := [Broadcast({1}, setup.actor(k))])
  {
    var s := FreshSystem(ids);
    ReachesNow(s, setup);
    Enter(s, s, i, setup);
    var s1 := At(s, i, Entered({}));
    Then(s, s1, Checkpoint(i, {0}), setup);
    var s2 := Step(s1, Checkpoint(i, {0}), setup);
    assert [] + [Saved({0}, 1)] == [Saved({0}, 1)];
    assert s1.doc == {} && {} + {0} == {0};
    assert s2.peers[i] == Saving({0}) && s2.doc == {0} && s2.peers[k] == NewPeer("");
    Enter(s, s2, k, setup);
    var s3 := At(s2, k, Entered({0}));
    FirstEdit(s, s3, k, {1}, setup);
    var s4 := At(s3, k, Edited({0}, {1}));
    Then(s, s4, Process(k, 0), setup);
    t := Step(s4, Process(k, 0), setup);
    assert t.peers[i] == Notified(s4, k, 0, i, setup);
  }

  /** Client `i` loses its connection and joins again; the answer is still unhandled. */
  lemma Rejoin(s: System, t: System, i: PeerId, p: Peer, setup: Setup) returns (u: System)
    requires i in t.peers && t.peers[i] == p && Reaches(s, t, setup)
    requires p == Saving({0}).(inbox := p.inbox)
    ensures Reaches(s, u, setup) && i in u.peers && u == At(t, i, u.peers[i])
    ensures u.peers[i] == Saving({0}).(
      epoch := 2, outbox := ONLINE.(joined := false), inbox := [Joined(t.doc)])
  {
    assert At(t, i, p) == t;
    var p1 := p.(room := false, inbox := [], outbox := ONLINE.(connected := false, joined := false));
    ThenPeer(s, t, i, p, Disconnect(i), p1, setup);
    ConnectAndJoin(s, t, i, p1, setup);
    var p2 := p1.(epoch := 2, outbox := p1.outbox.(connected := true), room := true, inbox := [Joined(t.doc)]);
    u := At(t, i, p2);
  }

  /** The join answer and the older whole state are handled before React runs: the answer is replaced unseen. */
  lemma HandleBoth(s: System, t: System, i: PeerId, p: Peer, state: Doc, late: Doc, setup: Setup)
    requires i in t.peers && Reaches(s, At(t, i, p), setup)
    requires p == Entered({}).(epoch := 2, outbox := ONLINE.(joined := false), inbox := [Joined(state), Whole(late)])
    ensures Reaches(s, At(t, i, Entered(late).(epoch := 2, replica := late, answer := state, missed := state - late)), setup)
  {
    var p1 := Entered(state).(epoch := 2, inbox := [Whole(late)]);
    assert p.inbox[1..] == [Whole(late)];
    ThenPeer(s, t, i, p, Deliver(i), p1, setup);
    var p2 := Entered(late).(epoch := 2, answer := state, missed := state - late);
    assert {} + (state - {} - late) == state - late;
    ThenPeer(s, t, i, p1, Deliver(i), p2, setup);
    ThenPeer(s, t, i, p2, Effects(i), p2.(replica := late), setup);
  }
}
