/**
 * The client's outbox: one merged unacknowledged update, at most one request in flight,
 * retry timers and a flush flag. Each event is one synchronous segment of the hook.
 */
module Outbox {
  import opened Crdt
  import opened Prelude

  const MAX_RETRY_ATTEMPTS := 8

  type SessionId = string

  datatype Pending = Pending(session: SessionId, update: Doc, version: nat)

  /** A sent request, with the pending value its closure captured. */
  datatype Request = Request(number: nat, sent: Pending)

  datatype Client = Client(
    session: SessionId,        // input.sessionId of the mounted effect
    pending: Option<Pending>,  // pendingYjsRef.current
    inFlight: bool,            // yjsInFlight
    requests: seq<Request>,    // requests of this effect without an outcome yet
    flushRequested: bool,
    joined: bool,
    connected: bool,
    retryAttempts: nat,
    timers: nat,               // armed retry callbacks
    handle: bool,              // retryTimer !== undefined
    sends: nat,                // requests sent so far
    local: Doc,                // history: everything passed to sendYjsUpdate
    acked: Doc,                // history: everything the server has acknowledged
    dropped: Doc               // history: updates replaced by an edit in another session
  )

  function Mounted(session: SessionId): Client {
    Client(session, None, false, [], false, false, false, 0, 0, false, 0, {}, {}, {})
  }

  datatype Outcome = Accepted | RateLimited | Refused | TimedOut

  datatype Event =
    | Edit(update: Doc)
    | Settle(index: nat, outcome: Outcome)
    | TimerFire
    | Connect
    | JoinAck
    | Disconnect
    | Remount(session: SessionId)

  predicate CanSend(c: Client) {
    c.joined && c.connected && c.pending.Some? && c.pending.value.session == c.session
  }

  function FlushYjs(c: Client): Client {
    if !CanSend(c) then c
    else if c.inFlight then c.(flushRequested := true)
    else c.(flushRequested := false, inFlight := true, sends := c.sends + 1,
            requests := c.requests + [Request(c.sends, c.pending.value)])
  }

  function SendYjsUpdate(c: Client, update: Doc): Client {
    var same := c.pending.Some? && c.pending.value.session == c.session;
    var merged := if same then c.pending.value.update + update else update;
    var version := (if c.pending.Some? then c.pending.value.version else 0) + 1;
    var lost := if c.pending.Some? && !same then c.pending.value.update else {};
    FlushYjs(c.(pending := Some(Pending(c.session, merged, version)),
                local := c.local + update, dropped := c.dropped + lost))
  }

  function ArmTimer(c: Client): Client {
    c.(timers := c.timers + 1, handle := true)
  }

  /** The then/catch part of a request's outcome. */
  function Handle(c: Client, sent: Pending, outcome: Outcome): Client {
    match outcome
    case Accepted =>
      var clear := c.pending.Some? && c.pending.value.version == sent.version && c.pending.value.session == c.session;
      c.(retryAttempts := 0, acked := c.acked + sent.update, pending := if clear then None else c.pending)
    case RateLimited => ArmTimer(c)
    case Refused => c
    case TimedOut =>
      if c.retryAttempts >= MAX_RETRY_ATTEMPTS then c
      else
        var c1 := c.(retryAttempts := c.retryAttempts + 1);
        if c.flushRequested && c.joined && c.connected then c1 else ArmTimer(c1)
  }

  /** Its finally part. */
  function Finally(c: Client, sent: Pending): Client {
    var c1 := c.(inFlight := false);
    var newer := c.pending.None? || c.pending.value.version != sent.version;
    if !c.handle && (c.flushRequested || newer) then FlushYjs(c1) else c1
  }

  function SettleRequest(c: Client, i: nat, outcome: Outcome): Client
    requires i < |c.requests|
  {
    var sent := c.requests[i].sent;
    Finally(Handle(c.(requests := RemoveAt(c.requests, i)), sent, outcome), sent)
  }

  /** Clearing through the handle; a timer whose handle was overwritten stays armed. */
  function ClearRetryTimer(c: Client): Client {
    if c.handle && c.timers > 0 then c.(handle := false, timers := c.timers - 1) else c
  }

  predicate Enabled(c: Client, e: Event) {
    match e
    case Settle(i, _) => i < |c.requests|
    case TimerFire => c.timers > 0
    case JoinAck => c.connected
    case _ => true
  }

  function Step(c: Client, e: Event): Client
    requires Enabled(c, e)
  {
    match e
    case Edit(update) => SendYjsUpdate(c, update)
    case Settle(i, outcome) => SettleRequest(c, i, outcome)
    case TimerFire => FlushYjs(c.(timers := c.timers - 1, handle := false))
    case Connect => c.(connected := true)
    case JoinAck => FlushYjs(ClearRetryTimer(c.(joined := true, retryAttempts := 0)))
    case Disconnect => c.(connected := false, joined := false)
    // The old closure is cancelled: its requests and timers no longer have any effect.
    case Remount(session) =>
      Mounted(session).(pending := c.pending, sends := c.sends, local := c.local, acked := c.acked, dropped := c.dropped)
  }

  predicate Legal(c: Client, es: seq<Event>)
    decreases |es|
  {
    es == [] || (Enabled(c, es[0]) && Legal(Step(c, es[0]), es[1..]))
  }

  function Exec(c: Client, es: seq<Event>): Client
    requires Legal(c, es)
    decreases |es|
  {
    if es == [] then c else Exec(Step(c, es[0]), es[1..])
  }

  function Unacked(c: Client): Doc {
    if c.pending.Some? then c.pending.value.update else {}
  }

  /** A request in flight was captured from the pending value, which has only grown since. */
  predicate RequestInv(c: Client, r: Request) {
    && r.number < c.sends
    && c.pending.Some?
    && r.sent.session == c.session == c.pending.value.session
    && r.sent.version <= c.pending.value.version
    && r.sent.update <= c.pending.value.update
    && (r.sent.version == c.pending.value.version ==> r.sent == c.pending.value)
  }

  predicate Inv(c: Client) {
    && |c.requests| == (if c.inFlight then 1 else 0)
    && (forall r :: r in c.requests ==> RequestInv(c, r))
    && (c.handle ==> c.timers > 0)
    && c.retryAttempts <= MAX_RETRY_ATTEMPTS
    && c.local == c.acked + Unacked(c) + c.dropped
  }

  lemma FlushKeepsInv(c: Client)
    requires Inv(c)
    ensures Inv(FlushYjs(c))
  {
  }

  lemma EditKeepsInv(c: Client, update: Doc)
    requires Inv(c)
    ensures Inv(SendYjsUpdate(c, update))
  {
    var c1 := SendYjsUpdate(c.(joined := false), update).(joined := c.joined);
    assert Inv(c1);
    FlushKeepsInv(c1);
  }

  lemma SettleKeepsInv(c: Client, i: nat, outcome: Outcome)
    requires Inv(c) && i < |c.requests|
    ensures Inv(SettleRequest(c, i, outcome))
  {
    assert c.requests[i] in c.requests && c.inFlight && i == 0;
    var sent := c.requests[i].sent;
    var c1 := Handle(c.(requests := RemoveAt(c.requests, i)), sent, outcome);
    assert c1.requests == [];
    assert Inv(c1.(inFlight := false));
    FlushKeepsInv(c1.(inFlight := false));
  }

  lemma StepKeepsInv(c: Client, e: Event)
    requires Inv(c) && Enabled(c, e)
    ensures Inv(Step(c, e))
  {
    match e
    case Edit(update) => EditKeepsInv(c, update);
    case Settle(i, outcome) => SettleKeepsInv(c, i, outcome);
    case TimerFire => FlushKeepsInv(c.(timers := c.timers - 1, handle := false));
    case JoinAck => FlushKeepsInv(ClearRetryTimer(c.(joined := true, retryAttempts := 0)));
    case _ =>
  }

  lemma {:induction false} RunKeepsInv(c: Client, es: seq<Event>)
    requires Inv(c) && Legal(c, es)
    ensures Inv(Exec(c, es))
    decreases |es|
  {
    if es == [] {
    } else {
      StepKeepsInv(c, es[0]);
      RunKeepsInv(Step(c, es[0]), es[1..]);
    }
  }

  /**
   * Outbox safety: in every reachable state each local update is acknowledged, pending, or was
   * replaced by an edit made under another session; and at most one request is in flight.
   */
  lemma NoLocalUpdateIsLost(session: SessionId, es: seq<Event>)
    requires Legal(Mounted(session), es)
    ensures
      var c := Exec(Mounted(session), es);
      && c.local == c.acked + Unacked(c) + c.dropped
      && |c.requests| <= 1
  {
    RunKeepsInv(Mounted(session), es);
  }

  /** An acknowledgement that clears the outbox clears exactly what was sent, never a newer edit. */
  lemma ClearingLosesNothing(session: SessionId, es: seq<Event>)
    requires Legal(Mounted(session), es)
    requires Exec(Mounted(session), es).requests != []
    ensures
      var c := Exec(Mounted(session), es);
      var t := Step(c, Settle(0, Accepted));
      && (t.pending.None? ==> c.pending == Some(c.requests[0].sent))
      && (t.pending.Some? ==> t.pending == c.pending)
  {
    RunKeepsInv(Mounted(session), es);
    var c := Exec(Mounted(session), es);
    assert c.requests[0] in c.requests;
  }

  /**
   * An edit drops unacknowledged updates exactly when the outbox still holds another session's
   * update; switching sessions alone loses nothing.
   */
  lemma EditDropsIffOtherSession(c: Client, update: Doc)
    requires Inv(c)
    ensures
      var t := Step(c, Edit(update));
      Unacked(c) <= Unacked(t) <==>
        c.pending.None? || c.pending.value.session == c.session || c.pending.value.update <= update
  {
  }

  // Attempts.

  function CountTimeout(n: nat, e: Event): nat {
    if e.JoinAck? || e.Remount? || (e.Settle? && e.outcome.Accepted?) then 0
    else if e.Settle? && e.outcome.TimedOut? then n + 1
    else n
  }

  /** The timeouts since the last acknowledgement, join or remount, `n` before the run. */
  function TimeoutsSince(n: nat, es: seq<Event>): nat
    decreases |es|
  {
    if es == [] then n else TimeoutsSince(CountTimeout(n, es[0]), es[1..])
  }

  lemma FlushKeepsAttempts(c: Client)
    ensures FlushYjs(c).retryAttempts == c.retryAttempts
  {
  }

  lemma SettleCountsTimeouts(c: Client, e: Event, n: nat)
    requires Enabled(c, e) && e.Settle? && c.retryAttempts == Min(MAX_RETRY_ATTEMPTS, n)
    ensures Step(c, e).retryAttempts == Min(MAX_RETRY_ATTEMPTS, CountTimeout(n, e))
  {
    var sent := c.requests[e.index].sent;
    var c1 := Handle(c.(requests := RemoveAt(c.requests, e.index)), sent, e.outcome);
    assert c1.retryAttempts == Min(MAX_RETRY_ATTEMPTS, CountTimeout(n, e));
    FlushKeepsAttempts(c1.(inFlight := false));
  }

  lemma StepCountsTimeouts(c: Client, e: Event, n: nat)
    requires Enabled(c, e) && c.retryAttempts == Min(MAX_RETRY_ATTEMPTS, n)
    ensures Step(c, e).retryAttempts == Min(MAX_RETRY_ATTEMPTS, CountTimeout(n, e))
  {
    match e
    case Settle(_, _) => SettleCountsTimeouts(c, e, n);
    case TimerFire => FlushKeepsAttempts(c.(timers := c.timers - 1, handle := false));
    case JoinAck => FlushKeepsAttempts(ClearRetryTimer(c.(joined := true, retryAttempts := 0)));
    case _ =>
  }

  lemma {:induction false} RunCountsTimeouts(c: Client, es: seq<Event>, n: nat)
    requires Legal(c, es) && c.retryAttempts == Min(MAX_RETRY_ATTEMPTS, n)
    ensures Exec(c, es).retryAttempts == Min(MAX_RETRY_ATTEMPTS, TimeoutsSince(n, es))
    decreases |es|
  {
    if es == [] {
    } else {
      StepCountsTimeouts(c, es[0], n);
      RunCountsTimeouts(Step(c, es[0]), es[1..], CountTimeout(n, es[0]));
    }
  }

  /** In every run the attempts used are the timeouts since the last acknowledgement, join or remount, up to eight. */
  lemma AttemptsAreTimeouts(session: SessionId, es: seq<Event>)
    requires Legal(Mounted(session), es)
    ensures Exec(Mounted(session), es).retryAttempts == Min(8, TimeoutsSince(0, es))
  {
    RunCountsTimeouts(Mounted(session), es, 0);
  }

  /** A request goes out only from a joined, connected client with none in flight, and carries all that is pending. */
  lemma RequestCarriesPending(c: Client, e: Event)
    requires Inv(c) && Enabled(c, e) && Step(c, e).requests != [] && Step(c, e).requests != c.requests
    ensures
      var t := Step(c, e);
      && t.joined && t.connected && t.inFlight && !t.flushRequested
      && t.sends == c.sends + 1 && (c.requests == [] || e.Settle?)
      && t.pending.Some? && t.pending.value.session == t.session
      && t.requests == [Request(c.sends, t.pending.value)]
  {
    if e.Settle? {
      assert c.requests[e.index] in c.requests && RemoveAt(c.requests, e.index) == [];
    }
  }

  /**
   * What a request without acknowledgement leaves. Rate-limited: a timer, and nothing goes out before it
   * fires. Timed out: nothing more after eight; a replay at once if one was asked for meanwhile and no
   * timer is set; otherwise a timer. A timer that fires gives up its handle.
   */
  lemma Unacknowledged(c: Client)
    requires Inv(c) && c.requests != []
    ensures
      var t := Step(c, Settle(0, RateLimited));
      t.requests == [] && !t.inFlight && t.handle && t.timers == c.timers + 1 && t.pending == c.pending
    ensures
      var t := Step(c, Settle(0, TimedOut));
      && t.pending == c.pending
      && (c.retryAttempts < 8 && !(c.flushRequested && c.joined && c.connected) ==>
            t.requests == [] && !t.inFlight && t.handle && t.timers == c.timers + 1)
      && (c.retryAttempts < 8 && c.flushRequested && CanSend(c) && !c.handle ==>
            t.requests == [Request(c.sends, c.pending.value)] && t.timers == c.timers)
      && (c.retryAttempts >= 8 ==> t.timers == c.timers && t.handle == c.handle)
      && (c.handle ==> t.requests == [])
    ensures c.timers > 0 ==> var t := Step(c, TimerFire); t.timers == c.timers - 1 && !t.handle
  {
    var r := c.requests[0];
    assert r in c.requests && RequestInv(c, r) && RemoveAt(c.requests, 0) == [];
  }

  // Nothing waits unattended.

  /** A sendable update is on its way, or a timer will send it, or the attempts are used up. */
  predicate Attended(c: Client) {
    && (c.joined ==> c.connected)
    && (CanSend(c) ==> c.inFlight || c.timers > 0 || c.retryAttempts == MAX_RETRY_ATTEMPTS)
  }

  predicate IsRefusal(e: Event) {
    e.Settle? && e.outcome.Refused?
  }

  lemma StepKeepsAttended(c: Client, e: Event)
    requires Inv(c) && Attended(c) && Enabled(c, e) && !IsRefusal(e)
    ensures Attended(Step(c, e))
  {
    if e.Settle? {
      var r := c.requests[e.index];
      assert r in c.requests && RequestInv(c, r);
      match e.outcome
      case Accepted => assert Attended(Step(c, e));
      case RateLimited => assert Attended(Step(c, e));
      case TimedOut => assert Attended(Step(c, e));
    }
  }

  lemma {:induction false} RunKeepsAttended(c: Client, es: seq<Event>)
    requires Inv(c) && Attended(c) && Legal(c, es) && forall e :: e in es ==> !IsRefusal(e)
    ensures Attended(Exec(c, es))
    decreases |es|
  {
    if es == [] {
    } else {
      StepKeepsInv(c, es[0]);
      StepKeepsAttended(c, es[0]);
      RunKeepsAttended(Step(c, es[0]), es[1..]);
    }
  }

  /**
   * No update of a joined client waits unattended: as long as the server refuses none, it is in flight
   * or a timer is armed for it, unless there have been eight timeouts since the last acknowledgement, join
   * or remount.
   */
  lemma NothingWaitsUnattended(session: SessionId, es: seq<Event>)
    requires Legal(Mounted(session), es) && forall e :: e in es ==> !IsRefusal(e)
    ensures
      var c := Exec(Mounted(session), es);
      CanSend(c) ==> c.inFlight || c.timers > 0 || TimeoutsSince(0, es) >= 8
  {
    AttemptsAreTimeouts(session, es);
    RunKeepsAttended(Mounted(session), es);
  }

  /** The condition is needed: a refused update stays pending with nothing to send it until the next edit or join. */
  lemma RefusalLeavesWaiting(c: Client)
    requires Inv(c) && CanSend(c) && c.requests != [] && c.requests[0].sent == c.pending.value
    requires !c.flushRequested && c.timers == 0
    ensures
      var t := Step(c, Settle(0, Refused));
      t.pending == c.pending && CanSend(t) && !t.inFlight && t.timers == 0 && t.retryAttempts == c.retryAttempts
  {
  }

  /** A join answer: joined, the attempts free again, the timer behind the handle gone, and what is pending on its way. */
  lemma JoinStartsAfresh(c: Client)
    requires Inv(c) && c.connected
    ensures
      var t := Step(c, JoinAck);
      && t.joined && t.retryAttempts == 0 && !t.handle && t.pending == c.pending
      && t.timers == (if c.handle then c.timers - 1 else c.timers)
      && (CanSend(t) && !c.inFlight ==> t.inFlight && t.requests == [Request(c.sends, c.pending.value)])
  {
  }

  // Bounded retries.

  predicate Quiet(e: Event) {
    e.TimerFire? || (e.Settle? && e.outcome.TimedOut?)
  }

  /** Neither an edit, nor a rejoin, nor an answer of the server. */
  predicate Unanswered(e: Event) {
    Quiet(e) || e.Connect? || e.Disconnect?
  }

  /** The timeouts and timers of a run. */
  function Attempts(es: seq<Event>): nat {
    if es == [] then 0 else (if Quiet(es[0]) then 1 else 0) + Attempts(es[1..])
  }

  function Gap(c: Client): nat {
    if c.requests != [] && c.pending.Some? && c.pending.value.version != c.requests[0].sent.version then 1 else 0
  }

  /** Bounds the retries still possible without a new edit, a rejoin or an answer of the server. */
  function RetryBudget(c: Client): nat
    requires c.retryAttempts <= MAX_RETRY_ATTEMPTS
  {
    2 * (MAX_RETRY_ATTEMPTS - c.retryAttempts) + 2 * c.timers
      + (if c.flushRequested then 1 else 0) + Gap(c) + |c.requests|
  }

  lemma QuietStepUsesBudget(c: Client, e: Event)
    requires Inv(c) && Enabled(c, e) && Quiet(e)
    ensures Inv(Step(c, e))
    ensures RetryBudget(Step(c, e)) < RetryBudget(c)
    ensures Step(c, e).sends <= c.sends + 1
  {
    StepKeepsInv(c, e);
  }

  /**
   * Without a new edit, rejoin or answer only finitely many timeouts, timers and resends follow, whatever
   * order they come in and however often the connection is lost and restored: together with what is
   * left of the budget at the end, never more than the budget.
   */
  lemma {:induction false} RetriesAreBounded(c: Client, es: seq<Event>)
    requires Inv(c) && Legal(c, es) && forall e :: e in es ==> Unanswered(e)
    ensures
      var t := Exec(c, es);
      && Inv(t)
      && Attempts(es) + RetryBudget(t) <= RetryBudget(c)
      && t.sends + RetryBudget(t) <= c.sends + RetryBudget(c)
    decreases |es|
  {
    if es == [] {
    } else {
      assert Unanswered(es[0]);
      StepKeepsInv(c, es[0]);
      if Quiet(es[0]) {
        QuietStepUsesBudget(c, es[0]);
      } else {
        assert RetryBudget(Step(c, es[0])) == RetryBudget(c) && Step(c, es[0]).sends == c.sends;
      }
      RetriesAreBounded(Step(c, es[0]), es[1..]);
    }
  }

  /** So a run of timeouts and timers alone is no longer than the budget. */
  lemma QuietRunsAreShort(c: Client, es: seq<Event>)
    requires Inv(c) && Legal(c, es) && forall e :: e in es ==> Quiet(e)
    ensures |es| <= RetryBudget(c)
  {
    RetriesAreBounded(c, es);
    AttemptsOfQuiet(es);
  }

  lemma {:induction false} AttemptsOfQuiet(es: seq<Event>)
    requires forall e :: e in es ==> Quiet(e)
    ensures Attempts(es) == |es|
  {
    if es == [] {
    } else {
      AttemptsOfQuiet(es[1..]);
    }
  }
}
