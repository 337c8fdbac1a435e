/** The hook's closure variables, changed step by step; every handler is one step of Outbox. */
module CollabPresence {
  import opened Crdt
  import opened Prelude
  import O = Outbox

  class Presence {
    var sessionId: O.SessionId
    var pendingYjs: Option<O.Pending>
    var yjsInFlight: bool
    var flushRequested: bool
    var joined: bool
    var retryAttempts: nat
    var retryTimer: bool
    // The socket, and what the browser holds for the hook: unanswered requests and armed timers.
    var connected: bool
    var unanswered: seq<O.Request>
    var armedTimers: nat
    var sends: nat
    ghost var local: Doc
    ghost var acked: Doc
    ghost var dropped: Doc

    ghost function State(): O.Client
      reads this
    {
      O.Client(sessionId, pendingYjs, yjsInFlight, unanswered, flushRequested, joined, connected,
               retryAttempts, armedTimers, retryTimer, sends, local, acked, dropped)
    }

    constructor (session: O.SessionId)
      ensures State() == O.Mounted(session)
    {
      sessionId, pendingYjs, yjsInFlight, flushRequested, joined := session, None, false, false, false;
      retryAttempts, retryTimer, connected, unanswered, armedTimers, sends := 0, false, false, [], 0, 0;
      local, acked, dropped := {}, {}, {};
    }

    method FlushYjs()
      modifies this
      ensures State() == O.FlushYjs(old(State()))
    {
      if !joined || !connected || pendingYjs.None? || pendingYjs.value.session != sessionId { return; }
      if yjsInFlight {
        flushRequested := true;
        return;
      }
      flushRequested := false;
      yjsInFlight := true;
      unanswered := unanswered + [O.Request(sends, pendingYjs.value)];
      sends := sends + 1;
    }

    method SendYjsUpdate(update: Doc)
      modifies this
      ensures State() == O.Step(old(State()), O.Edit(update))
    {
      var pending := pendingYjs;
      var same := pending.Some? && pending.value.session == sessionId;
      if pending.Some? && !same {
        dropped := dropped + pending.value.update;
      }
      local := local + update;
      pendingYjs := Some(O.Pending(
        sessionId,
        if same then pending.value.update + update else update,
        (if pending.Some? then pending.value.version else 0) + 1));
      FlushYjs();
    }

    method ArmRetryTimer()
      modifies this
      ensures State() == O.ArmTimer(old(State()))
    {
      armedTimers := armedTimers + 1;
      retryTimer := true;
    }

    /** The then and catch blocks of a request. */
    method OnOutcome(sent: O.Pending, outcome: O.Outcome)
      modifies this
      ensures State() == O.Handle(old(State()), sent, outcome)
    {
      match outcome {
        case Accepted =>
          retryAttempts := 0;
          acked := acked + sent.update;
          if pendingYjs.Some? && pendingYjs.value.version == sent.version && pendingYjs.value.session == sessionId {
            pendingYjs := None;
          }
        case RateLimited => ArmRetryTimer();
        case Refused =>
        case TimedOut =>
          if retryAttempts < O.MAX_RETRY_ATTEMPTS {
            retryAttempts := retryAttempts + 1;
            if !(flushRequested && joined && connected) {
              ArmRetryTimer();
            }
          }
      }
    }

    /** The finally block. */
    method OnFinally(sent: O.Pending)
      modifies this
      ensures State() == O.Finally(old(State()), sent)
    {
      yjsInFlight := false;
      if !retryTimer && (flushRequested || pendingYjs.None? || pendingYjs.value.version != sent.version) {
        FlushYjs();
      }
    }

    /** A request gets its outcome: acknowledgement, rejection or timeout. */
    method Settle(i: nat, outcome: O.Outcome)
      requires O.Enabled(State(), O.Settle(i, outcome))
      modifies this
      ensures State() == O.Step(old(State()), O.Settle(i, outcome))
    {
      var sent := unanswered[i].sent;
      unanswered := RemoveAt(unanswered, i);
      OnOutcome(sent, outcome);
      OnFinally(sent);
    }

    method FireTimer()
      requires O.Enabled(State(), O.TimerFire)
      modifies this
      ensures State() == O.Step(old(State()), O.TimerFire)
    {
      armedTimers := armedTimers - 1;
      retryTimer := false;
      FlushYjs();
    }

    method OnConnect()
      modifies this
      ensures State() == O.Step(old(State()), O.Connect)
    {
      connected := true;
    }

    method OnJoinAck()
      requires O.Enabled(State(), O.JoinAck)
      modifies this
      ensures State() == O.Step(old(State()), O.JoinAck)
    {
      joined := true;
      retryAttempts := 0;
      if retryTimer && armedTimers > 0 {
        armedTimers := armedTimers - 1;
        retryTimer := false;
      }
      FlushYjs();
    }

    method OnDisconnect()
      modifies this
      ensures State() == O.Step(old(State()), O.Disconnect)
    {
      connected := false;
      joined := false;
    }

    /** The effect's cleanup: the closure is cancelled, so its requests and timers no longer count. */
    method Cleanup()
      modifies this
      ensures State() == old(State()).(
        requests := [], timers := 0, handle := false, joined := false, connected := false)
    {
      unanswered, armedTimers := [], 0;
      retryTimer := false;
      OnDisconnect();
    }

    /** Cleanup followed by a new run of the effect with fresh variables; the pending ref survives. */
    method Remount(session: O.SessionId)
      modifies this
      ensures State() == O.Step(old(State()), O.Remount(session))
    {
      Cleanup();
      sessionId := session;
      yjsInFlight, flushRequested, retryAttempts := false, false, 0;
    }
  }
}
