/**
 * Joins and guest-access updates of one session, changed in place: each method is one segment between
 * awaits of the gateway's join or of the controller's update, and one step of GuestRevocation.
 */
module GuestGateway {
  import opened Prelude
  import G = GuestAccess
  import R = GuestRevocation
  import X = SessionParticipantExclusions

  class Gateway {
    const adapter: R.Adapter
    const sessionId: X.SessionId
    const tickets: map<R.SocketId, G.Ticket>
    const exclusions: X.Exclusions
    var audit: seq<G.AuditEvent>
    var room: set<R.SocketId>
    var presence: set<R.SocketId>
    // Where the suspended handlers stand.
    var stages: map<R.SocketId, R.Stage>
    var phase: R.Phase
    var clock: nat
    ghost var barrier: Option<int>

    ghost function PolicyOf(id: X.SessionId): Option<G.Policy>
      reads this, exclusions
    {
      Lookup(exclusions.guestPolicy, id)
    }

    ghost function State(): R.State
      reads this, exclusions
    {
      R.State(adapter, tickets, PolicyOf(sessionId), audit, phase, stages, room, presence, clock, barrier)
    }

    constructor (adapter: R.Adapter, sessionId: X.SessionId, tickets: map<R.SocketId, G.Ticket>, exclusions: X.Exclusions, clock: nat)
      requires sessionId !in exclusions.guestPolicy
      ensures State() == R.Start(adapter, tickets, clock) && this.exclusions == exclusions && this.sessionId == sessionId
    {
      this.adapter := adapter;
      this.sessionId := sessionId;
      this.tickets := tickets;
      this.exclusions := exclusions;
      this.clock := clock;
      audit, room, presence := [], {}, {};
      stages, phase, barrier := map k | k in tickets :: R.Idle, R.NoUpdate, None;
    }

    method CanAccessSession(k: R.SocketId) returns (ok: bool)
      requires k in tickets
      ensures ok <==> R.Allowed(State(), k)
    {
      ok := exclusions.CanAccessGuest(sessionId, Some(tickets[k]));
    }

    // The segments of a join.

    /** joinSession: refused without effect, or the first check passed. */
    method JoinSession(k: R.SocketId) returns (ok: bool)
      requires k in tickets && k in stages && stages[k].Idle?
      modifies this
      ensures ok <==> R.Enabled(old(State()), R.JoinStart(k))
      ensures State() == if ok then R.Step(old(State()), R.JoinStart(k)) else old(State())
    {
      ok := CanAccessSession(k);
      if ok {
        stages := stages[k := R.Registering];
      }
    }

    /** The session is registered; the audit log as it then was comes back. */
    method RegisterSession(k: R.SocketId)
      requires R.Enabled(State(), R.JoinRegister(k))
      modifies this
      ensures State() == R.Step(old(State()), R.JoinRegister(k))
    {
      stages := stages[k := R.Registered(audit)];
      audit := audit + [G.Other];
    }

    /** The rest of completeJoin up to entering the room: policy restored, access checked again. */
    method EnterRoom(k: R.SocketId) returns (ok: bool)
      requires R.Enabled(State(), R.JoinEnter(k))
      modifies this, exclusions`guestPolicy
      ensures forall other :: other != sessionId ==> PolicyOf(other) == old(PolicyOf(other))
      ensures State() == R.Step(old(State()), R.JoinEnter(k))
      ensures ok <==> stages[k].Entering?
    {
      exclusions.RestoreGuestPolicy(sessionId, stages[k].view);
      ok := CanAccessSession(k);
      if !ok {
        stages := stages[k := R.Idle];
        return;
      }
      room := room + {k};
      stages := stages[k := R.Entering];
    }

    /** The last check, in the room: presence, or out again. */
    method CompleteJoin(k: R.SocketId) returns (joined: bool)
      requires R.Enabled(State(), R.JoinComplete(k))
      modifies this
      ensures State() == R.Step(old(State()), R.JoinComplete(k))
      ensures joined <==> stages[k].Present?
    {
      joined := CanAccessSession(k);
      if !joined {
        room := room - {k};
        stages := stages[k := R.Idle];
        return;
      }
      presence := presence + {k};
      stages := stages[k := R.Present];
    }

    method Disconnecting(k: R.SocketId)
      requires R.Enabled(State(), R.Disconnect(k))
      modifies this
      ensures State() == R.Step(old(State()), R.Disconnect(k))
    {
      presence := presence - {k};
      room := room - {k};
      stages := stages[k := R.Idle];
    }

    // The segments of an update. Updates of one session are chained, so at most one is under way.

    method ComputePolicy(enabled: bool, now: nat)
      requires R.Enabled(State(), R.UpdateCompute(enabled, now))
      modifies this, exclusions`guestPolicy
      ensures forall other :: other != sessionId ==> PolicyOf(other) == old(PolicyOf(other))
      ensures State() == R.Step(old(State()), R.UpdateCompute(enabled, now))
    {
      exclusions.RestoreGuestPolicy(sessionId, audit);
      var policy := exclusions.NextGuestPolicy(sessionId, enabled, now);
      phase := R.Computed(policy);
      clock := now;
    }

    method PersistPolicy()
      requires R.Enabled(State(), R.UpdatePersist)
      modifies this
      ensures State() == R.Step(old(State()), R.UpdatePersist)
    {
      audit := audit + [G.GuestAccessChanged(phase.policy)];
      phase := R.Persisted(phase.policy);
    }

    /** setGuestAccess up to its first await: the policy is in force before the room is looked at. */
    method ApplyPolicy()
      requires R.Enabled(State(), R.UpdateApply)
      modifies this, exclusions`guestPolicy
      ensures forall other :: other != sessionId ==> PolicyOf(other) == old(PolicyOf(other))
      ensures State() == R.Step(old(State()), R.UpdateApply)
    {
      exclusions.ApplyGuestPolicy(sessionId, phase.policy);
      phase := R.Applied(phase.policy);
    }

    method FetchSockets()
      requires R.Enabled(State(), R.UpdateFetch)
      modifies this
      ensures State() == R.Step(old(State()), R.UpdateFetch)
    {
      var sockets := set k | k in room && k in tickets && G.IsGuest(tickets[k]);
      assert sockets == set k | k in room && R.Guest(State(), k);
      phase := R.Sweeping(phase.policy, sockets);
    }

    /** One turn of the sweep, up to its await. */
    method KickGuest(k: R.SocketId)
      requires R.Enabled(State(), R.UpdateKick(k))
      modifies this
      ensures State() == R.Step(old(State()), R.UpdateKick(k))
    {
      presence := presence - {k};
      room := room - {k};
      if k in stages && stages[k].Present? {
        stages := stages[k := R.Idle];
      }
      phase := phase.(todo := phase.todo - {k});
    }

    method FinishUpdate()
      requires R.Enabled(State(), R.UpdateReturn)
      modifies this
      ensures State() == R.Step(old(State()), R.UpdateReturn)
    {
      if !phase.policy.enabled {
        barrier := Some(if barrier.Some? then Max(barrier.value, phase.policy.revokedBefore) else phase.policy.revokedBefore);
      }
      phase := R.NoUpdate;
    }

    /** The update threw; the chain goes on. */
    method FailUpdate()
      requires R.Enabled(State(), R.UpdateFail)
      modifies this
      ensures State() == R.Step(old(State()), R.UpdateFail)
    {
      phase := R.NoUpdate;
    }
  }
}
