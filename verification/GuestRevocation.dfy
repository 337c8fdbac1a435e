/**
 * Revoking guest access of one session while guests are joining. Each event is one
 * synchronous segment of a join (realtime.gateway.ts) or of a policy update
 * (sessions.controller.ts, socket-session-connections.ts); the events interleave freely,
 * and the process may restart, losing everything but the audit log.
 */
module GuestRevocation {
  import opened Prelude
  import opened GuestAccess

  type SocketId = nat

  /** Where the join of a socket stands. */
  datatype Stage =
    | Idle
    | Registering                          // first check passed, session not yet registered
    | Registered(view: seq<AuditEvent>)    // registered; the audit log it was given
    | Entering                             // in the room, second check not yet made
    | Present

  /** Where the serialised policy update of the session stands. */
  datatype Phase =
    | NoUpdate
    | Computed(policy: Policy)
    | Persisted(policy: Policy)
    | Applied(policy: Policy)
    | Sweeping(policy: Policy, todo: set<SocketId>)

  /**
   * How rooms are entered. In memory the entry lasts one microtask, so it is over before the next
   * response of the database arrives; an adapter that talks to other servers may take any time.
   */
  datatype Adapter = InMemory | Remote

  datatype State = State(
    adapter: Adapter,
    tickets: map<SocketId, Ticket>,
    memory: Option<Policy>,
    audit: seq<AuditEvent>,
    phase: Phase,
    stages: map<SocketId, Stage>,
    room: set<SocketId>,
    presence: set<SocketId>,
    clock: nat,
    barrier: Option<int>     // history: highest cut-off of the revocations that have returned
  )

  function Start(adapter: Adapter, tickets: map<SocketId, Ticket>, clock: nat): State {
    State(adapter, tickets, None, [], NoUpdate, map k | k in tickets :: Idle, {}, {}, clock, None)
  }

  datatype Event =
    | JoinStart(k: SocketId)
    | JoinRegister(k: SocketId)
    | JoinEnter(k: SocketId)
    | JoinComplete(k: SocketId)
    | Disconnect(k: SocketId)
    | OtherAudit
    | UpdateCompute(enabled: bool, now: nat)
    | UpdatePersist
    | UpdateApply
    | UpdateFetch
    | UpdateKick(k: SocketId)
    | UpdateReturn
    | UpdateFail
    | Restart

  predicate Allowed(s: State, k: SocketId)
    requires k in s.tickets
  {
    CanAccess(s.memory, s.tickets[k])
  }

  predicate Guest(s: State, k: SocketId) {
    k in s.tickets && IsGuest(s.tickets[k])
  }

  predicate NobodyEntering(s: State) {
    forall k :: k in s.stages ==> !s.stages[k].Entering?
  }

  predicate Enabled(s: State, e: Event) {
    match e
    case JoinStart(k) => k in s.tickets && k in s.stages && s.stages[k].Idle? && Allowed(s, k)
    case JoinRegister(k) => k in s.stages && s.stages[k].Registering?
    case JoinEnter(k) => k in s.tickets && k in s.stages && s.stages[k].Registered?
    case JoinComplete(k) => k in s.tickets && k in s.stages && s.stages[k].Entering?
    case Disconnect(k) => k in s.stages && !s.stages[k].Entering?
    case OtherAudit => true
    case UpdateCompute(_, now) => s.phase.NoUpdate? && now >= s.clock
    case UpdatePersist => s.phase.Computed? && (s.adapter.InMemory? ==> NobodyEntering(s))
    case UpdateApply => s.phase.Persisted?
    case UpdateFetch => s.phase.Applied? && !s.phase.policy.enabled
    case UpdateKick(k) => s.phase.Sweeping? && k in s.phase.todo
    case UpdateReturn => (s.phase.Applied? && s.phase.policy.enabled) || (s.phase.Sweeping? && s.phase.todo == {})
    case UpdateFail => !s.phase.NoUpdate?
    case Restart => true
  }

  function Step(s: State, e: Event): State
    requires Enabled(s, e)
  {
    match e
    case JoinStart(k) => s.(stages := s.stages[k := Registering])
    case JoinRegister(k) => s.(stages := s.stages[k := Registered(s.audit)], audit := s.audit + [Other])
    case JoinEnter(k) =>
      var s1 := s.(memory := Restore(s.memory, s.stages[k].view));
      if Allowed(s1, k) then s1.(stages := s.stages[k := Entering], room := s.room + {k})
      else s1.(stages := s.stages[k := Idle])
    case JoinComplete(k) =>
      if Allowed(s, k) then s.(stages := s.stages[k := Present], presence := s.presence + {k})
      else s.(stages := s.stages[k := Idle], room := s.room - {k})
    case Disconnect(k) => s.(stages := s.stages[k := Idle], room := s.room - {k}, presence := s.presence - {k})
    case OtherAudit => s.(audit := s.audit + [Other])
    case UpdateCompute(enabled, now) =>
      var memory := Restore(s.memory, s.audit);
      s.(memory := memory, clock := now, phase := Computed(Next(memory, enabled, now)))
    // Persisted before it takes effect, so a restart cannot forget it.
    case UpdatePersist => s.(audit := s.audit + [GuestAccessChanged(s.phase.policy)], phase := Persisted(s.phase.policy))
    case UpdateApply => s.(memory := Some(s.phase.policy), phase := Applied(s.phase.policy))
    case UpdateFetch => s.(phase := Sweeping(s.phase.policy, set k | k in s.room && Guest(s, k)))
    // A join waiting between its two checks goes on after being kicked.
    case UpdateKick(k) =>
      s.(phase := s.phase.(todo := s.phase.todo - {k}), room := s.room - {k}, presence := s.presence - {k},
         stages := if k in s.stages && s.stages[k].Present? then s.stages[k := Idle] else s.stages)
    case UpdateReturn =>
      var cutOff := s.phase.policy.revokedBefore;
      s.(phase := NoUpdate,
         barrier := if s.phase.policy.enabled then s.barrier
                    else if s.barrier.Some? then Some(Max(s.barrier.value, cutOff)) else Some(cutOff))
    // An update that throws anywhere leaves what it has done; the next one in the chain starts all the same.
    case UpdateFail => s.(phase := NoUpdate)
    case Restart =>
      s.(memory := None, phase := NoUpdate, stages := map k | k in s.stages :: Idle, room := {}, presence := {})
  }

  predicate Stray(s: State, k: SocketId) {
    k in s.stages && s.stages[k].Entering? && k !in s.room
  }

  /** No guest that was kicked between entering the room and its second check would pass that check. */
  ghost predicate NoAllowedStray(s: State) {
    forall k :: k in s.stages && Stray(s, k) && Guest(s, k) ==> !Allowed(s, k)
  }

  predicate Legal(s: State, es: seq<Event>)
    decreases |es|
  {
    es == [] || (Enabled(s, es[0]) && Legal(Step(s, es[0]), es[1..]))
  }

  function Exec(s: State, es: seq<Event>): State
    requires Legal(s, es)
    decreases |es|
  {
    if es == [] then s else Exec(Step(s, es[0]), es[1..])
  }

  // Invariant.

  /** The persisted policies: revisions and cut-offs grow along the log. */
  ghost predicate LogInv(audit: seq<AuditEvent>, clock: nat) {
    && (forall e :: e in audit && e.GuestAccessChanged? ==> e.policy.revision > 0 && e.policy.revokedBefore <= clock)
    && (forall i, j :: 0 <= i < j < |audit| && audit[i].GuestAccessChanged? && audit[j].GuestAccessChanged? ==>
          audit[i].policy.revision < audit[j].policy.revision
          && audit[i].policy.revokedBefore <= audit[j].policy.revokedBefore)
  }

  ghost predicate InLog(p: Policy, audit: seq<AuditEvent>) {
    GuestAccessChanged(p) in audit
  }

  ghost predicate LatestIn(p: Policy, audit: seq<AuditEvent>) {
    InLog(p, audit) && forall e :: e in audit && e.GuestAccessChanged? ==> e.policy.revision <= p.revision
  }

  ghost predicate Covers(p: Policy, barrier: Option<int>) {
    barrier.Some? ==> barrier.value <= p.revokedBefore
  }

  /** A log that has recorded a policy covering every returned revocation. */
  ghost predicate LogCovers(audit: seq<AuditEvent>, barrier: Option<int>) {
    barrier.Some? ==> exists e :: e in audit && e.GuestAccessChanged? && Covers(e.policy, barrier)
  }

  ghost predicate StageInv(s: State, k: SocketId)
    requires k in s.stages
  {
    match s.stages[k]
    case Registered(view) =>
      && (forall e :: e in view ==> e in s.audit)
      && (s.memory.None? ==> LogCovers(view, s.barrier))
    case Entering => s.memory.None? ==> s.barrier.None?
    case _ => true
  }

  ghost predicate PhaseInv(s: State) {
    match s.phase
    case NoUpdate => true
    case Computed(p) =>
      && p.revision > 0
      && p.revokedBefore <= s.clock
      && (forall e :: e in s.audit && e.GuestAccessChanged? ==>
            e.policy.revision < p.revision && e.policy.revokedBefore <= p.revokedBefore)
      && (s.memory.None? ==> s.barrier.None?)
    case Persisted(p) => LatestIn(p, s.audit) && (s.memory.None? ==> s.barrier.None?)
    case Applied(p) => LatestIn(p, s.audit) && s.memory == Some(p)
    case Sweeping(p, _) => LatestIn(p, s.audit) && s.memory == Some(p) && !p.enabled
  }

  /** Policies, log and joins under way: what every event keeps. */
  ghost predicate PolicyInv(s: State) {
    && LogInv(s.audit, s.clock)
    && (s.memory.Some? ==> InLog(s.memory.value, s.audit) && Covers(s.memory.value, s.barrier))
    && LogCovers(s.audit, s.barrier)
    && PhaseInv(s)
    && (forall k :: k in s.stages ==> StageInv(s, k))
  }

  /** A sweep has still to visit every guest present that its policy refuses. */
  ghost predicate SweepInv(s: State) {
    s.phase.Sweeping? ==>
      forall k :: k in s.presence && Guest(s, k) && IssuedAt(s.tickets[k]) <= s.phase.policy.revokedBefore ==>
        k in s.phase.todo
  }

  /** Presence and room: kept as long as no allowed stray appears. */
  ghost predicate PresenceInv(s: State) {
    && s.presence <= s.tickets.Keys
    && (forall k :: k in s.presence ==> k in s.stages && s.stages[k].Present?)
    && (forall k :: k in s.presence && Guest(s, k) ==> k in s.room)
    && (forall k :: k in s.presence && Guest(s, k) && s.barrier.Some? ==> IssuedAt(s.tickets[k]) > s.barrier.value)
    && SweepInv(s)
  }

  /** Along the log, a higher revision means a later cut-off. */
  lemma LogOrders(audit: seq<AuditEvent>, clock: nat, p: Policy, q: Policy)
    requires LogInv(audit, clock) && InLog(p, audit) && InLog(q, audit) && p.revision <= q.revision
    ensures p.revokedBefore <= q.revokedBefore && (p.revision == q.revision ==> p == q)
  {
    var i :| 0 <= i < |audit| && audit[i] == GuestAccessChanged(p);
    var j :| 0 <= j < |audit| && audit[j] == GuestAccessChanged(q);
    assert !(j < i);
  }

  /** Restoring from any part of the log that still shows the returned revocations keeps them in force. */
  lemma RestoreCovers(s: State, view: seq<AuditEvent>)
    requires PolicyInv(s) && (forall e :: e in view ==> e in s.audit)
    requires s.memory.None? ==> LogCovers(view, s.barrier)
    ensures
      var m := Restore(s.memory, view);
      && (m.Some? ==> InLog(m.value, s.audit) && Covers(m.value, s.barrier))
      && (m.None? ==> s.memory.None? && s.barrier.None?)
      && (s.memory.Some? ==> m.Some? && s.memory.value.revokedBefore <= m.value.revokedBefore)
      && (forall p :: s.memory == Some(p) && LatestIn(p, s.audit) ==> m == Some(p))
  {
    RestoreIsLatest(s.memory, view);
    var m := Restore(s.memory, view);
    if m.Some? && s.memory.Some? {
      LogOrders(s.audit, s.clock, s.memory.value, m.value);
    } else if s.memory.None? && s.barrier.Some? {
      var e :| e in view && e.GuestAccessChanged? && Covers(e.policy, s.barrier);
      LogOrders(s.audit, s.clock, e.policy, m.value);
    }
    forall p | s.memory == Some(p) && LatestIn(p, s.audit) ensures m == Some(p) {
      LogOrders(s.audit, s.clock, p, m.value);
    }
  }

  lemma AppendOtherKeepsPolicies(s: State)
    requires PolicyInv(s)
    ensures PolicyInv(s.(audit := s.audit + [Other]))
  {
    var t := s.(audit := s.audit + [Other]);
    assert forall e :: e in t.audit <==> e in s.audit || e == Other;
    assert LogCovers(t.audit, t.barrier);
  }

  lemma JoinRegisterKeepsPolicies(s: State, k: SocketId)
    requires PolicyInv(s) && Enabled(s, JoinRegister(k))
    ensures PolicyInv(Step(s, JoinRegister(k)))
  {
    AppendOtherKeepsPolicies(s);
    assert forall e :: e in s.audit ==> e in s.audit + [Other];
  }

  /** What memory holds may change to any covering policy of the log that leaves the running update's own in place. */
  lemma MemoryChangeKeepsPolicies(s: State, m: Option<Policy>)
    requires PolicyInv(s)
    requires m.Some? ==> InLog(m.value, s.audit) && Covers(m.value, s.barrier)
    requires m.None? ==> s.memory.None? && s.barrier.None?
    requires forall p :: s.memory == Some(p) && LatestIn(p, s.audit) ==> m == Some(p)
    ensures PolicyInv(s.(memory := m))
  {
    var t := s.(memory := m);
    forall k | k in t.stages ensures StageInv(t, k) {
      assert StageInv(s, k);
    }
  }

  lemma JoinEnterKeepsPolicies(s: State, k: SocketId)
    requires PolicyInv(s) && Enabled(s, JoinEnter(k))
    ensures PolicyInv(Step(s, JoinEnter(k)))
  {
    assert StageInv(s, k);
    var t := Step(s, JoinEnter(k));
    var m := Restore(s.memory, s.stages[k].view);
    RestoreCovers(s, s.stages[k].view);
    MemoryChangeKeepsPolicies(s, m);
    StagesKeepPolicies(s.(memory := m), t, k);
  }

  /** One join moves on, and rooms and presence change as they may. */
  lemma StagesKeepPolicies(s: State, t: State, k: SocketId)
    requires PolicyInv(s) && k in t.stages && StageInv(t, k)
    requires t == s.(stages := t.stages, room := t.room, presence := t.presence)
    requires forall j :: j in t.stages && j != k ==> j in s.stages && t.stages[j] == s.stages[j]
    ensures PolicyInv(t)
  {
    forall j | j in t.stages ensures StageInv(t, j) {
      assert j != k ==> StageInv(s, j);
    }
  }

  lemma UpdateComputeKeepsPolicies(s: State, e: Event)
    requires PolicyInv(s) && Enabled(s, e) && e.UpdateCompute?
    ensures PolicyInv(Step(s, e))
  {
    var m := Restore(s.memory, s.audit);
    RestoreCovers(s, s.audit);
    RestoreIsLatest(s.memory, s.audit);
    MemoryChangeKeepsPolicies(s, m);
    var p := Next(m, e.enabled, e.now);
    forall f | f in s.audit && f.GuestAccessChanged?
      ensures f.policy.revision < p.revision && f.policy.revokedBefore <= p.revokedBefore
    {
      LogOrders(s.audit, s.clock, f.policy, m.value);
    }
    assert p.revokedBefore <= e.now by {
      if m.Some? {
        assert GuestAccessChanged(m.value) in s.audit;
      }
    }
    var t := Step(s, e);
    assert LogInv(t.audit, t.clock);
    assert forall j :: j in t.stages ==> StageInv(s.(memory := m), j);
  }

  lemma UpdatePersistKeepsPolicies(s: State)
    requires PolicyInv(s) && Enabled(s, UpdatePersist)
    ensures PolicyInv(Step(s, UpdatePersist))
  {
    var p := s.phase.policy;
    var t := Step(s, UpdatePersist);
    assert forall e :: e in t.audit <==> e in s.audit || e == GuestAccessChanged(p);
    assert LogInv(t.audit, t.clock) by {
      forall i, j | 0 <= i < j < |t.audit| && t.audit[i].GuestAccessChanged? && t.audit[j].GuestAccessChanged?
        ensures t.audit[i].policy.revision < t.audit[j].policy.revision
        ensures t.audit[i].policy.revokedBefore <= t.audit[j].policy.revokedBefore
      {
        assert t.audit[i] == s.audit[i];
        assert s.audit[i] in s.audit;
      }
    }
    assert LogCovers(t.audit, t.barrier);
    assert forall j :: j in t.stages ==> StageInv(s, j);
  }

  lemma UpdateApplyKeepsPolicies(s: State)
    requires PolicyInv(s) && s.phase.Persisted?
    ensures PolicyInv(Step(s, UpdateApply))
    ensures s.memory.Some? ==> s.memory.value.revokedBefore <= s.phase.policy.revokedBefore
  {
    var p := s.phase.policy;
    var t := Step(s, UpdateApply);
    if s.memory.Some? {
      LogOrders(s.audit, s.clock, s.memory.value, p);
    }
    forall q | s.memory == Some(q) && LatestIn(q, s.audit) ensures q == p {
      LogOrders(s.audit, s.clock, q, p);
    }
    MemoryChangeKeepsPolicies(s, Some(p));
    assert forall j :: j in t.stages ==> StageInv(s.(memory := Some(p)), j);
  }

  lemma ReturnKeepsPolicies(s: State, e: Event)
    requires PolicyInv(s) && Enabled(s, e) && (e.UpdateReturn? || e.UpdateFail? || e.Restart?)
    ensures PolicyInv(Step(s, e))
  {
    var t := Step(s, e);
    assert e.UpdateFail? ==> forall k :: k in t.stages ==> StageInv(s, k);
    if e.UpdateReturn? {
      assert GuestAccessChanged(s.phase.policy) in s.audit;
      forall k | k in t.stages ensures StageInv(t, k) {
        assert StageInv(s, k);
      }
      assert LogCovers(t.audit, t.barrier) by {
        assert Covers(s.phase.policy, s.barrier);
        assert Covers(s.phase.policy, t.barrier);
      }
    }
  }

  lemma SweepKeepsPolicies(s: State, e: Event)
    requires PolicyInv(s) && Enabled(s, e) && (e.UpdateFetch? || e.UpdateKick?)
    ensures PolicyInv(Step(s, e))
  {
    var t := Step(s, e);
    assert forall j :: j in t.stages && t.stages[j] == s.stages[j] ==> StageInv(s, j);
  }

  /** Every event, strays or not: revisions and cut-offs grow along the log, and the policy in memory covers what has returned. */
  lemma StepKeepsPolicies(s: State, e: Event)
    requires PolicyInv(s) && Enabled(s, e)
    ensures PolicyInv(Step(s, e))
  {
    match e
    case JoinStart(k) => StagesKeepPolicies(s, Step(s, e), k);
    case JoinRegister(k) => JoinRegisterKeepsPolicies(s, k);
    case JoinEnter(k) => JoinEnterKeepsPolicies(s, k);
    case JoinComplete(k) => StagesKeepPolicies(s, Step(s, e), k);
    case Disconnect(k) => StagesKeepPolicies(s, Step(s, e), k);
    case OtherAudit => AppendOtherKeepsPolicies(s);
    case UpdateCompute(_, _) => UpdateComputeKeepsPolicies(s, e);
    case UpdatePersist => UpdatePersistKeepsPolicies(s);
    case UpdateApply => UpdateApplyKeepsPolicies(s);
    case UpdateFetch => SweepKeepsPolicies(s, e);
    case UpdateKick(_) => SweepKeepsPolicies(s, e);
    case UpdateReturn => ReturnKeepsPolicies(s, e);
    case UpdateFail => ReturnKeepsPolicies(s, e);
    case Restart => ReturnKeepsPolicies(s, e);
  }

  lemma {:induction false} RunKeepsPolicies(s: State, es: seq<Event>)
    requires PolicyInv(s) && Legal(s, es)
    ensures PolicyInv(Exec(s, es)) && Exec(s, es).tickets == s.tickets && Exec(s, es).adapter == s.adapter
    decreases |es|
  {
    if es == [] {
    } else {
      StepKeepsPolicies(s, es[0]);
      RunKeepsPolicies(Step(s, es[0]), es[1..]);
    }
  }

  // Presence.

  lemma JoinCompleteKeepsPresence(s: State, k: SocketId)
    requires PolicyInv(s) && PresenceInv(s) && NoAllowedStray(s) && Enabled(s, JoinComplete(k))
    ensures PresenceInv(Step(s, JoinComplete(k)))
  {
    assert StageInv(s, k);
    if Guest(s, k) && Allowed(s, k) {
      assert !Stray(s, k);
    }
  }

  lemma SweepKeepsPresence(s: State, e: Event)
    requires PolicyInv(s) && PresenceInv(s) && Enabled(s, e) && (e.UpdateFetch? || e.UpdateKick? || e.UpdateReturn?)
    ensures PresenceInv(Step(s, e))
  {
  }

  /** Only the second check of a stray can make a guest present whom no sweep will find. */
  lemma StepKeepsPresence(s: State, e: Event)
    requires PolicyInv(s) && PresenceInv(s) && NoAllowedStray(s) && Enabled(s, e)
    ensures PresenceInv(Step(s, e))
  {
    match e
    case JoinComplete(k) => JoinCompleteKeepsPresence(s, k);
    case UpdateFetch => SweepKeepsPresence(s, e);
    case UpdateKick(_) => SweepKeepsPresence(s, e);
    case UpdateReturn => SweepKeepsPresence(s, e);
    case _ =>
  }

  /** A guest is present whose ticket a returned revocation covers. */
  ghost predicate Violates(s: State, k: SocketId) {
    Guest(s, k) && k in s.presence && s.barrier.Some? && IssuedAt(s.tickets[k]) <= s.barrier.value
  }

  // Three settings in which a stray is never allowed in.

  datatype Setting =
    | RevocationsOnly              // no update enables access
    | RoomsInMemory                // the in-memory adapter
    | TicketsUpTo(clock: nat)      // no guest ticket was issued after `clock`

  predicate Fits(g: Setting, e: Event) {
    g.RevocationsOnly? && e.UpdateCompute? ==> !e.enabled
  }

  ghost predicate SomeStray(s: State) {
    exists k :: k in s.stages && Stray(s, k)
  }

  /** While there is a stray, the policy in memory refuses it; and whatever may come to memory would. */
  ghost predicate StraysRefused(s: State, g: Setting) {
    match g
    case RevocationsOnly =>
      && (forall e :: e in s.audit && e.GuestAccessChanged? ==> !e.policy.enabled)
      && (!s.phase.NoUpdate? ==> !s.phase.policy.enabled)
      && (SomeStray(s) ==> s.memory.Some?)
    case RoomsInMemory =>
      && s.adapter.InMemory?
      && (SomeStray(s) ==> s.memory.Some? && !s.memory.value.enabled && LatestIn(s.memory.value, s.audit))
    case TicketsUpTo(clock) =>
      && s.clock >= clock
      && (forall k :: Guest(s, k) ==> IssuedAt(s.tickets[k]) <= clock)
      && (forall e :: e in s.audit && e.GuestAccessChanged? && !e.policy.enabled ==> e.policy.revokedBefore >= clock)
      && (!s.phase.NoUpdate? && !s.phase.policy.enabled ==> s.phase.policy.revokedBefore >= clock)
      && (SomeStray(s) ==> s.memory.Some? && s.memory.value.revokedBefore >= clock)
  }

  lemma RefusedMeansNotAllowed(s: State, g: Setting)
    requires PolicyInv(s) && StraysRefused(s, g)
    ensures NoAllowedStray(s)
  {
    forall k | k in s.stages && Stray(s, k) && Guest(s, k) ensures !Allowed(s, k) {
      assert SomeStray(s);
    }
  }

  lemma KickKeepsStraysRefused(s: State, g: Setting, k: SocketId)
    requires PolicyInv(s) && StraysRefused(s, g) && Enabled(s, UpdateKick(k))
    ensures StraysRefused(Step(s, UpdateKick(k)), g)
  {
    assert GuestAccessChanged(s.phase.policy) in s.audit;
  }

  lemma JoinEnterKeepsStraysRefused(s: State, g: Setting, k: SocketId)
    requires PolicyInv(s) && StraysRefused(s, g) && Enabled(s, JoinEnter(k))
    ensures StraysRefused(Step(s, JoinEnter(k)), g)
  {
    var t := Step(s, JoinEnter(k));
    assert StageInv(s, k);
    RestoreCovers(s, s.stages[k].view);
    assert forall j :: j in t.stages && Stray(t, j) ==> j in s.stages && Stray(s, j);
  }

  lemma UpdateComputeKeepsStraysRefused(s: State, g: Setting, e: Event)
    requires PolicyInv(s) && StraysRefused(s, g) && Enabled(s, e) && e.UpdateCompute? && Fits(g, e)
    ensures StraysRefused(Step(s, e), g)
  {
    var t := Step(s, e);
    RestoreCovers(s, s.audit);
    assert forall j :: j in t.stages && Stray(t, j) ==> j in s.stages && Stray(s, j);
  }

  lemma UpdatePersistKeepsStraysRefused(s: State, g: Setting)
    requires PolicyInv(s) && StraysRefused(s, g) && Enabled(s, UpdatePersist)
    ensures StraysRefused(Step(s, UpdatePersist), g)
  {
    var t := Step(s, UpdatePersist);
    assert forall e :: e in t.audit <==> e in s.audit || e == GuestAccessChanged(s.phase.policy);
    assert forall j :: j in t.stages && Stray(t, j) ==> j in s.stages && Stray(s, j);
  }

  lemma UpdateApplyKeepsStraysRefused(s: State, g: Setting)
    requires PolicyInv(s) && StraysRefused(s, g) && Enabled(s, UpdateApply)
    ensures StraysRefused(Step(s, UpdateApply), g)
  {
    var t := Step(s, UpdateApply);
    UpdateApplyKeepsPolicies(s);
    assert forall j :: j in t.stages && Stray(t, j) ==> j in s.stages && Stray(s, j);
    if g.RoomsInMemory? && SomeStray(s) {
      LogOrders(s.audit, s.clock, s.memory.value, s.phase.policy);
    }
  }

  lemma OthersKeepStraysRefused(s: State, g: Setting, e: Event)
    requires PolicyInv(s) && StraysRefused(s, g) && Enabled(s, e)
    requires e.JoinStart? || e.JoinRegister? || e.JoinComplete? || e.Disconnect? || e.OtherAudit?
             || e.UpdateFetch? || e.UpdateReturn? || e.UpdateFail? || e.Restart?
    ensures StraysRefused(Step(s, e), g)
  {
    var t := Step(s, e);
    assert forall f :: f in t.audit ==> f in s.audit || f == Other;
    assert forall f :: f in s.audit ==> f in t.audit;
    assert forall j :: j in t.stages && Stray(t, j) ==> j in s.stages && Stray(s, j);
  }

  lemma StepKeepsStraysRefused(s: State, g: Setting, e: Event)
    requires PolicyInv(s) && StraysRefused(s, g) && Enabled(s, e) && Fits(g, e)
    ensures StraysRefused(Step(s, e), g)
  {
    match e
    case JoinEnter(k) => JoinEnterKeepsStraysRefused(s, g, k);
    case UpdateCompute(_, _) => UpdateComputeKeepsStraysRefused(s, g, e);
    case UpdatePersist => UpdatePersistKeepsStraysRefused(s, g);
    case UpdateApply => UpdateApplyKeepsStraysRefused(s, g);
    case UpdateKick(k) => KickKeepsStraysRefused(s, g, k);
    case _ => OthersKeepStraysRefused(s, g, e);
  }

  lemma {:induction false} RunKeepsGuestsOut(s: State, g: Setting, es: seq<Event>)
    requires PolicyInv(s) && PresenceInv(s) && StraysRefused(s, g)
    requires Legal(s, es) && forall e :: e in es ==> Fits(g, e)
    ensures PresenceInv(Exec(s, es))
    decreases |es|
  {
    if es == [] {
    } else {
      RefusedMeansNotAllowed(s, g);
      StepKeepsPolicies(s, es[0]);
      StepKeepsPresence(s, es[0]);
      StepKeepsStraysRefused(s, g, es[0]);
      RunKeepsGuestsOut(Step(s, es[0]), g, es[1..]);
    }
  }

  lemma StartInv(adapter: Adapter, tickets: map<SocketId, Ticket>, clock: nat)
    ensures var s := Start(adapter, tickets, clock); PolicyInv(s) && PresenceInv(s) && !SomeStray(s)
  {
  }

  // Results.

  /**
   * Main result. Rooms being entered in memory: for every interleaving of joins, policy updates, sweeps
   * and restarts, once a revocation has returned no guest whose ticket was issued at or before its
   * cut-off is present, and none becomes present later, also after access is enabled again and
   * after a restart that replays the log.
   */
  lemma RevokedGuestsStayOut(tickets: map<SocketId, Ticket>, clock: nat, es: seq<Event>, k: SocketId)
    requires Legal(Start(InMemory, tickets, clock), es)
    ensures !Violates(Exec(Start(InMemory, tickets, clock), es), k)
  {
    var s := Start(InMemory, tickets, clock);
    StartInv(InMemory, tickets, clock);
    RunKeepsGuestsOut(s, RoomsInMemory, es);
    RunKeepsPolicies(s, es);
  }

  /** With any adapter, the same in every run in which no update enables access. */
  lemma RevocationAloneKeepsGuestsOut(adapter: Adapter, tickets: map<SocketId, Ticket>, clock: nat, es: seq<Event>, k: SocketId)
    requires Legal(Start(adapter, tickets, clock), es)
    requires forall e :: e in es ==> !(e.UpdateCompute? && e.enabled)
    ensures !Violates(Exec(Start(adapter, tickets, clock), es), k)
  {
    var s := Start(adapter, tickets, clock);
    StartInv(adapter, tickets, clock);
    RunKeepsGuestsOut(s, RevocationsOnly, es);
    RunKeepsPolicies(s, es);
  }

  /** A policy update that revokes access raises the barrier to its cut-off when it returns. */
  lemma ReturnRaisesBarrier(s: State)
    requires Enabled(s, UpdateReturn) && !s.phase.policy.enabled
    ensures
      var t := Step(s, UpdateReturn);
      t.barrier.Some? && t.barrier.value >= s.phase.policy.revokedBefore
      && (s.barrier.Some? ==> t.barrier.value >= s.barrier.value)
  {
  }

  /**
   * A ticket that a returned revocation covers is refused in every run: by any check once a policy is
   * in memory, and in any case by the check before room entry, which restores the policy first.
   */
  lemma RevokedTicketRefused(adapter: Adapter, tickets: map<SocketId, Ticket>, clock: nat, es: seq<Event>, k: SocketId)
    requires Legal(Start(adapter, tickets, clock), es)
    requires
      var s := Exec(Start(adapter, tickets, clock), es);
      Guest(s, k) && s.barrier.Some? && IssuedAt(s.tickets[k]) <= s.barrier.value
    ensures
      var s := Exec(Start(adapter, tickets, clock), es);
      && (s.memory.Some? ==> !Allowed(s, k))
      && (Enabled(s, JoinEnter(k)) ==> Step(s, JoinEnter(k)).stages[k].Idle? && k !in Step(s, JoinEnter(k)).room - s.room)
  {
    StartInv(adapter, tickets, clock);
    RunKeepsPolicies(Start(adapter, tickets, clock), es);
    var s := Exec(Start(adapter, tickets, clock), es);
    if Enabled(s, JoinEnter(k)) {
      assert StageInv(s, k);
      RestoreCovers(s, s.stages[k].view);
    }
  }

  /** The sweep visits exactly the viewers in the room that are guests by their claims, new tickets and old. */
  lemma SweepVisitsGuests(s: State, k: SocketId)
    requires Enabled(s, UpdateFetch) && k in s.tickets
    ensures
      var t := s.tickets[k];
      var t' := Step(s, UpdateFetch);
      t'.phase.Sweeping?
      && (k in t'.phase.todo <==>
            && k in s.room && t.role.Viewer?
            && (t.guest == Some(true) || (t.guest.None? && t.issuedAt.None? && "guest-" <= t.actor)))
  {
  }

  /** A join that fails its last check leaves the room and is over; one that passes is present and in nobody's way. */
  lemma LastCheckDecides(s: State, k: SocketId)
    requires Enabled(s, JoinComplete(k))
    ensures
      var t := Step(s, JoinComplete(k));
      if CanAccess(s.memory, s.tickets[k])
      then t == s.(stages := s.stages[k := Present], presence := s.presence + {k})
      else t == s.(stages := s.stages[k := Idle], room := s.room - {k})
  {
  }

  /** A join starts only for a ticket the policy in memory lets in, and changes nothing but its own stage. */
  lemma FirstCheckDecides(s: State, k: SocketId)
    requires k in s.tickets && k in s.stages && s.stages[k].Idle?
    ensures Enabled(s, JoinStart(k)) <==> CanAccess(s.memory, s.tickets[k])
    ensures Enabled(s, JoinStart(k)) ==> Step(s, JoinStart(k)) == s.(stages := s.stages[k := Registering])
  {
  }

  /** A kicked guest is neither present nor in the room; one that was present is done, one still entering goes on. */
  lemma KickRemoves(s: State, k: SocketId)
    requires Enabled(s, UpdateKick(k)) && k in s.stages
    ensures
      var t := Step(s, UpdateKick(k));
      && t.room == s.room - {k} && t.presence == s.presence - {k} && t.memory == s.memory && t.audit == s.audit
      && t.stages == s.stages[k := if s.stages[k].Present? then Idle else s.stages[k]]
      && t.phase == Sweeping(s.phase.policy, s.phase.todo - {k})
  {
  }

  /** A restart forgets everything but the log: policies, rooms, presence, joins and updates under way. */
  lemma RestartKeepsOnlyLog(s: State)
    ensures
      var t := Step(s, Restart);
      && t.memory.None? && t.phase.NoUpdate? && t.room == {} && t.presence == {} && t.audit == s.audit
      && t.stages.Keys == s.stages.Keys && forall k :: k in t.stages ==> t.stages[k].Idle?
  {
  }

  // With a remote adapter and re-enabling.

  ghost predicate Reaches(s: State, t: State) {
    exists es :: Legal(s, es) && Exec(s, es) == t
  }

  lemma {:induction false} ExecConcat(s: State, es: seq<Event>, fs: seq<Event>)
    requires Legal(s, es) && Legal(Exec(s, es), fs)
    ensures Legal(s, es + fs) && Exec(s, es + fs) == Exec(Exec(s, es), fs)
    decreases |es|
  {
    if es == [] {
      assert es + fs == fs;
    } else {
      assert (es + fs)[1..] == es[1..] + fs;
      ExecConcat(Step(s, es[0]), es[1..], fs);
    }
  }

  lemma Then(s: State, t: State, e: Event)
    requires Reaches(s, t) && Enabled(t, e)
    ensures Reaches(s, Step(t, e))
  {
    var es :| Legal(s, es) && Exec(s, es) == t;
    assert [e][1..] == [];
    ExecConcat(s, es, [e]);
  }

  /** Guest `k` is present without being in the room, so no sweep will find it. */
  ghost predicate Hidden(s: State, k: SocketId) {
    && s.adapter.Remote? && Guest(s, k) && k in s.presence && k !in s.room
    && (s.phase.Sweeping? ==> k !in s.phase.todo)
  }

  /** A sweep under way runs to its end without removing a hidden guest. */
  lemma {:induction false} SweepOn(s: State, t: State, k: SocketId) returns (u: State)
    requires Reaches(s, t) && t.phase.Sweeping? && Hidden(t, k)
    ensures Reaches(s, u) && u.phase == t.phase.(todo := {}) && Hidden(u, k)
    ensures u.tickets == t.tickets && u.clock == t.clock && u.barrier == t.barrier
    decreases |t.phase.todo|
  {
    if t.phase.todo == {} {
      u := t;
    } else {
      var j :| j in t.phase.todo;
      Then(s, t, UpdateKick(j));
      u := SweepOn(s, Step(t, UpdateKick(j)), k);
    }
  }

  /** A policy that is about to be persisted is persisted and applied, the room swept if need be, and the update returns. */
  lemma UpdateOn(s: State, t: State, k: SocketId) returns (u: State)
    requires Reaches(s, t) && !t.phase.NoUpdate? && !t.phase.Sweeping? && Hidden(t, k)
    ensures Reaches(s, u) && u.phase.NoUpdate? && Hidden(u, k) && u.tickets == t.tickets && u.clock == t.clock
    ensures !t.phase.policy.enabled ==> u.barrier.Some? && u.barrier.value >= t.phase.policy.revokedBefore
  {
    u := t;
    if u.phase.Computed? {
      Then(s, u, UpdatePersist);
      u := Step(u, UpdatePersist);
    }
    if u.phase.Persisted? {
      Then(s, u, UpdateApply);
      u := Step(u, UpdateApply);
    }
    if !u.phase.policy.enabled {
      Then(s, u, UpdateFetch);
      u := SweepOn(s, Step(u, UpdateFetch), k);
    }
    Then(s, u, UpdateReturn);
    u := Step(u, UpdateReturn);
  }

  /**
   * A stray guest that passes its second check outlives the next revocation, whatever update is under
   * way; while a sweep is, no guest passes.
   */
  lemma AllowedStraySurvives(tickets: map<SocketId, Ticket>, clock: nat, t: State, k: SocketId) returns (u: State)
    requires Reaches(Start(Remote, tickets, clock), t) && Guest(t, k) && Stray(t, k) && Allowed(t, k)
    ensures Reaches(Start(Remote, tickets, clock), u) && Violates(u, k)
  {
    var s := Start(Remote, tickets, clock);
    StartInv(Remote, tickets, clock);
    var es :| Legal(s, es) && Exec(s, es) == t;
    RunKeepsPolicies(s, es);
    Then(s, t, JoinComplete(k));
    u := Step(t, JoinComplete(k));
    if !u.phase.NoUpdate? {
      u := UpdateOn(s, u, k);
    }
    var now := Max(u.clock, IssuedAt(u.tickets[k]));
    Then(s, u, UpdateCompute(false, now));
    u := Step(u, UpdateCompute(false, now));
    u := UpdateOn(s, u, k);
  }

  /** A revocation has its cut-off but is not yet in force; a guest with a later ticket enters the room. */
  function EnteringGuest(tickets: map<SocketId, Ticket>, clock: nat, k: SocketId): State {
    var s := Start(Remote, tickets, clock);
    s.(phase := Computed(Policy(false, clock, 1)), stages := s.stages[k := Entering], room := {k}, audit := [Other])
  }

  lemma GuestEnters(tickets: map<SocketId, Ticket>, clock: nat, k: SocketId)
    requires k in tickets
    ensures Reaches(Start(Remote, tickets, clock), EnteringGuest(tickets, clock, k))
  {
    var s := Start(Remote, tickets, clock);
    assert Legal(s, []) && Exec(s, []) == s;
    Then(s, s, UpdateCompute(false, clock));
    var s1 := s.(phase := Computed(Policy(false, clock, 1)));
    assert Step(s, UpdateCompute(false, clock)) == s1;
    Then(s, s1, JoinStart(k));
    var s2 := s1.(stages := s.stages[k := Registering]);
    assert Step(s1, JoinStart(k)) == s2;
    Then(s, s2, JoinRegister(k));
    var s3 := s1.(stages := s.stages[k := Registered([])], audit := [Other]);
    assert s2.stages[k := Registered([])] == s3.stages;
    assert Step(s2, JoinRegister(k)) == s3;
    Then(s, s3, JoinEnter(k));
    assert s3.stages[k := Entering] == EnteringGuest(tickets, clock, k).stages;
    assert Step(s3, JoinEnter(k)) == EnteringGuest(tickets, clock, k);
  }

  /** One whole policy update, for a given restored policy, up to its application. */
  lemma UpdateApplies(s: State, t: State, m: Option<Policy>, enabled: bool, now: nat)
    requires t.adapter.Remote? && Reaches(s, t) && t.phase.NoUpdate? && now >= t.clock && Restore(t.memory, t.audit) == m
    ensures
      var p := Next(m, enabled, now);
      Reaches(s, t.(memory := Some(p), clock := now, phase := Applied(p), audit := t.audit + [GuestAccessChanged(p)]))
  {
    var p := Next(m, enabled, now);
    Then(s, t, UpdateCompute(enabled, now));
    var t1 := t.(memory := m, clock := now, phase := Computed(p));
    Then(s, t1, UpdatePersist);
    var t2 := t1.(phase := Persisted(p), audit := t.audit + [GuestAccessChanged(p)]);
    Then(s, t2, UpdateApply);
  }

  /** The revocation takes effect, kicks the guest out of the room and returns. */
  lemma GuestKicked(tickets: map<SocketId, Ticket>, clock: nat, k: SocketId) returns (t: State)
    requires k in tickets && IsGuest(tickets[k])
    ensures Reaches(Start(Remote, tickets, clock), t)
    ensures
      var p := Policy(false, clock, 1);
      t == EnteringGuest(tickets, clock, k).(
        memory := Some(p), audit := [Other, GuestAccessChanged(p)], phase := NoUpdate, room := {}, barrier := Some(clock))
  {
    var s := Start(Remote, tickets, clock);
    var s0 := EnteringGuest(tickets, clock, k);
    GuestEnters(tickets, clock, k);
    var p := Policy(false, clock, 1);
    assert [Other] + [GuestAccessChanged(p)] == [Other, GuestAccessChanged(p)];
    Then(s, s0, UpdatePersist);
    var s1 := s0.(phase := Persisted(p), audit := [Other, GuestAccessChanged(p)]);
    Then(s, s1, UpdateApply);
    var s2 := s1.(memory := Some(p), phase := Applied(p));
    Then(s, s2, UpdateFetch);
    var s3 := s2.(phase := Sweeping(p, {k}));
    assert (set j | j in s2.room && Guest(s2, j)) == {k};
    assert Step(s2, UpdateFetch) == s3;
    Then(s, s3, UpdateKick(k));
    var s4 := s3.(phase := Sweeping(p, {}), room := {});
    assert {k} - {k} == {} && s3.presence - {k} == {};
    assert Step(s3, UpdateKick(k)) == s4;
    Then(s, s4, UpdateReturn);
    t := Step(s4, UpdateReturn);
  }

  /**
   * A stray let in, for any tickets of which one was issued after the clock: its guest is kicked while
   * entering, and access is enabled again before its second check. The whole second update falls
   * into one room entry, so the entry must be remote.
   */
  lemma KickedWhileEntering(tickets: map<SocketId, Ticket>, clock: nat, k: SocketId) returns (t: State)
    requires k in tickets && IsGuest(tickets[k]) && IssuedAt(tickets[k]) > clock
    ensures Reaches(Start(Remote, tickets, clock), t) && Guest(t, k) && Stray(t, k) && Allowed(t, k)
  {
    var s := Start(Remote, tickets, clock);
    var kicked := GuestKicked(tickets, clock, k);
    var p, q, audit := Policy(false, clock, 1), Policy(true, clock, 2), kicked.audit;
    assert audit[1..] == [GuestAccessChanged(p)] && audit[1..][1..] == [];
    assert Restore(Some(p), audit) == Restore(Some(p), audit[1..]) == Restore(Some(p), audit[1..][1..]) == Some(p);
    UpdateApplies(s, kicked, Some(p), true, clock);
    t := kicked.(memory := Some(q), phase := Applied(q), audit := audit + [GuestAccessChanged(q)]);
  }

  ghost predicate NeverViolates(start: State) {
    forall u, k :: Reaches(start, u) ==> !Violates(u, k)
  }

  /**
   * Exactly when the promise holds in every run, re-enabling included: rooms are entered in memory, or
   * no guest ticket was issued after the clock at the start.
   */
  lemma RevocationHoldsIff(adapter: Adapter, tickets: map<SocketId, Ticket>, clock: nat)
    ensures
      NeverViolates(Start(adapter, tickets, clock)) <==>
      adapter.InMemory? || forall k :: k in tickets && IsGuest(tickets[k]) ==> IssuedAt(tickets[k]) <= clock
  {
    if adapter.InMemory? {
      SettingHolds(adapter, tickets, clock, RoomsInMemory);
    } else if k :| k in tickets && IsGuest(tickets[k]) && IssuedAt(tickets[k]) > clock {
      var t := KickedWhileEntering(tickets, clock, k);
      var u := AllowedStraySurvives(tickets, clock, t, k);
    } else {
      SettingHolds(adapter, tickets, clock, TicketsUpTo(clock));
    }
  }

  lemma SettingHolds(adapter: Adapter, tickets: map<SocketId, Ticket>, clock: nat, g: Setting)
    requires !g.RevocationsOnly? && StraysRefused(Start(adapter, tickets, clock), g)
    ensures NeverViolates(Start(adapter, tickets, clock))
  {
    var s := Start(adapter, tickets, clock);
    StartInv(adapter, tickets, clock);
    forall u, k | Reaches(s, u) ensures !Violates(u, k) {
      var es :| Legal(s, es) && Exec(s, es) == u;
      RunKeepsGuestsOut(s, g, es);
    }
  }
}
