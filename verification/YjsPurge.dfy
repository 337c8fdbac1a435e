/**
 * Purging a session: once the row is deleted, no write of the registry brings it back
 * while the tombstone stands, whatever was in flight, queued or scheduled.
 */
module YjsPurge {
  import opened Crdt
  import opened Prelude
  import opened YjsDocument

  predicate NoExpiry(es: seq<Event>) {
    forall e :: e in es ==> !e.TombstoneExpire?
  }

  /** Every write that has passed the purge check is one of `ids`. */
  predicate InFlightWithin(s: Session, ids: set<nat>) {
    && (forall j :: j in s.queue && j.inFlight ==> j.id in ids)
    && (forall j :: j in s.abandoned && j.inFlight ==> j.id in ids)
  }

  predicate NoAbandonedWrite(s: Session) {
    forall j :: j in s.abandoned ==> !j.inFlight
  }

  /** Purge `number` waits for every write in flight; once it has dropped the document there is none. */
  predicate Guarded(s: Session, number: nat, awaits: set<nat>) {
    && s.tombstone
    && number < s.purgesBegun
    && InFlightWithin(s, awaits)
    && (forall p :: p in s.purges && p.number == number ==>
          p.awaits == awaits && (p.dropped ==> InFlightWithin(s, {})))
  }

  predicate Gone(s: Session) {
    s.row.None? && s.tombstone && InFlightWithin(s, {})
  }

  lemma {:induction false} TailsKeepWrites(c: Config, s: Session, ts: seq<Tail>, ids: set<nat>)
    requires s.doc.Some? && InFlightWithin(s, ids)
    ensures
      var t := RunTails(c, s, ts);
      && InFlightWithin(t, ids) && t.tombstone == s.tombstone && t.row == s.row
      && t.purges == s.purges && t.purgesBegun == s.purgesBegun
    decreases |ts|
  {
    if ts == [] {
    } else {
      TailsKeepWrites(c, RunTail(c, s, ts[0]), ts[1..], ids);
    }
  }

  /** Under a tombstone no step adds to the writes in flight, and only such a write touches the row. */
  lemma StepKeepsWrites(c: Config, s: Session, e: Event, ids: set<nat>)
    requires Enabled(s, e) && !e.TombstoneExpire? && s.tombstone && InFlightWithin(s, ids)
    ensures
      var t := Step(c, s, e);
      && t.tombstone && InFlightWithin(t, ids)
      && (t.row != s.row ==> t.row.None? || exists j :: (j in s.queue || j in s.abandoned) && j.inFlight)
  {
    if e.LoadFinish? {
      TailsKeepWrites(c, Loaded(s), s.load.value.waiting, ids);
    } else if e.WriteDone? {
      var j := JobAt(s, e.slot);
      assert j in s.queue || j in s.abandoned;
    }
  }

  lemma StepKeepsPurges(c: Config, s: Session, e: Event)
    requires Enabled(s, e)
    ensures
      var t := Step(c, s, e);
      && s.purgesBegun <= t.purgesBegun
      && forall p :: p in t.purges ==>
           || p in s.purges
           || p == Purge(s.purgesBegun, Ids(s.queue), false)
           || (e.PurgeDrop? && p == s.purges[e.index].(dropped := true))
  {
    if e.LoadFinish? {
      TailsKeepWrites(c, Loaded(s), s.load.value.waiting,
                      Ids(s.queue) + Ids(s.abandoned));
    }
  }

  lemma StepKeepsGuard(c: Config, s: Session, e: Event, number: nat, awaits: set<nat>)
    requires Guarded(s, number, awaits) && Enabled(s, e) && !e.TombstoneExpire?
    ensures Guarded(Step(c, s, e), number, awaits)
  {
    var t := Step(c, s, e);
    StepKeepsWrites(c, s, e, awaits);
    StepKeepsPurges(c, s, e);
    if InFlightWithin(s, {}) {
      StepKeepsWrites(c, s, e, {});
    }
    if e.PurgeDrop? && s.purges[e.index].number == number {
      assert s.purges[e.index] in s.purges;
      assert forall j :: j in s.queue || j in s.abandoned ==> j in s.queue + s.abandoned;
      assert InFlightWithin(s, {});
    }
  }

  lemma {:induction false} RunKeepsGuard(c: Config, s: Session, es: seq<Event>, number: nat, awaits: set<nat>)
    requires Guarded(s, number, awaits) && Legal(c, s, es) && NoExpiry(es)
    ensures Guarded(Exec(c, s, es), number, awaits)
    decreases |es|
  {
    if es == [] {
    } else {
      StepKeepsGuard(c, s, es[0], number, awaits);
      RunKeepsGuard(c, Step(c, s, es[0]), es[1..], number, awaits);
    }
  }

  lemma {:induction false} RunKeepsGone(c: Config, s: Session, es: seq<Event>)
    requires Gone(s) && Legal(c, s, es) && NoExpiry(es)
    ensures Gone(Exec(c, s, es))
    decreases |es|
  {
    if es == [] {
    } else {
      StepKeepsWrites(c, s, es[0], {});
      RunKeepsGone(c, Step(c, s, es[0]), es[1..]);
    }
  }

  /** The purge begun in `s` deletes the row as event `i` after `es`; afterwards `es'` happens. */
  predicate PurgedRun(c: Config, s: Session, es: seq<Event>, i: nat, es': seq<Event>) {
    && Legal(c, BeginPurge(s), es) && NoExpiry(es) && NoExpiry(es')
    && var t := Exec(c, BeginPurge(s), es);
    && i < |t.purges| && t.purges[i].number == s.purgesBegun && t.purges[i].dropped
    && Legal(c, DeleteRow(t, i), es')
  }

  predicate Resurrects(c: Config, s: Session, es: seq<Event>, i: nat, es': seq<Event>) {
    && PurgedRun(c, s, es, i, es')
    && Exec(c, DeleteRow(Exec(c, BeginPurge(s), es), i), es').row.Some?
  }

  predicate NumbersBelow(s: Session) {
    forall p :: p in s.purges ==> p.number < s.purgesBegun
  }

  /**
   * Main result. If no abandoned write is in flight when a purge begins, then after that
   * purge has deleted the row it stays deleted, for every interleaving of late updates,
   * armed timers, queued states, releases and further purges, until a tombstone timer fires.
   */
  lemma PurgeNeverResurrects(c: Config, s: Session, es: seq<Event>, i: nat, es': seq<Event>)
    requires NumbersBelow(s) && NoAbandonedWrite(s) && PurgedRun(c, s, es, i, es')
    ensures Exec(c, DeleteRow(Exec(c, BeginPurge(s), es), i), es').row.None?
  {
    var awaits := Ids(s.queue);
    RunKeepsGuard(c, BeginPurge(s), es, s.purgesBegun, awaits);
    var t := Exec(c, BeginPurge(s), es);
    assert t.purges[i] in t.purges;
    assert Gone(DeleteRow(t, i));
    RunKeepsGone(c, DeleteRow(t, i), es');
  }

  /** What every reachable state satisfies about job and purge numbers. */
  ghost predicate Numbered(s: Session) {
    && NumbersBelow(s)
    && Ids(s.queue) !! Ids(s.abandoned)
    && (forall j :: j in s.queue || j in s.abandoned ==> j.id < s.nextJob)
  }

  lemma IdsConcat(a: seq<Job>, b: seq<Job>)
    ensures Ids(a + b) == Ids(a) + Ids(b)
  {
    assert forall j :: j in a + b <==> j in a || j in b;
  }

  lemma TailKeepsNumbered(c: Config, s: Session, t: Tail)
    requires s.doc.Some? && Numbered(s)
    ensures Numbered(RunTail(c, s, t))
  {
    IdsConcat(s.queue, [Job(s.nextJob, RunTail(c, s, t).doc.value, false)]);
  }

  lemma {:induction false} TailsKeepNumbered(c: Config, s: Session, ts: seq<Tail>)
    requires s.doc.Some? && Numbered(s)
    ensures Numbered(RunTails(c, s, ts))
    decreases |ts|
  {
    if ts == [] {
    } else {
      TailKeepsNumbered(c, s, ts[0]);
      TailsKeepNumbered(c, RunTail(c, s, ts[0]), ts[1..]);
    }
  }

  lemma JobEventKeepsNumbered(s: Session, e: Event)
    requires Numbered(s) && Enabled(s, e) && (e.JobStart? || e.WriteDone?)
    ensures e.JobStart? ==> Numbered(StartJob(s, e.slot))
    ensures e.WriteDone? ==> Numbered(FinishWrite(s, e.slot, e.ok))
  {
    assert JobAt(s, e.slot) in s.queue || JobAt(s, e.slot) in s.abandoned;
    if e.JobStart? {
      var t := StartJob(s, e.slot);
      assert Ids(t.queue) <= Ids(s.queue);
      assert Ids(t.abandoned) <= Ids(s.abandoned);
    } else {
      var t := FinishWrite(s, e.slot, e.ok);
      assert Ids(t.queue) <= Ids(s.queue);
      assert Ids(t.abandoned) <= Ids(s.abandoned);
    }
  }

  lemma StepKeepsNumbered(c: Config, s: Session, e: Event)
    requires Numbered(s) && Enabled(s, e)
    ensures Numbered(Step(c, s, e))
  {
    StepKeepsPurges(c, s, e);
    IdsConcat(s.abandoned, s.queue);
    if s.pending.Some? {
      IdsConcat(s.queue, [Job(s.nextJob, s.pending.value, false)]);
    }
    if e.JobStart? || e.WriteDone? {
      JobEventKeepsNumbered(s, e);
    } else if e.LoadFinish? {
      TailsKeepNumbered(c, Loaded(s), s.load.value.waiting);
    } else if e.Call? && s.doc.Some? {
      TailKeepsNumbered(c, Touch(s), e.tail);
    } else if e.PurgeDrop? {
      assert s.purges[e.index] in s.purges;
    }
  }

  lemma {:induction false} RunKeepsNumbered(c: Config, s: Session, es: seq<Event>)
    requires Numbered(s) && Legal(c, s, es)
    ensures Numbered(Exec(c, s, es))
    decreases |es|
  {
    if es == [] {
    } else {
      StepKeepsNumbered(c, s, es[0]);
      RunKeepsNumbered(c, Step(c, s, es[0]), es[1..]);
    }
  }

  lemma ReachableIsNumbered(c: Config, row: Option<Doc>, es: seq<Event>)
    requires Legal(c, Fresh(row), es)
    ensures Numbered(Exec(c, Fresh(row), es))
  {
    RunKeepsNumbered(c, Fresh(row), es);
  }

  /** Under a tombstone the queue can always run empty without touching abandoned writes or purges. */
  lemma Drain(c: Config, s: Session) returns (es: seq<Event>)
    requires s.tombstone
    ensures Legal(c, s, es) && NoExpiry(es)
    ensures
      var t := Exec(c, s, es);
      t.queue == [] && t.abandoned == s.abandoned && t.tombstone
      && t.purges == s.purges && t.purgesBegun == s.purgesBegun
    decreases |s.queue|
  {
    if s.queue == [] {
      es := [];
    } else {
      var e := if s.queue[0].inFlight then WriteDone(Head, true) else JobStart(Head);
      var rest := Drain(c, Step(c, s, e));
      es := [e] + rest;
      ExecCons(c, s, e, rest);
    }
  }

  /** The converse: a write abandoned in flight before the purge outlives it and re-creates the row. */
  lemma AbandonedWriteResurrects(c: Config, s: Session, k: nat) returns (es: seq<Event>, i: nat, es': seq<Event>)
    requires Numbered(s) && k < |s.abandoned| && s.abandoned[k].inFlight
    ensures Resurrects(c, s, es, i, es')
  {
    var p := BeginPurge(s);
    var drained := Drain(c, p);
    var q := Exec(c, p, drained);
    i := |s.purges|;
    assert Done(q, q.purges[i].awaits) by {
      assert forall j :: j in q.queue + q.abandoned ==> j in s.abandoned && j.id in Ids(s.abandoned);
    }
    assert [PurgeDrop(i)][1..] == [];
    assert Legal(c, q, [PurgeDrop(i)]);
    ExecConcat(c, p, drained, [PurgeDrop(i)]);
    es := drained + [PurgeDrop(i)];
    var t := Exec(c, p, es);
    assert t == DropForPurge(q, i);
    assert t.abandoned[k] == s.abandoned[k];
    var e := WriteDone(Abandoned(k), true);
    es' := [e];
    assert es'[1..] == [];
    assert Enabled(DeleteRow(t, i), e);
  }

  /** A purge is final for every continuation if and only if no abandoned write is in flight when it begins. */
  lemma PurgeIsFinalIff(c: Config, s: Session)
    requires Numbered(s)
    ensures (forall es, i, es' :: !Resurrects(c, s, es, i, es')) <==> NoAbandonedWrite(s)
  {
    if NoAbandonedWrite(s) {
      forall es, i, es' ensures !Resurrects(c, s, es, i, es') {
        if PurgedRun(c, s, es, i, es') {
          PurgeNeverResurrects(c, s, es, i, es');
        }
      }
    } else {
      var j :| j in s.abandoned && j.inFlight;
      var k :| 0 <= k < |s.abandoned| && s.abandoned[k] == j;
      var es, i, es' := AbandonedWriteResurrects(c, s, k);
    }
  }

  /** A live document whose only write is in flight, with nothing scheduled and no purge around. */
  ghost predicate OneSlowWrite(s: Session, job: Job) {
    && s.doc.Some? && s.queue == [job] && job.inFlight && job.id < s.nextJob
    && s.pending.None? && !s.timer && s.abandoned == [] && s.purges == [] && s.tombstoneTimers == 0
  }

  /** The tombstone expires while the purge still waits for that write, with a late update behind it. */
  lemma TombstoneExpiresTooEarly(c: Config, s: Session, job: Job, update: Doc)
    requires OneSlowWrite(s, job) && c.size(s.doc.value + update) <= c.maxBytes
    ensures
      var es := [PurgeBegin, Call(Apply(update)), TimerFire, TombstoneExpire];
      Legal(c, s, es)
      && var t := Exec(c, s, es);
      && t.queue == [job, Job(s.nextJob, s.doc.value + update, false)] && t.abandoned == [] && !t.tombstone
      && t.purges == [Purge(s.purgesBegun, {job.id}, false)]
  {
    var d := s.doc.value + update;
    var late := Job(s.nextJob, d, false);
    var purge := Purge(s.purgesBegun, {job.id}, false);
    assert Ids([job]) == {job.id};
    var s1 := s.(tombstone := true, tombstoneTimers := 1, purges := [purge], purgesBegun := s.purgesBegun + 1);
    assert s.purges + [purge] == [purge];
    ExecThen(c, s, [], PurgeBegin, s1);
    var s2 := s1.(doc := Some(d), accepted := s.accepted + update, generation := s.generation + 2,
                  activity := s.activity + 2, pending := Some(d), timer := true);
    ExecThen(c, s, [PurgeBegin], Call(Apply(update)), s2);
    var s3 := s2.(pending := None, timer := false, queue := [job, late], nextJob := s.nextJob + 1);
    assert [job] + [late] == [job, late];
    assert [] + [PurgeBegin] == [PurgeBegin];
    assert [PurgeBegin] + [Call(Apply(update))] == [PurgeBegin, Call(Apply(update))];
    ExecThen(c, s, [PurgeBegin, Call(Apply(update))], TimerFire, s3);
    assert [PurgeBegin, Call(Apply(update))] + [TimerFire] == [PurgeBegin, Call(Apply(update)), TimerFire];
    ExecThen(c, s, [PurgeBegin, Call(Apply(update)), TimerFire], TombstoneExpire,
             s3.(tombstone := false, tombstoneTimers := 0));
    assert [PurgeBegin, Call(Apply(update)), TimerFire] + [TombstoneExpire]
        == [PurgeBegin, Call(Apply(update)), TimerFire, TombstoneExpire];
  }

  /**
   * The condition can fail: a write slower than the tombstone, with one late update behind it,
   * leaves an abandoned write in flight when the purge drops the document.
   */
  lemma SlowWriteIsAbandoned(c: Config, s: Session, job: Job, update: Doc)
    requires OneSlowWrite(s, job) && c.size(s.doc.value + update) <= c.maxBytes
    ensures
      var es := [PurgeBegin, Call(Apply(update)), TimerFire, TombstoneExpire]
                + [WriteDone(Head, true)] + [JobStart(Head)] + [PurgeDrop(0)];
      Legal(c, s, es) && !NoAbandonedWrite(Exec(c, s, es))
  {
    var late := Job(s.nextJob, s.doc.value + update, false);
    var es := [PurgeBegin, Call(Apply(update)), TimerFire, TombstoneExpire];
    TombstoneExpiresTooEarly(c, s, job, update);
    var s5 := Step(c, Exec(c, s, es), WriteDone(Head, true));
    ExecThen(c, s, es, WriteDone(Head, true), s5);
    assert s5.queue == [late];
    var s6 := Step(c, s5, JobStart(Head));
    assert s6.queue == [late.(inFlight := true)];
    ExecThen(c, s, es + [WriteDone(Head, true)], JobStart(Head), s6);
    var s7 := Step(c, s6, PurgeDrop(0));
    ExecThen(c, s, es + [WriteDone(Head, true)] + [JobStart(Head)], PurgeDrop(0), s7);
    assert s7.abandoned[0] == late.(inFlight := true);
  }

  /** A purge cancels what is scheduled when it begins, and leaves no document, counter or chain when it drops it. */
  lemma PurgeLeavesNothing(s: Session, i: nat)
    ensures var t := BeginPurge(s); t.pending.None? && !t.timer && t.tombstone && t.tombstoneTimers == s.tombstoneTimers + 1
    ensures i < |s.purges| ==>
      var t := DropForPurge(s, i);
      && t.doc.None? && t.pending.None? && !t.timer && t.queue == [] && t.abandoned == s.abandoned + s.queue
      && t.mirrored == 0 && t.generation == 0 && t.row == s.row
  {
  }

  // The end of the protection.

  /** How far the row is from being written again. */
  function Distance(s: Session): nat {
    if s.row.Some? then 0
    else if s.queue != [] then (if s.queue[0].inFlight then 1 else 2)
    else if s.doc.Some? then 3
    else if s.load.None? then 6
    else if s.load.value.read.None? then 5
    else 4
  }

  /** The event that brings it nearer; a due release runs first. */
  function Nearer(s: Session): Event
    requires s.row.None?
  {
    if s.queue != [] then (if s.queue[0].inFlight then WriteDone(Head, true) else JobStart(Head))
    else if s.doc.Some? || s.load.None? then Call(Mirror(None, {}))
    else if s.load.value.read.None? then LoadRead
    else LoadFinish
  }

  lemma NearerIsNearer(c: Config, s: Session)
    requires s.row.None? && !s.tombstone && (s.queue == [] ==> Settled(s))
    ensures Enabled(s, Nearer(s))
    ensures
      var t := Step(c, s, Nearer(s));
      Distance(t) < Distance(s) && !t.tombstone && t.releases == s.releases
  {
    if Nearer(s).LoadFinish? {
      TailsKeepReleases(c, Loaded(s), s.load.value.waiting);
    }
  }

  lemma {:induction false} TailsKeepReleases(c: Config, s: Session, ts: seq<Tail>)
    requires s.doc.Some?
    ensures var t := RunTails(c, s, ts); t.releases == s.releases && t.tombstone == s.tombstone && t.doc.Some? && t.row == s.row
    decreases |ts|
  {
    if ts == [] {
    } else {
      TailsKeepReleases(c, RunTail(c, s, ts[0]), ts[1..]);
    }
  }

  lemma {:induction false} RowCanReturn(c: Config, s: Session) returns (es: seq<Event>)
    requires !s.tombstone
    ensures NoExpiry(es) && Legal(c, s, es) && Exec(c, s, es).row.Some?
    decreases |s.releases|, Distance(s)
  {
    if s.row.Some? {
      es := [];
    } else {
      var e := Nearer(s);
      if s.queue == [] && !Settled(s) {
        var r :| r in s.releases && Done(s, r.awaits);
        var i :| 0 <= i < |s.releases| && s.releases[i] == r;
        e := ReleaseCheck(i);
      } else {
        NearerIsNearer(c, s);
      }
      var rest := RowCanReturn(c, Step(c, s, e));
      es := [e] + rest;
      ExecCons(c, s, e, rest);
    }
  }

  /**
   * The tombstone is all there is: from every state with a tombstone timer armed, however many other
   * purges have set the tombstone since, that timer can fire and the row be written again.
   */
  lemma ExpiryEndsProtection(c: Config, s: Session) returns (es: seq<Event>)
    requires s.tombstoneTimers > 0
    ensures Legal(c, s, [TombstoneExpire] + es) && NoExpiry(es)
    ensures Exec(c, s, [TombstoneExpire] + es).row.Some?
  {
    es := RowCanReturn(c, Step(c, s, TombstoneExpire));
    ExecCons(c, s, TombstoneExpire, es);
  }
}
