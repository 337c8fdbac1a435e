/**
 * Durability of the live document over every run without a purge: the live document
 * is what is stored, pending and queued together, and a release drops nothing that a
 * later load would not bring back, failed writes excepted.
 */
module YjsDurability {
  import opened Crdt
  import opened Prelude
  import opened YjsDocument

  predicate NoPurge(es: seq<Event>) {
    forall e :: e in es ==> !e.PurgeBegin?
  }

  predicate NoFailedWrite(es: seq<Event>) {
    forall e :: e in es ==> !(e.WriteDone? && !e.ok)
  }

  /** The operations of all queued states. */
  function Queued(q: seq<Job>): Doc {
    if q == [] then {} else q[0].state + Queued(q[1..])
  }

  /** Each queued state contains the one before it, starting from `low`, and none exceeds `high`. */
  predicate Growing(low: Doc, q: seq<Job>, high: Doc) {
    && (forall i :: 0 <= i < |q| ==> low <= q[i].state <= high)
    && (forall i, j :: 0 <= i < j < |q| ==> q[i].state <= q[j].state)
  }

  /** With a live document: nothing of it is missing from store, failed write, queue and pending state. */
  predicate LiveInv(s: Session)
    requires s.doc.Some?
  {
    var d := s.doc.value;
    && s.load.None?
    && s.generation >= 1
    && Stored(s) + s.unsaved <= d
    && Growing(s.unsaved, s.queue, d)
    && (s.pending.Some? ==> s.pending.value == d)
    && (s.pending.None? && s.queue != [] ==> s.queue[|s.queue| - 1].state == d)
    && (s.pending.None? && s.queue == [] ==> d == Stored(s) + s.unsaved)
    && s.accepted <= d + s.dropped
    && (forall r :: r in s.releases ==> LiveReleaseInv(s, r))
  }

  /** A release that saw the current generation finds nothing pending and waits for the whole queue. */
  predicate LiveReleaseInv(s: Session, r: Release) {
    && 1 <= r.generation <= s.generation
    && (r.began < s.activity ==> r.generation < s.generation)
    && (r.generation == s.generation ==> s.pending.None? && Ids(s.queue) <= r.awaits)
  }

  /** Without a live document nothing is pending or queued, and every release is due. */
  predicate AbsentInv(s: Session) {
    && s.pending.None? && s.queue == [] && s.unsaved == {} && s.mirrored == 0
    && (s.load.Some? ==> s.generation >= 1 && (s.load.value.read.Some? ==> s.load.value.read.value == Stored(s)))
    && s.accepted <= Stored(s) + s.dropped
    && (forall r :: r in s.releases && r.began < s.activity ==>
          s.load.Some? || (r.generation != s.generation && r.generation >= 1))
  }

  predicate Inv(s: Session) {
    && (s.timer <==> s.pending.Some?)
    && s.abandoned == [] && s.purges == [] && !s.tombstone
    && (forall r :: r in s.releases ==> r.began <= s.activity)
    && (if s.doc.Some? then LiveInv(s) else AbsentInv(s))
  }

  lemma TailKeepsInv(c: Config, s: Session, t: Tail)
    requires Inv(s) && s.doc.Some?
    ensures Inv(RunTail(c, s, t)) && RunTail(c, s, t).doc.Some?
    ensures s.doc.value <= RunTail(c, s, t).doc.value
  {
  }

  lemma {:induction false} TailsKeepInv(c: Config, s: Session, ts: seq<Tail>)
    requires Inv(s) && s.doc.Some?
    ensures Inv(RunTails(c, s, ts)) && RunTails(c, s, ts).doc.Some?
    decreases |ts|
  {
    if ts == [] {
    } else {
      TailKeepsInv(c, s, ts[0]);
      TailsKeepInv(c, RunTail(c, s, ts[0]), ts[1..]);
    }
  }

  /** The highest revision mirrored so far, starting from `r`. */
  function HighestRevision(r: nat, ts: seq<Tail>): nat
    decreases |ts|
  {
    if ts == [] then r
    else if ts[0].Mirror? then HighestRevision(Max(r, ts[0].revision.GetOr(0)), ts[1..])
    else HighestRevision(r, ts[1..])
  }

  predicate IsMirrorOf(t: Tail, revision: nat) {
    t.Mirror? && t.revision == Some(revision)
  }

  /** It is the start or one of the revisions, and none of them is higher: the order of arrival is irrelevant. */
  lemma {:induction false} HighestRevisionIsMax(r: nat, ts: seq<Tail>)
    ensures HighestRevision(r, ts) == r || exists t :: t in ts && IsMirrorOf(t, HighestRevision(r, ts))
    ensures r <= HighestRevision(r, ts)
    ensures forall t, n: nat :: t in ts && IsMirrorOf(t, n) ==> n <= HighestRevision(r, ts)
    decreases |ts|
  {
    if ts == [] {
    } else {
      var r' := if ts[0].Mirror? then Max(r, ts[0].revision.GetOr(0)) else r;
      HighestRevisionIsMax(r', ts[1..]);
      assert HighestRevision(r, ts) == HighestRevision(r', ts[1..]);
      if HighestRevision(r, ts) == r' != r {
        assert ts[0] in ts && IsMirrorOf(ts[0], r');
      }
    }
  }

  lemma {:induction false} TailsMirrorHighest(c: Config, s: Session, ts: seq<Tail>)
    requires s.doc.Some?
    ensures RunTails(c, s, ts).mirrored == HighestRevision(s.mirrored, ts)
    decreases |ts|
  {
    if ts == [] {
    } else {
      TailsMirrorHighest(c, RunTail(c, s, ts[0]), ts[1..]);
    }
  }

  /** The document stays in memory throughout the run. */
  predicate OneLifetime(c: Config, s: Session, es: seq<Event>)
    requires Legal(c, s, es)
    decreases |es|
  {
    s.doc.Some? && (es == [] || OneLifetime(c, Step(c, s, es[0]), es[1..]))
  }

  /** What the calls of the run did with the document. */
  function TailsOf(es: seq<Event>): seq<Tail>
    decreases |es|
  {
    if es == [] then [] else (if es[0].Call? then [es[0].tail] else []) + TailsOf(es[1..])
  }

  lemma CallKeepsInv(c: Config, s: Session, t: Tail)
    requires Inv(s)
    ensures Inv(GetDocument(c, s, t))
  {
    if s.doc.Some? {
      assert Inv(Touch(s));
      TailKeepsInv(c, Touch(s), t);
    }
  }

  lemma WriteKeepsInv(s: Session, ok: bool)
    requires Inv(s) && s.queue != []
    ensures Inv(FinishWrite(s, Head, ok))
  {
    var s' := FinishWrite(s, Head, ok);
    assert forall j :: j in s'.queue ==> j in s.queue;
    assert s.queue[0].state <= s.doc.value;
  }

  lemma JobStartKeepsInv(s: Session)
    requires Inv(s) && s.queue != []
    ensures Inv(StartJob(s, Head))
  {
    var s' := StartJob(s, Head);
    assert s'.queue[1..] == s.queue[1..];
    assert Ids(s'.queue) == Ids(s.queue) by {
      assert s.queue == [s.queue[0]] + s.queue[1..];
      assert s'.queue == [s'.queue[0]] + s.queue[1..];
    }
  }

  lemma FireTimerKeepsInv(s: Session)
    requires Inv(s) && s.timer
    ensures Inv(FireTimer(s))
  {
  }

  lemma BeginReleaseKeepsInv(s: Session)
    requires Inv(s)
    ensures Inv(BeginRelease(s))
  {
    var s' := BeginRelease(s);
    var r := s'.releases[|s.releases|];
    assert s.doc.Some? ==> LiveReleaseInv(s', r);
    assert forall r' :: r' in s'.releases ==> r' in s.releases || r' == r;
  }

  /** A release passes its test only when nothing is left to write. */
  lemma ReleasableMeansSaved(s: Session, r: Release)
    requires Inv(s) && r in s.releases && Done(s, r.awaits) && Releasable(s, r)
    ensures s.queue == []
    ensures s.doc.Some? ==> s.doc.value == Stored(s) + s.unsaved
  {
    assert s.queue != [] ==> s.queue[0].id in Ids(s.queue);
  }

  lemma CheckReleaseKeepsInv(s: Session, i: nat)
    requires Inv(s) && Enabled(s, ReleaseCheck(i))
    ensures Inv(CheckRelease(s, i))
  {
    if Releasable(s, s.releases[i]) {
      ReleasableMeansSaved(s, s.releases[i]);
    }
    assert forall r :: r in RemoveAt(s.releases, i) ==> r in s.releases;
  }

  lemma LoadedKeepsInv(s: Session)
    requires Inv(s) && Enabled(s, LoadFinish)
    ensures Inv(Loaded(s))
  {
    assert s.queue + s.abandoned == [];
  }

  lemma LoadEndKeepsInv(c: Config, s: Session, e: Event)
    requires Inv(s) && Enabled(s, e) && (e.LoadFinish? || e.LoadFail?)
    ensures Inv(Step(c, s, e))
  {
    assert s.queue + s.abandoned == [];
    if e.LoadFinish? {
      LoadedKeepsInv(s);
      TailsKeepInv(c, Loaded(s), s.load.value.waiting);
    }
  }

  lemma StepKeepsInv(c: Config, s: Session, e: Event)
    requires Inv(s) && Enabled(s, e) && !e.PurgeBegin?
    ensures Inv(Step(c, s, e))
  {
    match e
    case Call(t) => CallKeepsInv(c, s, t);
    case LoadRead =>
    case LoadFinish => LoadEndKeepsInv(c, s, e);
    case LoadFail => LoadEndKeepsInv(c, s, e);
    case TimerFire => FireTimerKeepsInv(s);
    case JobStart(_) => JobStartKeepsInv(s);
    case WriteDone(_, ok) => WriteKeepsInv(s, ok);
    case ReleaseBegin => BeginReleaseKeepsInv(s);
    case ReleaseCheck(i) => CheckReleaseKeepsInv(s, i);
    case PurgeDrop(_) =>
    case RowDelete(_) =>
    case TombstoneExpire =>
  }

  lemma {:induction false} RunKeepsInv(c: Config, s: Session, es: seq<Event>)
    requires Inv(s) && Legal(c, s, es) && NoPurge(es)
    ensures Inv(Exec(c, s, es))
    decreases |es|
  {
    if es == [] {
    } else {
      StepKeepsInv(c, s, es[0]);
      RunKeepsInv(c, Step(c, s, es[0]), es[1..]);
    }
  }

  /**
   * Within one document lifetime the mirrored revision is the highest one mirrored, in any arrival
   * order and whatever else happens in between.
   */
  lemma {:induction false} MirroredIsHighest(c: Config, s: Session, es: seq<Event>)
    requires Inv(s) && Legal(c, s, es) && NoPurge(es) && OneLifetime(c, s, es)
    ensures Exec(c, s, es).mirrored == HighestRevision(s.mirrored, TailsOf(es))
    decreases |es|
  {
    if es == [] {
    } else {
      StepKeepsInv(c, s, es[0]);
      var tails := if es[0].Call? then [es[0].tail] else [];
      assert Step(c, s, es[0]).mirrored == HighestRevision(s.mirrored, tails);
      MirroredIsHighest(c, Step(c, s, es[0]), es[1..]);
      assert TailsOf(es) == tails + TailsOf(es[1..]);
      assert (tails + TailsOf(es[1..]))[|tails|..] == TailsOf(es[1..]);
    }
  }

  /** The callers waiting for a load are served in one go, to the same effect. */
  lemma LoadMirrorsHighest(c: Config, s: Session)
    requires Enabled(s, LoadFinish)
    ensures FinishLoad(c, s).mirrored == HighestRevision(s.mirrored, s.load.value.waiting)
  {
    TailsMirrorHighest(c, Loaded(s), s.load.value.waiting);
  }

  lemma {:induction false} QueuedIsLast(low: Doc, q: seq<Job>, high: Doc)
    requires Growing(low, q, high) && q != []
    ensures Queued(q) == q[|q| - 1].state
  {
    if |q| > 1 {
      QueuedIsLast(low, q[1..], high);
    }
  }

  function Pending(s: Session): Doc {
    s.pending.GetOr({})
  }

  /**
   * Main result. In every reachable state, for any interleaving of loads, updates, mirrors,
   * timers, writes (successful or not) and releases: the live document is exactly what is
   * stored, pending and queued, plus the state of the last write if that one failed; a timer
   * is armed exactly when something is pending; and without a live document nothing is
   * pending or queued.
   */
  lemma LiveDocumentIsCovered(c: Config, row: Option<Doc>, es: seq<Event>)
    requires Legal(c, Fresh(row), es) && NoPurge(es)
    ensures
      var s := Exec(c, Fresh(row), es);
      && (s.doc.Some? ==> s.doc.value == Stored(s) + s.unsaved + Pending(s) + Queued(s.queue))
      && (s.timer <==> s.pending.Some?)
      && (s.doc.None? ==> s.pending.None? && s.queue == [])
  {
    RunKeepsInv(c, Fresh(row), es);
    var s := Exec(c, Fresh(row), es);
    if s.doc.Some? && s.queue != [] {
      QueuedIsLast(s.unsaved, s.queue, s.doc.value);
    }
  }

  lemma {:induction false} NothingUnsaved(c: Config, s: Session, es: seq<Event>)
    requires Inv(s) && Legal(c, s, es) && NoPurge(es) && NoFailedWrite(es)
    requires s.unsaved == {} && s.dropped == {}
    ensures var t := Exec(c, s, es); t.unsaved == {} && t.dropped == {}
    decreases |es|
  {
    if es == [] {
    } else {
      StepKeepsInv(c, s, es[0]);
      var s1 := Step(c, s, es[0]);
      assert s1.unsaved == {} && s1.dropped == {} by { StepSavesAll(c, s, es[0]); }
      NothingUnsaved(c, s1, es[1..]);
    }
  }

  lemma {:induction false} TailsKeepHistory(c: Config, s: Session, ts: seq<Tail>)
    requires s.doc.Some?
    ensures RunTails(c, s, ts).unsaved == s.unsaved && RunTails(c, s, ts).dropped == s.dropped
    ensures RunTails(c, s, ts).row == s.row
    decreases |ts|
  {
    if ts == [] {
    } else {
      TailsKeepHistory(c, RunTail(c, s, ts[0]), ts[1..]);
    }
  }

  lemma StepSavesAll(c: Config, s: Session, e: Event)
    requires Enabled(s, e) && !(e.WriteDone? && !e.ok)
    requires s.unsaved == {} && s.dropped == {}
    ensures Step(c, s, e).unsaved == {} && Step(c, s, e).dropped == {}
  {
    if e.LoadFinish? {
      TailsKeepHistory(c, Loaded(s), s.load.value.waiting);
    }
  }

  /** What the server has of a session: the live document or, without one, the row. */
  function View(s: Session): Doc {
    if s.doc.Some? then s.doc.value else Stored(s)
  }

  /**
   * In every run, failed writes included, each accepted operation is in the live document or, when
   * there is none, in the row, except for what releases have dropped.
   */
  lemma AcceptedIsKept(c: Config, row: Option<Doc>, es: seq<Event>)
    requires Legal(c, Fresh(row), es) && NoPurge(es)
    ensures var s := Exec(c, Fresh(row), es); s.accepted <= View(s) + s.dropped
  {
    RunKeepsInv(c, Fresh(row), es);
  }

  /** With successful writes none is ever lost, across any number of releases and reloads. */
  lemma AcceptedIsDurable(c: Config, row: Option<Doc>, es: seq<Event>)
    requires Legal(c, Fresh(row), es) && NoPurge(es) && NoFailedWrite(es)
    ensures var s := Exec(c, Fresh(row), es); s.accepted <= View(s)
  {
    AcceptedIsKept(c, row, es);
    NothingUnsaved(c, Fresh(row), es);
  }

  lemma TailKeepsView(c: Config, s: Session, t: Tail)
    requires s.doc.Some?
    ensures View(s) <= View(RunTail(c, s, t)) <= View(s) + RunTail(c, s, t).accepted
    ensures s.accepted <= RunTail(c, s, t).accepted && RunTail(c, s, t).dropped == s.dropped
  {
  }

  lemma {:induction false} TailsKeepView(c: Config, s: Session, ts: seq<Tail>)
    requires s.doc.Some?
    ensures View(s) <= View(RunTails(c, s, ts)) <= View(s) + RunTails(c, s, ts).accepted
    ensures s.accepted <= RunTails(c, s, ts).accepted && RunTails(c, s, ts).dropped == s.dropped
    decreases |ts|
  {
    if ts == [] {
    } else {
      TailKeepsView(c, s, ts[0]);
      TailsKeepView(c, RunTail(c, s, ts[0]), ts[1..]);
    }
  }

  /**
   * Seen by clients that come and go, the server's document grows by accepted operations only, and
   * shrinks exactly when a release drops what a failed write did not save, by exactly that.
   */
  lemma ViewShrinksOnlyByDrops(c: Config, s: Session, e: Event)
    requires Inv(s) && Enabled(s, e) && !e.PurgeBegin?
    ensures
      var t := Step(c, s, e);
      && View(t) <= View(s) + t.accepted
      && View(s) - View(t) ==
         if e.ReleaseCheck? && s.doc.Some? && Releasable(s, s.releases[e.index]) then s.unsaved - Stored(s) else {}
  {
    match e
    case LoadFinish => TailsKeepView(c, Loaded(s), s.load.value.waiting);
    case Call(t) =>
      if s.doc.Some? {
        TailKeepsView(c, Touch(s), t);
      }
    case ReleaseCheck(i) =>
      if Releasable(s, s.releases[i]) {
        ReleasableMeansSaved(s, s.releases[i]);
      }
    case WriteDone(slot, ok) => assert s.queue != [] && s.doc.Some?;
    case _ =>
  }

  /** So without failed writes it only grows, which is what Convergence takes of the server. */
  lemma {:induction false} ViewOnlyGrows(c: Config, s: Session, es: seq<Event>)
    requires Inv(s) && s.unsaved == {} && s.dropped == {}
    requires Legal(c, s, es) && NoPurge(es) && NoFailedWrite(es)
    ensures View(s) <= View(Exec(c, s, es))
    decreases |es|
  {
    if es == [] {
    } else {
      ViewShrinksOnlyByDrops(c, s, es[0]);
      StepKeepsInv(c, s, es[0]);
      StepSavesAll(c, s, es[0]);
      ViewOnlyGrows(c, Step(c, s, es[0]), es[1..]);
    }
  }

  /**
   * An answer is current: it holds every operation accepted so far that no release has dropped,
   * the caller's own included, and everything stored, not just the row as last written.
   */
  predicate CurrentReply(s: Session, t: Tail, r: Reply) {
    r.State? ==> s.accepted - s.dropped <= r.doc && Stored(s) <= r.doc && (t.Apply? ==> t.update <= r.doc)
  }

  lemma TailIsAnswered(c: Config, s: Session, t: Tail)
    requires Inv(s) && s.doc.Some?
    ensures CurrentReply(s, t, TailReply(c, s, t))
    ensures TailReply(c, s, t).State? ==> TailReply(c, s, t) == State(RunTail(c, s, t).doc.value)
  {
    TailKeepsInv(c, s, t);
  }

  /** The session when the caller waiting at `j` gets its turn. */
  function AtTurn(c: Config, s: Session, ts: seq<Tail>, j: nat): Session
    requires s.doc.Some? && j <= |ts|
  {
    RunTails(c, s, ts[..j])
  }

  lemma {:induction false} TailsAreAnswered(c: Config, s: Session, ts: seq<Tail>, j: nat)
    requires Inv(s) && s.doc.Some? && j < |ts|
    ensures |TailReplies(c, s, ts)| == |ts|
    ensures CurrentReply(AtTurn(c, s, ts, j), ts[j], TailReplies(c, s, ts)[j])
    ensures s.accepted <= AtTurn(c, s, ts, j).accepted
    decreases |ts|
  {
    TailIsAnswered(c, s, ts[0]);
    var s' := RunTail(c, s, ts[0]);
    TailKeepsInv(c, s, ts[0]);
    TailKeepsView(c, s, ts[0]);
    RepliesCounted(c, s', ts[1..]);
    if j == 0 {
      assert ts[..0] == [];
    } else {
      TailsAreAnswered(c, s', ts[1..], j - 1);
      assert ts[..j] == [ts[0]] + ts[1..][..j - 1];
      assert ts[..j][1..] == ts[1..][..j - 1];
    }
  }

  lemma {:induction false} RepliesCounted(c: Config, s: Session, ts: seq<Tail>)
    requires s.doc.Some?
    ensures |TailReplies(c, s, ts)| == |ts|
    decreases |ts|
  {
    if ts == [] {
    } else {
      RepliesCounted(c, RunTail(c, s, ts[0]), ts[1..]);
    }
  }

  /**
   * What a caller is answered is current, in every run, failed writes included: at once, when the
   * document is live, and at the end of a load, where every waiting caller is answered in its turn.
   */
  lemma ReplyIsCurrent(c: Config, row: Option<Doc>, es: seq<Event>, t: Tail, j: nat)
    requires Legal(c, Fresh(row), es) && NoPurge(es)
    ensures
      var s := Exec(c, Fresh(row), es);
      s.doc.Some? ==> CurrentReply(Touch(s), t, TailReply(c, Touch(s), t))
    ensures
      var s := Exec(c, Fresh(row), es);
      Enabled(s, LoadFinish) && j < |s.load.value.waiting| ==>
        && |LoadReplies(c, s)| == |s.load.value.waiting|
        && s.accepted <= AtTurn(c, Loaded(s), s.load.value.waiting, j).accepted
        && CurrentReply(AtTurn(c, Loaded(s), s.load.value.waiting, j), s.load.value.waiting[j], LoadReplies(c, s)[j])
  {
    var s := Exec(c, Fresh(row), es);
    RunKeepsInv(c, Fresh(row), es);
    if s.doc.Some? {
      assert Inv(Touch(s));
      TailIsAnswered(c, Touch(s), t);
    } else if Enabled(s, LoadFinish) && j < |s.load.value.waiting| {
      LoadedKeepsInv(s);
      TailsAreAnswered(c, Loaded(s), s.load.value.waiting, j);
    }
  }

  /**
   * What a mirror does: without a revision, or with one above the mirrored one, exactly its operations
   * are added to the document, the reply is the new document, and it alone is queued in place of
   * anything scheduled; any other mirror changes nothing and is answered with the document as it is.
   */
  predicate Mirrored(s: Session, revision: Option<nat>, ops: Doc, t: Session, r: Reply)
    requires s.doc.Some?
  {
    var d := s.doc.value + ops;
    if revision.None? || revision.value > s.mirrored then
      && t.doc == Some(d) && r == State(d)
      && t.queue == s.queue + [Job(s.nextJob, d, false)] && t.pending.None? && !t.timer
      && t.mirrored == (if revision.Some? then revision.value else s.mirrored)
      && t.accepted == s.accepted + ops
    else t == s && r == State(s.doc.value)
  }

  /**
   * What an update does: one that would make the document too large is refused and changes nothing;
   * any other adds exactly its operations, and the new document is the reply and the pending state.
   */
  predicate Updated(c: Config, s: Session, update: Doc, t: Session, r: Reply)
    requires s.doc.Some?
  {
    var d := s.doc.value + update;
    if c.size(d) > c.maxBytes then t == s && r == TooLarge(c.size(d), c.maxBytes)
    else
      && t.doc == Some(d) && r == State(d)
      && t.pending == Some(d) && t.timer && t.queue == s.queue && t.mirrored == s.mirrored
      && t.accepted == s.accepted + update
  }

  /** A reader changes nothing and is answered with the document. */
  predicate Served(c: Config, s: Session, tail: Tail, t: Session, r: Reply)
    requires s.doc.Some?
  {
    match tail
    case Read => t == s && r == State(s.doc.value)
    case Apply(update) => Updated(c, s, update, t, r)
    case Mirror(revision, ops) => Mirrored(s, revision, ops, t, r)
  }

  lemma TailIsServed(c: Config, s: Session, tail: Tail)
    requires s.doc.Some?
    ensures Served(c, s, tail, RunTail(c, s, tail), TailReply(c, s, tail)) && RunTail(c, s, tail).doc.Some?
  {
  }

  /** A call that finds the document live is served at once. */
  lemma HitIsServed(c: Config, s: Session, tail: Tail)
    requires s.doc.Some?
    ensures Served(c, Touch(s), tail, GetDocument(c, s, tail), TailReply(c, Touch(s), tail))
  {
    TailIsServed(c, Touch(s), tail);
  }

  /** Every caller that waited for a load is served, each on what the one before it left. */
  lemma WaitersAreServed(c: Config, s: Session, j: nat)
    requires s.load.Some? && s.load.value.read.Some? && j < |s.load.value.waiting|
    ensures
      var ts := s.load.value.waiting;
      && AtTurn(c, Loaded(s), ts, 0) == Loaded(s) && AtTurn(c, Loaded(s), ts, |ts|) == FinishLoad(c, s)
      && |LoadReplies(c, s)| == |ts|
      && AtTurn(c, Loaded(s), ts, j).doc.Some?
      && Served(c, AtTurn(c, Loaded(s), ts, j), ts[j], AtTurn(c, Loaded(s), ts, j + 1), LoadReplies(c, s)[j])
  {
    var ts := s.load.value.waiting;
    assert ts[..0] == [] && ts[..|ts|] == ts;
    RepliesCounted(c, Loaded(s), ts);
    TailInTurn(c, Loaded(s), ts, j);
  }

  lemma {:induction false} TailInTurn(c: Config, s: Session, ts: seq<Tail>, j: nat)
    requires s.doc.Some? && j < |ts|
    ensures |TailReplies(c, s, ts)| == |ts| && AtTurn(c, s, ts, j).doc.Some?
    ensures Served(c, AtTurn(c, s, ts, j), ts[j], AtTurn(c, s, ts, j + 1), TailReplies(c, s, ts)[j])
    decreases |ts|
  {
    var s' := RunTail(c, s, ts[0]);
    RepliesCounted(c, s, ts);
    TailIsServed(c, s, ts[0]);
    TurnAfter(c, s, ts, j + 1);
    if j == 0 {
      assert ts[..0] == [] && ts[1..][..0] == [];
    } else {
      TurnAfter(c, s, ts, j);
      TailInTurn(c, s', ts[1..], j - 1);
    }
  }

  lemma TurnAfter(c: Config, s: Session, ts: seq<Tail>, j: nat)
    requires s.doc.Some? && 0 < j <= |ts|
    ensures RunTail(c, s, ts[0]).doc.Some? && AtTurn(c, s, ts, j) == AtTurn(c, RunTail(c, s, ts[0]), ts[1..], j - 1)
  {
    TailIsServed(c, s, ts[0]);
    assert ts[..j][0] == ts[0] && ts[..j][1..] == ts[1..][..j - 1];
  }

  /** A caller that has to wait joins the end of the list, and stays in it until the load ends, one way or the other. */
  lemma WaiterStays(c: Config, s: Session, e: Event)
    requires Enabled(s, e) && !e.LoadFinish? && !e.LoadFail?
    ensures
      var t := Step(c, s, e);
      var before := if s.load.Some? then s.load.value.waiting else [];
      var added := if e.Call? && s.doc.None? then [e.tail] else [];
      && (s.load.Some? || added != [] ==> t.load.Some? && t.load.value.waiting == before + added)
      && (s.load.None? && added == [] ==> t.load.None?)
      && (s.load.Some? && s.load.value.read.Some? ==> t.load.value.read == s.load.value.read)
  {
  }

  /**
   * A release that reports success has left in the store everything the document held,
   * up to the state of a failed last write; so it loses something exactly when that
   * failed state is not covered by what is stored.
   */
  lemma ReleaseLosesOnlyFailedWrite(c: Config, row: Option<Doc>, es: seq<Event>, i: nat)
    requires Legal(c, Fresh(row), es) && NoPurge(es)
    requires Enabled(Exec(c, Fresh(row), es), ReleaseCheck(i))
    requires
      var s := Exec(c, Fresh(row), es);
      s.doc.Some? && Releasable(s, s.releases[i])
    ensures
      var s := Exec(c, Fresh(row), es);
      var t := CheckRelease(s, i);
      && t.doc.None?
      && t.row == s.row
      && s.doc.value - Stored(t) == s.unsaved - Stored(s)
      && (s.doc.value <= Stored(t) <==> s.unsaved <= Stored(s))
  {
    RunKeepsInv(c, Fresh(row), es);
    var s := Exec(c, Fresh(row), es);
    ReleasableMeansSaved(s, s.releases[i]);
  }

  /** How a load ends: by failing, which leaves no trace of it, or with the row as it was read as the live document. */
  lemma LoadsEnd(c: Config, s: Session)
    ensures Enabled(s, LoadFail) ==> Step(c, s, LoadFail) == s.(load := None)
    ensures s.load.Some? && s.load.value.read.Some? ==>
      FinishLoad(c, s).load.None? && FinishLoad(c, s).doc.Some? && s.load.value.read.value <= FinishLoad(c, s).doc.value
  {
    if s.load.Some? && s.load.value.read.Some? {
      TailsOnlyAdd(c, Loaded(s), s.load.value.waiting);
    }
  }

  lemma {:induction false} TailsOnlyAdd(c: Config, s: Session, ts: seq<Tail>)
    requires s.doc.Some?
    ensures var t := RunTails(c, s, ts); t.doc.Some? && s.doc.value <= t.doc.value && t.load == s.load
    decreases |ts|
  {
    if ts == [] {
    } else {
      TailsOnlyAdd(c, RunTail(c, s, ts[0]), ts[1..]);
    }
  }

  /** A release keeps the document, and is over, if the counter moved, something is scheduled or a load is under way. */
  lemma BusyReleaseKeepsDocument(s: Session, i: nat)
    requires i < |s.releases|
    requires s.generation != s.releases[i].generation || s.pending.Some? || s.timer || s.load.Some?
    ensures CheckRelease(s, i) == s.(releases := s.releases[..i] + s.releases[i + 1..])
  {
  }

  /** Any access since a release began makes that release keep the document. */
  lemma TouchedReleaseKeepsDocument(c: Config, row: Option<Doc>, es: seq<Event>, i: nat)
    requires Legal(c, Fresh(row), es) && NoPurge(es)
    requires
      var s := Exec(c, Fresh(row), es);
      i < |s.releases| && s.releases[i].began < s.activity
    ensures
      var s := Exec(c, Fresh(row), es);
      !Releasable(s, s.releases[i])
      && CheckRelease(s, i) == s.(releases := RemoveAt(s.releases, i))
  {
    RunKeepsInv(c, Fresh(row), es);
    var s := Exec(c, Fresh(row), es);
    assert s.releases[i] in s.releases;
  }

  /** The write at the head of the queue is done, successfully or not. */
  function WriteEvents(s: Session, ok: bool): seq<Event>
    requires s.queue != []
  {
    if s.queue[0].inFlight then [WriteDone(Head, ok)] else [JobStart(Head), WriteDone(Head, ok)]
  }

  lemma WriteRuns(c: Config, s: Session, ok: bool)
    requires s.queue != [] && !s.tombstone
    ensures Legal(c, s, WriteEvents(s, ok)) && Exec(c, s, WriteEvents(s, ok)) == FinishWrite(s, Head, ok)
  {
    var done := WriteDone(Head, ok);
    if s.queue[0].inFlight {
      ExecCons(c, s, done, []);
      assert [done] + [] == [done];
    } else {
      var s1 := Step(c, s, JobStart(Head));
      assert s1 == s.(queue := [s.queue[0].(inFlight := true)] + s.queue[1..]);
      assert s1.queue[1..] == s.queue[1..];
      assert Step(c, s1, done) == FinishWrite(s, Head, ok);
      ExecCons(c, s1, done, []);
      ExecCons(c, s, JobStart(Head), [done]);
      assert [done] + [] == [done] && [JobStart(Head)] + [done] == [JobStart(Head), done];
    }
  }

  /** `t` is `s` with its first `n` writes done. */
  predicate WritesDone(s: Session, n: nat, ok: bool, t: Session)
    requires n <= |s.queue|
  {
    && t == s.(queue := s.queue[n..], row := t.row, unsaved := t.unsaved)
    && (if ok && n > 0 then Stored(t) == Stored(s) + Queued(s.queue[..n]) else t.row == s.row)
  }

  lemma WritesDoneThen(s: Session, n: nat, ok: bool, t: Session)
    requires 0 < n <= |s.queue| && WritesDone(FinishWrite(s, Head, ok), n - 1, ok, t)
    ensures WritesDone(s, n, ok, t)
  {
    var s1 := FinishWrite(s, Head, ok);
    assert s1.queue == s.queue[1..] && s1.queue[n - 1..] == s.queue[n..];
    assert s.queue[..n][1..] == s1.queue[..n - 1];
    assert Queued(s.queue[..n]) == s.queue[0].state + Queued(s1.queue[..n - 1]);
    assert n == 1 ==> s1.queue[..0] == [];
  }

  /** The first `n` queued writes are done, one after the other. */
  lemma {:induction false} WritesRun(c: Config, s: Session, n: nat, ok: bool) returns (es: seq<Event>)
    requires n <= |s.queue| && !s.tombstone
    ensures Legal(c, s, es) && WritesDone(s, n, ok, Exec(c, s, es))
    decreases n
  {
    if n == 0 {
      es := [];
      assert s.queue[0..] == s.queue;
    } else {
      WriteRuns(c, s, ok);
      var rest := WritesRun(c, FinishWrite(s, Head, ok), n - 1, ok);
      ExecConcat(c, s, WriteEvents(s, ok), rest);
      es := WriteEvents(s, ok) + rest;
      WritesDoneThen(s, n, ok, Exec(c, s, es));
    }
  }

  /**
   * The condition on failed writes is needed: wherever edits are pending, however many writes are queued
   * ahead and whether those succeed or fail too, a release whose own write fails reports success and
   * drops every operation of the document that the row then does not have.
   */
  lemma FailedReleaseWriteDropsPending(c: Config, s: Session, ok: bool) returns (es: seq<Event>)
    requires s.doc.Some? && s.pending == s.doc && s.load.None?
    requires s.abandoned == [] && !s.tombstone
    ensures Legal(c, s, es)
    ensures
      var t := Exec(c, s, es);
      var saved := if ok then Stored(s) + Queued(s.queue) else Stored(s);
      && t.doc.None? && Stored(t) == saved && t.releases == s.releases
      && (!ok || s.queue == [] ==> t.row == s.row)
      && t.dropped == s.dropped + (s.doc.value - saved)
  {
    var s1 := ReleaseBegun(s);
    assert Step(c, s, ReleaseBegin) == s1;
    var rest := BegunReleaseFails(c, s, ok);
    ExecCons(c, s, ReleaseBegin, rest);
    es := [ReleaseBegin] + rest;
  }

  /** The session once a release has queued what was pending. */
  function ReleaseBegun(s: Session): Session
    requires s.doc.Some?
  {
    var queue := s.queue + [Job(s.nextJob, s.doc.value, false)];
    s.(pending := None, timer := false, nextJob := s.nextJob + 1, queue := queue,
       releases := s.releases + [Release(s.generation, Ids(queue), s.activity)])
  }

  predicate OnlyOwnWriteLeft(s: Session, job: Job, others: seq<Release>) {
    && s.queue == [job] && !job.inFlight && s.abandoned == [] && !s.tombstone
    && s.doc.Some? && s.pending.None? && !s.timer && s.load.None?
    && |s.releases| == |others| + 1 && s.releases[..|others|] == others
    && s.releases[|others|].generation == s.generation
  }

  lemma OwnWriteLeft(s: Session, ok: bool, t: Session)
    requires s.doc.Some? && s.load.None? && s.abandoned == [] && !s.tombstone
    requires |s.queue| <= |ReleaseBegun(s).queue| && WritesDone(ReleaseBegun(s), |s.queue|, ok, t)
    ensures OnlyOwnWriteLeft(t, Job(s.nextJob, s.doc.value, false), s.releases)
    ensures Stored(t) == if ok then Stored(s) + Queued(s.queue) else Stored(s)
    ensures (!ok || s.queue == [] ==> t.row == s.row) && t.dropped == s.dropped
  {
    var queue := ReleaseBegun(s).queue;
    assert queue[..|s.queue|] == s.queue && queue[|s.queue|..] == [Job(s.nextJob, s.doc.value, false)];
  }

  lemma BegunReleaseFails(c: Config, s: Session, ok: bool) returns (es: seq<Event>)
    requires s.doc.Some? && s.load.None? && s.abandoned == [] && !s.tombstone
    ensures Legal(c, ReleaseBegun(s), es)
    ensures
      var t := Exec(c, ReleaseBegun(s), es);
      var saved := if ok then Stored(s) + Queued(s.queue) else Stored(s);
      && t.doc.None? && Stored(t) == saved && t.releases == s.releases
      && (!ok || s.queue == [] ==> t.row == s.row)
      && t.dropped == s.dropped + (s.doc.value - saved)
  {
    var s1, job := ReleaseBegun(s), Job(s.nextJob, s.doc.value, false);
    var writes := WritesRun(c, s1, |s.queue|, ok);
    var s2 := Exec(c, s1, writes);
    OwnWriteLeft(s, ok, s2);
    var end := LastWriteFails(c, s2, job, s.releases);
    ExecConcat(c, s1, writes, end);
    es := writes + end;
  }

  /** Only the release's own write is left, and fails. */
  lemma LastWriteFails(c: Config, s: Session, job: Job, others: seq<Release>) returns (es: seq<Event>)
    requires OnlyOwnWriteLeft(s, job, others)
    ensures Legal(c, s, es)
    ensures
      var t := Exec(c, s, es);
      && t.doc.None? && t.row == s.row && t.releases == others
      && t.dropped == s.dropped + (job.state - Stored(s))
  {
    var i := |others|;
    WriteRuns(c, s, false);
    var s1 := s.(queue := [], unsaved := job.state);
    assert FinishWrite(s, Head, false) == s1;
    assert Releasable(s1, s1.releases[i]) && Done(s1, s1.releases[i].awaits);
    assert RemoveAt(s.releases, i) == others;
    es := WriteEvents(s, false) + [ReleaseCheck(i)];
    ExecThen(c, s, WriteEvents(s, false), ReleaseCheck(i), Step(c, s1, ReleaseCheck(i)));
  }

  // Why a load response must not overtake a release that is due.

  /** The conditions of the end of a load, but for that one. */
  predicate LoadArrived(s: Session) {
    s.load.Some? && s.load.value.read.Some?
  }

  /** The document is live, saved and twice accessed, and two releases are due. */
  function TwoReleases(): Session {
    Fresh(None).(doc := Some({}), generation := 2, activity := 2, releases := [Release(2, {}, 2), Release(2, {}, 2)])
  }

  lemma TwoReleasesReached(c: Config)
    ensures Reaches(c, Fresh(None), TwoReleases())
  {
    var s0 := Fresh(None);
    ReachesNow(c, s0);
    Then(c, s0, s0, Call(Read));
    var s1 := s0.(load := Some(Load([Read], None)), generation := 1, activity := 1);
    assert Step(c, s0, Call(Read)) == s1;
    Then(c, s0, s1, LoadRead);
    var s2 := s1.(load := Some(Load([Read], Some({}))));
    assert Step(c, s1, LoadRead) == s2;
    Then(c, s0, s2, LoadFinish);
    var s3 := s0.(doc := Some({}), generation := 1, activity := 1);
    assert [Read][1..] == [] && Step(c, s2, LoadFinish) == s3;
    Then(c, s0, s3, Call(Read));
    var s4 := s3.(generation := 2, activity := 2);
    assert Step(c, s3, Call(Read)) == s4;
    var r := Release(2, {}, 2);
    assert Ids([]) == {} && [] + [r] == [r] && [r] + [r] == [r, r];
    Then(c, s0, s4, ReleaseBegin);
    assert Step(c, s4, ReleaseBegin) == s4.(releases := [r]);
    Then(c, s0, s4.(releases := [r]), ReleaseBegin);
  }

  /** The first release drops the document, and an edit has it loaded again, while the second is still due. */
  lemma LoadArrives(c: Config, update: Doc) returns (s: Session)
    ensures Reaches(c, Fresh(None), s)
    ensures s == Fresh(None).(
      load := Some(Load([Apply(update)], Some({}))), generation := 1, activity := 3, releases := [Release(2, {}, 2)])
  {
    var s0, r := Fresh(None), Release(2, {}, 2);
    TwoReleasesReached(c);
    assert RemoveAt([r, r], 0) == [r];
    Then(c, s0, TwoReleases(), ReleaseCheck(0));
    var s1 := s0.(releases := [r], activity := 2);
    assert Step(c, TwoReleases(), ReleaseCheck(0)) == s1;
    Then(c, s0, s1, Call(Apply(update)));
    var s2 := s1.(load := Some(Load([Apply(update)], None)), generation := 1, activity := 3);
    assert Step(c, s1, Call(Apply(update))) == s2;
    Then(c, s0, s2, LoadRead);
    s := Step(c, s2, LoadRead);
  }

  /**
   * The order of continuations is needed. If the load response came first, the edit would bring the
   * counter back to where the second release saw it; once its write is queued, that release would
   * drop the document, and the accepted edit would be in neither document nor row until the
   * forgotten write is done.
   */
  lemma OvertakenReleaseDropsEdit(c: Config, update: Doc) returns (s: Session)
    requires update != {} && c.size(update) <= c.maxBytes
    ensures Reaches(c, Fresh(None), s) && LoadArrived(s) && !Settled(s)
    ensures
      var t := FinishLoad(c, s);
      && t.timer
      && var u := FireTimer(t);
      && Enabled(u, ReleaseCheck(0)) && Releasable(u, u.releases[0])
      && var v := CheckRelease(u, 0);
      && v.accepted == update && v.dropped == {} && View(v) == {}
  {
    s := LoadArrives(c, update);
    assert s.releases[0] in s.releases && Done(s, {});
    var t := FinishLoad(c, s);
    assert [Apply(update)][1..] == [] && {} + update == update;
    assert RunTails(c, RunTail(c, Loaded(s), Apply(update)), []) == RunTail(c, Loaded(s), Apply(update));
    assert t == Loaded(s).(doc := Some(update), accepted := update, generation := 2, activity := 4,
                           pending := Some(update), timer := true);
  }
}
