/**
 * One session of the live-document persistence protocol, as a state machine.
 *
 * A Yjs document is the set of operations it has merged. Every synchronous segment between two awaits of
 * yjs-document.registry.ts is one event; the events of one session may interleave
 * in any order that `Enabled` allows.
 */
module YjsDocument {
  import opened Crdt
  import opened Prelude

  /** The byte limit of applyUpdate; `size` is the encoded length of a document. */
  datatype Config = Config(maxBytes: nat, size: Doc -> nat)

  /** What a caller of getDocument does with the document, up to its next await. */
  datatype Tail =
    | Read
    | Apply(update: Doc)
    | Mirror(revision: Option<nat>, ops: Doc)

  datatype Reply = State(doc: Doc) | TooLarge(projected: nat, limit: nat)

  /** One enqueued write; `inFlight` once it has passed the purge check. */
  datatype Job = Job(id: nat, state: Doc, inFlight: bool)

  /** A load in progress: the callers waiting for it and, once the store has been read, its content. */
  datatype Load = Load(waiting: seq<Tail>, read: Option<Doc>)

  /** A releaseDocument call between its two halves; `began` is the activity count when it began. */
  datatype Release = Release(generation: nat, awaits: set<nat>, began: nat)

  /** A purge: first waiting for the queue (`dropped` false), then about to delete the row. */
  datatype Purge = Purge(number: nat, awaits: set<nat>, dropped: bool)

  /** Which outstanding write an event is about: the head of the queue or any abandoned one. */
  datatype Slot = Head | Abandoned(index: nat)

  datatype Session = Session(
    row: Option<Doc>,          // persisted row; an empty set stands for a row without Yjs state
    doc: Option<Doc>,          // docs
    load: Option<Load>,        // documentLoads
    mirrored: nat,             // snapshotRevisions, 0 when absent
    generation: nat,           // generations, 0 when absent
    pending: Option<Doc>,      // pendingPersistence
    timer: bool,               // persistenceTimers
    queue: seq<Job>,           // the promise chain reachable through persistenceQueues
    abandoned: seq<Job>,       // writes of chains a deleteDocument stopped referring to
    nextJob: nat,
    releases: seq<Release>,    // suspended releaseDocument calls
    tombstone: bool,           // purgedSessions
    tombstoneTimers: nat,
    purges: seq<Purge>,        // suspended purges
    purgesBegun: nat,
    activity: nat,             // history: touches so far
    accepted: Doc,             // history: operations merged into the live document
    unsaved: Doc,              // history: state of the last write, if it failed
    dropped: Doc               // history: operations a release discarded
  )

  function Fresh(row: Option<Doc>): Session {
    Session(row, None, None, 0, 0, None, false, [], [], 0, [], false, 0, [], 0, 0, {}, {}, {})
  }

  datatype Event =
    | Call(tail: Tail)
    | LoadRead
    | LoadFinish
    | LoadFail
    | TimerFire
    | JobStart(slot: Slot)
    | WriteDone(slot: Slot, ok: bool)
    | ReleaseBegin
    | ReleaseCheck(index: nat)
    | PurgeBegin
    | PurgeDrop(index: nat)
    | RowDelete(index: nat)
    | TombstoneExpire

  // Synchronous helpers, named after the private methods of the registry.

  function Touch(s: Session): Session {
    s.(generation := s.generation + 1, activity := s.activity + 1)
  }

  function SchedulePersistence(s: Session, state: Doc): Session {
    s.(pending := Some(state), timer := true)
  }

  function EnqueuePersistence(s: Session, state: Doc): Session {
    s.(queue := s.queue + [Job(s.nextJob, state, false)], nextJob := s.nextJob + 1)
  }

  function CancelScheduledPersistence(s: Session): Session {
    s.(pending := None, timer := false)
  }

  function DeleteDocument(s: Session): Session {
    CancelScheduledPersistence(s).(
      abandoned := s.abandoned + s.queue,
      queue := [],
      doc := None,
      mirrored := 0,
      generation := 0
    )
  }

  function Stored(s: Session): Doc {
    s.row.GetOr({})
  }

  /** The synchronous rest of getDocument's caller, once the document is there. */
  function RunTail(c: Config, s: Session, t: Tail): Session
    requires s.doc.Some?
  {
    match t
    case Read => s
    case Apply(update) =>
      var d := s.doc.value + update;
      if c.size(d) > c.maxBytes then s
      else SchedulePersistence(Touch(s.(doc := Some(d), accepted := s.accepted + update)), d)
    case Mirror(revision, ops) =>
      if revision.Some? && revision.value <= s.mirrored then s
      else
        var d := s.doc.value + ops;
        var s1 := s.(mirrored := revision.GetOr(s.mirrored), doc := Some(d), accepted := s.accepted + ops);
        EnqueuePersistence(CancelScheduledPersistence(Touch(s1)), d)
  }

  function TailReply(c: Config, s: Session, t: Tail): Reply
    requires s.doc.Some?
  {
    if t.Apply? && c.size(s.doc.value + t.update) > c.maxBytes then
      TooLarge(c.size(s.doc.value + t.update), c.maxBytes)
    else State(RunTail(c, s, t).doc.GetOr({}))
  }

  function RunTails(c: Config, s: Session, ts: seq<Tail>): Session
    requires s.doc.Some?
    decreases |ts|
  {
    if ts == [] then s else RunTails(c, RunTail(c, s, ts[0]), ts[1..])
  }

  /** What the callers are answered, in order. */
  function TailReplies(c: Config, s: Session, ts: seq<Tail>): seq<Reply>
    requires s.doc.Some?
    decreases |ts|
  {
    if ts == [] then [] else [TailReply(c, s, ts[0])] + TailReplies(c, RunTail(c, s, ts[0]), ts[1..])
  }

  function GetDocument(c: Config, s: Session, t: Tail): Session {
    var s1 := Touch(s);
    if s1.doc.Some? then RunTail(c, s1, t)
    else if s1.load.Some? then s1.(load := Some(s1.load.value.(waiting := s1.load.value.waiting + [t])))
    else s1.(load := Some(Load([t], None)))
  }

  /** The session once its load has resolved, before any waiting caller continues. */
  function Loaded(s: Session): Session
    requires s.load.Some? && s.load.value.read.Some?
  {
    s.(doc := s.load.value.read, load := None)
  }

  function FinishLoad(c: Config, s: Session): Session
    requires s.load.Some? && s.load.value.read.Some?
  {
    RunTails(c, Loaded(s), s.load.value.waiting)
  }

  function LoadReplies(c: Config, s: Session): seq<Reply>
    requires s.load.Some? && s.load.value.read.Some?
  {
    TailReplies(c, Loaded(s), s.load.value.waiting)
  }

  function FireTimer(s: Session): Session {
    var s1 := s.(timer := false, pending := None);
    if s.pending.Some? then EnqueuePersistence(s1, s.pending.value) else s1
  }

  predicate HasJob(s: Session, slot: Slot) {
    match slot
    case Head => s.queue != []
    case Abandoned(i) => i < |s.abandoned|
  }

  function JobAt(s: Session, slot: Slot): Job
    requires HasJob(s, slot)
  {
    match slot
    case Head => s.queue[0]
    case Abandoned(i) => s.abandoned[i]
  }

  function RemoveJob(s: Session, slot: Slot): Session
    requires HasJob(s, slot)
  {
    match slot
    case Head => s.(queue := s.queue[1..])
    case Abandoned(i) => s.(abandoned := RemoveAt(s.abandoned, i))
  }

  /** A queued write gets its turn: skipped under a tombstone, otherwise it goes out. */
  function StartJob(s: Session, slot: Slot): Session
    requires HasJob(s, slot)
  {
    if s.tombstone then RemoveJob(s, slot)
    else
      match slot
      case Head => s.(queue := s.queue[0 := s.queue[0].(inFlight := true)])
      case Abandoned(i) => s.(abandoned := s.abandoned[i := s.abandoned[i].(inFlight := true)])
  }

  /** upsertYjsState merges under the session lock, so a successful write is a union. */
  function FinishWrite(s: Session, slot: Slot, ok: bool): Session
    requires HasJob(s, slot)
  {
    var state := JobAt(s, slot).state;
    if ok then RemoveJob(s, slot).(row := Some(Stored(s) + state), unsaved := {})
    else RemoveJob(s, slot).(unsaved := state)
  }

  function Ids(q: seq<Job>): set<nat> {
    set j | j in q :: j.id
  }

  predicate Done(s: Session, awaits: set<nat>) {
    forall j :: j in s.queue + s.abandoned ==> j.id !in awaits
  }

  function BeginRelease(s: Session): Session {
    var s1 := CancelScheduledPersistence(s);
    var s2 := if s.pending.Some? then EnqueuePersistence(s1, s.pending.value) else s1;
    s2.(releases := s2.releases + [Release(s.generation, Ids(s2.queue), s.activity)])
  }

  /** The test at the end of releaseDocument: true means the document is dropped. */
  predicate Releasable(s: Session, r: Release) {
    s.generation == r.generation && s.pending.None? && !s.timer && s.load.None?
  }

  function CheckRelease(s: Session, i: nat): Session
    requires i < |s.releases|
  {
    var s1 := s.(releases := RemoveAt(s.releases, i));
    if Releasable(s, s.releases[i]) then
      DeleteDocument(s1).(dropped := s.dropped + (s.unsaved - Stored(s)), unsaved := {})
    else s1
  }

  function BeginPurge(s: Session): Session {
    CancelScheduledPersistence(s).(
      tombstone := true,
      tombstoneTimers := s.tombstoneTimers + 1,
      purges := s.purges + [Purge(s.purgesBegun, Ids(s.queue), false)],
      purgesBegun := s.purgesBegun + 1
    )
  }

  function DropForPurge(s: Session, i: nat): Session
    requires i < |s.purges|
  {
    DeleteDocument(s).(purges := s.purges[i := s.purges[i].(dropped := true)])
  }

  function DeleteRow(s: Session, i: nat): Session
    requires i < |s.purges|
  {
    s.(row := None, purges := RemoveAt(s.purges, i))
  }

  /** No suspended release is due: its awaited writes are done, so it runs before the next response arrives. */
  predicate Settled(s: Session) {
    forall r :: r in s.releases ==> !Done(s, r.awaits)
  }

  predicate Enabled(s: Session, e: Event) {
    match e
    case Call(_) => true
    case LoadRead => s.load.Some? && s.load.value.read.None?
    // A database response is a new task of the event loop: continuations already due run first.
    case LoadFinish => s.load.Some? && s.load.value.read.Some? && Settled(s)
    case LoadFail => s.load.Some? && Settled(s)
    case TimerFire => s.timer
    case JobStart(slot) => HasJob(s, slot) && !JobAt(s, slot).inFlight
    case WriteDone(slot, _) => HasJob(s, slot) && JobAt(s, slot).inFlight
    case ReleaseBegin => true
    case ReleaseCheck(i) => i < |s.releases| && Done(s, s.releases[i].awaits)
    case PurgeBegin => true
    case PurgeDrop(i) => i < |s.purges| && !s.purges[i].dropped && Done(s, s.purges[i].awaits)
    case RowDelete(i) => i < |s.purges| && s.purges[i].dropped
    case TombstoneExpire => s.tombstoneTimers > 0
  }

  function Step(c: Config, s: Session, e: Event): Session
    requires Enabled(s, e)
  {
    match e
    case Call(t) => GetDocument(c, s, t)
    case LoadRead => s.(load := Some(s.load.value.(read := Some(Stored(s)))))
    case LoadFinish => FinishLoad(c, s)
    case LoadFail => s.(load := None)
    case TimerFire => FireTimer(s)
    case JobStart(slot) => StartJob(s, slot)
    case WriteDone(slot, ok) => FinishWrite(s, slot, ok)
    case ReleaseBegin => BeginRelease(s)
    case ReleaseCheck(i) => CheckRelease(s, i)
    case PurgeBegin => BeginPurge(s)
    case PurgeDrop(i) => DropForPurge(s, i)
    case RowDelete(i) => DeleteRow(s, i)
    // One timer clears the set membership, however many purges set it.
    case TombstoneExpire => s.(tombstone := false, tombstoneTimers := s.tombstoneTimers - 1)
  }

  predicate Legal(c: Config, s: Session, es: seq<Event>)
    decreases |es|
  {
    es == [] || (Enabled(s, es[0]) && Legal(c, Step(c, s, es[0]), es[1..]))
  }

  function Exec(c: Config, s: Session, es: seq<Event>): Session
    requires Legal(c, s, es)
    decreases |es|
  {
    if es == [] then s else Exec(c, Step(c, s, es[0]), es[1..])
  }

  // Runs put together.

  lemma ExecCons(c: Config, s: Session, e: Event, es: seq<Event>)
    requires Enabled(s, e) && Legal(c, Step(c, s, e), es)
    ensures Legal(c, s, [e] + es) && Exec(c, s, [e] + es) == Exec(c, Step(c, s, e), es)
  {
    assert ([e] + es)[1..] == es;
  }

  lemma {:induction false} ExecConcat(c: Config, s: Session, es: seq<Event>, fs: seq<Event>)
    requires Legal(c, s, es) && Legal(c, Exec(c, s, es), fs)
    ensures Legal(c, s, es + fs) && Exec(c, s, es + fs) == Exec(c, Exec(c, s, es), fs)
    decreases |es|
  {
    if es == [] {
      assert es + fs == fs;
    } else {
      assert (es + fs)[1..] == es[1..] + fs;
      ExecConcat(c, Step(c, s, es[0]), es[1..], fs);
    }
  }

  lemma ExecThen(c: Config, s: Session, es: seq<Event>, e: Event, t: Session)
    requires Legal(c, s, es) && Enabled(Exec(c, s, es), e) && Step(c, Exec(c, s, es), e) == t
    ensures Legal(c, s, es + [e]) && Exec(c, s, es + [e]) == t
  {
    assert [e][1..] == [];
    ExecConcat(c, s, es, [e]);
  }

  ghost predicate Reaches(c: Config, s: Session, t: Session) {
    exists es :: Legal(c, s, es) && Exec(c, s, es) == t
  }

  lemma ReachesNow(c: Config, s: Session)
    ensures Reaches(c, s, s)
  {
    assert Legal(c, s, []) && Exec(c, s, []) == s;
  }

  lemma Then(c: Config, s: Session, t: Session, e: Event)
    requires Reaches(c, s, t) && Enabled(t, e)
    ensures Reaches(c, s, Step(c, t, e))
  {
    var es :| Legal(c, s, es) && Exec(c, s, es) == t;
    ExecThen(c, s, es, e, Step(c, t, e));
  }
}
