/**
 * One session row with its audit log, as changed by the locked transactions of the store:
 * snapshot revisions with compare-and-set, merged Yjs states, and an event for each write.
 */
module SessionHistory {
  import opened Crdt
  import opened Prelude

  type Content = string

  datatype Status = Active | Closed | Saved

  datatype Snapshot = Snapshot(revision: nat, content: Content, updatedBy: string)

  datatype Event =
    | SessionCreated(actor: string)
    | SessionJoined(actor: string)
    | SnapshotUpdated(revision: nat, actor: string)
    | YjsUpdated(revision: nat, actor: string)
    | StatusChanged(status: Status, actor: string)
    | OtherEvent(actor: string)

  datatype Row = Row(
    drawingPath: Option<string>,
    status: Status,
    snapshot: Option<Snapshot>,
    yjsState: Option<Doc>,
    yjsRevision: nat,
    audit: seq<Event>
  )

  datatype Op =
    | GetOrCreate(user: string, drawingPath: Option<string>, initialContent: Option<Content>)
    | UpsertSnapshot(baseRevision: Option<nat>, content: Content, drawingPath: Option<string>, actor: string)
    | UpsertYjs(state: Doc, actor: string)
    | UpdateStatus(status: Status, actor: string)
    | AppendAudit(event: Event)
    | DeleteSession

  function RevisionOf(snapshot: Option<Snapshot>): nat {
    if snapshot.Some? then snapshot.value.revision else 0
  }

  function CurrentRevision(row: Option<Row>): nat {
    if row.Some? then RevisionOf(row.value.snapshot) else 0
  }

  function Seed(content: Option<Content>): Option<Snapshot> {
    if content.Some? then Some(Snapshot(1, content.value, "github")) else None
  }

  const NEW_ROW := Row(None, Active, None, None, 0, [])

  /** The stale-revision test of upsertSnapshot; a write without a base revision is never refused. */
  predicate Conflicts(row: Option<Row>, baseRevision: Option<nat>) {
    baseRevision.Some? && baseRevision.value != CurrentRevision(row)
  }

  function Apply(row: Option<Row>, op: Op): Option<Row> {
    match op
    case GetOrCreate(user, drawingPath, content) =>
      if row.Some? then
        var r := row.value;
        Some(r.(drawingPath := if r.drawingPath.Some? then r.drawingPath else drawingPath,
                snapshot := if r.snapshot.Some? then r.snapshot else Seed(content),
                audit := r.audit + [SessionJoined(user)]))
      else Some(NEW_ROW.(drawingPath := drawingPath, snapshot := Seed(content), audit := [SessionCreated(user)]))
    case UpsertSnapshot(baseRevision, content, drawingPath, actor) =>
      if Conflicts(row, baseRevision) then row
      else
        var r, revision := row.GetOr(NEW_ROW), CurrentRevision(row) + 1;
        Some(r.(drawingPath := drawingPath, snapshot := Some(Snapshot(revision, content, actor)),
                audit := r.audit + [SnapshotUpdated(revision, actor)]))
    case UpsertYjs(state, actor) =>
      var r := row.GetOr(NEW_ROW);
      Some(r.(yjsState := Some(r.yjsState.GetOr({}) + state), yjsRevision := r.yjsRevision + 1,
              audit := r.audit + [YjsUpdated(r.yjsRevision + 1, actor)]))
    case UpdateStatus(status, actor) =>
      if row.None? then None
      else Some(row.value.(status := status, audit := row.value.audit + [StatusChanged(status, actor)]))
    case AppendAudit(event) =>
      if row.None? then None else Some(row.value.(audit := row.value.audit + [event]))
    case DeleteSession => None
  }

  /** Callers of appendSessionAudit record neither snapshot nor Yjs writes. */
  predicate Wellformed(op: Op) {
    op.AppendAudit? ==> !op.event.SnapshotUpdated? && !op.event.YjsUpdated?
  }

  /** The revision this write puts in place of an absent snapshot without an update event. */
  predicate Seeds(row: Option<Row>, op: Op) {
    op.GetOrCreate? && op.initialContent.Some? && (row.Some? ==> row.value.snapshot.None?)
  }

  function Run(row: Option<Row>, ops: seq<Op>): Option<Row>
    decreases |ops|
  {
    if ops == [] then row else Run(Apply(row, ops[0]), ops[1..])
  }

  /** How often the session was seeded since it was last deleted. */
  function SeedCount(row: Option<Row>, seeds: nat, ops: seq<Op>): nat
    decreases |ops|
  {
    if ops == [] then seeds
    else
      var seeds' := if ops[0].DeleteSession? then 0 else if Seeds(row, ops[0]) then seeds + 1 else seeds;
      SeedCount(Apply(row, ops[0]), seeds', ops[1..])
  }

  function SnapshotRevisions(audit: seq<Event>): seq<nat> {
    if audit == [] then []
    else
      var init, last := audit[..|audit| - 1], audit[|audit| - 1];
      SnapshotRevisions(init) + (if last.SnapshotUpdated? then [last.revision] else [])
  }

  function YjsRevisions(audit: seq<Event>): seq<nat> {
    if audit == [] then []
    else
      var init, last := audit[..|audit| - 1], audit[|audit| - 1];
      YjsRevisions(init) + (if last.YjsUpdated? then [last.revision] else [])
  }

  /** first, first + 1, ..., up to but not including `end`. */
  predicate Consecutive(s: seq<nat>, first: nat, end: nat) {
    first <= end && |s| == end - first && forall i :: 0 <= i < |s| ==> s[i] == first + i
  }

  predicate Inv(row: Option<Row>, seeds: nat) {
    && seeds <= 1
    && (row.None? ==> seeds == 0)
    && (row.Some? ==>
          && (row.value.snapshot.None? ==> seeds == 0)
          && AuditInv(row.value.audit, seeds, CurrentRevision(row), row.value.yjsRevision))
  }

  /** The events of the log account for every revision above the seed. */
  predicate AuditInv(audit: seq<Event>, seeds: nat, snapshotRevision: nat, yjsRevision: nat) {
    && Consecutive(SnapshotRevisions(audit), seeds + 1, snapshotRevision + 1)
    && Consecutive(YjsRevisions(audit), 1, yjsRevision + 1)
  }

  lemma AppendKeepsAudit(audit: seq<Event>, e: Event, seeds: nat, s: nat, y: nat)
    requires AuditInv(audit, seeds, s, y)
    ensures e.SnapshotUpdated? && e.revision == s + 1 ==> AuditInv(audit + [e], seeds, s + 1, y)
    ensures e.YjsUpdated? && e.revision == y + 1 ==> AuditInv(audit + [e], seeds, s, y + 1)
    ensures !e.SnapshotUpdated? && !e.YjsUpdated? ==> AuditInv(audit + [e], seeds, s, y)
  {
    AppendRevisions(audit, e);
  }

  lemma AppendRevisions(audit: seq<Event>, e: Event)
    ensures SnapshotRevisions(audit + [e]) == SnapshotRevisions(audit) + (if e.SnapshotUpdated? then [e.revision] else [])
    ensures YjsRevisions(audit + [e]) == YjsRevisions(audit) + (if e.YjsUpdated? then [e.revision] else [])
  {
    assert (audit + [e])[..|audit|] == audit;
  }

  lemma GetOrCreateKeepsInv(row: Option<Row>, seeds: nat, op: Op)
    requires Inv(row, seeds) && op.GetOrCreate?
    ensures Inv(Apply(row, op), if Seeds(row, op) then seeds + 1 else seeds)
  {
    if row.None? {
      var seeded := if op.initialContent.Some? then 1 else 0;
      assert AuditInv([], seeded, seeded, 0);
      AppendKeepsAudit([], SessionCreated(op.user), seeded, seeded, 0);
      assert [] + [SessionCreated(op.user)] == [SessionCreated(op.user)];
    } else {
      var r := row.value;
      if Seeds(row, op) {
        assert AuditInv(r.audit, 1, 1, r.yjsRevision);
        AppendKeepsAudit(r.audit, SessionJoined(op.user), 1, 1, r.yjsRevision);
      } else {
        AppendKeepsAudit(r.audit, SessionJoined(op.user), seeds, CurrentRevision(row), r.yjsRevision);
      }
    }
  }

  lemma WriteSnapshotKeepsInv(row: Option<Row>, seeds: nat, op: Op)
    requires Inv(row, seeds) && op.UpsertSnapshot?
    ensures Inv(Apply(row, op), seeds)
  {
    var r, s := row.GetOr(NEW_ROW), CurrentRevision(row);
    assert AuditInv([], 0, 0, 0);
    AppendKeepsAudit(r.audit, SnapshotUpdated(s + 1, op.actor), seeds, s, r.yjsRevision);
  }

  lemma WriteYjsKeepsInv(row: Option<Row>, seeds: nat, op: Op)
    requires Inv(row, seeds) && op.UpsertYjs?
    ensures Inv(Apply(row, op), seeds)
  {
    var r := row.GetOr(NEW_ROW);
    assert AuditInv([], 0, 0, 0);
    AppendKeepsAudit(r.audit, YjsUpdated(r.yjsRevision + 1, op.actor), seeds, CurrentRevision(row), r.yjsRevision);
  }

  lemma ApplyKeepsInv(row: Option<Row>, seeds: nat, op: Op)
    requires Inv(row, seeds) && Wellformed(op)
    ensures Inv(Apply(row, op), if op.DeleteSession? then 0 else if Seeds(row, op) then seeds + 1 else seeds)
  {
    if op.GetOrCreate? {
      GetOrCreateKeepsInv(row, seeds, op);
    } else if op.UpsertSnapshot? {
      WriteSnapshotKeepsInv(row, seeds, op);
    } else if op.UpsertYjs? {
      WriteYjsKeepsInv(row, seeds, op);
    } else if row.Some? && !op.DeleteSession? {
      var r := row.value;
      var event := if op.UpdateStatus? then StatusChanged(op.status, op.actor) else op.event;
      AppendKeepsAudit(r.audit, event, seeds, CurrentRevision(row), r.yjsRevision);
    }
  }

  lemma {:induction false} RunKeepsInv(row: Option<Row>, seeds: nat, ops: seq<Op>)
    requires Inv(row, seeds) && forall op :: op in ops ==> Wellformed(op)
    ensures Inv(Run(row, ops), SeedCount(row, seeds, ops))
    decreases |ops|
  {
    if ops == [] {
    } else {
      ApplyKeepsInv(row, seeds, ops[0]);
      var seeds' := if ops[0].DeleteSession? then 0 else if Seeds(row, ops[0]) then seeds + 1 else seeds;
      RunKeepsInv(Apply(row, ops[0]), seeds', ops[1..]);
    }
  }

  /**
   * Conservation, over any run of the store's transactions: since the last deletion the session was
   * seeded at most once, its snapshot revision is the seed plus the number of snapshot events, its
   * Yjs revision is the number of Yjs events, and the revisions the events carry are consecutive.
   */
  lemma RevisionsMatchAudit(ops: seq<Op>)
    requires forall op :: op in ops ==> Wellformed(op)
    ensures
      var row := Run(None, ops);
      var seeds := SeedCount(None, 0, ops);
      seeds <= 1
      && (row.Some? ==>
            && CurrentRevision(row) == seeds + |SnapshotRevisions(row.value.audit)|
            && row.value.yjsRevision == |YjsRevisions(row.value.audit)|
            && Consecutive(SnapshotRevisions(row.value.audit), seeds + 1, CurrentRevision(row) + 1)
            && Consecutive(YjsRevisions(row.value.audit), 1, row.value.yjsRevision + 1))
  {
    RunKeepsInv(None, 0, ops);
  }

  /** A write with a base revision either lands directly on that revision or changes nothing. */
  lemma BasedWriteLandsOnBase(row: Option<Row>, base: nat, content: Content, drawingPath: Option<string>, actor: string)
    ensures
      var row' := Apply(row, UpsertSnapshot(Some(base), content, drawingPath, actor));
      if CurrentRevision(row) == base then
        row'.Some? && row'.value.snapshot == Some(Snapshot(base + 1, content, actor))
      else row' == row
  {
  }

  predicate NoDelete(ops: seq<Op>) {
    forall op :: op in ops ==> !op.DeleteSession?
  }

  /** Between deletions revisions never go down and stored operations are never lost. */
  lemma {:induction false} RunIsMonotone(row: Option<Row>, ops: seq<Op>)
    requires NoDelete(ops)
    ensures
      var row' := Run(row, ops);
      && CurrentRevision(row) <= CurrentRevision(row')
      && (row.Some? ==> row'.Some? && row.value.audit <= row'.value.audit && row.value.yjsRevision <= row'.value.yjsRevision
                        && row.value.yjsState.GetOr({}) <= row'.value.yjsState.GetOr({}))
    decreases |ops|
  {
    if ops == [] {
    } else {
      RunIsMonotone(Apply(row, ops[0]), ops[1..]);
    }
  }

  /** Two writes with the same base revision never both succeed between deletions. */
  lemma SameBaseWritesOnce(row: Option<Row>, op: Op, ops: seq<Op>, op': Op)
    requires op.UpsertSnapshot? && op'.UpsertSnapshot? && op.baseRevision.Some? && op'.baseRevision == op.baseRevision
    requires NoDelete(ops) && !Conflicts(row, op.baseRevision)
    ensures Conflicts(Run(Apply(row, op), ops), op'.baseRevision)
  {
    RunIsMonotone(Apply(row, op), ops);
  }

  // What is stored.

  function StoredYjs(row: Option<Row>): Doc {
    if row.Some? then row.value.yjsState.GetOr({}) else {}
  }

  /** The operations of all states upserted. */
  function Upserted(ops: seq<Op>): Doc {
    if ops == [] then {} else (if ops[0].UpsertYjs? then ops[0].state else {}) + Upserted(ops[1..])
  }

  /** Between deletions the row holds exactly the operations it held before and those upserted since. */
  lemma {:induction false} StoredIsUnion(row: Option<Row>, ops: seq<Op>)
    requires NoDelete(ops)
    ensures StoredYjs(Run(row, ops)) == StoredYjs(row) + Upserted(ops)
    decreases |ops|
  {
    if ops == [] {
    } else {
      StoredIsUnion(Apply(row, ops[0]), ops[1..]);
    }
  }

  /** Revision and content as the requests alone determine them: the seed, then each write on the right base. */
  datatype Canvas = Blank | Canvas(revision: nat, content: Content)

  function Draw(canvas: Canvas, op: Op): Canvas {
    var revision := if canvas.Blank? then 0 else canvas.revision;
    match op
    case GetOrCreate(_, _, Some(content)) => if canvas.Blank? then Canvas(1, content) else canvas
    case UpsertSnapshot(base, content, _, _) =>
      if base.None? || base.value == revision then Canvas(revision + 1, content) else canvas
    case DeleteSession => Blank
    case _ => canvas
  }

  function DrawAll(canvas: Canvas, ops: seq<Op>): Canvas
    decreases |ops|
  {
    if ops == [] then canvas else DrawAll(Draw(canvas, ops[0]), ops[1..])
  }

  function CanvasOf(row: Option<Row>): Canvas {
    if row.Some? && row.value.snapshot.Some?
    then Canvas(row.value.snapshot.value.revision, row.value.snapshot.value.content)
    else Blank
  }

  /** Over any run the snapshot is the seed or the content of the last write that was not refused. */
  lemma {:induction false} SnapshotIsLastWrite(row: Option<Row>, ops: seq<Op>)
    ensures CanvasOf(Run(row, ops)) == DrawAll(CanvasOf(row), ops)
    decreases |ops|
  {
    if ops == [] {
    } else {
      SnapshotIsLastWrite(Apply(row, ops[0]), ops[1..]);
    }
  }

  /** What an operation records on a row that it finds or creates; nothing when it is refused or finds none. */
  function Recorded(row: Option<Row>, op: Op): seq<Event> {
    match op
    case GetOrCreate(user, _, _) => if row.None? then [SessionCreated(user)] else [SessionJoined(user)]
    case UpsertSnapshot(base, _, _, actor) =>
      if base.Some? && base.value != CurrentRevision(row) then [] else [SnapshotUpdated(CurrentRevision(row) + 1, actor)]
    case UpsertYjs(_, actor) => [YjsUpdated((if row.Some? then row.value.yjsRevision else 0) + 1, actor)]
    case UpdateStatus(status, actor) => if row.None? then [] else [StatusChanged(status, actor)]
    case AppendAudit(event) => if row.None? then [] else [event]
    case DeleteSession => []
  }

  /** Each operation records its own event at the end of the log, and no other. */
  lemma EveryWriteIsRecorded(row: Option<Row>, op: Op)
    requires !op.DeleteSession?
    ensures
      var row' := Apply(row, op);
      && (row'.Some? ==> row'.value.audit == (if row.Some? then row.value.audit else []) + Recorded(row, op))
      && (row'.None? ==> row.None? && Recorded(row, op) == [])
  {
  }

  /** Status and path move only as asked: a join keeps both but for a missing path, a snapshot sets the path. */
  lemma StatusAndPath(row: Option<Row>, op: Op)
    requires row.Some? && !op.DeleteSession?
    ensures
      var r, r' := row.value, Apply(row, op).GetOr(NEW_ROW);
      && Apply(row, op).Some?
      && r'.status == (if op.UpdateStatus? then op.status else r.status)
      && r'.drawingPath == (if op.GetOrCreate? && r.drawingPath.None? then op.drawingPath
                            else if op.UpsertSnapshot? && !Conflicts(row, op.baseRevision) then op.drawingPath
                            else r.drawingPath)
  {
  }

  /** A new row: active, at the path given, with the initial content as revision 1 or the first state or snapshot written. */
  lemma CreatedAsAsked(op: Op)
    requires op.GetOrCreate? || op.UpsertYjs? || (op.UpsertSnapshot? && !Conflicts(None, op.baseRevision))
    ensures
      var row := Apply(None, op);
      && row.Some? && row.value.status == Active
      && row.value.drawingPath == (if op.UpsertYjs? then None else op.drawingPath)
      && (row.value.snapshot.Some? <==> op.UpsertSnapshot? || (op.GetOrCreate? && op.initialContent.Some?))
      && (op.GetOrCreate? && op.initialContent.Some? ==> row.value.snapshot == Some(Snapshot(1, op.initialContent.value, "github")))
      && (op.UpsertSnapshot? ==> row.value.snapshot == Some(Snapshot(1, op.content, op.actor)))
      && row.value.yjsState == (if op.UpsertYjs? then Some(op.state) else None)
      && row.value.yjsRevision == (if op.UpsertYjs? then 1 else 0)
  {
    assert op.UpsertYjs? ==> {} + op.state == op.state;
  }
}
