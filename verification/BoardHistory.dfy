/** Revisions and retained versions of one workspace board, over any run of writes. */
module BoardHistory {
  import opened Prelude
  import P = BoardPaths

  type Content = string

  datatype History = History(revision: nat, content: Content, versions: map<nat, Content>)

  datatype Outcome = Written(h: History) | Conflict | VersionNotFound

  function Create(content: Content): History {
    History(1, content, map[1 := content])
  }

  /** Deletes the versions at or below the cut-off. */
  function Prune(versions: map<nat, Content>, newRevision: nat, max: nat): map<nat, Content> {
    if newRevision > max then map r | r in versions && r > newRevision - max :: versions[r] else versions
  }

  function Write(h: History, content: Content, max: nat): History {
    var revision := h.revision + 1;
    History(revision, content, Prune(h.versions[revision := content], revision, max))
  }

  function Save(h: History, sha: string, content: Content, max: nat): Outcome {
    if P.ShaToRevision(sha) == Some(h.revision) then Written(Write(h, content, max)) else Conflict
  }

  function Restore(h: History, revision: nat, max: nat): Outcome {
    if revision in h.versions then Written(Write(h, h.versions[revision], max)) else VersionNotFound
  }

  /** One client's request; `max` is the retention limit in force when it runs. Renames change none of this. */
  datatype Op =
    | SaveOp(sha: string, content: Content, max: nat)
    | RestoreOp(revision: nat, max: nat)
    | RenameOp

  predicate LimitsPositive(ops: seq<Op>) {
    forall op :: op in ops && !op.RenameOp? ==> op.max >= 1
  }

  function Apply(h: History, op: Op): Outcome {
    match op
    case SaveOp(sha, content, max) => Save(h, sha, content, max)
    case RestoreOp(revision, max) => Restore(h, revision, max)
    case RenameOp => Written(h)
  }

  function After(h: History, op: Op): History {
    var r := Apply(h, op);
    if r.Written? then r.h else h
  }

  function Run(h: History, ops: seq<Op>): History
    decreases |ops|
  {
    if ops == [] then h else Run(After(h, ops[0]), ops[1..])
  }

  /** What a request asks to be written: the given content, or that of its source version. */
  function Given(h: History, op: Op): Content {
    match op
    case SaveOp(_, content, _) => content
    case RestoreOp(revision, _) => if revision in h.versions then h.versions[revision] else h.content
    case RenameOp => h.content
  }

  /** What the successful requests asked to be written, in order. */
  function Writes(h: History, ops: seq<Op>): seq<Content>
    decreases |ops|
  {
    if ops == [] then []
    else
      var h' := After(h, ops[0]);
      (if h'.revision > h.revision then [Given(h, ops[0])] else []) + Writes(h', ops[1..])
  }

  function Successes(h: History, ops: seq<Op>): nat
    decreases |ops|
  {
    if ops == [] then 0
    else (if !ops[0].RenameOp? && Apply(h, ops[0]).Written? then 1 else 0) + Successes(After(h, ops[0]), ops[1..])
  }

  /** The retained versions are the last ones of `log`, those above `floor`. */
  predicate Retains(h: History, log: seq<Content>, floor: nat) {
    && floor < h.revision == |log|
    && h.content == log[|log| - 1]
    && (forall r :: r in h.versions ==> floor < r <= h.revision)
    && (forall r :: floor < r <= h.revision ==> r in h.versions && h.versions[r] == log[r - 1])
  }

  lemma WriteRetains(h: History, log: seq<Content>, floor: nat, content: Content, max: nat)
    requires Retains(h, log, floor) && max >= 1
    ensures Retains(Write(h, content, max), log + [content], Max(floor, h.revision + 1 - max))
  {
  }

  lemma AfterRetains(h: History, log: seq<Content>, floor: nat, op: Op)
    requires Retains(h, log, floor) && LimitsPositive([op])
    ensures
      var h' := After(h, op);
      if h'.revision > h.revision then
        Retains(h', log + [Given(h, op)], Max(floor, h'.revision - op.max))
      else h' == h
  {
    assert op in [op];
    match op
    case SaveOp(_, content, max) => WriteRetains(h, log, floor, content, max);
    case RestoreOp(revision, max) =>
      if revision in h.versions {
        WriteRetains(h, log, floor, h.versions[revision], max);
      }
    case RenameOp =>
  }

  /**
   * Board history, for any run of saves, restores and renames with any positive limits: the
   * retained versions are a contiguous end of the full write log, which ends in the current
   * content at the current revision.
   */
  lemma {:induction false} HistoryIsSuffixOfLog(h: History, log: seq<Content>, floor: nat, ops: seq<Op>) returns (floor': nat)
    requires Retains(h, log, floor) && LimitsPositive(ops)
    ensures floor <= floor' && Retains(Run(h, ops), log + Writes(h, ops), floor')
    decreases |ops|
  {
    if ops == [] {
      assert log + [] == log;
      floor' := floor;
    } else {
      assert LimitsPositive([ops[0]]);
      AfterRetains(h, log, floor, ops[0]);
      var h' := After(h, ops[0]);
      var written := if h'.revision > h.revision then [Given(h, ops[0])] else [];
      var next := if h'.revision > h.revision then Max(floor, h'.revision - ops[0].max) else floor;
      assert log + [] == log;
      floor' := HistoryIsSuffixOfLog(h', log + written, next, ops[1..]);
      assert (log + written) + Writes(h', ops[1..]) == log + (written + Writes(h', ops[1..]));
    }
  }

  /** The revision counts the successful saves and restores. */
  lemma {:induction false} RevisionCountsSuccesses(h: History, ops: seq<Op>)
    ensures Run(h, ops).revision == h.revision + Successes(h, ops)
    ensures |Writes(h, ops)| == Successes(h, ops)
    decreases |ops|
  {
    if ops == [] {
    } else {
      RevisionCountsSuccesses(After(h, ops[0]), ops[1..]);
    }
  }

  predicate FixedLimit(ops: seq<Op>, max: nat) {
    forall op :: op in ops && !op.RenameOp? ==> op.max == max
  }

  function FixedFloor(h: History, max: nat): nat {
    Max(0, h.revision - max)
  }

  lemma FixedLimitStep(h: History, log: seq<Content>, max: nat, op: Op)
    requires max >= 1 && FixedLimit([op], max) && Retains(h, log, FixedFloor(h, max))
    ensures
      var h' := After(h, op);
      Retains(h', if h'.revision > h.revision then log + [Given(h, op)] else log, FixedFloor(h', max))
  {
    assert op in [op];
    AfterRetains(h, log, FixedFloor(h, max), op);
  }

  /** With a fixed limit exactly the last `max` versions are retained, or all while there are fewer. */
  lemma {:induction false} FixedLimitRetention(h: History, log: seq<Content>, max: nat, ops: seq<Op>)
    requires max >= 1 && FixedLimit(ops, max) && Retains(h, log, FixedFloor(h, max))
    ensures Retains(Run(h, ops), log + Writes(h, ops), FixedFloor(Run(h, ops), max))
    decreases |ops|
  {
    if ops == [] {
      assert log + [] == log;
    } else {
      FixedLimitStep(h, log, max, ops[0]);
      var h' := After(h, ops[0]);
      var written := if h'.revision > h.revision then [Given(h, ops[0])] else [];
      assert log + [] == log;
      FixedLimitRetention(h', log + written, max, ops[1..]);
      assert (log + written) + Writes(h', ops[1..]) == log + (written + Writes(h', ops[1..]));
    }
  }

  /** From creation on: revision 1 + successes, and exactly the last min(revision, max) writes are kept. */
  lemma BoardHistoryFromCreation(content: Content, max: nat, ops: seq<Op>)
    requires max >= 1 && FixedLimit(ops, max)
    ensures
      var t := Run(Create(content), ops);
      && t.revision == 1 + Successes(Create(content), ops)
      && Retains(t, [content] + Writes(Create(content), ops), FixedFloor(t, max))
      && t.revision - FixedFloor(t, max) == Min(t.revision, max)
  {
    FixedLimitRetention(Create(content), [content], max, ops);
    RevisionCountsSuccesses(Create(content), ops);
  }

  /** A restore writes the source version's content, whether or not pruning then removes that version. */
  lemma RestoreBringsBack(h: History, log: seq<Content>, floor: nat, revision: nat, max: nat)
    requires Retains(h, log, floor) && max >= 1
    ensures Restore(h, revision, max).Written? <==> floor < revision <= h.revision
    ensures Restore(h, revision, max).Written? ==>
      var t := Restore(h, revision, max).h;
      t.content == log[revision - 1] && t.versions[h.revision + 1] == log[revision - 1]
      && (revision in t.versions <==> revision > h.revision + 1 - max)
  {
  }

  /** Optimistic locking: after a successful save, no later save with the same sha succeeds, whatever happens between. */
  lemma SameShaSavesOnce(h: History, sha: string, content: Content, max: nat, ops: seq<Op>, content': Content, max': nat)
    requires Save(h, sha, content, max).Written?
    ensures Save(Run(Save(h, sha, content, max).h, ops), sha, content', max') == Conflict
  {
    RevisionCountsSuccesses(Save(h, sha, content, max).h, ops);
  }

  /** A board's own sha always saves, and it is the only revision that does. */
  lemma SaveNeedsCurrentSha(h: History, revision: nat, content: Content, max: nat)
    ensures Save(h, P.RevisionToSha(revision), content, max).Written? <==> revision == h.revision
  {
    P.ShaRoundTrip(revision);
  }

  /** A successful save has the given content as the current one and as the new version, whatever was there before. */
  lemma SaveWritesGiven(h: History, sha: string, content: Content, max: nat)
    requires max >= 1
    ensures Save(h, sha, content, max).Written? ==>
      var t := Save(h, sha, content, max).h;
      && t.revision == h.revision + 1 && t.content == content
      && t.revision in t.versions && t.versions[t.revision] == content
      && forall r :: r in t.versions && r != t.revision ==> r in h.versions && t.versions[r] == h.versions[r]
  {
  }
}
