/**
 * The registry itself: its maps, keyed by session, changed in place by the synchronous
 * segments of its methods. Each segment is proved to take its session through the
 * step of YjsDocument and to leave every other session as it was, so the results of
 * YjsDurability and YjsPurge hold for every session of the registry separately.
 */
module YjsDocumentRegistry {
  import opened Crdt
  import opened Prelude
  import M = YjsDocument

  type SessionId = string

  datatype Suspended = Suspended(
    abandoned: seq<M.Job>, nextJob: nat, releases: seq<M.Release>,
    tombstoneTimers: nat, purges: seq<M.Purge>, purgesBegun: nat)

  datatype History = History(activity: nat, accepted: Doc, unsaved: Doc, dropped: Doc)

  const IDLE := Suspended([], 0, [], 0, [], 0)
  const NO_HISTORY := History(0, {}, {}, {})

  class Registry {
    const config: M.Config
    // The store's rows, as far as the Yjs state goes.
    var rows: map<SessionId, Doc>
    var docs: map<SessionId, Doc>
    var documentLoads: map<SessionId, M.Load>
    var snapshotRevisions: map<SessionId, nat>
    var generations: map<SessionId, nat>
    var pendingPersistence: map<SessionId, Doc>
    var persistenceTimers: set<SessionId>
    var persistenceQueues: map<SessionId, seq<M.Job>>
    var purgedSessions: set<SessionId>
    // What the event loop holds for a session: writes of forgotten chains, suspended calls, armed tombstone timers.
    var suspended: map<SessionId, Suspended>
    // Histories, for the statements only.
    var histories: map<SessionId, History>

    /** The state of one session. */
    ghost function At(id: SessionId): M.Session
      reads this
    {
      var loop, history := LookupOr(suspended, id, IDLE), LookupOr(histories, id, NO_HISTORY);
      M.Session(
        Lookup(rows, id), Lookup(docs, id), Lookup(documentLoads, id), LookupOr(snapshotRevisions, id, 0),
        LookupOr(generations, id, 0), Lookup(pendingPersistence, id), id in persistenceTimers,
        LookupOr(persistenceQueues, id, []), loop.abandoned, loop.nextJob, loop.releases,
        id in purgedSessions, loop.tombstoneTimers, loop.purges, loop.purgesBegun,
        history.activity, history.accepted, history.unsaved, history.dropped)
    }

    constructor (config: M.Config, rows: map<SessionId, Doc>)
      ensures this.config == config
      ensures forall id :: At(id) == M.Fresh(Lookup(rows, id))
    {
      this.config := config;
      this.rows := rows;
      docs, documentLoads, snapshotRevisions, generations := map[], map[], map[], map[];
      pendingPersistence, persistenceTimers, persistenceQueues := map[], {}, map[];
      purgedSessions, suspended, histories := {}, map[], map[];
    }

    // The private methods.

    method Touch(id: SessionId)
      modifies this
      ensures At(id) == M.Touch(old(At(id)))
      ensures forall other :: other != id ==> At(other) == old(At(other))
    {
      generations := generations[id := LookupOr(generations, id, 0) + 1];
      var history := LookupOr(histories, id, NO_HISTORY);
      histories := histories[id := history.(activity := history.activity + 1)];
    }

    method SchedulePersistence(id: SessionId, state: Doc)
      modifies this
      ensures At(id) == M.SchedulePersistence(old(At(id)), state)
      ensures forall other :: other != id ==> At(other) == old(At(other))
    {
      pendingPersistence := pendingPersistence[id := state];
      if id in persistenceTimers { return; }
      persistenceTimers := persistenceTimers + {id};
    }

    method EnqueuePersistence(id: SessionId, state: Doc)
      modifies this
      ensures At(id) == M.EnqueuePersistence(old(At(id)), state)
      ensures forall other :: other != id ==> At(other) == old(At(other))
    {
      var loop := LookupOr(suspended, id, IDLE);
      var previous := LookupOr(persistenceQueues, id, []);
      persistenceQueues := persistenceQueues[id := previous + [M.Job(loop.nextJob, state, false)]];
      suspended := suspended[id := loop.(nextJob := loop.nextJob + 1)];
    }

    method CancelScheduledPersistence(id: SessionId)
      modifies this
      ensures At(id) == M.CancelScheduledPersistence(old(At(id)))
      ensures forall other :: other != id ==> At(other) == old(At(other))
    {
      if id in persistenceTimers {
        persistenceTimers := persistenceTimers - {id};
      }
      pendingPersistence := pendingPersistence - {id};
    }

    method DeleteDocument(id: SessionId)
      modifies this
      ensures At(id) == M.DeleteDocument(old(At(id)))
      ensures forall other :: other != id ==> At(other) == old(At(other))
    {
      CancelScheduledPersistence(id);
      var loop := LookupOr(suspended, id, IDLE);
      suspended := suspended[id := loop.(abandoned := loop.abandoned + LookupOr(persistenceQueues, id, []))];
      persistenceQueues := persistenceQueues - {id};
      docs := docs - {id};
      snapshotRevisions := snapshotRevisions - {id};
      generations := generations - {id};
    }

    method RemoveJob(id: SessionId, slot: M.Slot)
      requires M.HasJob(At(id), slot)
      modifies this
      ensures At(id) == M.RemoveJob(old(At(id)), slot)
      ensures forall other :: other != id ==> At(other) == old(At(other))
    {
      match slot {
        case Head => persistenceQueues := persistenceQueues[id := persistenceQueues[id][1..]];
        case Abandoned(k) =>
          var loop := suspended[id];
          suspended := suspended[id := loop.(abandoned := RemoveAt(loop.abandoned, k))];
      }
    }

    /** Y.applyUpdate on the live document. */
    method Merge(id: SessionId, ops: Doc)
      requires id in docs
      modifies this
      ensures
        var s := old(At(id));
        At(id) == s.(doc := Some(s.doc.value + ops), accepted := s.accepted + ops)
      ensures forall other :: other != id ==> At(other) == old(At(other))
    {
      docs := docs[id := docs[id] + ops];
      var history := LookupOr(histories, id, NO_HISTORY);
      histories := histories[id := history.(accepted := history.accepted + ops)];
    }

    /** The synchronous changes of mirrorSnapshot to the document. */
    method RecordMirror(id: SessionId, revision: Option<nat>, ops: Doc)
      requires id in docs
      modifies this
      ensures
        var s := old(At(id));
        At(id) == M.Touch(s.(mirrored := revision.GetOr(s.mirrored), doc := Some(s.doc.value + ops),
                             accepted := s.accepted + ops))
      ensures forall other :: other != id ==> At(other) == old(At(other))
    {
      if revision.Some? {
        snapshotRevisions := snapshotRevisions[id := revision.value];
      }
      assert forall other :: other != id ==> At(other) == old(At(other));
      Touch(id);
      Merge(id, ops);
    }

    /** Replaces whatever is scheduled by a write of `state`. */
    method PersistNow(id: SessionId, state: Doc)
      modifies this
      ensures At(id) == M.EnqueuePersistence(M.CancelScheduledPersistence(old(At(id))), state)
      ensures forall other :: other != id ==> At(other) == old(At(other))
    {
      CancelScheduledPersistence(id);
      EnqueuePersistence(id, state);
    }

    // The segments between awaits, each a step of its session.

    /** applyUpdate after its await. */
    method ApplyUpdate(id: SessionId, update: Doc) returns (reply: M.Reply)
      requires id in docs
      modifies this
      ensures At(id) == M.RunTail(config, old(At(id)), M.Apply(update))
      ensures reply == M.TailReply(config, old(At(id)), M.Apply(update))
      ensures forall other :: other != id ==> At(other) == old(At(other))
    {
      var projected := config.size(docs[id] + update);
      if projected > config.maxBytes {
        return M.TooLarge(projected, config.maxBytes);
      }
      Merge(id, update);
      Touch(id);
      SchedulePersistence(id, docs[id]);
      reply := M.State(docs[id]);
    }

    /** mirrorSnapshot between its awaits. */
    method MirrorSnapshot(id: SessionId, revision: Option<nat>, ops: Doc) returns (reply: M.Reply)
      requires id in docs
      modifies this
      ensures At(id) == M.RunTail(config, old(At(id)), M.Mirror(revision, ops))
      ensures reply == M.TailReply(config, old(At(id)), M.Mirror(revision, ops))
      ensures forall other :: other != id ==> At(other) == old(At(other))
    {
      if revision.Some? && revision.value <= LookupOr(snapshotRevisions, id, 0) {
        return M.State(docs[id]);
      }
      RecordMirror(id, revision, ops);
      PersistNow(id, docs[id]);
      reply := M.State(docs[id]);
    }

    /** What the caller of getDocument does next. */
    method RunTail(id: SessionId, tail: M.Tail) returns (reply: M.Reply)
      requires id in docs
      modifies this
      ensures At(id) == M.RunTail(config, old(At(id)), tail)
      ensures reply == M.TailReply(config, old(At(id)), tail)
      ensures forall other :: other != id ==> At(other) == old(At(other))
    {
      match tail {
        case Read => reply := M.State(docs[id]);
        case Apply(update) => reply := ApplyUpdate(id, update);
        case Mirror(revision, ops) => reply := MirrorSnapshot(id, revision, ops);
      }
    }

    /** getDocument for a caller with the given tail; no reply yet while the document is being loaded. */
    method GetDocument(id: SessionId, tail: M.Tail) returns (reply: Option<M.Reply>)
      modifies this
      ensures At(id) == M.GetDocument(config, old(At(id)), tail)
      ensures reply.Some? <==> old(At(id)).doc.Some?
      ensures reply.Some? ==> reply.value == M.TailReply(config, M.Touch(old(At(id))), tail)
      ensures forall other :: other != id ==> At(other) == old(At(other))
    {
      Touch(id);
      if id in docs {
        var r := RunTail(id, tail);
        return Some(r);
      }
      if id in documentLoads {
        var load := documentLoads[id];
        documentLoads := documentLoads[id := load.(waiting := load.waiting + [tail])];
      } else {
        documentLoads := documentLoads[id := M.Load([tail], None)];
      }
      reply := None;
    }

    method ReadStore(id: SessionId)
      requires M.Enabled(At(id), M.LoadRead)
      modifies this
      ensures At(id) == M.Step(config, old(At(id)), M.LoadRead)
      ensures forall other :: other != id ==> At(other) == old(At(other))
    {
      var load := documentLoads[id];
      documentLoads := documentLoads[id := load.(read := Some(LookupOr(rows, id, {})))];
    }

    /** The load resolves: every caller that was waiting continues, in order, and is answered. */
    method FinishLoad(id: SessionId) returns (replies: seq<M.Reply>)
      requires M.Enabled(At(id), M.LoadFinish)
      modifies this
      ensures replies == M.LoadReplies(config, old(At(id)))
      ensures At(id) == M.Step(config, old(At(id)), M.LoadFinish)
      ensures forall other :: other != id ==> At(other) == old(At(other))
    {
      var load := documentLoads[id];
      docs := docs[id := load.read.value];
      documentLoads := documentLoads - {id};
      assert At(id) == old(At(id)).(doc := load.read, load := None);
      assert forall other :: other != id ==> At(other) == old(At(other));
      replies := RunTails(id, load.waiting);
    }

    method RunTails(id: SessionId, waiting: seq<M.Tail>) returns (replies: seq<M.Reply>)
      requires id in docs
      modifies this
      ensures replies == M.TailReplies(config, old(At(id)), waiting)
      ensures At(id) == M.RunTails(config, old(At(id)), waiting)
      ensures forall other :: other != id ==> At(other) == old(At(other))
      decreases |waiting|
    {
      if waiting == [] {
        replies := [];
      } else {
        var first := RunTail(id, waiting[0]);
        var rest := RunTails(id, waiting[1..]);
        replies := [first] + rest;
      }
    }

    method FailLoad(id: SessionId)
      requires M.Enabled(At(id), M.LoadFail)
      modifies this
      ensures At(id) == M.Step(config, old(At(id)), M.LoadFail)
      ensures forall other :: other != id ==> At(other) == old(At(other))
    {
      documentLoads := documentLoads - {id};
    }

    method FireTimer(id: SessionId)
      requires M.Enabled(At(id), M.TimerFire)
      modifies this
      ensures At(id) == M.Step(config, old(At(id)), M.TimerFire)
      ensures forall other :: other != id ==> At(other) == old(At(other))
    {
      persistenceTimers := persistenceTimers - {id};
      var latest := Lookup(pendingPersistence, id);
      pendingPersistence := pendingPersistence - {id};
      if latest.None? { return; }
      EnqueuePersistence(id, latest.value);
    }

    /** The turn of a queued write: skipped for a purged session, otherwise upsertYjsState is called. */
    method StartJob(id: SessionId, slot: M.Slot)
      requires M.Enabled(At(id), M.JobStart(slot))
      modifies this
      ensures At(id) == M.Step(config, old(At(id)), M.JobStart(slot))
      ensures forall other :: other != id ==> At(other) == old(At(other))
    {
      if id in purgedSessions {
        RemoveJob(id, slot);
        return;
      }
      match slot {
        case Head =>
          var queue := persistenceQueues[id];
          persistenceQueues := persistenceQueues[id := queue[0 := queue[0].(inFlight := true)]];
        case Abandoned(k) =>
          var loop := suspended[id];
          var started := loop.abandoned[k].(inFlight := true);
          suspended := suspended[id := loop.(abandoned := loop.abandoned[k := started])];
      }
    }

    method FinishWrite(id: SessionId, slot: M.Slot, ok: bool)
      requires M.Enabled(At(id), M.WriteDone(slot, ok))
      modifies this
      ensures At(id) == M.Step(config, old(At(id)), M.WriteDone(slot, ok))
      ensures forall other :: other != id ==> At(other) == old(At(other))
    {
      var state := match slot
        case Head => persistenceQueues[id][0].state
        case Abandoned(k) => suspended[id].abandoned[k].state;
      if ok {
        rows := rows[id := LookupOr(rows, id, {}) + state];
      }
      var history := LookupOr(histories, id, NO_HISTORY);
      histories := histories[id := history.(unsaved := if ok then {} else state)];
      RemoveJob(id, slot);
    }

    /** The first half of releaseDocument, up to its await. */
    method BeginRelease(id: SessionId)
      modifies this
      ensures At(id) == M.Step(config, old(At(id)), M.ReleaseBegin)
      ensures forall other :: other != id ==> At(other) == old(At(other))
    {
      var generation := LookupOr(generations, id, 0);
      var pending := Lookup(pendingPersistence, id);
      if pending.Some? {
        PersistNow(id, pending.value);
      } else {
        CancelScheduledPersistence(id);
      }
      var queue := LookupOr(persistenceQueues, id, []);
      var release := M.Release(generation, M.Ids(queue), LookupOr(histories, id, NO_HISTORY).activity);
      var loop := LookupOr(suspended, id, IDLE);
      suspended := suspended[id := loop.(releases := loop.releases + [release])];
    }

    /** The second half of releaseDocument; true when the document was dropped. */
    method CheckRelease(id: SessionId, i: nat) returns (released: bool)
      requires M.Enabled(At(id), M.ReleaseCheck(i))
      modifies this
      ensures released == M.Releasable(old(At(id)), old(At(id)).releases[i])
      ensures At(id) == M.Step(config, old(At(id)), M.ReleaseCheck(i))
      ensures forall other :: other != id ==> At(other) == old(At(other))
    {
      var loop := suspended[id];
      var release := loop.releases[i];
      suspended := suspended[id := loop.(releases := RemoveAt(loop.releases, i))];
      if LookupOr(generations, id, 0) != release.generation
        || id in pendingPersistence
        || id in persistenceTimers
        || id in documentLoads
      {
        return false;
      }
      var history := LookupOr(histories, id, NO_HISTORY);
      var lost := history.unsaved - LookupOr(rows, id, {});
      histories := histories[id := history.(dropped := history.dropped + lost, unsaved := {})];
      DeleteDocument(id);
      return true;
    }

    /** purgeDocument up to its await. */
    method BeginPurge(id: SessionId)
      modifies this
      ensures At(id) == M.Step(config, old(At(id)), M.PurgeBegin)
      ensures forall other :: other != id ==> At(other) == old(At(other))
    {
      purgedSessions := purgedSessions + {id};
      CancelScheduledPersistence(id);
      assert forall other :: other != id ==> At(other) == old(At(other));
      var loop := LookupOr(suspended, id, IDLE);
      var purge := M.Purge(loop.purgesBegun, M.Ids(LookupOr(persistenceQueues, id, [])), false);
      suspended := suspended[id := loop.(
        tombstoneTimers := loop.tombstoneTimers + 1,
        purges := loop.purges + [purge],
        purgesBegun := loop.purgesBegun + 1)];
    }

    /** purgeDocument after its await. */
    method DropForPurge(id: SessionId, i: nat)
      requires M.Enabled(At(id), M.PurgeDrop(i))
      modifies this
      ensures At(id) == M.Step(config, old(At(id)), M.PurgeDrop(i))
      ensures forall other :: other != id ==> At(other) == old(At(other))
    {
      var loop := suspended[id];
      suspended := suspended[id := loop.(purges := loop.purges[i := loop.purges[i].(dropped := true)])];
      DeleteDocument(id);
    }

    /** The last step of PurgeSessionUseCase.execute; true when there was a row. */
    method DeleteRow(id: SessionId, i: nat) returns (purged: bool)
      requires M.Enabled(At(id), M.RowDelete(i))
      modifies this
      ensures purged == old(At(id)).row.Some?
      ensures At(id) == M.Step(config, old(At(id)), M.RowDelete(i))
      ensures forall other :: other != id ==> At(other) == old(At(other))
    {
      purged := id in rows;
      rows := rows - {id};
      var loop := suspended[id];
      suspended := suspended[id := loop.(purges := RemoveAt(loop.purges, i))];
    }

    method ExpireTombstone(id: SessionId)
      requires M.Enabled(At(id), M.TombstoneExpire)
      modifies this
      ensures At(id) == M.Step(config, old(At(id)), M.TombstoneExpire)
      ensures forall other :: other != id ==> At(other) == old(At(other))
    {
      purgedSessions := purgedSessions - {id};
      var loop := suspended[id];
      suspended := suspended[id := loop.(tombstoneTimers := loop.tombstoneTimers - 1)];
    }
  }
}
