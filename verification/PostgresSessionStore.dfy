/** The session table: each method is one transaction under the session's advisory lock. */
module PostgresSessionStore {
  import opened Crdt
  import opened Prelude
  import H = SessionHistory

  type SessionId = string

  class Store {
    var rows: map<SessionId, H.Row>

    constructor ()
      ensures rows == map[]
    {
      rows := map[];
    }

    /** Only session `id` has changed, as by transaction `op`. */
    twostate predicate Transacted(id: SessionId, op: H.Op)
      reads this
    {
      && Lookup(rows, id) == H.Apply(old(Lookup(rows, id)), op)
      && rows - {id} == old(rows) - {id}
    }

    method GetOrCreateSession(id: SessionId, user: string, drawingPath: Option<string>, initialContent: Option<H.Content>)
      returns (session: H.Row)
      modifies this
      ensures Transacted(id, H.GetOrCreate(user, drawingPath, initialContent))
      ensures Some(session) == Lookup(rows, id)
    {
      if id in rows {
        var existing := rows[id];
        session := existing;
        if existing.drawingPath.None? {
          session := session.(drawingPath := drawingPath);
        }
        if existing.snapshot.None? && initialContent.Some? {
          session := session.(snapshot := Some(H.Snapshot(1, initialContent.value, "github")));
        }
        session := session.(audit := session.audit + [H.SessionJoined(user)]);
      } else {
        session := H.Row(drawingPath, H.Active, H.Seed(initialContent), None, 0, [H.SessionCreated(user)]);
      }
      rows := rows[id := session];
    }

    /** The new snapshot, or the current one in a conflict. */
    method UpsertSnapshot(id: SessionId, baseRevision: Option<nat>, content: H.Content, drawingPath: Option<string>, updatedBy: string)
      returns (ok: bool, snapshot: Option<H.Snapshot>)
      modifies this
      ensures Transacted(id, H.UpsertSnapshot(baseRevision, content, drawingPath, updatedBy))
      ensures ok <==> !H.Conflicts(old(Lookup(rows, id)), baseRevision)
      ensures snapshot == if id in rows then rows[id].snapshot else None
    {
      var current := if id in rows then rows[id].snapshot else None;
      if baseRevision.Some? && baseRevision.value != H.RevisionOf(current) {
        return false, current;
      }
      var revision := H.RevisionOf(current) + 1;
      var row := LookupOr(rows, id, H.NEW_ROW);
      snapshot := Some(H.Snapshot(revision, content, updatedBy));
      rows := rows[id := row.(
        drawingPath := drawingPath,
        snapshot := snapshot,
        audit := row.audit + [H.SnapshotUpdated(revision, updatedBy)])];
      ok := true;
    }

    method UpsertYjsState(id: SessionId, state: Doc, updatedBy: string)
      modifies this
      ensures Transacted(id, H.UpsertYjs(state, updatedBy))
    {
      var row := LookupOr(rows, id, H.NEW_ROW);
      var revision := row.yjsRevision + 1;
      var merged := if row.yjsState.Some? then row.yjsState.value + state else {} + state;
      rows := rows[id := row.(
        yjsState := Some(merged),
        yjsRevision := revision,
        audit := row.audit + [H.YjsUpdated(revision, updatedBy)])];
    }

    method UpdateSessionStatus(id: SessionId, status: H.Status, updatedBy: string) returns (found: bool)
      modifies this
      ensures Transacted(id, H.UpdateStatus(status, updatedBy)) && found == (id in old(rows))
    {
      if id !in rows { return false; }
      var row := rows[id];
      rows := rows[id := row.(status := status, audit := row.audit + [H.StatusChanged(status, updatedBy)])];
      return true;
    }

    method AppendSessionAudit(id: SessionId, event: H.Event) returns (found: bool)
      modifies this
      ensures Transacted(id, H.AppendAudit(event)) && found == (id in old(rows))
    {
      if id !in rows { return false; }
      rows := rows[id := rows[id].(audit := rows[id].audit + [event])];
      return true;
    }

    method DeleteSession(id: SessionId) returns (deleted: Option<H.Row>)
      modifies this
      ensures Transacted(id, H.DeleteSession) && deleted == old(Lookup(rows, id))
    {
      deleted := Lookup(rows, id);
      rows := rows - {id};
    }
  }
}
