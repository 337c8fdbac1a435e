/**
 * The board tables: every method is one transaction, scoped by owner. A board's revision and
 * versions move as in BoardHistory; no owner has two boards at one path.
 */
module WorkspaceBoardStore {
  import opened Prelude
  import H = BoardHistory
  import P = BoardPaths

  type BoardId = nat

  datatype Board = Board(owner: string, path: string, title: string, revision: nat, content: H.Content)

  datatype Result =
    | Done(id: BoardId, path: string, revision: nat)
    | NotFound
    | StorageConflict
    | Exists

  class Store {
    var boards: map<BoardId, Board>
    var versions: map<BoardId, map<nat, H.Content>>
    var nextId: BoardId

    constructor ()
      ensures Valid() && boards == map[]
    {
      boards, versions, nextId := map[], map[], 0;
    }

    ghost predicate Valid()
      reads this
    {
      && versions.Keys == boards.Keys
      && (forall id :: id in boards ==> id < nextId)
      // UNIQUE (owner_user_id, path)
      && (forall a, b :: a in boards && b in boards && SamePlace(boards[a], boards[b]) ==> a == b)
    }

    static predicate SamePlace(a: Board, b: Board) {
      a.owner == b.owner && a.path == b.path
    }

    ghost function HistoryOf(id: BoardId): H.History
      requires id in boards && id in versions
      reads this
    {
      H.History(boards[id].revision, boards[id].content, versions[id])
    }

    ghost predicate At(id: BoardId, owner: string, path: string)
      reads this
    {
      id in boards && boards[id].owner == owner && boards[id].path == path
    }

    /** Nothing but board `id` differs from before. */
    twostate predicate OnlyChanged(id: BoardId)
      reads this
    {
      && boards - {id} == old(boards) - {id}
      && versions - {id} == old(versions) - {id}
    }

    method Create(owner: string, title: string, content: H.Content) returns (r: Result)
      requires Valid()
      modifies this
      ensures Valid() && r.Done? && r.id !in old(boards) && r.id in boards && OnlyChanged(r.id)
      ensures At(r.id, owner, r.path) && boards[r.id].title == title && P.ValidDrawingPath(r.path)
      ensures HistoryOf(r.id) == H.Create(content) && r.revision == 1
    {
      var taken := set id | id in boards && boards[id].owner == owner :: boards[id].path;
      var path, _ := P.AllocatePath(title, taken);
      var id := nextId;
      boards := boards[id := Board(owner, path, title, 1, content)];
      versions := versions[id := map[1 := content]];
      nextId := nextId + 1;
      r := Done(id, path, 1);
      forall other | other in boards && other != id ensures !SamePlace(boards[other], boards[id]) {
        assert boards[other] == old(boards)[other];
        if boards[other].owner == owner {
          assert boards[other].path in taken;
        }
      }
    }

    /** The common end of save and restore: new revision, new version, pruning. */
    method WriteRevision(id: BoardId, content: H.Content, max: nat)
      requires Valid() && id in boards
      modifies this
      ensures Valid() && OnlyChanged(id) && id in boards
      ensures HistoryOf(id) == H.Write(old(HistoryOf(id)), content, max)
      ensures boards[id] == old(boards[id]).(revision := boards[id].revision, content := boards[id].content)
    {
      var board := boards[id];
      var revision := board.revision + 1;
      boards := boards[id := board.(revision := revision, content := content)];
      versions := versions[id := H.Prune(versions[id][revision := content], revision, max)];
      forall other | other in boards && other != id ensures !SamePlace(boards[other], boards[id]) {
        assert boards[other] == old(boards)[other];
      }
    }

    method Save(owner: string, path: string, sha: string, content: H.Content, max: nat) returns (r: Result)
      requires Valid()
      modifies this
      ensures Valid()
      ensures r.NotFound? <==> !exists id :: old(At(id, owner, path))
      ensures r.Done? ==>
        && old(At(r.id, owner, path)) && OnlyChanged(r.id) && At(r.id, owner, path) && r.revision == boards[r.id].revision
        && r.path == path && boards[r.id].title == old(boards[r.id].title)
        && H.Save(old(HistoryOf(r.id)), sha, content, max) == H.Written(HistoryOf(r.id))
      ensures !r.Done? ==> boards == old(boards) && versions == old(versions)
      ensures r.StorageConflict? ==>
        exists id :: old(At(id, owner, path)) && H.Save(old(HistoryOf(id)), sha, content, max) == H.Conflict
      ensures !r.Exists?
    {
      var expected := P.ShaToRevision(sha);
      if id :| id in boards && boards[id].owner == owner && boards[id].path == path {
        assert old(At(id, owner, path));
        if expected.None? || boards[id].revision != expected.value {
          assert H.Save(old(HistoryOf(id)), sha, content, max) == H.Conflict;
          return StorageConflict;
        }
        WriteRevision(id, content, max);
        return Done(id, path, boards[id].revision);
      }
      return NotFound;
    }

    method RestoreVersion(owner: string, id: BoardId, revision: nat, max: nat) returns (r: Result)
      requires Valid()
      modifies this
      ensures Valid()
      ensures r.Done? <==> old(id in boards && boards[id].owner == owner && revision in versions[id])
      ensures r.Done? ==>
        && r.id == id && OnlyChanged(id) && At(id, owner, r.path) && r.revision == boards[id].revision
        && r.path == old(boards[id].path) && boards[id].title == old(boards[id].title)
        && H.Restore(old(HistoryOf(id)), revision, max) == H.Written(HistoryOf(id))
      ensures !r.Done? ==> r == NotFound && boards == old(boards) && versions == old(versions)
    {
      if id !in boards || boards[id].owner != owner { return NotFound; }
      if revision !in versions[id] { return NotFound; }
      WriteRevision(id, versions[id][revision], max);
      return Done(id, boards[id].path, boards[id].revision);
    }

    /** Title and path change, content and versions do not; a path another board holds is refused. */
    method Rename(owner: string, id: BoardId, title: string, newPath: Option<string>) returns (r: Result)
      requires Valid()
      modifies this
      ensures Valid()
      ensures r.NotFound? <==> !old(id in boards && boards[id].owner == owner)
      ensures r.Exists? <==>
        && old(id in boards && boards[id].owner == owner)
        && newPath.Some? && newPath.value != ""
        && exists other :: other != id && old(At(other, owner, newPath.value))
      ensures r.Done? ==>
        && r.id == id && OnlyChanged(id) && At(id, owner, r.path) && boards[id].title == title
        && HistoryOf(id) == old(HistoryOf(id))
        && (if newPath.Some? && newPath.value != "" then r.path == newPath.value else P.ValidDrawingPath(r.path))
      ensures !r.Done? ==> boards == old(boards) && versions == old(versions)
      ensures !r.StorageConflict?
    {
      if id !in boards || boards[id].owner != owner { return NotFound; }
      var taken := set other | other in boards && other != id && boards[other].owner == owner :: boards[other].path;
      var path: string;
      if newPath.Some? && newPath.value != "" {
        path := newPath.value;
      } else {
        var tests;
        path, tests := P.AllocatePath(title, taken);
      }
      if path in taken {
        ghost var other :| other in boards && other != id && boards[other].owner == owner && boards[other].path == path;
        assert old(At(other, owner, path));
        return Exists;
      }
      forall other | other in boards && other != id && boards[other].owner == owner ensures boards[other].path != path {
        assert boards[other].path in taken;
      }
      boards := boards[id := boards[id].(title := title, path := path)];
      return Done(id, path, boards[id].revision);
    }

    method Delete(owner: string, id: BoardId) returns (r: Result)
      requires Valid()
      modifies this
      ensures Valid()
      ensures r.Done? <==> old(id in boards && boards[id].owner == owner)
      ensures r.Done? ==> boards == old(boards) - {id} && versions == old(versions) - {id}
      ensures !r.Done? ==> r == NotFound && boards == old(boards) && versions == old(versions)
    {
      if id !in boards || boards[id].owner != owner { return NotFound; }
      r := Done(id, boards[id].path, boards[id].revision);
      boards := boards - {id};
      versions := versions - {id};
    }
  }
}
