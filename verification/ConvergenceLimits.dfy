/**
 * The conditions of Convergence are exact. Wherever an update can be stamped with the id of a
 * client, and wherever a client may save snapshots over the socket, there is a run that leaves a client idle
 * without some operation the server has. The editor skips a whole merged batch when its last
 * update carries its own id; a whole state that was long in writing replaces a newer one.
 */
module ConvergenceLimits {
  import opened Crdt
  import opened Prelude
  import opened Convergence
  import opened ConvergenceRuns
  import O = Outbox

  ghost predicate Diverges(ids: set<PeerId>, setup: Setup) {
    exists t, j :: Reaches(FreshSystem(ids), t, setup) && j in t.peers && Idle(t.peers[j]) && !Converged(t.peers[j], t)
  }

  /** Another client's name equal to one's own id: its updates are never shown. */
  lemma ForeignNameDiverges(ids: set<PeerId>, setup: Setup, i: PeerId, j: PeerId)
    requires i in ids && j in ids && i != j && setup.actor(i) == setup.clientId(j)
    ensures Diverges(ids, setup)
  {
    var s := FreshSystem(ids);
    ReachesNow(s, setup);
    Enter(s, s, j, setup);
    var s1 := At(s, j, Entered({}));
    Enter(s, s1, i, setup);
    var s2 := At(s1, i, Entered({}));
    FirstEdit(s, s2, i, {0}, setup);
    var s3 := At(s2, i, Edited({}, {0}));
    Then(s, s3, Process(i, 0), setup);
    var s4 := Step(s3, Process(i, 0), setup);
    var p := Entered({}).(inbox := [Broadcast({0}, setup.actor(i))]);
    assert s4.peers[j] == p;
    assert At(s4, j, p) == s4;
    SkippedBroadcast(s, s4, j, p, {0}, setup.actor(i), setup);
    var q := Entered({}).(remote := Some(Remote({0}, setup.actor(i), 1)), sequence := 1, applied := 1, missed := {0});
    var t := At(s4, j, q);
    assert 0 in t.doc && Idle(t.peers[j]) && t.peers[j].replica == {};
  }

  /** A client stamped with its own id: the echo of a late duplicate hides another client's update. */
  lemma OwnNameDiverges(ids: set<PeerId>, setup: Setup, i: PeerId, k: PeerId)
    requires i in ids && k in ids && i != k && setup.actor(i) == setup.clientId(i)
    ensures Diverges(ids, setup)
  {
    var s := FreshSystem(ids);
    var s8 := DuplicateRun(ids, setup, i, k);
    Then(s, s8, Process(i, 0), setup);
    var s9 := Step(s8, Process(i, 0), setup);
    var p9 := Acknowledged({0}).(inbox := [Broadcast({1}, setup.actor(k)), Broadcast({0}, setup.clientId(i))]);
    assert s9.peers[i] == p9 && 1 in s9.doc;
    assert At(s9, i, p9) == s9;
    SkippedBatch(s, s9, i, p9, {0}, {1}, setup.actor(k), setup);
    var q := Acknowledged({0}).(remote := Some(Remote({1} + {0}, setup.clientId(i), 2)), sequence := 2, applied := 2,
                                missed := {1} + {0} - {0});
    var t := At(s9, i, q);
    assert Idle(t.peers[i]) && 1 !in t.peers[i].replica && 1 in t.doc - t.checkpoints;
  }

  ghost predicate AlwaysConverges(ids: set<PeerId>, setup: Setup) {
    forall s, t, i ::
      Initial(s) && s.peers.Keys == ids && Reaches(s, t, setup) && i in t.peers && Idle(t.peers[i]) ==>
        Converged(t.peers[i], t)
  }

  /**
   * A client that may save snapshots: its snapshot is still being written when another client's edit
   * is processed; it joins again, and the older whole state reaches it together with the join answer.
   */
  lemma OldStateDiverges(ids: set<PeerId>, setup: Setup, i: PeerId, k: PeerId)
    requires i in ids && k in ids && i != k && i in setup.writers
    ensures Diverges(ids, setup)
  {
    var s := FreshSystem(ids);
    var s1 := EditDuringWrite(ids, setup, i, k);
    var s2 := Rejoin(s, s1, i, s1.peers[i], setup);
    Then(s, s2, Announce(i, 0), setup);
    var s3 := Step(s2, Announce(i, 0), setup);
    var p := Entered({}).(epoch := 2, outbox := ONLINE.(joined := false), inbox := [Joined({0, 1}), Whole({0})]);
    assert [Joined({0, 1})] + [Whole({0})] == [Joined({0, 1}), Whole({0})];
    assert s3.peers[i] == p;
    assert At(s3, i, p) == s3;
    HandleBoth(s, s3, i, p, {0, 1}, {0}, setup);
    var q := Entered({0}).(epoch := 2, replica := {0}, answer := {0, 1}, missed := {0, 1} - {0});
    var t := At(s3, i, q);
    assert Idle(t.peers[i]) && 1 in t.doc - t.checkpoints && 1 !in t.peers[i].replica;
  }

  /** Checkpoint operations themselves: a client that saved one snapshot is idle without them. */
  lemma OwnCheckpointIsNotShown(ids: set<PeerId>, setup: Setup, i: PeerId) returns (t: System)
    requires i in ids
    ensures Reaches(FreshSystem(ids), t, setup) && i in t.peers && Idle(t.peers[i]) && t.peers[i].replica != t.doc
  {
    var s := FreshSystem(ids);
    ReachesNow(s, setup);
    Enter(s, s, i, setup);
    var s1 := At(s, i, Entered({}));
    Then(s, s1, Checkpoint(i, {0}), setup);
    t := Step(s1, Checkpoint(i, {0}), setup);
    assert 0 in t.doc && t.peers[i].replica == {};
  }

  /**
   * With at least two clients, every idle client of every run shows the server document, checkpoints
   * aside, if and only if no update can be stamped with some client's own id and no client may save
   * snapshots over the socket.
   */
  lemma ConvergesIff(ids: set<PeerId>, setup: Setup, a: PeerId, b: PeerId)
    requires a in ids && b in ids && a != b
    ensures AlwaysConverges(ids, setup) <==> NamesApart(setup, ids) && setup.writers !! ids
  {
    if !NamesApart(setup, ids) {
      var i, j :| i in ids && j in ids && setup.actor(i) == setup.clientId(j);
      if i != j {
        ForeignNameDiverges(ids, setup, i, j);
      } else {
        OwnNameDiverges(ids, setup, i, if i == a then b else a);
      }
    } else if i :| i in ids && i in setup.writers {
      OldStateDiverges(ids, setup, i, if i == a then b else a);
    } else {
      ConvergesWithoutSnapshots(ids, setup);
    }
    assert Initial(FreshSystem(ids)) && FreshSystem(ids).peers.Keys == ids;
  }

  lemma RunKeepsKeys(s: System, es: seq<Event>, setup: Setup)
    requires Initial(s) && Legal(s, es, setup)
    ensures Exec(s, es, setup).peers.Keys == s.peers.Keys
  {
    InitialInv(s);
    RunKeepsInv(s, es, setup);
  }

  lemma ConvergesWithoutSnapshots(ids: set<PeerId>, setup: Setup)
    requires NamesApart(setup, ids) && setup.writers !! ids
    ensures AlwaysConverges(ids, setup)
  {
    forall s, t, i | Initial(s) && s.peers.Keys == ids && Reaches(s, t, setup) && i in t.peers && Idle(t.peers[i])
      ensures Converged(t.peers[i], t)
    {
      var es :| Legal(s, es, setup) && Exec(s, es, setup) == t;
      RunSendsNoWhole(s, es, setup, i);
      assert Exec(s, [], setup) == s;
      RunKeepsKeys(s, es, setup);
      IdleMeansConverged(s, [], es, setup, i);
    }
  }
}
