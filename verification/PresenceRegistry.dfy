/** Who is connected to each session, by socket. */
module PresenceRegistry {
  import opened Prelude

  /** A user as far as presence goes: the socket it came by, and the rest of its description. */
  datatype User = User(socketId: string, description: string)

  type Presence = map<string, map<string, User>>

  predicate Present(p: Presence, session: string, socket: string) {
    session in p && socket in p[session]
  }

  /** No session with nobody in it is remembered, and users are filed under their socket. */
  predicate Valid(p: Presence) {
    forall s :: s in p ==> p[s] != map[] && forall k :: k in p[s] ==> p[s][k].socketId == k
  }

  function Add(p: Presence, session: string, u: User): Presence {
    p[session := LookupOr(p, session, map[])[u.socketId := u]]
  }

  function Remove(p: Presence, socket: string): Presence {
    map s | s in p && p[s] - {socket} != map[] :: p[s] - {socket}
  }

  function Clients(p: Presence): set<(string, string)> {
    set s, k | s in p && k in p[s] :: (s, k)
  }

  lemma AddPresent(p: Presence, session: string, u: User)
    requires Valid(p)
    ensures Valid(Add(p, session, u))
    ensures Clients(Add(p, session, u)) == Clients(p) + {(session, u.socketId)}
    ensures Add(p, session, u)[session][u.socketId] == u
    ensures forall s, k :: (s, k) in Clients(p) && (s, k) != (session, u.socketId) ==> Add(p, session, u)[s][k] == p[s][k]
  {
    var a: Presence := Add(p, session, u);
    assert u.socketId in a[session];
    forall s: string | s in a ensures a[s] != map[] && forall k: string :: k in a[s] ==> a[s][k].socketId == k {
      if s != session {
        assert a[s] == p[s];
      }
    }
  }

  /** Afterwards the socket is in no session, everybody else is where they were, and emptied sessions are gone. */
  lemma RemoveLeavesOthers(p: Presence, socket: string)
    requires Valid(p)
    ensures Valid(Remove(p, socket))
    ensures Clients(Remove(p, socket)) == set c | c in Clients(p) && c.1 != socket
    ensures forall s, k :: (s, k) in Clients(Remove(p, socket)) ==> Remove(p, socket)[s][k] == p[s][k]
  {
    var r := Remove(p, socket);
    forall s, k ensures (s, k) in Clients(r) <==> (s, k) in Clients(p) && k != socket {
      if (s, k) in Clients(p) && k != socket {
        assert k in p[s] - {socket};
      }
    }
    forall s | s in r ensures r[s] != map[] && forall k :: k in r[s] ==> r[s][k].socketId == k {
      assert forall k :: k in r[s] ==> k in p[s] && r[s][k] == p[s][k];
    }
  }

  /** The removal when the sessions in `todo` have still to be visited. */
  ghost function Visited(p: Presence, todo: set<string>, socket: string): Presence {
    map s | s in p && (s in todo || p[s] - {socket} != map[]) :: if s in todo then p[s] else p[s] - {socket}
  }

  lemma VisitNext(p: Presence, todo: set<string>, socket: string, s: string)
    requires s in todo && todo <= p.Keys
    ensures s in Visited(p, todo, socket) && Visited(p, todo, socket)[s] == p[s]
    ensures
      Visited(p, todo - {s}, socket) ==
      if |p[s] - {socket}| == 0 then Visited(p, todo, socket) - {s} else Visited(p, todo, socket)[s := p[s] - {socket}]
  {
    var before, after := Visited(p, todo, socket), Visited(p, todo - {s}, socket);
    var left := p[s] - {socket};
    assert |left| == 0 <==> left == map[];
    OthersAlike(p, todo, socket, s);
    assert s in after <==> left != map[];
    assert s in after ==> after[s] == left;
    Rejoin(before, after, s, left);
  }

  /** Two maps equal but for `s`, which the second one has with `left` or not at all. */
  lemma Rejoin(before: Presence, after: Presence, s: string, left: map<string, User>)
    requires after - {s} == before - {s} && (s in after ==> after[s] == left)
    ensures s in after ==> after == before[s := left]
    ensures s !in after ==> after == before - {s}
  {
    assert s !in after ==> after == after - {s};
    assert s in after ==> after == (after - {s})[s := left];
    assert before[s := left] == (before - {s})[s := left];
  }

  lemma OthersAlike(p: Presence, todo: set<string>, socket: string, s: string)
    ensures Visited(p, todo - {s}, socket) - {s} == Visited(p, todo, socket) - {s}
  {
    var before, after := Visited(p, todo, socket), Visited(p, todo - {s}, socket);
    forall t | t != s ensures (t in before <==> t in after) && (t in after ==> before[t] == after[t]) {
      assert t in todo <==> t in todo - {s};
    }
  }

  class PresenceRegistry {
    var presenceBySession: Presence

    constructor ()
      ensures presenceBySession == map[] && Valid(presenceBySession)
    {
      presenceBySession := map[];
    }

    method AddPresence(session: string, u: User)
      modifies this
      ensures presenceBySession == Add(old(presenceBySession), session, u)
    {
      var sessionPresence := LookupOr(presenceBySession, session, map[]);
      sessionPresence := sessionPresence[u.socketId := u];
      presenceBySession := presenceBySession[session := sessionPresence];
    }

    /** Visits every session once, dropping the ones left empty; returns those the socket was in. */
    method RemovePresence(socket: string) returns (changed: seq<string>)
      modifies this
      ensures presenceBySession == Remove(old(presenceBySession), socket)
      ensures forall s :: s in changed <==> Present(old(presenceBySession), s, socket)
      ensures forall i, j :: 0 <= i < j < |changed| ==> changed[i] != changed[j]
    {
      ghost var all := presenceBySession;
      var todo := presenceBySession.Keys;
      changed := [];
      while todo != {}
        invariant todo <= all.Keys && presenceBySession == Visited(all, todo, socket)
        invariant forall s :: s in changed <==> s !in todo && Present(all, s, socket)
        invariant forall i, j :: 0 <= i < j < |changed| ==> changed[i] != changed[j]
        decreases todo
      {
        var s :| s in todo;
        VisitNext(all, todo, socket, s);
        if socket in presenceBySession[s] {
          changed := changed + [s];
        }
        var left := presenceBySession[s] - {socket};
        presenceBySession := if |left| == 0 then presenceBySession - {s} else presenceBySession[s := left];
        todo := todo - {s};
      }
    }

    method DeleteSession(session: string)
      modifies this
      ensures presenceBySession == old(presenceBySession) - {session}
    {
      presenceBySession := presenceBySession - {session};
    }
  }
}
