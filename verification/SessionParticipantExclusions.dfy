/** The in-memory policies and removed participants, per session. */
module SessionParticipantExclusions {
  import opened Prelude
  import G = GuestAccess

  type SessionId = string

  class Exclusions {
    var guestPolicy: map<SessionId, G.Policy>
    var excluded: map<SessionId, set<string>>

    constructor ()
      ensures guestPolicy == map[] && excluded == map[]
    {
      guestPolicy, excluded := map[], map[];
    }

    method NextGuestPolicy(id: SessionId, enabled: bool, now: int) returns (policy: G.Policy)
      ensures policy == G.Next(Lookup(guestPolicy, id), enabled, now)
    {
      var previous := Lookup(guestPolicy, id);
      var cutOff := if enabled then (if previous.Some? then previous.value.revokedBefore else 0) else now;
      policy := G.Policy(enabled, cutOff, (if previous.Some? then previous.value.revision else 0) + 1);
    }

    method ApplyGuestPolicy(id: SessionId, policy: G.Policy)
      modifies `guestPolicy
      ensures guestPolicy == old(guestPolicy)[id := policy]
    {
      guestPolicy := guestPolicy[id := policy];
    }

    /** Replays the session's audit log; only a newer revision replaces the policy in memory. */
    method RestoreGuestPolicy(id: SessionId, audit: seq<G.AuditEvent>)
      modifies `guestPolicy
      ensures Lookup(guestPolicy, id) == G.Restore(old(Lookup(guestPolicy, id)), audit)
      ensures forall other :: other != id ==> Lookup(guestPolicy, other) == old(Lookup(guestPolicy, other))
    {
      var i := 0;
      while i < |audit|
        invariant 0 <= i <= |audit|
        invariant G.Restore(Lookup(guestPolicy, id), audit[i..]) == G.Restore(old(Lookup(guestPolicy, id)), audit)
        invariant forall other :: other != id ==> Lookup(guestPolicy, other) == old(Lookup(guestPolicy, other))
      {
        var event := audit[i];
        assert audit[i..][1..] == audit[i + 1..];
        if event.GuestAccessChanged? && event.policy.revision > G.Revision(Lookup(guestPolicy, id)) {
          ApplyGuestPolicy(id, event.policy);
        }
        i := i + 1;
      }
      assert audit[i..] == [];
    }

    method CanAccessGuest(id: SessionId, auth: Option<G.Ticket>) returns (ok: bool)
      ensures ok <==> (auth.Some? ==> G.CanAccess(Lookup(guestPolicy, id), auth.value))
    {
      if auth.None? || !G.IsGuest(auth.value) { return true; }
      if id !in guestPolicy { return true; }
      var policy := guestPolicy[id];
      var issuedAt := auth.value.issuedAt.GetOr(auth.value.expiresAt - G.LEGACY_TICKET_LIFETIME_MS);
      return policy.enabled && issuedAt > policy.revokedBefore;
    }

    method Exclude(id: SessionId, actor: string)
      modifies `excluded
      ensures excluded == old(excluded)[id := LookupOr(old(excluded), id, {}) + {actor}]
    {
      excluded := excluded[id := LookupOr(excluded, id, {}) + {actor}];
    }

    method Clear(id: SessionId)
      modifies this
      ensures guestPolicy == old(guestPolicy) - {id} && excluded == old(excluded) - {id}
    {
      excluded := excluded - {id};
      guestPolicy := guestPolicy - {id};
    }
  }
}
