/** The in-memory moderation and vote state of every session. */
module FacilitationRegistry {
  import opened Prelude
  import opened FacilitationState

  class Registry {
    var sessions: map<string, Session>

    constructor ()
      ensures sessions == map[]
    {
      sessions := map[];
    }

    ghost function At(id: string): Option<Session>
      reads this
    {
      Lookup(sessions, id)
    }

    function GetModeration(id: string): Moderation
      reads this
    {
      if id in sessions then sessions[id].moderation else DEFAULT_MODERATION
    }

    function GetVotes(id: string): Votes
      reads this
    {
      if id in sessions then sessions[id].votes else map[]
    }

    method ApplyTo(id: string, u: Update, now: int) returns (moderation: Moderation, votes: Votes, votesReset: bool)
      modifies this
      ensures At(id) == Step(old(At(id)), Apply(u, now)) == Some(Session(moderation, votes))
      ensures votesReset == u.resetVotes
      ensures forall other :: other != id ==> At(other) == old(At(other))
    {
      moderation := ApplyUpdate(GetModeration(id), u, now);
      votesReset := u.resetVotes;
      votes := if votesReset then map[] else GetVotes(id);
      sessions := sessions[id := Session(moderation, votes)];
    }

    method ToggleVote(id: string, actor: string, element: string) returns (r: ToggleResult)
      modifies this
      ensures At(id) == Step(old(At(id)), Toggle(actor, element))
      ensures r == FacilitationState.ToggleVote(old(GetModeration(id)), old(GetVotes(id)), actor, element)
      ensures r.Toggled? ==> GetVotes(id) == r.votes
      ensures forall other :: other != id ==> At(other) == old(At(other))
    {
      var moderation := GetModeration(id);
      r := FacilitationState.ToggleVote(moderation, GetVotes(id), actor, element);
      if r.Toggled? {
        sessions := sessions[id := Session(moderation, r.votes)];
      }
    }

    method ClearSession(id: string)
      modifies this
      ensures At(id) == Step(old(At(id)), Clear)
      ensures forall other :: other != id ==> At(other) == old(At(other))
    {
      sessions := sessions - {id};
    }
  }
}
