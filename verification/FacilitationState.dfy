/** Moderation settings and votes of a session, and what every run of updates and toggles keeps. */
module FacilitationState {
  import opened Prelude

  const TIMER_MIN := 10
  const TIMER_MAX := 3600
  const VOTES_MIN := 1
  const VOTES_MAX := 10
  const TIMER_LABEL_MAX := 60
  const DEFAULT_VOTES := 3

  datatype Timer = Timer(endsAt: int, durationSeconds: int, caption: Option<string>)

  datatype Moderation = Moderation(followOwner: bool, editingLocked: bool, timer: Option<Timer>, open: bool, votesPerParticipant: int)

  /** Votes per element; each entry lists the actors that voted for it. */
  type Votes = map<string, seq<string>>

  datatype TimerUpdate = Keep | Stop | Start(durationSeconds: real, caption: Option<string>)

  datatype Update = Update(followOwner: Option<bool>, editingLocked: Option<bool>, timer: TimerUpdate,
                           open: Option<bool>, votesPerParticipant: Option<real>, resetVotes: bool)

  datatype ToggleResult = Toggled(votes: Votes) | VotingClosed | VoteLimitReached

  const DEFAULT_MODERATION := Moderation(false, false, None, false, DEFAULT_VOTES)

  /** Math.round: halves go up. */
  function Round(x: real): int {
    (x + 0.5).Floor
  }

  function Clamp(lo: int, hi: int, x: int): int {
    Min(hi, Max(lo, x))
  }

  predicate IsSpace(c: char) {
    c in "\t\n\r \U{0B}\U{0C}\U{A0}\U{1680}\U{2028}\U{2029}\U{202F}\U{205F}\U{3000}\U{FEFF}" || '\U{2000}' <= c <= '\U{200A}'
  }

  function TrimStart(s: string): string {
    if s != [] && IsSpace(s[0]) then TrimStart(s[1..]) else s
  }

  function TrimEnd(s: string): string {
    if s != [] && IsSpace(s[|s| - 1]) then TrimEnd(s[..|s| - 1]) else s
  }

  function Caption(given: Option<string>): Option<string> {
    if given.None? then None
    else
      var trimmed := Slice(TrimEnd(TrimStart(given.value)), TIMER_LABEL_MAX);
      if trimmed == "" then None else Some(trimmed)
  }

  function ApplyUpdate(m: Moderation, u: Update, now: int): Moderation {
    var timer :=
      match u.timer
      case Keep => m.timer
      case Stop => None
      case Start(d, c) =>
        var seconds := Clamp(TIMER_MIN, TIMER_MAX, Round(d));
        Some(Timer(now + seconds * 1000, seconds, Caption(c)));
    var limit := if u.votesPerParticipant.None? then m.votesPerParticipant
                 else Clamp(VOTES_MIN, VOTES_MAX, Round(u.votesPerParticipant.value));
    Moderation(u.followOwner.GetOr(m.followOwner), u.editingLocked.GetOr(m.editingLocked), timer, u.open.GetOr(m.open), limit)
  }

  function Voters(votes: Votes, element: string): seq<string> {
    if element in votes then votes[element] else []
  }

  function Without(voters: seq<string>, actor: string): seq<string> {
    if voters == [] then []
    else (if voters[0] == actor then [] else [voters[0]]) + Without(voters[1..], actor)
  }

  /** The elements an actor has voted for. */
  function Chosen(votes: Votes, actor: string): set<string> {
    set e | e in votes && actor in votes[e]
  }

  function VotesUsed(votes: Votes, actor: string): nat {
    |Chosen(votes, actor)|
  }

  function ToggleVote(m: Moderation, votes: Votes, actor: string, element: string): ToggleResult {
    if !m.open then VotingClosed
    else
      var voters := Voters(votes, element);
      if actor in voters then
        var remaining := Without(voters, actor);
        Toggled(if |remaining| > 0 then votes[element := remaining] else votes - {element})
      else if VotesUsed(votes, actor) >= m.votesPerParticipant then VoteLimitReached
      else Toggled(votes[element := voters + [actor]])
  }

  // What the vote map means: a set of pairs.

  predicate Voted(votes: Votes, actor: string, element: string) {
    actor in Voters(votes, element)
  }

  /** The vote of `a` on `e` is toggled if it is the given one, and kept otherwise. */
  predicate Flipped(votes: Votes, after: Votes, actor: string, element: string, a: string, e: string) {
    Voted(after, a, e) <==> (Voted(votes, a, e) <==> !(a == actor && e == element))
  }

  predicate WellFormed(votes: Votes) {
    forall e :: e in votes ==> votes[e] != [] && Distinct(votes[e])
  }

  lemma {:induction false} WithoutIsRemoval(s: seq<string>, actor: string)
    requires Distinct(s)
    ensures Distinct(Without(s, actor)) && |Without(s, actor)| <= |s|
    ensures forall a :: a in Without(s, actor) <==> a in s && a != actor
  {
    if s == [] {
    } else {
      assert Distinct(s[1..]) && s[0] !in s[1..];
      WithoutIsRemoval(s[1..], actor);
      var rest := Without(s[1..], actor);
      assert s[0] !in rest;
      if s[0] == actor {
        assert Without(s, actor) == rest;
      } else {
        assert Without(s, actor) == [s[0]] + rest;
      }
    }
  }

  lemma {:induction false} WithoutAbsent(s: seq<string>, actor: string)
    requires actor !in s
    ensures Without(s, actor) == s && Without(s + [actor], actor) == s
  {
    if s == [] {
    } else {
      WithoutAbsent(s[1..], actor);
      assert (s + [actor])[1..] == s[1..] + [actor];
      assert s == [s[0]] + s[1..];
    }
  }

  /** A successful toggle flips exactly one actor's vote on one element and keeps the lists well formed. */
  lemma ToggleFlipsOneVote(m: Moderation, votes: Votes, actor: string, element: string)
    requires WellFormed(votes) && ToggleVote(m, votes, actor, element).Toggled?
    ensures
      var after := ToggleVote(m, votes, actor, element).votes;
      && WellFormed(after)
      && forall a, e :: Flipped(votes, after, actor, element, a, e)
  {
    var voters := Voters(votes, element);
    WithoutIsRemoval(voters, actor);
    var after := ToggleVote(m, votes, actor, element).votes;
    forall a, e ensures Flipped(votes, after, actor, element, a, e) {
      if e != element {
        assert Voters(after, e) == Voters(votes, e);
      }
    }
  }

  /** ... so it changes the actor's count by exactly one and nobody else's. */
  lemma ToggleCounts(m: Moderation, votes: Votes, actor: string, element: string, other: string)
    requires WellFormed(votes) && ToggleVote(m, votes, actor, element).Toggled?
    ensures
      var after := ToggleVote(m, votes, actor, element).votes;
      if other != actor then VotesUsed(after, other) == VotesUsed(votes, other)
      else if Voted(votes, actor, element) then VotesUsed(after, actor) == VotesUsed(votes, actor) - 1
      else VotesUsed(after, actor) == VotesUsed(votes, actor) + 1 <= m.votesPerParticipant
  {
    ToggleFlipsOneVote(m, votes, actor, element);
    ChosenFollows(votes, ToggleVote(m, votes, actor, element).votes, actor, element, other);
    assert element in Chosen(votes, actor) <==> Voted(votes, actor, element);
  }

  lemma ChosenFollows(votes: Votes, after: Votes, actor: string, element: string, other: string)
    requires forall e :: Flipped(votes, after, actor, element, other, e)
    ensures Chosen(after, other) == if other != actor then Chosen(votes, other)
                                    else if Voted(votes, actor, element) then Chosen(votes, other) - {element}
                                    else Chosen(votes, other) + {element}
  {
    forall e ensures e in Chosen(after, other) <==> (e in Chosen(votes, other) <==> !(other == actor && e == element)) {
      assert Flipped(votes, after, actor, element, other, e);
    }
  }

  /**
   * When a toggle is refused: always and only while voting is closed, for that reason; and while it is
   * open, for a new vote of an actor who has voted for as many elements as allowed, for that reason.
   */
  lemma RefusedIff(m: Moderation, votes: Votes, actor: string, element: string)
    ensures ToggleVote(m, votes, actor, element).VotingClosed? <==> !m.open
    ensures ToggleVote(m, votes, actor, element).VoteLimitReached? <==>
            && m.open && !(element in votes && actor in votes[element])
            && |set e | e in votes && actor in votes[e]| >= m.votesPerParticipant
  {
  }

  /** Adding a vote and taking it back restores the exact vote map. */
  lemma AddThenRemove(m: Moderation, votes: Votes, actor: string, element: string)
    requires WellFormed(votes) && !Voted(votes, actor, element) && ToggleVote(m, votes, actor, element).Toggled?
    ensures ToggleVote(m, ToggleVote(m, votes, actor, element).votes, actor, element) == Toggled(votes)
  {
    WithoutAbsent(Voters(votes, element), actor);
    var added := ToggleVote(m, votes, actor, element).votes;
    assert Voters(added, element)[|Voters(votes, element)|] == actor;
    if element in votes {
      assert added[element := votes[element]] == votes;
    } else {
      assert added - {element} == votes;
    }
  }

  lemma ReaddSucceedsIff(m: Moderation, votes: Votes, actor: string, element: string)
    requires WellFormed(votes) && Voted(votes, actor, element) && m.open
    ensures
      var removed := ToggleVote(m, votes, actor, element);
      removed.Toggled? && (ToggleVote(m, removed.votes, actor, element).Toggled? <==> VotesUsed(votes, actor) <= m.votesPerParticipant)
  {
    ToggleFlipsOneVote(m, votes, actor, element);
    ToggleCounts(m, votes, actor, element, actor);
    assert Flipped(votes, ToggleVote(m, votes, actor, element).votes, actor, element, actor, element);
  }

  /** Taking a vote back and adding it again succeeds unless the limit was lowered below the votes the actor had. */
  lemma RemoveThenAdd(m: Moderation, votes: Votes, actor: string, element: string)
    requires WellFormed(votes) && Voted(votes, actor, element) && m.open
    ensures
      var removed := ToggleVote(m, votes, actor, element);
      var again := ToggleVote(m, removed.votes, actor, element);
      && (again.Toggled? <==> VotesUsed(votes, actor) <= m.votesPerParticipant)
      && (again.Toggled? ==> forall a, e :: Voted(again.votes, a, e) <==> Voted(votes, a, e))
  {
    var removed := ToggleVote(m, votes, actor, element);
    ToggleFlipsOneVote(m, votes, actor, element);
    ReaddSucceedsIff(m, votes, actor, element);
    var again := ToggleVote(m, removed.votes, actor, element);
    if again.Toggled? {
      ToggleFlipsOneVote(m, removed.votes, actor, element);
      forall a, e ensures Voted(again.votes, a, e) <==> Voted(votes, a, e) {
        assert Flipped(votes, removed.votes, actor, element, a, e);
        assert Flipped(removed.votes, again.votes, actor, element, a, e);
      }
    }
  }

  /** That restores the exact map, order included, only for the element's last voter. */
  lemma RemoveThenAddExactIffLast(m: Moderation, votes: Votes, actor: string, element: string)
    requires WellFormed(votes) && Voted(votes, actor, element) && m.open
    requires VotesUsed(votes, actor) <= m.votesPerParticipant
    ensures
      var again := ToggleVote(m, ToggleVote(m, votes, actor, element).votes, actor, element);
      again.Toggled? && (again.votes == votes <==> votes[element][|votes[element]| - 1] == actor)
  {
    var readded := Without(votes[element], actor) + [actor];
    Readded(m, votes, actor, element);
    WithoutLast(votes[element], actor);
    SameEntry(votes, element, readded);
  }

  lemma SameEntry(votes: Votes, element: string, voters: seq<string>)
    requires element in votes
    ensures votes[element := voters] == votes <==> voters == votes[element]
  {
    assert votes[element := voters][element] == voters;
  }

  lemma Readded(m: Moderation, votes: Votes, actor: string, element: string)
    requires WellFormed(votes) && Voted(votes, actor, element) && m.open
    requires VotesUsed(votes, actor) <= m.votesPerParticipant
    ensures
      var removed := ToggleVote(m, votes, actor, element);
      ToggleVote(m, removed.votes, actor, element) == Toggled(votes[element := Without(votes[element], actor) + [actor]])
  {
    ReaddSucceedsIff(m, votes, actor, element);
    assert actor !in Without(votes[element], actor) by { WithoutIsRemoval(votes[element], actor); }
    var removed := ToggleVote(m, votes, actor, element).votes;
    assert Voters(removed, element) == Without(votes[element], actor);
  }

  lemma WithoutLast(s: seq<string>, actor: string)
    requires Distinct(s) && actor in s
    ensures Without(s, actor) + [actor] == s <==> s[|s| - 1] == actor
  {
    var init := s[..|s| - 1];
    assert s == init + [s[|s| - 1]];
    if s[|s| - 1] == actor {
      assert actor !in init;
      WithoutAbsent(init, actor);
    }
    assert (Without(s, actor) + [actor])[|Without(s, actor)|] == actor;
  }

  // Updates.

  /** What an update does not name stays; an update applied twice at one time is applied once. */
  lemma UpdateIsPartial(m: Moderation, u: Update, now: int)
    ensures ApplyUpdate(m, Update(None, None, Keep, None, None, u.resetVotes), now) == m
    ensures ApplyUpdate(ApplyUpdate(m, u, now), u, now) == ApplyUpdate(m, u, now)
  {
  }

  /** Each field of an update sets its own field and no other: naming a field or not changes only that one. */
  lemma FieldsAreIndependent(m: Moderation, u: Update, v: Update, now: int)
    ensures
      var t, a := ApplyUpdate(m, u, now), ApplyUpdate(m, v, now);
      && t.(followOwner := a.followOwner) == ApplyUpdate(m, u.(followOwner := v.followOwner), now)
      && t.(editingLocked := a.editingLocked) == ApplyUpdate(m, u.(editingLocked := v.editingLocked), now)
      && t.(timer := a.timer) == ApplyUpdate(m, u.(timer := v.timer), now)
      && t.(open := a.open) == ApplyUpdate(m, u.(open := v.open), now)
      && t.(votesPerParticipant := a.votesPerParticipant) == ApplyUpdate(m, u.(votesPerParticipant := v.votesPerParticipant), now)
  {
  }

  /** A flag that is named takes the value named. */
  lemma NamedFlagsAreSet(m: Moderation, u: Update, now: int)
    ensures
      var t := ApplyUpdate(m, u, now);
      && (u.followOwner.Some? ==> t.followOwner == u.followOwner.value)
      && (u.editingLocked.Some? ==> t.editingLocked == u.editingLocked.value)
      && (u.open.Some? ==> t.open == u.open.value)
      && (u.timer.Stop? ==> t.timer.None?)
  {
  }

  /** A started timer lasts the whole number of seconds in range that is nearest to the one asked for, and ends then. */
  lemma TimerIsNearest(m: Moderation, u: Update, now: int, other: int)
    requires u.timer.Start? && TIMER_MIN <= other <= TIMER_MAX
    ensures
      var t := ApplyUpdate(m, u, now).timer;
      && t.Some? && t.value.endsAt == now + 1000 * t.value.durationSeconds
      && TIMER_MIN <= t.value.durationSeconds <= TIMER_MAX
      && Distance(t.value.durationSeconds, u.timer.durationSeconds) <= Distance(other, u.timer.durationSeconds)
  {
    NearestInRange(TIMER_MIN, TIMER_MAX, u.timer.durationSeconds, other);
  }

  lemma LimitIsNearest(m: Moderation, u: Update, now: int, other: int)
    requires u.votesPerParticipant.Some? && VOTES_MIN <= other <= VOTES_MAX
    ensures
      var limit := ApplyUpdate(m, u, now).votesPerParticipant;
      VOTES_MIN <= limit <= VOTES_MAX
      && Distance(limit, u.votesPerParticipant.value) <= Distance(other, u.votesPerParticipant.value)
  {
    NearestInRange(VOTES_MIN, VOTES_MAX, u.votesPerParticipant.value, other);
  }

  function Distance(n: int, x: real): real {
    if n as real <= x then x - n as real else n as real - x
  }

  lemma NearestInRange(lo: int, hi: int, x: real, other: int)
    requires lo <= other <= hi
    ensures Distance(Clamp(lo, hi, Round(x)), x) <= Distance(other, x)
  {
    var n := Round(x);
    assert n as real <= x + 0.5 < n as real + 1.0;
    assert other < n ==> other as real + 1.0 <= n as real;
    assert other > n ==> other as real >= n as real + 1.0;
    assert lo > n ==> lo as real >= n as real + 1.0;
    assert hi < n ==> hi as real + 1.0 <= n as real;
    assert lo as real <= other as real <= hi as real;
  }

  predicate Blank(s: string) {
    forall i :: 0 <= i < |s| ==> IsSpace(s[i])
  }

  lemma {:induction false} TrimStartSkipsBlanks(a: string, s: string)
    requires Blank(a) && (s == [] || !IsSpace(s[0]))
    ensures TrimStart(a + s) == s
  {
    if a == [] {
      assert a + s == s;
    } else {
      TrimStartSkipsBlanks(a[1..], s);
      assert (a + s)[1..] == a[1..] + s;
    }
  }

  lemma {:induction false} TrimEndSkipsBlanks(s: string, b: string)
    requires Blank(b) && (s == [] || !IsSpace(s[|s| - 1]))
    ensures TrimEnd(s + b) == s
    decreases |b|
  {
    if b == [] {
      assert s + b == s;
    } else {
      TrimEndSkipsBlanks(s, b[..|b| - 1]);
      assert (s + b)[..|s + b| - 1] == s + b[..|b| - 1];
    }
  }

  /** A timer's caption is what stands between the blanks around it, cut to 60 characters; an all-blank one is none. */
  lemma CaptionIsTrimmed(m: Moderation, u: Update, now: int, seconds: real, a: string, s: string, b: string)
    requires Blank(a) && Blank(b) && (s == [] || (!IsSpace(s[0]) && !IsSpace(s[|s| - 1])))
    requires s == [] ==> b == []
    ensures
      var t := ApplyUpdate(m, u.(timer := Start(seconds, Some(a + s + b))), now).timer;
      t.Some? && t.value.caption == if s == [] then None else Some(if |s| <= 60 then s else s[..60])
    ensures
      var t := ApplyUpdate(m, u.(timer := Start(seconds, None)), now).timer;
      t.Some? && t.value.caption == None
  {
    if s == [] {
      assert a + s + b == a + [];
      TrimStartSkipsBlanks(a, []);
    } else {
      assert a + s + b == a + (s + b) && (s + b)[0] == s[0];
      TrimStartSkipsBlanks(a, s + b);
      TrimEndSkipsBlanks(s, b);
    }
  }

  // Runs of one session.

  datatype Session = Session(moderation: Moderation, votes: Votes)

  datatype Event = Apply(update: Update, now: int) | Toggle(actor: string, element: string) | Clear

  function Current(s: Option<Session>): Session {
    s.GetOr(Session(DEFAULT_MODERATION, map[]))
  }

  function Step(s: Option<Session>, e: Event): Option<Session> {
    var c := Current(s);
    match e
    case Apply(u, now) => Some(Session(ApplyUpdate(c.moderation, u, now), if u.resetVotes then map[] else c.votes))
    case Toggle(a, el) =>
      var r := ToggleVote(c.moderation, c.votes, a, el);
      if r.Toggled? then Some(Session(c.moderation, r.votes)) else s
    case Clear => None
  }

  function Run(es: seq<Event>): Option<Session> {
    if es == [] then None else Step(Run(es[..|es| - 1]), es[|es| - 1])
  }

  /** The highest vote limit in force since the votes were last emptied. */
  function PeakLimit(es: seq<Event>): int {
    if es == [] then DEFAULT_VOTES
    else
      var before, e := es[..|es| - 1], es[|es| - 1];
      match e
      case Apply(u, now) =>
        var limit := ApplyUpdate(Current(Run(before)).moderation, u, now).votesPerParticipant;
        if u.resetVotes then limit else Max(PeakLimit(before), limit)
      case Toggle(_, _) => PeakLimit(before)
      case Clear => DEFAULT_VOTES
  }

  predicate InRange(m: Moderation) {
    && VOTES_MIN <= m.votesPerParticipant <= VOTES_MAX
    && (m.timer.Some? ==> TIMER_MIN <= m.timer.value.durationSeconds <= TIMER_MAX)
    && (m.timer.Some? && m.timer.value.caption.Some? ==> 1 <= |m.timer.value.caption.value| <= TIMER_LABEL_MAX)
  }

  ghost predicate Inv(s: Option<Session>, peak: int) {
    var c := Current(s);
    && InRange(c.moderation)
    && WellFormed(c.votes)
    && c.moderation.votesPerParticipant <= peak <= VOTES_MAX
    && forall a :: VotesUsed(c.votes, a) <= peak
  }

  /**
   * Over any run of updates, toggles and clears: limits and timers stay in range, no element has an
   * empty or repeating voter list, and nobody holds more votes than the highest limit in force since
   * the votes were last emptied, which is at most ten.
   */
  lemma {:induction false} RunKeepsInv(es: seq<Event>)
    ensures Inv(Run(es), PeakLimit(es))
  {
    if es == [] {
      assert forall a :: Chosen(map[], a) == {};
    } else {
      var before, e := es[..|es| - 1], es[|es| - 1];
      RunKeepsInv(before);
      StepKeepsInv(Run(before), e, PeakLimit(before), PeakLimit(es));
    }
  }

  lemma StepKeepsInv(s: Option<Session>, e: Event, peak: int, next: int)
    requires Inv(s, peak)
    requires match e
      case Apply(u, now) =>
        var limit := ApplyUpdate(Current(s).moderation, u, now).votesPerParticipant;
        next == if u.resetVotes then limit else Max(peak, limit)
      case Toggle(_, _) => next == peak
      case Clear => next == DEFAULT_VOTES
    ensures Inv(Step(s, e), next)
  {
    assert forall a :: Chosen(map[], a) == {};
    var c := Current(s);
    match e
    case Toggle(actor, element) =>
      if ToggleVote(c.moderation, c.votes, actor, element).Toggled? {
        ToggleFlipsOneVote(c.moderation, c.votes, actor, element);
        forall a ensures VotesUsed(Current(Step(s, e)).votes, a) <= next {
          ToggleCounts(c.moderation, c.votes, actor, element, a);
        }
      }
    case _ =>
  }

  /** An update leaves the votes alone unless it asks for a reset, which empties them; a clear starts the session over. */
  lemma VotesMoveOnlyAsAsked(s: Option<Session>, u: Update, now: int)
    ensures Current(Step(s, Apply(u, now))).votes == if u.resetVotes then map[] else Current(s).votes
    ensures Current(Step(s, Apply(u, now))).moderation == ApplyUpdate(Current(s).moderation, u, now)
    ensures Current(Step(s, Clear)) == Session(Moderation(false, false, None, false, 3), map[])
    ensures forall actor, element :: Current(Step(s, Toggle(actor, element))).moderation == Current(s).moderation
  {
  }

  /** Lowering the limit takes no vote away, so an actor can hold more votes than the limit now in force. */
  lemma LoweredLimitKeepsVotes(actor: string)
    ensures
      var es := [Apply(Update(None, None, Keep, Some(true), Some(2.0), false), 0), Toggle(actor, "a"), Toggle(actor, "b"),
                 Apply(Update(None, None, Keep, None, Some(0.0), false), 0)];
      Run(es).Some? && VotesUsed(Run(es).value.votes, actor) == 2 && Run(es).value.moderation.votesPerParticipant == 1
  {
    var es := [Apply(Update(None, None, Keep, Some(true), Some(2.0), false), 0), Toggle(actor, "a"), Toggle(actor, "b"),
               Apply(Update(None, None, Keep, None, Some(0.0), false), 0)];
    var m := DEFAULT_MODERATION.(open := true, votesPerParticipant := 2);
    assert es[..3][..2] == es[..2] && es[..2][..1] == [es[0]] && es[..1][..0] == [];
    assert Run(es[..1]) == Some(Session(m, map[]));
    assert Chosen(map[], actor) == {};
    assert Voters(map[], "a") + [actor] == [actor] && VotesUsed(map[], actor) == 0;
    assert ToggleVote(m, map[], actor, "a").votes == map["a" := [actor]];
    assert Run(es[..2]) == Some(Session(m, map["a" := [actor]]));
    assert Chosen(map["a" := [actor]], actor) == {"a"};
    assert Voters(map["a" := [actor]], "b") == [];
    assert ToggleVote(m, map["a" := [actor]], actor, "b").votes == map["a" := [actor], "b" := [actor]];
    assert Run(es[..3]) == Some(Session(m, map["a" := [actor], "b" := [actor]]));
    assert Chosen(map["a" := [actor], "b" := [actor]], actor) == {"a", "b"};
  }
}
