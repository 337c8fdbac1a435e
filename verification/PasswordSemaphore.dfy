/** The slots and the queue that bound concurrent password derivations. */
module PasswordSemaphore {
  import opened Prelude

  const MAX_CONCURRENT_DERIVATIONS := 2
  const MAX_QUEUED_DERIVATIONS := 32

  /** A derivation that asks for a slot, and one that ends. A task is named by a number of its own. */
  datatype Event = Acquire(task: nat) | Release(task: nat)

  /** `granted` and `released` are the tasks that got a slot, and gave it back, in that order. */
  datatype State = State(active: int, waiting: seq<nat>, granted: seq<nat>, released: seq<nat>)

  const INITIAL := State(0, [], [], [])

  function Holders(s: State): set<nat> {
    set t | t in s.granted && t !in s.released
  }

  predicate Admits(s: State) {
    s.active < MAX_CONCURRENT_DERIVATIONS || |s.waiting| < MAX_QUEUED_DERIVATIONS
  }

  function AcquireSlot(s: State, task: nat): State {
    if s.active < MAX_CONCURRENT_DERIVATIONS then s.(active := s.active + 1, granted := s.granted + [task])
    else if |s.waiting| >= MAX_QUEUED_DERIVATIONS then s
    else s.(waiting := s.waiting + [task])
  }

  function ReleaseSlot(s: State, task: nat): State {
    var r := s.(released := s.released + [task]);
    if |s.waiting| > 0 then r.(waiting := s.waiting[1..], granted := s.granted + [s.waiting[0]])
    else r.(active := s.active - 1)
  }

  function Step(s: State, e: Event): State {
    match e
    case Acquire(t) => AcquireSlot(s, t)
    case Release(t) => ReleaseSlot(s, t)
  }

  /** A task asks once, and gives back only a slot it holds. */
  predicate Enabled(s: State, e: Event, asked: set<nat>) {
    match e
    case Acquire(t) => t !in asked
    case Release(t) => t in s.granted && t !in s.released
  }

  function Asked(es: seq<Event>): set<nat> {
    set e | e in es && e.Acquire? :: e.task
  }

  function Run(es: seq<Event>): State {
    if es == [] then INITIAL else Step(Run(es[..|es| - 1]), es[|es| - 1])
  }

  predicate Legal(es: seq<Event>) {
    es == [] || (Legal(es[..|es| - 1]) && Enabled(Run(es[..|es| - 1]), es[|es| - 1], Asked(es[..|es| - 1])))
  }

  /** The tasks whose request was not refused, in the order they asked. */
  function Admitted(es: seq<Event>): seq<nat> {
    if es == [] then []
    else
      var before, e := es[..|es| - 1], es[|es| - 1];
      Admitted(before) + if e.Acquire? && Admits(Run(before)) then [e.task] else []
  }

  predicate Inv(s: State, admitted: seq<nat>) {
    && s.granted + s.waiting == admitted
    && Distinct(admitted)
    && Distinct(s.released)
    && (forall t :: t in s.released ==> t in s.granted)
    && s.active == |s.granted| - |s.released|
    && 0 <= s.active <= MAX_CONCURRENT_DERIVATIONS
    && |s.waiting| <= MAX_QUEUED_DERIVATIONS
    && (s.waiting != [] ==> s.active == MAX_CONCURRENT_DERIVATIONS)
  }

  lemma AcquireKeepsInv(s: State, admitted: seq<nat>, task: nat)
    requires Inv(s, admitted) && task !in admitted
    ensures Inv(AcquireSlot(s, task), admitted + if Admits(s) then [task] else [])
  {
    if s.active < MAX_CONCURRENT_DERIVATIONS {
      assert s.granted == admitted;
    } else if Admits(s) {
      assert s.granted + (s.waiting + [task]) == (s.granted + s.waiting) + [task];
    } else {
      assert admitted + [] == admitted;
    }
  }

  lemma ReleaseKeepsInv(s: State, admitted: seq<nat>, task: nat)
    requires Inv(s, admitted) && task in Holders(s)
    ensures Inv(ReleaseSlot(s, task), admitted)
  {
    DistinctPrefix(s.granted, s.waiting);
    HoldersCounted(s);
    assert task in Holders(s);
    if s.waiting != [] {
      assert s.granted + s.waiting == (s.granted + [s.waiting[0]]) + s.waiting[1..];
    }
  }

  lemma {:induction false} AdmittedAsked(es: seq<Event>)
    ensures forall t :: t in Admitted(es) ==> t in Asked(es)
  {
    if es == [] {
    } else {
      AdmittedAsked(es[..|es| - 1]);
      assert es[|es| - 1] in es;
    }
  }

  lemma {:induction false} RunKeepsInv(es: seq<Event>)
    requires Legal(es)
    ensures Inv(Run(es), Admitted(es))
  {
    if es == [] {
    } else {
      var before, e := es[..|es| - 1], es[|es| - 1];
      RunKeepsInv(before);
      AdmittedAsked(before);
      match e
      case Acquire(t) => AcquireKeepsInv(Run(before), Admitted(before), t);
      case Release(t) =>
        ReleaseKeepsInv(Run(before), Admitted(before), t);
        assert Admitted(es) == Admitted(before) + [];
    }
  }

  /** Distinct grants less distinct releases of them: that many holders. */
  lemma HoldersCounted(s: State)
    requires Distinct(s.granted) && Distinct(s.released) && forall t :: t in s.released ==> t in s.granted
    ensures |Holders(s)| == |s.granted| - |s.released|
  {
    var g, r := Elements(s.granted), Elements(s.released);
    DistinctCard(s.granted);
    DistinctCard(s.released);
    assert Holders(s) == g - r && r <= g;
  }

  function Elements(s: seq<nat>): set<nat> {
    set t | t in s
  }

  lemma {:induction false} DistinctCard(s: seq<nat>)
    requires Distinct(s)
    ensures |Elements(s)| == |s|
  {
    if s == [] {
    } else {
      var first, rest := s[0], s[1..];
      assert Distinct(rest) && first !in rest;
      DistinctCard(rest);
      assert s == [first] + rest;
      assert Elements(s) == {first} + Elements(rest);
    }
  }

  lemma DistinctPrefix(a: seq<nat>, b: seq<nat>)
    requires Distinct(a + b)
    ensures Distinct(a)
  {
    forall i, j | 0 <= i < j < |a| ensures a[i] != a[j] {
      assert (a + b)[i] == a[i] && (a + b)[j] == a[j];
    }
  }

  /**
   * In every reachable state the counter is the number of slot holders and is at most two, at most 32
   * wait, and somebody waits only while both slots are held.
   */
  lemma CounterIsHolders(es: seq<Event>)
    requires Legal(es)
    ensures
      var s := Run(es);
      && s.active == |Holders(s)| <= MAX_CONCURRENT_DERIVATIONS
      && |s.waiting| <= MAX_QUEUED_DERIVATIONS
      && (s.waiting != [] ==> |Holders(s)| == MAX_CONCURRENT_DERIVATIONS)
  {
    RunKeepsInv(es);
    DistinctPrefix(Run(es).granted, Run(es).waiting);
    HoldersCounted(Run(es));
  }

  /** A request is refused exactly when both slots are held and the queue is full, and then changes nothing. */
  lemma RefusedIffFull(es: seq<Event>, task: nat)
    requires Legal(es)
    ensures
      var s := Run(es);
      && (!Admits(s) <==> |Holders(s)| == MAX_CONCURRENT_DERIVATIONS && |s.waiting| == MAX_QUEUED_DERIVATIONS)
      && (!Admits(s) <==> AcquireSlot(s, task) == s)
  {
    CounterIsHolders(es);
  }

  /** First come, first served: the tasks that got a slot, then those waiting, are those admitted, in order. */
  lemma FirstComeFirstServed(es: seq<Event>)
    requires Legal(es)
    ensures Run(es).granted + Run(es).waiting == Admitted(es) && Distinct(Admitted(es))
  {
    RunKeepsInv(es);
  }

  /** When every admitted task has given its slot back, the counter is zero and nobody waits. */
  lemma AllFinishedMeansIdle(es: seq<Event>)
    requires Legal(es) && forall t :: t in Admitted(es) ==> t in Run(es).released
    ensures Run(es).active == 0 && Run(es).waiting == []
  {
    RunKeepsInv(es);
    var s := Run(es);
    CounterIsHolders(es);
    forall t | t in s.granted ensures t in s.released {
      assert t in Admitted(es);
    }
    assert Holders(s) == {};
  }

  function Releases(es: seq<Event>): nat {
    if es == [] then 0 else Releases(es[..|es| - 1]) + if es[|es| - 1].Release? then 1 else 0
  }

  /**
   * A waiter with k others before it gets its slot at exactly the (k+1)-th release: after at most k
   * releases, with any requests in between, it still waits, that many places further on; the next
   * release hands it the slot.
   */
  lemma ServedInTurn(es: seq<Event>, more: seq<Event>, k: nat)
    requires Legal(es) && k < |Run(es).waiting| && Legal(es + more) && Releases(more) <= k
    ensures
      var task := Run(es).waiting[k];
      var s := Run(es + more);
      && k - Releases(more) < |s.waiting| && s.waiting[k - Releases(more)] == task && task !in Holders(s)
      && (Releases(more) == k ==> forall t :: t in Holders(s) ==> task in Holders(ReleaseSlot(s, t)))
  {
    MovesUp(es, more, k);
    var s := Run(es + more);
    RunKeepsInv(es + more);
    NotYetGranted(s, k - Releases(more));
    assert s.waiting[k - Releases(more)] !in s.released;
  }

  lemma {:induction false} MovesUp(es: seq<Event>, more: seq<Event>, k: nat)
    requires Legal(es) && k < |Run(es).waiting| && Legal(es + more) && Releases(more) <= k
    ensures k - Releases(more) < |Run(es + more).waiting|
    ensures Run(es + more).waiting[k - Releases(more)] == Run(es).waiting[k]
    decreases |more|
  {
    if more == [] {
      assert es + more == es;
    } else {
      var before, all := more[..|more| - 1], es + more;
      assert all[..|all| - 1] == es + before;
      assert all[|all| - 1] == more[|more| - 1];
      MovesUp(es, before, k);
      StepMovesUp(Run(es + before), more[|more| - 1], k - Releases(before));
    }
  }

  lemma StepMovesUp(s: State, e: Event, i: nat)
    requires i < |s.waiting| && (e.Release? ==> i > 0)
    ensures
      var j := if e.Release? then i - 1 else i;
      j < |Step(s, e).waiting| && Step(s, e).waiting[j] == s.waiting[i]
  {
  }

  lemma NotYetGranted(s: State, i: nat)
    requires Distinct(s.granted + s.waiting) && i < |s.waiting|
    ensures s.waiting[i] !in s.granted
  {
    var all := s.granted + s.waiting;
    assert all[|s.granted| + i] == s.waiting[i];
    forall j | 0 <= j < |s.granted| ensures s.granted[j] != s.waiting[i] {
      assert all[j] == s.granted[j];
    }
  }

  /** The module's counter and queue, changed in place; the ghost lists record who got what. */
  class Semaphore {
    var activeDerivations: int
    var waitingDerivations: seq<nat>
    ghost var granted: seq<nat>
    ghost var released: seq<nat>

    ghost function At(): State
      reads this
    {
      State(activeDerivations, waitingDerivations, granted, released)
    }

    constructor ()
      ensures At() == INITIAL
    {
      activeDerivations, waitingDerivations := 0, [];
      granted, released := [], [];
    }

    /** False where the source throws PasswordHashBusyError. */
    method Acquire(task: nat) returns (admitted: bool)
      modifies this
      ensures At() == AcquireSlot(old(At()), task)
      ensures admitted == Admits(old(At()))
    {
      if activeDerivations < MAX_CONCURRENT_DERIVATIONS {
        activeDerivations := activeDerivations + 1;
        granted := granted + [task];
        return true;
      }
      if |waitingDerivations| >= MAX_QUEUED_DERIVATIONS {
        return false;
      }
      waitingDerivations := waitingDerivations + [task];
      return true;
    }

    method Release(task: nat)
      modifies this
      ensures At() == ReleaseSlot(old(At()), task)
    {
      released := released + [task];
      if |waitingDerivations| > 0 {
        granted := granted + [waitingDerivations[0]];
        waitingDerivations := waitingDerivations[1..];
      } else {
        activeDerivations := activeDerivations - 1;
      }
    }
  }
}
