/** The board content to persist: live elements in scene order over the latest checkpoint. */
module BoardMaterializer {
  import opened Prelude

  /** A string as its UTF-16 code units, which is what the source compares. */
  type Text = seq<nat>

  /** `id` is the text of the id, empty when there is none; `body` stands for all other fields. */
  datatype Element = Element(id: Text, index: Option<Text>, body: nat)

  /** What the live document may hold: an object, or something the filter drops. */
  datatype Live = Object(element: Element) | Dropped

  datatype Value = Elements(list: seq<Element>) | Opaque(v: nat)

  datatype Content = Record(fields: map<string, Value>) | NotARecord(v: nat)

  /** The source's `<` on strings. */
  predicate Less(a: Text, b: Text) {
    if b == [] then false
    else if a == [] then true
    else a[0] < b[0] || (a[0] == b[0] && Less(a[1..], b[1..]))
  }

  function CompareElements(a: Element, b: Element): int {
    if a.index.Some? && b.index.Some? && a.index != b.index then
      if Less(a.index.value, b.index.value) then -1 else 1
    else if Less(a.id, b.id) then -1
    else if Less(b.id, a.id) then 1
    else 0
  }

  function Kept(live: seq<Live>): seq<Element> {
    if live == [] then []
    else (if live[0].Object? then [live[0].element] else []) + Kept(live[1..])
  }

  function Insert(e: Element, s: seq<Element>): seq<Element> {
    if s == [] || CompareElements(e, s[0]) <= 0 then [e] + s
    else [s[0]] + Insert(e, s[1..])
  }

  /** A stable sort, as Array.prototype.sort is. */
  function Sort(s: seq<Element>): seq<Element> {
    if s == [] then [] else Insert(s[0], Sort(s[1..]))
  }

  /** The base of a board without a usable checkpoint; its three fields are fixed. */
  const DEFAULT_BASE: map<string, Value> := map["type" := Opaque(0), "version" := Opaque(1), "source" := Opaque(2)]

  function MaterializeBoardContent(checkpoint: Content, live: seq<Live>): Content {
    if |live| == 0 then checkpoint
    else
      var base := if checkpoint.Record? then checkpoint.fields else DEFAULT_BASE;
      Record(base["elements" := Elements(Sort(Kept(live)))])
  }

  // The order.

  predicate SameKind(a: Element, b: Element) {
    a.index.Some? == b.index.Some?
  }

  /** All of the elements have an index, or none has. */
  predicate Uniform(s: seq<Element>) {
    forall i, j :: 0 <= i < j < |s| ==> SameKind(s[i], s[j])
  }

  predicate Sorted(s: seq<Element>) {
    forall i, j :: 0 <= i < j < |s| ==> CompareElements(s[i], s[j]) <= 0
  }

  predicate SameKey(a: Element, b: Element) {
    a.id == b.id && a.index == b.index
  }

  lemma {:induction false} LessIsTotal(a: Text, b: Text)
    ensures Less(a, b) || Less(b, a) || a == b
    ensures !(Less(a, b) && Less(b, a)) && !Less(a, a)
  {
    if a != [] && b != [] && a[0] == b[0] {
      LessIsTotal(a[1..], b[1..]);
      assert a == [a[0]] + a[1..] && b == [b[0]] + b[1..];
    }
    if a != [] {
      LessIrreflexive(a);
    }
  }

  lemma {:induction false} LessIrreflexive(a: Text)
    ensures !Less(a, a)
  {
    if a == [] {
    } else {
      LessIrreflexive(a[1..]);
    }
  }

  lemma {:induction false} LessIsTransitive(a: Text, b: Text, c: Text)
    requires Less(a, b) && Less(b, c)
    ensures Less(a, c)
  {
    if a != [] && a[0] == b[0] == c[0] {
      LessIsTransitive(a[1..], b[1..], c[1..]);
    }
  }

  /** Among elements that all have an index, or all have none, the comparator is a total order on (index, id). */
  lemma CompareIsTotalOrder(a: Element, b: Element, c: Element)
    requires SameKind(a, b) && SameKind(b, c)
    ensures CompareElements(a, b) == -CompareElements(b, a)
    ensures CompareElements(a, b) == 0 <==> SameKey(a, b)
    ensures CompareElements(a, b) <= 0 && CompareElements(b, c) <= 0 ==> CompareElements(a, c) <= 0
  {
    if a.index.Some? {
      LessIsTotal(a.index.value, b.index.value);
    }
    LessIsTotal(a.id, b.id);
    if CompareElements(a, b) <= 0 && CompareElements(b, c) <= 0 {
      CompareIsTransitive(a, b, c);
    }
  }

  lemma CompareIsTransitive(a: Element, b: Element, c: Element)
    requires SameKind(a, b) && SameKind(b, c)
    requires CompareElements(a, b) <= 0 && CompareElements(b, c) <= 0
    ensures CompareElements(a, c) <= 0
  {
    if a.index.Some? {
      var x, y, z := a.index.value, b.index.value, c.index.value;
      LessIsTotal(x, y);
      LessIsTotal(y, z);
      LessIsTotal(x, z);
      if Less(x, y) && Less(y, z) {
        LessIsTransitive(x, y, z);
      }
    }
    LessIsTotal(a.id, b.id);
    LessIsTotal(b.id, c.id);
    LessIsTotal(a.id, c.id);
    if Less(a.id, b.id) && Less(b.id, c.id) {
      LessIsTransitive(a.id, b.id, c.id);
    }
  }

  lemma {:induction false} InsertPermutes(e: Element, s: seq<Element>)
    ensures multiset(Insert(e, s)) == multiset{e} + multiset(s)
  {
    if s != [] && CompareElements(e, s[0]) > 0 {
      InsertPermutes(e, s[1..]);
      assert s == [s[0]] + s[1..];
    }
  }

  /** `e` is at or before every element of `s`. */
  predicate Before(e: Element, s: seq<Element>) {
    forall j :: 0 <= j < |s| ==> CompareElements(e, s[j]) <= 0
  }

  lemma SortedCons(e: Element, s: seq<Element>)
    ensures Sorted([e] + s) <==> Before(e, s) && Sorted(s)
  {
    var t := [e] + s;
    assert forall j :: 0 <= j < |s| ==> t[j + 1] == s[j];
    if Sorted(t) {
      forall i, j | 0 <= i < j < |s| ensures CompareElements(s[i], s[j]) <= 0 {
        assert CompareElements(t[i + 1], t[j + 1]) <= 0;
      }
      forall j | 0 <= j < |s| ensures CompareElements(e, s[j]) <= 0 {
        assert CompareElements(t[0], t[j + 1]) <= 0;
      }
    }
  }

  lemma BeforeInserted(x: Element, e: Element, s: seq<Element>)
    requires Before(x, s) && CompareElements(x, e) <= 0
    ensures Before(x, Insert(e, s))
  {
    var r := Insert(e, s);
    InsertPermutes(e, s);
    forall j | 0 <= j < |r| ensures CompareElements(x, r[j]) <= 0 {
      assert r[j] in multiset(r);
      assert r[j] == e || r[j] in s;
    }
  }

  lemma {:induction false} InsertKeepsSorted(e: Element, s: seq<Element>)
    requires Sorted(s) && Uniform(s) && forall x :: x in s ==> SameKind(e, x)
    ensures Sorted(Insert(e, s))
  {
    if s == [] {
    } else if CompareElements(e, s[0]) <= 0 {
      forall j | 0 <= j < |s| ensures CompareElements(e, s[j]) <= 0 {
        if j > 0 { CompareIsTransitive(e, s[0], s[j]); }
      }
      SortedCons(e, s);
    } else {
      assert s == [s[0]] + s[1..];
      SortedCons(s[0], s[1..]);
      CompareIsTotalOrder(e, s[0], s[0]);
      InsertKeepsSorted(e, s[1..]);
      BeforeInserted(s[0], e, s[1..]);
      SortedCons(s[0], Insert(e, s[1..]));
    }
  }

  /** The list persisted is a sorted permutation of the live elements. */
  lemma {:induction false} SortSorts(s: seq<Element>)
    requires Uniform(s)
    ensures Sorted(Sort(s)) && multiset(Sort(s)) == multiset(s) && Uniform(Sort(s))
  {
    if s == [] {
    } else {
      SortSorts(s[1..]);
      assert s == [s[0]] + s[1..];
      InsertPermutes(s[0], Sort(s[1..]));
      forall x | x in Sort(s[1..]) ensures SameKind(s[0], x) {
        assert x in multiset(s[1..]);
      }
      InsertKeepsSorted(s[0], Sort(s[1..]));
      UniformPermutation(s, Sort(s));
    }
  }

  lemma UniformPermutation(s: seq<Element>, t: seq<Element>)
    requires Uniform(s) && multiset(s) == multiset(t)
    ensures Uniform(t)
  {
    forall i, j | 0 <= i < j < |t| ensures SameKind(t[i], t[j]) {
      assert t[i] in multiset(s) && t[j] in multiset(s);
    }
  }

  /** Elements with the same index and id are the same. */
  predicate KeysIdentify(s: seq<Element>) {
    forall x, y :: x in s && y in s && SameKey(x, y) ==> x == y
  }

  lemma KeysIdentifyPermutation(s: seq<Element>, t: seq<Element>)
    requires KeysIdentify(s) && multiset(s) == multiset(t)
    ensures KeysIdentify(t)
  {
    assert forall x :: x in t <==> x in multiset(s);
  }

  /** There is only one sorted arrangement of elements whose keys identify them. */
  lemma {:induction false} SortedIsUnique(s: seq<Element>, t: seq<Element>)
    requires Sorted(s) && Sorted(t) && multiset(s) == multiset(t) && Uniform(s) && KeysIdentify(s)
    ensures s == t
  {
    assert |s| == |multiset(s)| == |multiset(t)| == |t|;
    if s != [] {
      FirstIsSame(s, t);
      assert s == [s[0]] + s[1..] && t == [s[0]] + t[1..];
      TailsMatch(s[0], s[1..], t[1..]);
      SortedCons(s[0], s[1..]);
      SortedCons(s[0], t[1..]);
      SortedIsUnique(s[1..], t[1..]);
    }
  }

  lemma TailsMatch(e: Element, s: seq<Element>, t: seq<Element>)
    requires multiset([e] + s) == multiset([e] + t)
    ensures multiset(s) == multiset(t)
  {
    assert multiset(s) == multiset([e] + s) - multiset{e};
    assert multiset(t) == multiset([e] + t) - multiset{e};
  }

  lemma FirstIsSame(s: seq<Element>, t: seq<Element>)
    requires Sorted(s) && Sorted(t) && multiset(s) == multiset(t) && Uniform(s) && KeysIdentify(s)
    requires s != [] && t != []
    ensures s[0] == t[0]
  {
    assert s[0] in multiset(t) && t[0] in multiset(s);
    var j :| 0 <= j < |t| && t[j] == s[0];
    var i :| 0 <= i < |s| && s[i] == t[0];
    CompareIsTotalOrder(s[0], s[i], s[i]);
    assert i > 0 ==> CompareElements(s[0], s[i]) <= 0;
    assert j > 0 ==> CompareElements(t[0], t[j]) <= 0;
  }

  /**
   * The persisted content does not depend on the order in which the live document yields its
   * elements: any two such orders, over one checkpoint, give the same content, and whatever sorting
   * algorithm is used.
   */
  lemma MaterializationIsDeterministic(checkpoint: Content, live: seq<Live>, again: seq<Live>, sorted: seq<Element>)
    requires multiset(live) == multiset(again)
    requires Uniform(Kept(live)) && KeysIdentify(Kept(live))
    requires Sorted(sorted) && multiset(sorted) == multiset(Kept(live))
    ensures MaterializeBoardContent(checkpoint, live) == MaterializeBoardContent(checkpoint, again)
    ensures live != [] ==>
      MaterializeBoardContent(checkpoint, live).Record?
      && MaterializeBoardContent(checkpoint, live).fields["elements"] == Elements(sorted)
  {
    assert |live| == |multiset(live)| == |multiset(again)| == |again|;
    KeptOfPermutation(live, again);
    var s, t := Kept(live), Kept(again);
    SortSorts(s);
    KeysIdentifyPermutation(s, Sort(s));
    UniformPermutation(s, t);
    SortSorts(t);
    SortedIsUnique(Sort(s), Sort(t));
    SortedIsUnique(Sort(s), sorted);
  }

  lemma {:induction false} KeptCount(live: seq<Live>, e: Element)
    ensures multiset(Kept(live))[e] == multiset(live)[Object(e)]
  {
    if live == [] {
    } else {
      KeptCount(live[1..], e);
      assert live == [live[0]] + live[1..];
    }
  }

  lemma KeptOfPermutation(live: seq<Live>, again: seq<Live>)
    requires multiset(live) == multiset(again)
    ensures multiset(Kept(live)) == multiset(Kept(again))
  {
    forall e ensures multiset(Kept(live))[e] == multiset(Kept(again))[e] {
      KeptCount(live, e);
      KeptCount(again, e);
    }
  }

  /** Every other field of the checkpoint is kept, or comes from the default base when the checkpoint is no record. */
  lemma OtherFieldsKept(checkpoint: Content, live: seq<Live>, key: string)
    ensures live == [] ==> MaterializeBoardContent(checkpoint, live) == checkpoint
    ensures live != [] ==>
      var r := MaterializeBoardContent(checkpoint, live);
      r.Record? && "elements" in r.fields
      && (key != "elements" ==>
            Lookup(r.fields, key) == Lookup(if checkpoint.Record? then checkpoint.fields else DEFAULT_BASE, key))
  {
  }

  function Swap(s: seq<Element>, i: nat, j: nat): seq<Element>
    requires i < |s| && j < |s|
  {
    s[i := s[j]][j := s[i]]
  }

  lemma SwappedIsSorted(s: seq<Element>, i: nat, j: nat)
    requires Sorted(s) && i < j < |s| && SameKey(s[i], s[j])
    ensures Sorted(Swap(s, i, j)) && multiset(Swap(s, i, j)) == multiset(s)
  {
    var t := Swap(s, i, j);
    assert forall k :: 0 <= k < |s| ==> SameKey(t[k], s[k]);
    forall a, b | 0 <= a < b < |s| ensures CompareElements(t[a], t[b]) <= 0 {
      assert CompareElements(s[a], s[b]) <= 0;
      SameKeysCompareAlike(t[a], t[b], s[a], s[b]);
    }
  }

  lemma SameKeysCompareAlike(a: Element, b: Element, c: Element, d: Element)
    requires SameKey(a, c) && SameKey(b, d)
    ensures CompareElements(a, b) == CompareElements(c, d)
  {
  }

  /** Keys that do not identify their element leave the order open: exchanging two such is sorted as well. */
  lemma UniqueIffKeysIdentify(s: seq<Element>)
    requires Sorted(s) && Uniform(s)
    ensures KeysIdentify(s) <==> forall t :: Sorted(t) && multiset(t) == multiset(s) ==> t == s
  {
    if KeysIdentify(s) {
      forall t | Sorted(t) && multiset(t) == multiset(s) ensures t == s {
        SortedIsUnique(s, t);
      }
    } else {
      var x, y :| x in s && y in s && SameKey(x, y) && x != y;
      var i :| 0 <= i < |s| && s[i] == x;
      var j :| 0 <= j < |s| && s[j] == y;
      SwappedIsSorted(s, Min(i, j), Max(i, j));
      assert Swap(s, Min(i, j), Max(i, j))[i] == y;
    }
  }

  /**
   * With indices mixed there may be no order at all: of these three elements, one without an index,
   * each comes before the next in a circle, so no arrangement is sorted.
   */
  lemma MixedIndicesHaveNoOrder(s: seq<Element>)
    requires multiset(s) == multiset{Element([1], Some([2]), 0), Element([2], None, 0), Element([3], Some([1]), 0)}
    ensures !Sorted(s)
  {
    var a, b, c := Element([1], Some([2]), 0), Element([2], None, 0), Element([3], Some([1]), 0);
    assert CompareElements(a, b) == -1 && CompareElements(b, c) == -1 && CompareElements(c, a) == -1;
    assert CompareElements(b, a) == 1 && CompareElements(c, b) == 1 && CompareElements(a, c) == 1;
    assert |s| == |multiset(s)| == 3;
    assert s[0] in multiset(s) && s[1] in multiset(s) && s[2] in multiset(s);
    assert s == [s[0], s[1], s[2]];
    assert a in multiset(s) && b in multiset(s) && c in multiset(s);
  }

  /** `a` comes first in the order of code units: it is a proper beginning of `b`, or smaller where they first differ. */
  predicate ComesFirst(a: Text, b: Text) {
    exists k: nat :: k <= |a| && k < |b| && a[..k] == b[..k] && (k == |a| || a[k] < b[k])
  }

  lemma {:induction false} LessIffComesFirst(a: Text, b: Text)
    ensures Less(a, b) <==> ComesFirst(a, b)
  {
    if b == [] {
    } else if a == [] {
      assert a[..0] == b[..0];
    } else if a[0] != b[0] {
      if a[0] < b[0] {
        assert a[..0] == b[..0];
      }
      forall k: nat | 0 < k <= |a| && k < |b| ensures a[..k] != b[..k] {
        assert a[..k][0] == a[0] && b[..k][0] == b[0];
      }
    } else {
      LessIffComesFirst(a[1..], b[1..]);
      if ComesFirst(a[1..], b[1..]) {
        var k: nat :| k <= |a[1..]| && k < |b[1..]| && a[1..][..k] == b[1..][..k] && (k == |a[1..]| || a[1..][k] < b[1..][k]);
        assert a[..k + 1] == [a[0]] + a[1..][..k] && b[..k + 1] == [b[0]] + b[1..][..k];
        assert k + 1 <= |a| && k + 1 < |b| && a[..k + 1] == b[..k + 1];
      }
      if ComesFirst(a, b) {
        var k: nat :| k <= |a| && k < |b| && a[..k] == b[..k] && (k == |a| || a[k] < b[k]);
        assert k > 0;
        assert a[1..][..k - 1] == a[..k][1..] == b[..k][1..] == b[1..][..k - 1];
      }
    }
  }

  /**
   * Scene order: of two elements of the persisted list, the one whose index comes first in code unit
   * order comes first, and of two with one index, or none, the one whose id does.
   */
  lemma SceneOrder(s: seq<Element>, i: nat, j: nat)
    requires Uniform(s) && i < |Sort(s)| && j < |Sort(s)|
    ensures
      var a, b := Sort(s)[i], Sort(s)[j];
      && (a.index.Some? && b.index.Some? && ComesFirst(a.index.value, b.index.value) ==> i < j)
      && (a.index == b.index && ComesFirst(a.id, b.id) ==> i < j)
  {
    var a, b := Sort(s)[i], Sort(s)[j];
    SortSorts(s);
    LessIffComesFirst(a.id, b.id);
    LessIsTotal(a.id, b.id);
    LessIsTotal(b.id, b.id);
    if a.index.Some? && b.index.Some? {
      LessIffComesFirst(a.index.value, b.index.value);
      LessIsTotal(a.index.value, b.index.value);
    }
    assert j < i ==> CompareElements(b, a) <= 0;
  }
}
