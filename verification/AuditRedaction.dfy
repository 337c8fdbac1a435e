/** Redaction of audit metadata: what it hides, what it keeps and how far it cuts. */
module AuditRedaction {
  import opened Prelude

  /** A metadata value; `Other` is anything else, by the text String(value) gives. Records list their entries. */
  datatype Value =
    | Str(text: string)
    | Num(n: real)
    | Bool(b: bool)
    | Null
    | Arr(items: seq<Value>)
    | Rec(entries: seq<Entry>)
    | Other(text: string)

  datatype Entry = Entry(key: string, value: Value)

  const MAX_DEPTH := 5
  const MAX_STRING_LENGTH := 512
  const MAX_ITEMS := 50
  const REDACTED := Str("[redacted]")
  const TRUNCATED := Rec([Entry("truncated", Bool(true))])

  const SENSITIVE_KEY_PARTS: seq<string> :=
    ["authorization", "cookie", "password", "secret", "token", "credential", "content", "payload", "invite", "url"]

  /** Lower case as far as it can produce a letter of the parts: ASCII capitals and the Kelvin sign. */
  function Lower(c: char): char {
    if 'A' <= c <= 'Z' then c - 'A' + 'a' else if c == '\U{212A}' then 'k' else c
  }

  function ToLower(s: string): string {
    seq(|s|, i requires 0 <= i < |s| => Lower(s[i]))
  }

  predicate IncludesAt(s: string, part: string, i: nat) {
    i + |part| <= |s| && s[i..i + |part|] == part
  }

  predicate Includes(s: string, part: string) {
    exists i: nat :: i <= |s| && IncludesAt(s, part, i)
  }

  predicate IsSensitiveKey(key: string) {
    exists k :: 0 <= k < |SENSITIVE_KEY_PARTS| && Includes(ToLower(key), SENSITIVE_KEY_PARTS[k])
  }

  /** `c` written for the small letter `d` of a part: itself, its capital, or the Kelvin sign for k. */
  predicate Writes(c: char, d: char) {
    c == d || ('a' <= d <= 'z' && 'A' <= c <= 'Z' && c - 'A' == d - 'a') || (d == 'k' && c == '\U{212A}')
  }

  predicate Spells(s: string, part: string) {
    |s| == |part| && forall i :: 0 <= i < |s| ==> Writes(s[i], part[i])
  }

  predicate SpelledIn(key: string, a: string, w: string, b: string, part: string) {
    key == a + w + b && Spells(w, part)
  }

  /** Under which keys values are hidden: those in which one of the ten words stands somewhere, in any capitals. */
  lemma SensitiveIffSpelled(key: string)
    ensures IsSensitiveKey(key) <==>
      exists a, w, b, part :: SpelledIn(key, a, w, b, part)
        && part in {"authorization", "cookie", "password", "secret", "token", "credential", "content", "payload", "invite", "url"}
  {
    if IsSensitiveKey(key) {
      var k :| 0 <= k < |SENSITIVE_KEY_PARTS| && Includes(ToLower(key), SENSITIVE_KEY_PARTS[k]);
      var part := SENSITIVE_KEY_PARTS[k];
      var i: nat :| i <= |ToLower(key)| && IncludesAt(ToLower(key), part, i);
      SpelledAt(key, part, i);
      assert key == key[..i] + key[i..i + |part|] + key[i + |part|..];
      assert SpelledIn(key, key[..i], key[i..i + |part|], key[i + |part|..], part);
    }
    forall a, w, b, part | SpelledIn(key, a, w, b, part) && part in SENSITIVE_KEY_PARTS ensures IsSensitiveKey(key) {
      assert key[|a|..|a| + |part|] == w;
      SpelledAt(key, part, |a|);
      var k :| 0 <= k < |SENSITIVE_KEY_PARTS| && SENSITIVE_KEY_PARTS[k] == part;
      assert Includes(ToLower(key), SENSITIVE_KEY_PARTS[k]);
    }
  }

  lemma PartsAreLower(part: string, i: nat)
    requires part in SENSITIVE_KEY_PARTS && i < |part|
    ensures 'a' <= part[i] <= 'z'
  {
  }

  lemma SpelledAt(key: string, part: string, i: nat)
    requires part in SENSITIVE_KEY_PARTS
    ensures IncludesAt(ToLower(key), part, i) <==> i + |part| <= |key| && Spells(key[i..i + |part|], part)
  {
    if i + |part| <= |key| {
      var low, w := ToLower(key)[i..i + |part|], key[i..i + |part|];
      forall j | 0 <= j < |part| ensures low[j] == part[j] <==> Writes(w[j], part[j]) {
        PartsAreLower(part, j);
        assert low[j] == Lower(w[j]);
      }
    }
  }

  /** The keys the redaction itself uses are not sensitive: each part has a letter they lack. */
  lemma OwnKeysArePlain()
    ensures !IsSensitiveKey("item") && !IsSensitiveKey("truncated")
  {
    PlainKey("item", "acpsoccpvu");
    PlainKey("truncated", "oopsoiopil");
  }

  lemma PlainKey(key: string, lacking: string)
    requires |lacking| == |SENSITIVE_KEY_PARTS|
    requires forall i :: 0 <= i < |key| ==> Lower(key[i]) == key[i]
    requires forall k :: 0 <= k < |lacking| ==> lacking[k] in SENSITIVE_KEY_PARTS[k] && lacking[k] !in key
    ensures !IsSensitiveKey(key)
  {
    assert ToLower(key) == key;
    forall k, i: nat | 0 <= k < |lacking| && i <= |key| ensures !IncludesAt(key, SENSITIVE_KEY_PARTS[k], i) {
      var part := SENSITIVE_KEY_PARTS[k];
      if IncludesAt(key, part, i) {
        assert false;
      }
    }
  }

  function RedactValue(key: string, v: Value, depth: nat): Value
    decreases v
  {
    if IsSensitiveKey(key) then REDACTED
    else
      match v
      case Str(text) => Str(Slice(text, MAX_STRING_LENGTH))
      case Num(_) => v
      case Bool(_) => v
      case Null => v
      case Arr(items) =>
        var kept := Slice(items, MAX_ITEMS);
        Arr(seq(|kept|, i requires 0 <= i < |kept| => RedactValue("item", kept[i], depth)))
      case Rec(entries) =>
        if depth >= MAX_DEPTH then TRUNCATED
        else Rec(seq(|entries|, i requires 0 <= i < |entries| =>
                   Entry(entries[i].key, RedactValue(entries[i].key, entries[i].value, depth + 1))))
      case Other(text) => Str(Slice(text, MAX_STRING_LENGTH))
  }

  /** redactAuditMetadata: a record's entries, from depth 0. */
  function RedactEntries(entries: seq<Entry>): seq<Entry> {
    seq(|entries|, i requires 0 <= i < |entries| => Entry(entries[i].key, RedactValue(entries[i].key, entries[i].value, 1)))
  }

  /** What stays of a value that is not hidden: a text's first 512 characters, a list's first 50 items, a record's keys. */
  lemma WhatStays(key: string, v: Value, depth: nat)
    requires !IsSensitiveKey(key)
    ensures v.Str? || v.Other? ==>
      var r := RedactValue(key, v, depth);
      r.Str? && r.text <= v.text && |r.text| == if |v.text| < 512 then |v.text| else 512
    ensures v.Num? || v.Bool? || v.Null? ==> RedactValue(key, v, depth) == v
    ensures v.Arr? ==>
      var r := RedactValue(key, v, depth);
      r.Arr? && |r.items| == (if |v.items| < 50 then |v.items| else 50)
      && forall i :: 0 <= i < |r.items| ==> r.items[i] == RedactValue("item", v.items[i], depth)
    ensures v.Rec? && depth < 5 ==>
      var r := RedactValue(key, v, depth);
      r.Rec? && |r.entries| == |v.entries|
      && forall i :: 0 <= i < |v.entries| ==>
           r.entries[i] == Entry(v.entries[i].key, RedactValue(v.entries[i].key, v.entries[i].value, depth + 1))
    ensures v.Rec? && depth >= 5 ==> RedactValue(key, v, depth) == Rec([Entry("truncated", Bool(true))])
  {
  }

  lemma SecretsAreReplaced(key: string, v: Value, depth: nat)
    requires IsSensitiveKey(key)
    ensures RedactValue(key, v, depth) == Str("[redacted]")
  {
  }

  // What a reader of the output can tell apart.

  /** The text shown for a value that is shown as text. */
  predicate IsText(v: Value) {
    v.Str? || v.Other?
  }

  /**
   * Under `key`, the two values agree wherever redaction looks: not at all under a sensitive key; the
   * first 512 characters of a text; the first 50 items of a list; all of a record's keys, and the
   * values under them, unless it lies five records deep.
   */
  predicate Agree(key: string, v: Value, w: Value, depth: nat)
    decreases v
  {
    || IsSensitiveKey(key)
    || (IsText(v) && IsText(w) && Slice(v.text, MAX_STRING_LENGTH) == Slice(w.text, MAX_STRING_LENGTH))
    || (v == w && (v.Num? || v.Bool? || v.Null?))
    || (v.Arr? && w.Arr? && |Slice(v.items, MAX_ITEMS)| == |Slice(w.items, MAX_ITEMS)|
        && forall i :: 0 <= i < |Slice(v.items, MAX_ITEMS)| ==> Agree("item", v.items[i], w.items[i], depth))
    || (v.Rec? && w.Rec? && depth >= MAX_DEPTH)
    || (v.Rec? && w.Rec? && |v.entries| == |w.entries|
        && forall i :: 0 <= i < |v.entries| ==>
             && v.entries[i].key == w.entries[i].key
             && Agree(v.entries[i].key, v.entries[i].value, w.entries[i].value, depth + 1))
  }

  lemma {:induction false} ValuesEqualIffAgree(key: string, v: Value, w: Value, depth: nat)
    ensures RedactValue(key, v, depth) == RedactValue(key, w, depth) <==> Agree(key, v, w, depth)
    decreases v
  {
    if IsSensitiveKey(key) {
    } else if v.Arr? && w.Arr? {
      ItemsEqualIffAgree(key, v, w, depth);
    } else if v.Rec? && w.Rec? && depth < MAX_DEPTH {
      EntriesEqualIffAgree(key, v, w, depth);
    }
  }

  lemma {:induction false} ItemsEqualIffAgree(key: string, v: Value, w: Value, depth: nat)
    requires !IsSensitiveKey(key) && v.Arr? && w.Arr?
    ensures RedactValue(key, v, depth) == RedactValue(key, w, depth) <==> Agree(key, v, w, depth)
    decreases v, 0
  {
    var a, b := Slice(v.items, MAX_ITEMS), Slice(w.items, MAX_ITEMS);
    var x, y := RedactValue(key, v, depth), RedactValue(key, w, depth);
    if |a| == |b| {
      forall i | 0 <= i < |a| ensures x.items[i] == y.items[i] <==> Agree("item", v.items[i], w.items[i], depth) {
        ValuesEqualIffAgree("item", v.items[i], w.items[i], depth);
      }
      assert x.items == y.items <==> forall i :: 0 <= i < |a| ==> x.items[i] == y.items[i];
    } else {
      assert |x.items| == |a| && |y.items| == |b|;
    }
  }

  lemma {:induction false} EntriesEqualIffAgree(key: string, v: Value, w: Value, depth: nat)
    requires !IsSensitiveKey(key) && v.Rec? && w.Rec? && depth < MAX_DEPTH
    ensures RedactValue(key, v, depth) == RedactValue(key, w, depth) <==> Agree(key, v, w, depth)
    decreases v, 0
  {
    var x, y := RedactValue(key, v, depth), RedactValue(key, w, depth);
    if |v.entries| == |w.entries| {
      forall i | 0 <= i < |v.entries| && v.entries[i].key == w.entries[i].key
        ensures x.entries[i] == y.entries[i] <==> Agree(v.entries[i].key, v.entries[i].value, w.entries[i].value, depth + 1)
      {
        ValuesEqualIffAgree(v.entries[i].key, v.entries[i].value, w.entries[i].value, depth + 1);
      }
      forall i | 0 <= i < |v.entries| && v.entries[i].key != w.entries[i].key ensures x.entries[i] != y.entries[i] {
        assert x.entries[i].key == v.entries[i].key && y.entries[i].key == w.entries[i].key;
      }
      assert x.entries == y.entries <==> forall i :: 0 <= i < |v.entries| ==> x.entries[i] == y.entries[i];
    } else {
      assert |x.entries| == |v.entries| && |y.entries| == |w.entries|;
    }
  }

  /** Two inputs are redacted alike exactly when they agree wherever redaction looks. */
  lemma EqualIffAgree(a: seq<Entry>, b: seq<Entry>)
    ensures RedactEntries(a) == RedactEntries(b) <==>
            |a| == |b| && forall i :: 0 <= i < |a| ==> a[i].key == b[i].key && Agree(a[i].key, a[i].value, b[i].value, 1)
  {
    var x, y := RedactEntries(a), RedactEntries(b);
    if |a| == |b| {
      forall i | 0 <= i < |a|
        ensures x[i] == y[i] <==> a[i].key == b[i].key && Agree(a[i].key, a[i].value, b[i].value, 1)
      {
        ValuesEqualIffAgree(a[i].key, a[i].value, b[i].value, 1);
      }
      assert x == y <==> forall i :: 0 <= i < |a| ==> x[i] == y[i];
    } else {
      assert |x| == |a| && |y| == |b|;
    }
  }

  /** Equal but for the values under sensitive keys, at any depth and inside lists. */
  predicate SameButSecrets(key: string, v: Value, w: Value)
    decreases v
  {
    || IsSensitiveKey(key)
    || v == w
    || (v.Arr? && w.Arr? && |v.items| == |w.items|
        && forall i :: 0 <= i < |v.items| ==> SameButSecrets("item", v.items[i], w.items[i]))
    || (v.Rec? && w.Rec? && |v.entries| == |w.entries|
        && forall i :: 0 <= i < |v.entries| ==>
             && v.entries[i].key == w.entries[i].key
             && SameButSecrets(v.entries[i].key, v.entries[i].value, w.entries[i].value))
  }

  lemma {:induction false} SecretsAgree(key: string, v: Value, w: Value, depth: nat)
    requires SameButSecrets(key, v, w)
    ensures Agree(key, v, w, depth)
    decreases v
  {
    if v == w {
      ValuesEqualIffAgree(key, v, w, depth);
    } else if !IsSensitiveKey(key) && v.Arr? {
      forall i | 0 <= i < |v.items| ensures Agree("item", v.items[i], w.items[i], depth) {
        SecretsAgree("item", v.items[i], w.items[i], depth);
      }
    } else if !IsSensitiveKey(key) {
      forall i | 0 <= i < |v.entries|
        ensures Agree(v.entries[i].key, v.entries[i].value, w.entries[i].value, depth + 1)
      {
        SecretsAgree(v.entries[i].key, v.entries[i].value, w.entries[i].value, depth + 1);
      }
    }
  }

  /** Nothing under a sensitive key shows: inputs that differ only there give the same output. */
  lemma SecretsDoNotShow(a: seq<Entry>, b: seq<Entry>)
    requires |a| == |b| && forall i :: 0 <= i < |a| ==> a[i].key == b[i].key && SameButSecrets(a[i].key, a[i].value, b[i].value)
    ensures RedactEntries(a) == RedactEntries(b)
  {
    forall i | 0 <= i < |a| ensures Agree(a[i].key, a[i].value, b[i].value, 1) {
      SecretsAgree(a[i].key, a[i].value, b[i].value, 1);
    }
    EqualIffAgree(a, b);
  }

  // Redacted values.

  /** A value as the audit log may hold it `depth` records deep. */
  predicate Clean(key: string, v: Value, depth: nat)
    decreases v
  {
    if IsSensitiveKey(key) then v == REDACTED
    else
      match v
      case Str(text) => |text| <= MAX_STRING_LENGTH
      case Arr(items) => |items| <= MAX_ITEMS && forall i :: 0 <= i < |items| ==> Clean("item", items[i], depth)
      case Rec(entries) =>
        v == TRUNCATED
        || (depth < MAX_DEPTH && forall i :: 0 <= i < |entries| ==> Clean(entries[i].key, entries[i].value, depth + 1))
      case Other(_) => false
      case _ => true
  }

  lemma {:induction false} ValueIsClean(key: string, v: Value, depth: nat)
    ensures Clean(key, RedactValue(key, v, depth), depth)
    decreases v
  {
    var r := RedactValue(key, v, depth);
    if !IsSensitiveKey(key) && v.Arr? {
      forall i | 0 <= i < |r.items| ensures Clean("item", r.items[i], depth) {
        ValueIsClean("item", v.items[i], depth);
      }
    } else if !IsSensitiveKey(key) && v.Rec? && depth < MAX_DEPTH {
      forall i | 0 <= i < |r.entries| ensures Clean(r.entries[i].key, r.entries[i].value, depth + 1) {
        ValueIsClean(v.entries[i].key, v.entries[i].value, depth + 1);
      }
    }
  }

  lemma {:induction false} CleanIsFixed(key: string, v: Value, depth: nat)
    requires Clean(key, v, depth)
    ensures RedactValue(key, v, depth) == v
    decreases v
  {
    var r := RedactValue(key, v, depth);
    if IsSensitiveKey(key) {
    } else if v.Arr? {
      forall i | 0 <= i < |v.items| ensures r.items[i] == v.items[i] {
        CleanIsFixed("item", v.items[i], depth);
      }
      assert r.items == v.items;
    } else if v == TRUNCATED {
      TruncatedIsFixed(key, depth);
    } else if v.Rec? {
      forall i | 0 <= i < |v.entries| ensures r.entries[i] == v.entries[i] {
        CleanIsFixed(v.entries[i].key, v.entries[i].value, depth + 1);
      }
      assert r.entries == v.entries;
    }
  }

  lemma TruncatedIsFixed(key: string, depth: nat)
    requires !IsSensitiveKey(key)
    ensures RedactValue(key, TRUNCATED, depth) == TRUNCATED
  {
    OwnKeysArePlain();
    if depth < MAX_DEPTH {
      assert RedactValue("truncated", Bool(true), depth + 1) == Bool(true);
      assert RedactValue(key, TRUNCATED, depth).entries == TRUNCATED.entries;
    }
  }

  /** A value is left as it is exactly when it is clean. */
  lemma FixedIffClean(key: string, v: Value, depth: nat)
    ensures RedactValue(key, v, depth) == v <==> Clean(key, v, depth)
  {
    ValueIsClean(key, v, depth);
    if Clean(key, v, depth) {
      CleanIsFixed(key, v, depth);
    }
  }

  /** Redacting a second time changes nothing, and what is redacted is clean. */
  lemma RedactionIsIdempotent(entries: seq<Entry>)
    ensures RedactEntries(RedactEntries(entries)) == RedactEntries(entries)
    ensures forall i :: 0 <= i < |entries| ==>
              var r := RedactEntries(entries)[i]; r.key == entries[i].key && Clean(r.key, r.value, 1)
  {
    var r := RedactEntries(entries);
    forall i | 0 <= i < |entries| ensures Clean(r[i].key, r[i].value, 1) && RedactEntries(r)[i] == r[i] {
      ValueIsClean(entries[i].key, entries[i].value, 1);
      CleanIsFixed(r[i].key, r[i].value, 1);
    }
    assert RedactEntries(r) == r;
  }

  // Depth.

  /** How many records lie one inside the other, lists not counted. */
  function RecordNesting(v: Value): nat
    decreases v
  {
    match v
    case Arr(items) => MaxNesting(items)
    case Rec(entries) => 1 + MaxEntryNesting(entries)
    case _ => 0
  }

  function MaxNesting(items: seq<Value>): nat
    decreases items
  {
    if items == [] then 0
    else
      var a, b := RecordNesting(items[0]), MaxNesting(items[1..]);
      if a < b then b else a
  }

  function MaxEntryNesting(entries: seq<Entry>): nat
    decreases entries
  {
    if entries == [] then 0
    else
      var a, b := RecordNesting(entries[0].value), MaxEntryNesting(entries[1..]);
      if a < b then b else a
  }

  lemma {:induction false} CleanIsShallow(key: string, v: Value, depth: nat)
    requires Clean(key, v, depth)
    ensures RecordNesting(v) <= if depth < MAX_DEPTH then MAX_DEPTH + 1 - depth else 1
    decreases v
  {
    if IsSensitiveKey(key) || v == TRUNCATED {
      assert RecordNesting(REDACTED) == 0;
      TruncatedNesting();
    } else if v.Arr? {
      ItemsShallow(v.items, depth);
    } else if v.Rec? {
      EntriesShallow(v.entries, depth + 1);
    }
  }

  lemma TruncatedNesting()
    ensures RecordNesting(TRUNCATED) == 1
  {
    assert MaxEntryNesting(TRUNCATED.entries[1..]) == 0;
  }

  lemma {:induction false} ItemsShallow(items: seq<Value>, depth: nat)
    requires forall i :: 0 <= i < |items| ==> Clean("item", items[i], depth)
    ensures MaxNesting(items) <= if depth < MAX_DEPTH then MAX_DEPTH + 1 - depth else 1
    decreases items
  {
    if items == [] {
    } else {
      CleanIsShallow("item", items[0], depth);
      ItemsShallow(items[1..], depth);
    }
  }

  lemma {:induction false} EntriesShallow(entries: seq<Entry>, depth: nat)
    requires forall i :: 0 <= i < |entries| ==> Clean(entries[i].key, entries[i].value, depth)
    ensures MaxEntryNesting(entries) <= if depth < MAX_DEPTH then MAX_DEPTH + 1 - depth else 1
    decreases entries
  {
    if entries == [] {
    } else {
      CleanIsShallow(entries[0].key, entries[0].value, depth);
      EntriesShallow(entries[1..], depth);
    }
  }

  /** At most five records lie inside the redacted one, the fifth being a placeholder. */
  lemma NestingIsBounded(entries: seq<Entry>)
    ensures RecordNesting(Rec(RedactEntries(entries))) <= MAX_DEPTH + 1
  {
    RedactionIsIdempotent(entries);
    EntriesShallow(RedactEntries(entries), 1);
  }

  /** A list inside a list, `n` times. */
  function Nested(n: nat): Value {
    if n == 0 then Null else Arr([Nested(n - 1)])
  }

  /** Lists nest without bound: they do not deepen the count, so any depth of them is kept as it is. */
  lemma {:induction false} ListNestingIsUnbounded(key: string, n: nat, depth: nat)
    requires !IsSensitiveKey(key)
    ensures RedactValue(key, Nested(n), depth) == Nested(n)
    decreases n
  {
    if n == 0 {
    } else {
      OwnKeysArePlain();
      ListNestingIsUnbounded("item", n - 1, depth);
      assert RedactValue(key, Nested(n), depth).items == [Nested(n - 1)];
    }
  }
}
