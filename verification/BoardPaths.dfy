/** Board paths derived from titles, and revisions written as sha strings. */
module BoardPaths {
  import opened Prelude

  const MAX_SLUG_LENGTH := 80
  const EXTENSION := ".excalidraw"

  // Decimal numbers, as JavaScript writes and reads them.

  function Digit(d: nat): char
    requires d < 10
  {
    "0123456789"[d]
  }

  predicate IsDigit(c: char) {
    '0' <= c <= '9'
  }

  function DigitValue(c: char): nat
    requires IsDigit(c)
  {
    c as int - '0' as int
  }

  function ToDecimal(n: nat): (s: string)
    ensures s != [] && forall c :: c in s ==> IsDigit(c)
  {
    if n < 10 then [Digit(n)] else ToDecimal(n / 10) + [Digit(n % 10)]
  }

  function FromDecimal(s: string): nat
    requires forall c :: c in s ==> IsDigit(c)
  {
    if s == [] then 0 else 10 * FromDecimal(s[..|s| - 1]) + DigitValue(s[|s| - 1])
  }

  lemma {:induction false} DecimalRoundTrip(n: nat)
    ensures FromDecimal(ToDecimal(n)) == n
  {
    if n >= 10 {
      DecimalRoundTrip(n / 10);
      var s := ToDecimal(n);
      assert s[..|s| - 1] == ToDecimal(n / 10);
    } else {
      assert ToDecimal(n)[..0] == [];
    }
  }

  /** Numbers are written as usual: one digit below ten, otherwise all but the last digit and then that one. */
  lemma DecimalByDigits(q: nat, d: nat)
    requires d < 10
    ensures ToDecimal(d) == ['0' + d as char]
    ensures q > 0 ==> ToDecimal(10 * q + d) == ToDecimal(q) + ['0' + d as char]
  {
    assert (10 * q + d) / 10 == q && (10 * q + d) % 10 == d;
  }

  function RevisionToSha(revision: nat): string {
    "rev-" + ToDecimal(revision)
  }

  function ShaToRevision(sha: string): Option<nat> {
    if |sha| > 4 && sha[..4] == "rev-" && forall c :: c in sha[4..] ==> IsDigit(c) then
      Some(FromDecimal(sha[4..]))
    else None
  }

  lemma ShaRoundTrip(revision: nat)
    ensures ShaToRevision(RevisionToSha(revision)) == Some(revision)
  {
    DecimalRoundTrip(revision);
    assert RevisionToSha(revision)[4..] == ToDecimal(revision);
    assert RevisionToSha(revision)[..4] == "rev-";
  }

  /** Which texts are taken as shas: "rev-" followed by at least one digit and nothing else. */
  lemma ShaReadIff(sha: string)
    ensures ShaToRevision(sha).Some? <==> exists digits: string :: sha == "rev-" + digits && digits != [] && forall c :: c in digits ==> '0' <= c <= '9'
  {
    if ShaToRevision(sha).Some? {
      assert sha == "rev-" + sha[4..];
    }
    forall digits: string | sha == "rev-" + digits && digits != [] && forall c :: c in digits ==> '0' <= c <= '9'
      ensures ShaToRevision(sha).Some?
    {
      assert sha[..4] == "rev-" && sha[4..] == digits;
    }
  }

  // Paths. A title is taken after normalisation, removal of combining marks and lower-casing.

  predicate SlugChar(c: char) {
    'a' <= c <= 'z' || '0' <= c <= '9'
  }

  /** `.replace(/[^a-z0-9]+/g, "-")`; `inRun` while inside a run already replaced. */
  function Collapse(s: string, inRun: bool): string {
    if s == [] then []
    else if SlugChar(s[0]) then [s[0]] + Collapse(s[1..], false)
    else if inRun then Collapse(s[1..], true)
    else ['-'] + Collapse(s[1..], true)
  }

  function TrimLeft(s: string): string {
    if s != [] && s[0] == '-' then TrimLeft(s[1..]) else s
  }

  function TrimRight(s: string): string {
    if s != [] && s[|s| - 1] == '-' then TrimRight(s[..|s| - 1]) else s
  }

  function Slug(title: string): string {
    var trimmed := TrimRight(TrimLeft(Collapse(title, false)));
    var slug := Slice(trimmed, MAX_SLUG_LENGTH);
    if slug == [] then "board" else slug
  }

  function Stem(title: string, suffix: nat): string {
    if suffix > 0 then Slug(title) + "-" + ToDecimal(suffix + 1) else Slug(title)
  }

  function PathFromTitle(title: string, suffix: nat): string {
    Stem(title, suffix) + EXTENSION
  }

  predicate EndsWith(s: string, t: string) {
    |t| <= |s| && s[|s| - |t|..] == t
  }

  /** validateDrawingPath returns its argument rather than throwing. */
  predicate ValidDrawingPath(path: string) {
    && EndsWith(path, EXTENSION)
    && !(path != [] && path[0] == '/')
    && !exists i :: 0 <= i < |path| - 1 && path[i] == '.' && path[i + 1] == '.'
  }

  /** Which paths the check accepts: those with the extension, without a slash in front or two dots in a row. */
  lemma PathAcceptedIff(path: string)
    ensures ValidDrawingPath(path) <==>
      && (exists stem: string :: path == stem + ".excalidraw")
      && (forall rest: string :: path != "/" + rest)
      && (forall a: string, b: string :: path != a + ".." + b)
  {
    if EndsWith(path, EXTENSION) {
      assert path == path[..|path| - |EXTENSION|] + EXTENSION;
    }
    forall stem: string | path == stem + ".excalidraw" ensures EndsWith(path, EXTENSION) {
    }
    if path != [] && path[0] == '/' {
      assert path == "/" + path[1..];
    }
    forall a: string, b: string | path == a + ".." + b ensures path[|a|] == '.' && path[|a| + 1] == '.' {
    }
    forall i | 0 <= i < |path| - 1 && path[i] == '.' && path[i + 1] == '.' ensures path == path[..i] + ".." + path[i + 2..] {
    }
  }

  predicate Clean(s: string) {
    forall c :: c in s ==> SlugChar(c) || c == '-'
  }

  lemma {:induction false} CollapseIsClean(s: string, inRun: bool)
    ensures Clean(Collapse(s, inRun))
  {
    if s == [] {
    } else {
      CollapseIsClean(s[1..], !SlugChar(s[0]));
    }
  }

  lemma {:induction false} TrimIsClean(s: string)
    requires Clean(s)
    ensures Clean(TrimLeft(s)) && Clean(TrimRight(s))
    decreases |s|
  {
    if s == [] {
    } else {
      TrimIsClean(s[1..]);
      TrimIsClean(s[..|s| - 1]);
    }
  }

  lemma SlugIsClean(title: string)
    ensures Clean(Slug(title)) && 0 < |Slug(title)| <= MAX_SLUG_LENGTH
  {
    CollapseIsClean(title, false);
    TrimIsClean(Collapse(title, false));
    TrimIsClean(TrimLeft(Collapse(title, false)));
  }

  function Letter(c: char): string {
    if SlugChar(c) then [c] else []
  }

  /** The letters and digits of a text. */
  function Letters(s: string): string {
    if s == [] then [] else Letter(s[0]) + Letters(s[1..])
  }

  lemma {:induction false} CollapseKeepsLetters(s: string, inRun: bool)
    ensures Letters(Collapse(s, inRun)) == Letters(s)
  {
    if s == [] {
    } else {
      CollapseKeepsLetters(s[1..], !SlugChar(s[0]));
      var rest := Collapse(s[1..], !SlugChar(s[0]));
      assert ([s[0]] + rest)[1..] == rest && (['-'] + rest)[1..] == rest;
    }
  }

  lemma LettersCons(c: char, s: string)
    ensures Letters([c] + s) == Letter(c) + Letters(s)
  {
    assert ([c] + s)[1..] == s;
  }

  lemma {:induction false} LettersConcat(a: string, b: string)
    ensures Letters(a + b) == Letters(a) + Letters(b)
  {
    if a == [] {
      assert a + b == b;
    } else {
      var c, rest := a[0], a[1..];
      LettersConcat(rest, b);
      assert a == [c] + rest && a + b == [c] + (rest + b);
      LettersCons(c, rest);
      LettersCons(c, rest + b);
      ConcatAssociates(Letter(c), Letters(rest), Letters(b));
    }
  }

  lemma ConcatAssociates(a: string, b: string, c: string)
    ensures (a + b) + c == a + (b + c)
  {
  }

  lemma {:induction false} TrimLeftKeepsLetters(s: string)
    ensures Letters(TrimLeft(s)) == Letters(s)
  {
    if s == [] || s[0] != '-' {
    } else {
      TrimLeftKeepsLetters(s[1..]);
    }
  }

  lemma {:induction false} TrimRightKeepsLetters(s: string)
    ensures Letters(TrimRight(s)) == Letters(s)
    decreases |s|
  {
    if s == [] || s[|s| - 1] != '-' {
    } else {
      var init := s[..|s| - 1];
      TrimRightKeepsLetters(init);
      assert s == init + ['-'] && ['-'][1..] == [];
      LettersConcat(init, ['-']);
    }
  }

  /** Hyphens aside, the slug is the title's letters and digits in order, cut off only by the length limit. */
  lemma SlugKeepsLetters(title: string)
    ensures Letters(title) == [] ==> Slug(title) == "board"
    ensures Letters(title) != [] ==>
      Letters(Slug(title)) <= Letters(title)
      && (|Slug(title)| < MAX_SLUG_LENGTH ==> Letters(Slug(title)) == Letters(title))
  {
    var collapsed := Collapse(title, false);
    CollapseKeepsLetters(title, false);
    TrimLeftKeepsLetters(collapsed);
    TrimRightKeepsLetters(TrimLeft(collapsed));
    var trimmed := TrimRight(TrimLeft(collapsed));
    assert Letters(trimmed) == Letters(title);
    if |trimmed| > MAX_SLUG_LENGTH {
      assert trimmed == trimmed[..MAX_SLUG_LENGTH] + trimmed[MAX_SLUG_LENGTH..];
      LettersConcat(trimmed[..MAX_SLUG_LENGTH], trimmed[MAX_SLUG_LENGTH..]);
    }
    CollapseIsClean(title, false);
    TrimIsClean(collapsed);
    TrimIsClean(TrimLeft(collapsed));
    if Letters(title) == [] {
      OnlyHyphensTrimmed(TrimLeft(collapsed));
    }
  }

  lemma {:induction false} OnlyHyphensTrimmed(s: string)
    requires Letters(s) == [] && Clean(s)
    ensures TrimRight(s) == []
    decreases |s|
  {
    if s == [] {
    } else {
      var init, last := s[..|s| - 1], s[|s| - 1];
      assert s == init + [last] && [last][1..] == [] && last in s;
      LettersConcat(init, [last]);
      OnlyHyphensTrimmed(init);
    }
  }

  predicate Letterlike(s: string) {
    forall i :: 0 <= i < |s| ==> SlugChar(s[i])
  }

  predicate Separating(s: string) {
    s != [] && forall i :: 0 <= i < |s| ==> !SlugChar(s[i])
  }

  lemma {:induction false} CollapseWord(u: string, s: string, inRun: bool)
    requires Letterlike(u) && u != []
    ensures Collapse(u + s, inRun) == u + Collapse(s, false)
  {
    assert (u + s)[1..] == u[1..] + s;
    if |u| == 1 {
      assert u[1..] + s == s;
    } else {
      CollapseWord(u[1..], s, false);
      assert u == [u[0]] + u[1..];
    }
  }

  lemma {:induction false} CollapseSeparator(w: string, s: string, inRun: bool)
    requires Separating(w)
    ensures Collapse(w + s, inRun) == (if inRun then [] else ['-']) + Collapse(s, true)
  {
    assert (w + s)[1..] == w[1..] + s;
    if |w| == 1 {
      assert w[1..] + s == s;
    } else {
      CollapseSeparator(w[1..], s, true);
    }
  }

  /** The words of a title, joined by single hyphens. */
  function Hyphenated(words: seq<string>): string {
    if words == [] then [] else if |words| == 1 then words[0] else words[0] + "-" + Hyphenated(words[1..])
  }

  /** The words with what stands after each of them. */
  function Spaced(words: seq<string>, gaps: seq<string>): string
    requires |gaps| == |words|
  {
    if words == [] then [] else words[0] + (gaps[0] + Spaced(words[1..], gaps[1..]))
  }

  predicate WordsAndGaps(words: seq<string>, gaps: seq<string>) {
    && words != [] && |gaps| == |words|
    && (forall k :: 0 <= k < |words| ==> words[k] != [] && Letterlike(words[k]))
    && (forall k :: 0 <= k < |gaps| - 1 ==> Separating(gaps[k]))
    && (gaps[|gaps| - 1] == [] || Separating(gaps[|gaps| - 1]))
  }

  lemma CollapseLast(gap: string)
    requires gap == [] || Separating(gap)
    ensures Collapse(gap, false) == if gap == [] then [] else ['-']
  {
    if gap != [] {
      CollapseSeparator(gap, [], false);
      assert gap + [] == gap;
    }
  }

  lemma {:induction false} CollapseSpaced(words: seq<string>, gaps: seq<string>, inRun: bool)
    requires WordsAndGaps(words, gaps)
    ensures Collapse(Spaced(words, gaps), inRun) == Hyphenated(words) + if gaps[|gaps| - 1] == [] then [] else ['-']
  {
    var rest := Spaced(words[1..], gaps[1..]);
    CollapseWord(words[0], gaps[0] + rest, inRun);
    if |words| == 1 {
      assert rest == [] && gaps[0] + rest == gaps[0];
      CollapseLast(gaps[0]);
    } else {
      CollapseSeparator(gaps[0], rest, false);
      CollapseSpaced(words[1..], gaps[1..], true);
      var tail := if gaps[|gaps| - 1] == [] then [] else ['-'];
      JoinWord(words[0], Hyphenated(words[1..]), tail);
    }
  }

  lemma JoinWord(w: string, h: string, tail: string)
    ensures w + (['-'] + (h + tail)) == (w + "-" + h) + tail
  {
  }

  lemma {:induction false} HyphenatedEnds(words: seq<string>)
    requires words != [] && forall k :: 0 <= k < |words| ==> words[k] != [] && Letterlike(words[k])
    ensures var h := Hyphenated(words); h != [] && SlugChar(h[0]) && SlugChar(h[|h| - 1])
  {
    if |words| == 1 {
    } else {
      HyphenatedEnds(words[1..]);
    }
  }

  lemma Trimmed(a: string, h: string, b: string)
    requires h != [] && h[0] != '-' && h[|h| - 1] != '-' && (a == [] || a == ['-']) && (b == [] || b == ['-'])
    ensures TrimRight(TrimLeft(a + h + b)) == h
  {
    if a == [] {
      assert a + h + b == h + b;
    } else {
      assert (a + h + b)[1..] == h + b;
    }
    if b == [] {
      assert h + b == h;
    } else {
      assert (h + b)[..|h + b| - 1] == h;
    }
  }

  /**
   * The slug of a title: its words of small letters and digits, in order, joined by single hyphens,
   * whatever stands before, between and after them, cut to 80 characters.
   */
  lemma SlugJoinsWords(lead: string, words: seq<string>, gaps: seq<string>)
    requires WordsAndGaps(words, gaps) && (lead == [] || Separating(lead))
    ensures
      var h := Hyphenated(words);
      Slug(lead + Spaced(words, gaps)) == if |h| <= 80 then h else h[..80]
  {
    var h := Hyphenated(words);
    var tail := if gaps[|gaps| - 1] == [] then [] else ['-'];
    var front := if lead == [] then [] else ['-'];
    HyphenatedEnds(words);
    CollapseLed(lead, words, gaps);
    Trimmed(front, h, tail);
  }

  lemma CollapseLed(lead: string, words: seq<string>, gaps: seq<string>)
    requires WordsAndGaps(words, gaps) && (lead == [] || Separating(lead))
    ensures
      var tail := if gaps[|gaps| - 1] == [] then [] else ['-'];
      Collapse(lead + Spaced(words, gaps), false) == (if lead == [] then [] else ['-']) + Hyphenated(words) + tail
  {
    var tail := if gaps[|gaps| - 1] == [] then [] else ['-'];
    CollapseSpaced(words, gaps, lead != []);
    if lead == [] {
      EmptyInFront(Spaced(words, gaps));
      EmptyInFront(Hyphenated(words));
    } else {
      CollapseSeparator(lead, Spaced(words, gaps), false);
      ConcatAssociates(['-'], Hyphenated(words), tail);
    }
  }

  lemma EmptyInFront(s: string)
    ensures [] + s == s
  {
  }

  lemma CleanStemIsValid(stem: string)
    requires Clean(stem) && stem != []
    ensures ValidDrawingPath(stem + EXTENSION)
  {
    var path := stem + EXTENSION;
    assert path[|stem|..] == EXTENSION;
    assert forall i :: 0 <= i < |stem| ==> path[i] == stem[i] && stem[i] in stem;
    forall i | |stem| <= i < |path| - 1 && path[i] == '.' ensures path[i + 1] != '.' {
      assert path[i + 1] == EXTENSION[i + 1 - |stem|];
    }
  }

  /** Every derived path is accepted by the drawing-path check, whatever the title. */
  lemma DerivedPathIsValid(title: string, suffix: nat)
    ensures ValidDrawingPath(PathFromTitle(title, suffix))
  {
    SlugIsClean(title);
    CleanStemIsValid(Stem(title, suffix));
  }

  /** The candidates in order: the slug itself, then the slug numbered from 2 on. */
  lemma CandidatesInOrder(title: string, n: nat)
    ensures PathFromTitle(title, 0) == Slug(title) + ".excalidraw"
    ensures n >= 2 ==> PathFromTitle(title, n - 1) == Slug(title) + "-" + ToDecimal(n) + ".excalidraw"
  {
  }

  lemma PathInjective(title: string, a: nat, b: nat)
    requires PathFromTitle(title, a) == PathFromTitle(title, b)
    ensures a == b
  {
    StemsEqual(Stem(title, a), Stem(title, b));
    NumbersEqual(Slug(title), a, b);
  }

  lemma NumbersEqual(slug: string, a: nat, b: nat)
    requires (if a > 0 then slug + "-" + ToDecimal(a + 1) else slug) == (if b > 0 then slug + "-" + ToDecimal(b + 1) else slug)
    ensures a == b
  {
    SuffixRead(slug, ToDecimal(a + 1));
    SuffixRead(slug, ToDecimal(b + 1));
    if a > 0 && b > 0 {
      DecimalRoundTrip(a + 1);
      DecimalRoundTrip(b + 1);
    }
  }

  lemma StemsEqual(a: string, b: string)
    requires a + EXTENSION == b + EXTENSION
    ensures a == b
  {
    assert |a| == |b|;
    assert (a + EXTENSION)[..|a|] == a && (b + EXTENSION)[..|b|] == b;
  }

  lemma SuffixRead(slug: string, digits: string)
    ensures (slug + "-" + digits)[|slug| + 1..] == digits
  {
  }

  /** The first `n` candidate paths. */
  function Tried(title: string, n: nat): set<string> {
    set k | 0 <= k < n :: PathFromTitle(title, k)
  }

  lemma {:induction false} TriedCardinality(title: string, n: nat)
    ensures |Tried(title, n)| == n
  {
    if n == 0 {
    } else {
      TriedCardinality(title, n - 1);
      if PathFromTitle(title, n - 1) in Tried(title, n - 1) {
        var k :| 0 <= k < n - 1 && PathFromTitle(title, k) == PathFromTitle(title, n - 1);
        PathInjective(title, k, n - 1);
      }
      assert Tried(title, n) == Tried(title, n - 1) + {PathFromTitle(title, n - 1)};
    }
  }

  lemma SubsetCardinality(a: set<string>, b: set<string>)
    requires a <= b
    ensures |a| <= |b|
  {
    assert b == a + (b - a);
  }

  /**
   * The suffix loop of create and rename: it returns the first free candidate, which the
   * drawing-path check accepts, after at most one test more than there are taken paths.
   */
  method AllocatePath(title: string, taken: set<string>) returns (path: string, tests: nat)
    ensures path !in taken && ValidDrawingPath(path)
    ensures 1 <= tests <= |taken| + 1 && path == PathFromTitle(title, tests - 1)
    ensures forall k :: 0 <= k < tests - 1 ==> PathFromTitle(title, k) in taken
  {
    var suffix := 0;
    TriedCardinality(title, 0);
    while PathFromTitle(title, suffix) in taken
      invariant 0 <= suffix <= |taken|
      invariant forall k :: 0 <= k < suffix ==> PathFromTitle(title, k) in taken
      decreases |taken| - suffix
    {
      suffix := suffix + 1;
      TriedCardinality(title, suffix);
      SubsetCardinality(Tried(title, suffix), taken);
    }
    path := PathFromTitle(title, suffix);
    tests := suffix + 1;
    DerivedPathIsValid(title, suffix);
  }
}
