/** Base64url text of byte strings: section 5 of RFC 4648, padding stripped on writing and restored on reading. */
module Base64Url {
  import opened Prelude

  type Byte = x: int | 0 <= x < 256
  type Sextet = x: int | 0 <= x < 64

  /** The 64 characters of section 4 of RFC 4648. */
  function ToChar(v: Sextet): char {
    if v < 26 then 'A' + v as char
    else if v < 52 then 'a' + (v - 26) as char
    else if v < 62 then '0' + (v - 52) as char
    else if v == 62 then '+' else '/'
  }

  function FromChar(c: char): Option<Sextet> {
    if 'A' <= c <= 'Z' then Some((c - 'A') as int)
    else if 'a' <= c <= 'z' then Some((c - 'a') as int + 26)
    else if '0' <= c <= '9' then Some((c - '0') as int + 52)
    else if c == '+' then Some(62)
    else if c == '/' then Some(63)
    else None
  }

  /** Three bytes give four sextets; a last group of one or two bytes gives two or three, filled with zero bits. */
  function Sextets(b: seq<Byte>): seq<Sextet> {
    if |b| == 0 then []
    else if |b| == 1 then [b[0] / 4, b[0] % 4 * 16]
    else if |b| == 2 then [b[0] / 4, b[0] % 4 * 16 + b[1] / 16, b[1] % 16 * 4]
    else
      [b[0] / 4, b[0] % 4 * 16 + b[1] / 16,
       b[1] % 16 * 4 + b[2] / 64, b[2] % 64] + Sextets(b[3..])
  }

  function Bytes(v: seq<Sextet>): seq<Byte> {
    if |v| <= 1 then []
    else if |v| == 2 then [High(v[0], v[1])]
    else if |v| == 3 then [High(v[0], v[1]), Middle(v[1], v[2])]
    else [High(v[0], v[1]), Middle(v[1], v[2]), Low(v[2], v[3])] + Bytes(v[4..])
  }

  function High(a: int, b: Sextet): Byte
    requires 0 <= a < 64
  {
    a * 4 + b / 16
  }

  function Middle(b: int, c: Sextet): Byte
    requires 0 <= b < 64
  {
    b % 16 * 16 + c / 4
  }

  function Low(c: int, d: Sextet): Byte
    requires 0 <= c < 64
  {
    c % 4 * 64 + d
  }

  function Chars(v: seq<Sextet>): string {
    seq(|v|, i requires 0 <= i < |v| => ToChar(v[i]))
  }

  function Repeat(c: char, n: nat): string {
    seq(n, _ => c)
  }

  /** Buffer.toString("base64"), padded to a multiple of four. */
  function Base64(b: seq<Byte>): string {
    Chars(Sextets(b)) + Repeat('=', (3 - |b| % 3) % 3)
  }

  /** The characters that carry bits; the decoder skips all others. */
  function Values(s: string): seq<Sextet> {
    if s == [] then []
    else (match FromChar(s[0]) case Some(v) => [v] case None => []) + Values(s[1..])
  }

  /** Buffer.from(s, "base64"). */
  function FromBase64(s: string): seq<Byte> {
    Bytes(Values(s))
  }

  function Strip(s: string, c: char): string {
    if s == [] then [] else (if s[0] == c then [] else [s[0]]) + Strip(s[1..], c)
  }

  function Replace(s: string, from: char, with: char): string {
    seq(|s|, i requires 0 <= i < |s| => if s[i] == from then with else s[i])
  }

  function Encode(b: seq<Byte>): string {
    Replace(Replace(Strip(Base64(b), '='), '+', '-'), '/', '_')
  }

  function Decode(s: string): seq<Byte> {
    var padded := s + Repeat('=', (4 - |s| % 4) % 4);
    FromBase64(Replace(Replace(padded, '-', '+'), '_', '/'))
  }

  lemma GroupBack(a: Byte, b: Byte, c: Byte)
    ensures High(a / 4, a % 4 * 16 + b / 16) == a
    ensures Middle(a % 4 * 16 + b / 16, b % 16 * 4 + c / 64) == b
    ensures Low(b % 16 * 4 + c / 64, c % 64) == c
  {
  }

  lemma BytesOfGroup(w: Sextet, x: Sextet, y: Sextet, z: Sextet, rest: seq<Sextet>)
    ensures Bytes([w, x, y, z] + rest) == [High(w, x), Middle(x, y), Low(y, z)] + Bytes(rest)
  {
    assert ([w, x, y, z] + rest)[4..] == rest;
  }

  lemma {:induction false} BytesOfSextets(b: seq<Byte>)
    ensures Bytes(Sextets(b)) == b
  {
    if |b| == 0 {
    } else if |b| == 1 {
      GroupBack(b[0], 0, 0);
    } else if |b| == 2 {
      GroupBack(b[0], b[1], 0);
    } else {
      var x, y, z, rest := b[0], b[1], b[2], b[3..];
      BytesOfSextets(rest);
      GroupBack(x, y, z);
      BytesOfGroup(x / 4, x % 4 * 16 + y / 16, y % 16 * 4 + z / 64, z % 64, Sextets(rest));
      assert b == [x, y, z] + rest;
    }
  }

  lemma CharRoundTrip(v: Sextet)
    ensures FromChar(ToChar(v)) == Some(v)
  {
  }

  lemma {:induction false} ValuesOfChars(v: seq<Sextet>, pad: nat)
    ensures Values(Chars(v) + Repeat('=', pad)) == v
  {
    var s := Chars(v) + Repeat('=', pad);
    if v != [] {
      ValuesOfChars(v[1..], pad);
      assert s[1..] == Chars(v[1..]) + Repeat('=', pad);
      CharRoundTrip(v[0]);
    } else if pad > 0 {
      ValuesOfChars(v, pad - 1);
      assert s[1..] == Chars(v) + Repeat('=', pad - 1);
    }
  }

  lemma {:induction false} StripPadding(v: seq<Sextet>, pad: nat)
    ensures Strip(Chars(v) + Repeat('=', pad), '=') == Chars(v)
  {
    var s := Chars(v) + Repeat('=', pad);
    if v != [] {
      StripPadding(v[1..], pad);
      assert s[1..] == Chars(v[1..]) + Repeat('=', pad);
      CharRoundTrip(v[0]);
      assert Chars(v) == [ToChar(v[0])] + Chars(v[1..]);
    } else if pad > 0 {
      StripPadding(v, pad - 1);
      assert s[1..] == Chars(v) + Repeat('=', pad - 1);
    }
  }

  lemma BackToPlain(v: seq<Sextet>, pad: nat)
    ensures
      var e := Replace(Replace(Chars(v), '+', '-'), '/', '_');
      Replace(Replace(e + Repeat('=', pad), '-', '+'), '_', '/') == Chars(v) + Repeat('=', pad)
  {
    var e := Replace(Replace(Chars(v), '+', '-'), '/', '_');
    var back := Replace(Replace(e + Repeat('=', pad), '-', '+'), '_', '/');
    forall i | 0 <= i < |v| ensures back[i] == Chars(v)[i] {
      CharRoundTrip(v[i]);
    }
  }

  /** Every byte string comes back, whatever its length and so whatever padding was stripped. */
  lemma RoundTrip(b: seq<Byte>)
    ensures Decode(Encode(b)) == b
  {
    var v := Sextets(b);
    StripPadding(v, (3 - |b| % 3) % 3);
    var pad := (4 - |Encode(b)| % 4) % 4;
    BackToPlain(v, pad);
    ValuesOfChars(v, pad);
    BytesOfSextets(b);
  }

  predicate InAlphabet(c: char) {
    'A' <= c <= 'Z' || 'a' <= c <= 'z' || '0' <= c <= '9' || c == '-' || c == '_'
  }

  lemma {:induction false} SextetCount(b: seq<Byte>)
    ensures |Sextets(b)| == (4 * |b| + 2) / 3
  {
    if |b| >= 3 {
      SextetCount(b[3..]);
    }
  }

  /** The text uses only the URL-safe alphabet, so no "." and no "=", and is as short as its bytes allow. */
  lemma EncodedText(b: seq<Byte>)
    ensures |Encode(b)| == (4 * |b| + 2) / 3
    ensures forall i :: 0 <= i < |Encode(b)| ==> InAlphabet(Encode(b)[i])
    ensures '.' !in Encode(b) && '=' !in Encode(b)
  {
    StripPadding(Sextets(b), (3 - |b| % 3) % 3);
    SextetCount(b);
  }

  /** A sextet's place in the alphabet of section 5 of RFC 4648. */
  function UrlChar(v: Sextet): char {
    if ToChar(v) == '+' then '-' else if ToChar(v) == '/' then '_' else ToChar(v)
  }

  /** That alphabet, in order: capitals, small letters, digits, hyphen, underscore. */
  lemma AlphabetInOrder(v: Sextet)
    ensures UrlChar(0) == 'A' && UrlChar(26) == 'a' && UrlChar(52) == '0' && UrlChar(62) == '-' && UrlChar(63) == '_'
    ensures v != 0 && v != 26 && v != 52 && v < 62 ==> UrlChar(v) as int == UrlChar(v - 1) as int + 1
  {
  }

  /** A text is its sextets, each written by its place in the alphabet. */
  lemma EncodeIsChars(b: seq<Byte>)
    ensures Encode(b) == seq(|Sextets(b)|, i requires 0 <= i < |Sextets(b)| => UrlChar(Sextets(b)[i]))
  {
    StripPadding(Sextets(b), (3 - |b| % 3) % 3);
  }

  /**
   * The bits of a group in order, high ones first, as section 4 of RFC 4648 has them: the six highest of
   * the first byte give the first character, and so on; missing bits are zero, missing characters left out.
   */
  lemma GroupTexts(a: Byte, b: Byte, c: Byte)
    ensures Encode([]) == []
    ensures Encode([a]) == [UrlChar(a / 4), UrlChar(a % 4 * 16)]
    ensures Encode([a, b]) == [UrlChar(a / 4), UrlChar(a % 4 * 16 + b / 16), UrlChar(b % 16 * 4)]
    ensures Encode([a, b, c]) == [UrlChar(a / 4), UrlChar(a % 4 * 16 + b / 16), UrlChar(b % 16 * 4 + c / 64), UrlChar(c % 64)]
  {
    EncodeIsChars([]);
    EncodeIsChars([a]);
    EncodeIsChars([a, b]);
    assert [a, b, c][3..] == [];
    EncodeIsChars([a, b, c]);
  }

  /** Longer ones are put together group by group. */
  lemma EncodeByGroups(b: seq<Byte>)
    requires |b| > 3
    ensures Encode(b) == Encode(b[..3]) + Encode(b[3..])
  {
    assert b[..3][3..] == [];
    assert Sextets(b) == Sextets(b[..3]) + Sextets(b[3..]);
    EncodeIsChars(b);
    EncodeIsChars(b[..3]);
    EncodeIsChars(b[3..]);
  }
}
