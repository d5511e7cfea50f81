/**
 * The JavaScript string built-ins the repository relies on, over Dafny strings.
 * A Dafny `char` is one Unicode scalar value; where JavaScript counts UTF-16
 * code units instead, the functions below say so.
 */
module JsString {
  import opened Wrappers

  // ----- String.prototype.trim -----

  /** The WhiteSpace and LineTerminator code points of ECMAScript: what `trim` removes. */
  predicate IsWhitespace(c: char) {
    || c == '\t' || c == '\n' || c == '\U{000B}' || c == '\U{000C}' || c == '\r' || c == ' '
    || c == '\U{00A0}' || c == '\U{1680}' || ('\U{2000}' <= c <= '\U{200A}')
    || c == '\U{2028}' || c == '\U{2029}' || c == '\U{202F}' || c == '\U{205F}'
    || c == '\U{3000}' || c == '\U{FEFF}'
  }

  predicate IsTrimmed(s: string) {
    s == [] || (!IsWhitespace(s[0]) && !IsWhitespace(s[|s| - 1]))
  }

  /** The longest suffix of `s` that does not start with whitespace. */
  function TrimStart(s: string): (r: string)
    ensures |r| <= |s|
    ensures r == [] || !IsWhitespace(r[0])
  {
    if s != [] && IsWhitespace(s[0]) then TrimStart(s[1..]) else s
  }

  /** `TrimStart` drops a run of whitespace from the front and keeps the rest as it is. */
  lemma {:induction false} TrimStartShape(s: string)
    ensures TrimStart(s) == s[|s| - |TrimStart(s)|..]
    ensures forall k :: 0 <= k < |s| - |TrimStart(s)| ==> IsWhitespace(s[k])
    decreases |s|
  {
    if s != [] && IsWhitespace(s[0]) {
      TrimStartShape(s[1..]);
      assert forall k :: 1 <= k < |s| ==> s[1..][k - 1] == s[k];
    }
  }

  /** The longest prefix of `s` that does not end with whitespace. */
  function TrimEnd(s: string): (r: string)
    ensures |r| <= |s|
    ensures r == [] || !IsWhitespace(r[|r| - 1])
  {
    if s != [] && IsWhitespace(s[|s| - 1]) then TrimEnd(s[..|s| - 1]) else s
  }

  /** `TrimEnd` drops a run of whitespace from the back and keeps the rest as it is. */
  lemma {:induction false} TrimEndShape(s: string)
    ensures TrimEnd(s) == s[..|TrimEnd(s)|]
    ensures forall k :: |TrimEnd(s)| <= k < |s| ==> IsWhitespace(s[k])
    decreases |s|
  {
    if s != [] && IsWhitespace(s[|s| - 1]) {
      TrimEndShape(s[..|s| - 1]);
      assert forall k :: 0 <= k < |s| - 1 ==> s[..|s| - 1][k] == s[k];
    }
  }

  /** `s.trim()`: whitespace removed from both ends. */
  function Trim(s: string): (r: string)
    ensures IsTrimmed(r) && |r| <= |s|
  {
    var t := TrimStart(s);
    var r := TrimEnd(t);
    TrimEndShape(t);
    assert r != [] ==> r[0] == t[0];
    r
  }

  /** What trim keeps is a segment of `s` with nothing but whitespace around it. */
  lemma TrimSegment(s: string)
    ensures TrimmedAt(s, Trim(s), |s| - |TrimStart(s)|)
  {
    var t := TrimStart(s);
    var r := TrimEnd(t);
    TrimStartShape(s);
    TrimEndShape(t);
    assert Trim(s) == r;
    var i := |s| - |t|;
    assert 0 <= i <= |s| && t == s[i..] && |r| <= |t| && r == t[..|r|];
    SuffixWhitespace(s, t, r, i);
    assert TrimmedAt(s, r, i);
  }

  lemma SuffixWhitespace(s: string, t: string, r: string, i: int)
    requires 0 <= i <= |s| && t == s[i..] && |r| <= |t| && r == t[..|r|]
    requires forall k :: |r| <= k < |t| ==> IsWhitespace(t[k])
    ensures r == s[i..i + |r|]
    ensures forall k :: i + |r| <= k < |s| ==> IsWhitespace(s[k])
  {
    forall k | i + |r| <= k < |s| ensures IsWhitespace(s[k]) {
      assert s[k] == t[k - i];
    }
  }

  /** `r` sits in `s` at offset `i`, and every character of `s` outside it is whitespace. */
  ghost predicate TrimmedAt(s: string, r: string, i: int) {
    && 0 <= i && i + |r| <= |s| && r == s[i..i + |r|]
    && (forall k :: 0 <= k < i ==> IsWhitespace(s[k]))
    && (forall k :: i + |r| <= k < |s| ==> IsWhitespace(s[k]))
  }

  lemma TrimOfTrimmed(s: string)
    requires IsTrimmed(s)
    ensures Trim(s) == s
  {
  }

  lemma TrimIdempotent(s: string)
    ensures Trim(Trim(s)) == Trim(s)
  {
    TrimOfTrimmed(Trim(s));
  }

  // ----- String.prototype.toLowerCase (ASCII letters) -----

  function LowerChar(c: char): char {
    if 'A' <= c <= 'Z' then (c as int + 32) as char else c
  }

  predicate HasNoUpper(s: string) {
    forall i :: 0 <= i < |s| ==> !('A' <= s[i] <= 'Z')
  }

  /**
   * `s.toLowerCase()` on the ASCII letters: 'A'..'Z' become 'a'..'z' and every
   * other character stays. No upper-case ASCII letter is left.
   */
  function ToLower(s: string): (r: string)
    ensures |r| == |s| && HasNoUpper(r)
    ensures forall i :: 0 <= i < |s| && 'A' <= s[i] <= 'Z' ==> r[i] as int == s[i] as int + 32
    ensures forall i :: 0 <= i < |s| && !('A' <= s[i] <= 'Z') ==> r[i] == s[i]
  {
    seq(|s|, i requires 0 <= i < |s| => LowerChar(s[i]))
  }

  lemma ToLowerIdempotent(s: string)
    ensures ToLower(ToLower(s)) == ToLower(s)
  {
  }

  /** Lower-casing works character by character, so it distributes over concatenation. */
  lemma ToLowerAppend(a: string, b: string)
    ensures ToLower(a + b) == ToLower(a) + ToLower(b)
  {
    assert forall i :: 0 <= i < |a| ==> (a + b)[i] == a[i];
    assert forall i :: |a| <= i < |a + b| ==> (a + b)[i] == b[i - |a|];
  }

  /** Text without upper-case letters is its own lower case. */
  lemma ToLowerOfLower(s: string)
    requires HasNoUpper(s)
    ensures ToLower(s) == s
  {
  }

  lemma LowerKeepsWhitespace(c: char)
    ensures IsWhitespace(LowerChar(c)) == IsWhitespace(c)
  {
  }

  lemma {:induction false} TrimStartLower(s: string)
    ensures TrimStart(ToLower(s)) == ToLower(TrimStart(s))
    decreases |s|
  {
    if s != [] {
      var t := ToLower(s);
      assert t[0] == LowerChar(s[0]);
      LowerKeepsWhitespace(s[0]);
      if IsWhitespace(s[0]) {
        assert t[1..] == ToLower(s[1..]);
        TrimStartLower(s[1..]);
      }
    }
  }

  lemma {:induction false} TrimEndLower(s: string)
    ensures TrimEnd(ToLower(s)) == ToLower(TrimEnd(s))
    decreases |s|
  {
    if s != [] {
      var t := ToLower(s);
      assert t[|s| - 1] == LowerChar(s[|s| - 1]);
      LowerKeepsWhitespace(s[|s| - 1]);
      if IsWhitespace(s[|s| - 1]) {
        assert t[..|s| - 1] == ToLower(s[..|s| - 1]);
        TrimEndLower(s[..|s| - 1]);
      }
    }
  }

  /** Lower-casing and trimming commute, so the order in which a schema applies them is immaterial. */
  lemma TrimLowerCommute(s: string)
    ensures Trim(ToLower(s)) == ToLower(Trim(s))
  {
    TrimStartLower(s);
    TrimEndLower(TrimStart(s));
  }

  // ----- String.prototype.split with a one-character separator -----

  /**
   * `s.split(sep)`: the maximal separator-free pieces, empty pieces included,
   * one more piece than `sep` occurs in `s`.
   */
  function Split(s: string, sep: char): (parts: seq<string>)
    ensures |parts| >= 1 && NoneContains(parts, sep)
    decreases |s|
  {
    if s == [] then [[]]
    else
      var rest := Split(s[1..], sep);
      if s[0] == sep then
        assert forall i :: 1 <= i < |rest| + 1 ==> ([[]] + rest)[i] == rest[i - 1];
        [[]] + rest
      else
        var parts := [[s[0]] + rest[0]] + rest[1..];
        assert forall i :: 1 <= i < |parts| ==> parts[i] == rest[i];
        parts
  }

  /** `s.split(sep)` has one more piece than `sep` occurs in `s`. */
  lemma {:induction false} SplitCount(s: string, sep: char)
    ensures |Split(s, sep)| == multiset(s)[sep] + 1
    decreases |s|
  {
    if s != [] {
      SplitCount(s[1..], sep);
      assert s == [s[0]] + s[1..];
      assert multiset(s) == multiset{s[0]} + multiset(s[1..]);
    }
  }

  /** `parts.join(sep)`. */
  function Join(parts: seq<string>, sep: char): string
    decreases |parts|
  {
    if |parts| == 0 then []
    else if |parts| == 1 then parts[0]
    else parts[0] + [sep] + Join(parts[1..], sep)
  }

  predicate NoneContains(parts: seq<string>, sep: char) {
    forall i :: 0 <= i < |parts| ==> sep !in parts[i]
  }

  lemma {:induction false} JoinSplit(s: string, sep: char)
    ensures Join(Split(s, sep), sep) == s
    decreases |s|
  {
    if s != [] {
      JoinSplit(s[1..], sep);
      var rest := Split(s[1..], sep);
      assert s == [s[0]] + s[1..];
      if s[0] == sep {
        assert Split(s, sep) == [[]] + rest;
        JoinEmptyFirst(rest, sep);
      } else {
        assert Split(s, sep) == [[s[0]] + rest[0]] + rest[1..];
        JoinWidenFirst(s[0], rest, sep);
      }
    }
  }

  /** An empty first piece contributes just the separator that follows it. */
  lemma JoinEmptyFirst(rest: seq<string>, sep: char)
    requires |rest| >= 1
    ensures Join([[]] + rest, sep) == [sep] + Join(rest, sep)
  {
    assert ([[]] + rest)[1..] == rest;
  }

  /** Prefixing a character to the first piece prefixes it to the joined string. */
  lemma JoinWidenFirst(c: char, rest: seq<string>, sep: char)
    requires |rest| >= 1
    ensures Join([[c] + rest[0]] + rest[1..], sep) == [c] + Join(rest, sep)
  {
    var parts := [[c] + rest[0]] + rest[1..];
    if |rest| > 1 {
      assert parts[1..] == rest[1..];
    }
  }

  lemma {:induction false} SplitFree(p: string, sep: char)
    requires sep !in p
    ensures Split(p, sep) == [p]
    decreases |p|
  {
    if p != [] {
      SplitFree(p[1..], sep);
      assert [p[0]] + p[1..] == p;
    }
  }

  lemma {:induction false} SplitCons(p: string, t: string, sep: char)
    requires sep !in p
    ensures Split(p + [sep] + t, sep) == [p] + Split(t, sep)
    decreases |p|
  {
    var s := p + [sep] + t;
    if p == [] {
      assert s[1..] == t;
    } else {
      assert s[1..] == p[1..] + [sep] + t;
      SplitCons(p[1..], t, sep);
      assert [p[0]] + p[1..] == p;
    }
  }

  lemma {:induction false} SplitJoin(parts: seq<string>, sep: char)
    requires |parts| >= 1 && NoneContains(parts, sep)
    ensures Split(Join(parts, sep), sep) == parts
    decreases |parts|
  {
    if |parts| == 1 {
      SplitFree(parts[0], sep);
    } else {
      assert sep !in parts[0];
      SplitJoin(parts[1..], sep);
      SplitCons(parts[0], Join(parts[1..], sep), sep);
      assert [parts[0]] + parts[1..] == parts;
    }
  }

  // ----- String.prototype.indexOf and replace with a string pattern -----

  predicate OccursAt(s: string, pat: string, i: int) {
    0 <= i && i + |pat| <= |s| && s[i..i + |pat|] == pat
  }

  /** `s.indexOf(pat)`, with -1 as None: the first offset at which `pat` occurs. */
  function IndexOf(s: string, pat: string): (r: Option<nat>)
    ensures r.Some? ==> OccursAt(s, pat, r.value)
    ensures forall i :: (r.None? || i < r.value) ==> !OccursAt(s, pat, i)
    decreases |s|
  {
    if |s| < |pat| then None
    else if s[..|pat|] == pat then Some(0)
    else
      match IndexOf(s[1..], pat)
      case None =>
        assert forall i :: 0 < i ==> OccursAt(s, pat, i) == OccursAt(s[1..], pat, i - 1);
        None
      case Some(j) =>
        assert forall i :: 0 < i ==> OccursAt(s, pat, i) == OccursAt(s[1..], pat, i - 1);
        Some(j + 1)
  }

  /** `s.replace(pat, rep)` with a string pattern: only the first occurrence is replaced. */
  function ReplaceFirst(s: string, pat: string, rep: string): (r: string)
    ensures (forall i :: !OccursAt(s, pat, i)) ==> r == s
    ensures forall i ::
      (OccursAt(s, pat, i) && (forall j :: 0 <= j < i ==> !OccursAt(s, pat, j))) ==> r == s[..i] + rep + s[i + |pat|..]
  {
    match IndexOf(s, pat)
    case None => s
    case Some(i) => s[..i] + rep + s[i + |pat|..]
  }

  // ----- length in UTF-16 code units -----

  /** JavaScript's `length`: one code unit per character, two above U+FFFF. */
  function Utf16Length(s: string): (n: nat)
    ensures |s| <= n <= 2 * |s|
    ensures (forall i :: 0 <= i < |s| ==> s[i] as int < 0x10000) ==> n == |s|
  {
    if s == [] then 0 else (if s[0] as int >= 0x10000 then 2 else 1) + Utf16Length(s[1..])
  }

  // ----- encodeURIComponent -----

  /** The characters encodeURIComponent leaves as they are. */
  predicate IsUriUnreserved(c: char) {
    ('A' <= c <= 'Z') || ('a' <= c <= 'z') || ('0' <= c <= '9') || c in "-_.!~*'()"
  }

  predicate IsUpperHex(c: char) {
    ('0' <= c <= '9') || ('A' <= c <= 'F')
  }

  type Byte = b: int | 0 <= b < 256

  /** The UTF-8 encoding of one scalar value. */
  function Utf8(c: char): (bytes: seq<Byte>)
    ensures 1 <= |bytes| <= 4
  {
    var cp := c as int;
    if cp < 0x80 then [cp]
    else if cp < 0x800 then [0xC0 + cp / 64, 0x80 + cp % 64]
    else if cp < 0x10000 then [0xE0 + cp / 4096, 0x80 + cp / 64 % 64, 0x80 + cp % 64]
    else [0xF0 + cp / 262144, 0x80 + cp / 4096 % 64, 0x80 + cp / 64 % 64, 0x80 + cp % 64]
  }

  function Utf8Encode(s: string): seq<Byte> {
    if s == [] then [] else Utf8(s[0]) + Utf8Encode(s[1..])
  }

  function HexDigit(n: int): (c: char)
    requires 0 <= n < 16
    ensures IsUpperHex(c)
  {
    if n < 10 then ('0' as int + n) as char else ('A' as int + n - 10) as char
  }

  /** `%XX` for every byte, with upper-case hex digits. */
  function PercentEncode(bytes: seq<Byte>): string {
    if bytes == [] then []
    else ['%', HexDigit(bytes[0] / 16), HexDigit(bytes[0] % 16)] + PercentEncode(bytes[1..])
  }

  /** Percent-encoding yields only '%' and upper-case hex digits. */
  lemma {:induction false} PercentEncodeShape(bytes: seq<Byte>)
    ensures forall i :: 0 <= i < |PercentEncode(bytes)| ==> PercentEncode(bytes)[i] == '%' || IsUpperHex(PercentEncode(bytes)[i])
    decreases |bytes|
  {
    if bytes != [] {
      PercentEncodeShape(bytes[1..]);
    }
  }

  function EncodeChar(c: char): string {
    if IsUriUnreserved(c) then [c] else PercentEncode(Utf8(c))
  }

  /** encodeURIComponent: reserved characters (':' '@' '/' '?' among them) never survive. */
  function EncodeUriComponent(s: string): (r: string)
    ensures forall i :: 0 <= i < |r| ==> IsUriUnreserved(r[i]) || r[i] == '%' || IsUpperHex(r[i])
  {
    if s == [] then []
    else
      PercentEncodeShape(Utf8(s[0]));
      EncodeChar(s[0]) + EncodeUriComponent(s[1..])
  }

  lemma EncodedHasNoDelimiter(s: string, d: char)
    requires d in ":@/?#[]"
    ensures d !in EncodeUriComponent(s)
  {
  }

  lemma {:induction false} EncodeUnreservedIsIdentity(s: string)
    requires forall i :: 0 <= i < |s| ==> IsUriUnreserved(s[i])
    ensures EncodeUriComponent(s) == s
    decreases |s|
  {
    if s != [] {
      EncodeUnreservedIsIdentity(s[1..]);
      assert [s[0]] + s[1..] == s;
    }
  }

  // ----- the inverse: percent-decoding followed by UTF-8 decoding -----

  function HexValue(c: char): Option<nat> {
    if '0' <= c <= '9' then Some(c as int - '0' as int)
    else if 'A' <= c <= 'F' then Some(c as int - 'A' as int + 10)
    else if 'a' <= c <= 'f' then Some(c as int - 'a' as int + 10)
    else None
  }

  function Cons<T>(x: T, o: Option<seq<T>>): Option<seq<T>> {
    match o
    case None => None
    case Some(xs) => Some([x] + xs)
  }

  /** `%XX` becomes the byte XX; an unreserved character becomes its own (ASCII) byte. */
  function PercentDecode(s: string): Option<seq<Byte>>
    decreases |s|
  {
    if s == [] then Some([])
    else if s[0] == '%' then
      if |s| >= 3 && HexValue(s[1]).Some? && HexValue(s[2]).Some?
         && HexValue(s[1]).value < 16 && HexValue(s[2]).value < 16
      then Cons(HexValue(s[1]).value * 16 + HexValue(s[2]).value, PercentDecode(s[3..]))
      else None
    else if IsUriUnreserved(s[0]) then Cons(s[0] as int, PercentDecode(s[1..]))
    else None
  }

  predicate IsContinuation(b: Byte) {
    0x80 <= b < 0xC0
  }

  predicate IsScalar(cp: int) {
    (0 <= cp < 0xD800) || (0xE000 <= cp < 0x110000)
  }

  function Utf8Decode(bytes: seq<Byte>): Option<string>
    decreases |bytes|
  {
    if bytes == [] then Some([])
    else
      var b0: int := bytes[0];
      if b0 < 0x80 then Cons(b0 as char, Utf8Decode(bytes[1..]))
      else if 0xC0 <= b0 < 0xE0 && |bytes| >= 2 && IsContinuation(bytes[1]) then
        var cp := (b0 - 0xC0) * 64 + (bytes[1] as int - 0x80);
        if IsScalar(cp) then Cons(cp as char, Utf8Decode(bytes[2..])) else None
      else if 0xE0 <= b0 < 0xF0 && |bytes| >= 3 && IsContinuation(bytes[1]) && IsContinuation(bytes[2]) then
        var cp := (b0 - 0xE0) * 4096 + (bytes[1] as int - 0x80) * 64 + (bytes[2] as int - 0x80);
        if IsScalar(cp) then Cons(cp as char, Utf8Decode(bytes[3..])) else None
      else if 0xF0 <= b0 < 0xF8 && |bytes| >= 4 && IsContinuation(bytes[1]) && IsContinuation(bytes[2])
              && IsContinuation(bytes[3]) then
        var cp := (b0 - 0xF0) * 262144 + (bytes[1] as int - 0x80) * 4096 + (bytes[2] as int - 0x80) * 64 + (bytes[3] as int - 0x80);
        if IsScalar(cp) then Cons(cp as char, Utf8Decode(bytes[4..])) else None
      else None
  }

  /**
   * Percent-decoding then UTF-8 decoding, as `decodeURIComponent` does, but
   * stricter: a literal reserved character (':' '/' '@' and the like) is refused
   * here, where JavaScript passes it through. It accepts exactly the alphabet
   * `EncodeUriComponent` produces, which is all that reading credentials back needs.
   */
  function DecodeUriComponent(s: string): Option<string> {
    match PercentDecode(s)
    case None => None
    case Some(bytes) => Utf8Decode(bytes)
  }

  lemma Utf8TwoBytes(c: char, rest: seq<Byte>)
    requires 0x80 <= c as int < 0x800
    ensures Utf8Decode(Utf8(c) + rest) == Cons(c, Utf8Decode(rest))
  {
    var cp := c as int;
    var b := Utf8(c) + rest;
    assert b[0] == 0xC0 + cp / 64 && b[1] == 0x80 + cp % 64;
    assert b[2..] == rest;
    assert (b[0] as int - 0xC0) * 64 + (b[1] as int - 0x80) == cp;
  }

  lemma Utf8ThreeBytes(c: char, rest: seq<Byte>)
    requires 0x800 <= c as int < 0x10000
    ensures Utf8Decode(Utf8(c) + rest) == Cons(c, Utf8Decode(rest))
  {
    var cp := c as int;
    var b := Utf8(c) + rest;
    assert b[0] == 0xE0 + cp / 4096 && b[1] == 0x80 + cp / 64 % 64 && b[2] == 0x80 + cp % 64;
    assert b[3..] == rest;
    assert cp / 4096 * 4096 + cp / 64 % 64 * 64 + cp % 64 == cp;
    assert (b[0] as int - 0xE0) * 4096 + (b[1] as int - 0x80) * 64 + (b[2] as int - 0x80) == cp;
  }

  lemma Utf8FourBytes(c: char, rest: seq<Byte>)
    requires 0x10000 <= c as int
    ensures Utf8Decode(Utf8(c) + rest) == Cons(c, Utf8Decode(rest))
  {
    var cp := c as int;
    var b := Utf8(c) + rest;
    FourDigits(cp);
    assert b[0] == 0xF0 + cp / 262144 && b[1] == 0x80 + cp / 4096 % 64;
    assert b[2] == 0x80 + cp / 64 % 64 && b[3] == 0x80 + cp % 64;
    assert b[4..] == rest;
    assert (b[0] as int - 0xF0) * 262144 + (b[1] as int - 0x80) * 4096 + (b[2] as int - 0x80) * 64
           + (b[3] as int - 0x80) == cp;
  }

  /** The base-64 digits of a code point above the Basic Multilingual Plane. */
  lemma FourDigits(cp: int)
    requires 0x10000 <= cp < 0x110000
    ensures 0 <= cp / 262144 < 8
    ensures cp / 262144 * 262144 + cp / 4096 % 64 * 4096 + cp / 64 % 64 * 64 + cp % 64 == cp
  {
    var q1, r0 := cp / 64, cp % 64;
    var q2, r1 := q1 / 64, q1 % 64;
    var q3, r2 := q2 / 64, q2 % 64;
    assert cp == q1 * 64 + r0;
    assert q1 == q2 * 64 + r1;
    assert q2 == q3 * 64 + r2;
    assert cp == q3 * 262144 + r2 * 4096 + r1 * 64 + r0;
    assert cp / 4096 == q2;
    assert cp / 262144 == q3;
  }

  lemma Utf8CharRoundTrip(c: char, rest: seq<Byte>)
    ensures Utf8Decode(Utf8(c) + rest) == Cons(c, Utf8Decode(rest))
  {
    var cp := c as int;
    if cp < 0x80 {
      assert (Utf8(c) + rest)[1..] == rest;
    } else if cp < 0x800 {
      Utf8TwoBytes(c, rest);
    } else if cp < 0x10000 {
      Utf8ThreeBytes(c, rest);
    } else {
      Utf8FourBytes(c, rest);
    }
  }

  lemma {:induction false} Utf8RoundTrip(s: string)
    ensures Utf8Decode(Utf8Encode(s)) == Some(s)
    decreases |s|
  {
    if s != [] {
      Utf8RoundTrip(s[1..]);
      Utf8CharRoundTrip(s[0], Utf8Encode(s[1..]));
      assert [s[0]] + s[1..] == s;
    }
  }

  lemma HexRoundTrip(n: int)
    requires 0 <= n < 16
    ensures HexValue(HexDigit(n)) == Some(n)
  {
  }

  /** One `%XX` triple decodes to its byte. */
  lemma PercentTriple(b: Byte, t: string)
    ensures PercentDecode(['%', HexDigit(b / 16), HexDigit(b % 16)] + t) == Cons(b, PercentDecode(t))
  {
    var s := ['%', HexDigit(b / 16), HexDigit(b % 16)] + t;
    assert s[3..] == t;
    HexRoundTrip(b / 16);
    HexRoundTrip(b % 16);
    assert b / 16 * 16 + b % 16 == b;
  }

  lemma {:induction false} PercentRoundTrip(bytes: seq<Byte>, rest: string)
    ensures PercentDecode(PercentEncode(bytes) + rest) == match PercentDecode(rest)
      case None => None
      case Some(tail) => Some(bytes + tail)
    decreases |bytes|
  {
    if bytes != [] {
      var b, t := bytes[0], PercentEncode(bytes[1..]) + rest;
      PercentRoundTrip(bytes[1..], rest);
      assert PercentEncode(bytes) + rest == ['%', HexDigit(b / 16), HexDigit(b % 16)] + t;
      PercentPrepend(b, bytes[1..], t, PercentDecode(rest));
      assert [b] + bytes[1..] == bytes;
    } else {
      assert PercentEncode(bytes) + rest == rest;
      assert forall tail: seq<Byte> :: bytes + tail == tail;
    }
  }

  /** One more `%XX` triple in front of a string that decodes to `bs` followed by `o`'s bytes. */
  lemma PercentPrepend(b: Byte, bs: seq<Byte>, t: string, o: Option<seq<Byte>>)
    requires PercentDecode(t) == match o
      case None => None
      case Some(tail) => Some(bs + tail)
    ensures PercentDecode(['%', HexDigit(b / 16), HexDigit(b % 16)] + t) == match o
      case None => None
      case Some(tail) => Some([b] + bs + tail)
  {
    PercentTriple(b, t);
    if o.Some? {
      assert [b] + (bs + o.value) == [b] + bs + o.value;
    }
  }

  lemma {:induction false} PercentDecodeEncode(s: string)
    ensures PercentDecode(EncodeUriComponent(s)) == Some(Utf8Encode(s))
    decreases |s|
  {
    if s != [] {
      PercentDecodeEncode(s[1..]);
      var tail := EncodeUriComponent(s[1..]);
      var e := EncodeUriComponent(s);
      if IsUriUnreserved(s[0]) {
        assert e[1..] == tail;
        assert Utf8(s[0]) == [s[0] as int];
      } else {
        PercentRoundTrip(Utf8(s[0]), tail);
      }
    }
  }

  /** decodeURIComponent undoes encodeURIComponent on every string. */
  lemma DecodeEncodeRoundTrip(s: string)
    ensures DecodeUriComponent(EncodeUriComponent(s)) == Some(s)
  {
    PercentDecodeEncode(s);
    Utf8RoundTrip(s);
  }
}
