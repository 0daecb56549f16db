/**
 * The pieces of Rust's standard library that the info-log protocol and the
 * shader-source conversion rely on: UTF-8 as `str::from_utf8` accepts it
 * (RFC 3629: no overlong forms, no surrogates, nothing above U+10FFFF),
 * `CString::new`'s NUL test, `CString::from_vec_with_nul` followed by
 * `CStr::to_str`, and `str::trim` (which strips Unicode White_Space).
 * `char` is a Unicode scalar value, as in Rust.
 */
module RustStr {
  import opened Ints
  import opened Wrappers

  const NUL: u8 := 0
  const SPACE: u8 := 0x20

  // ---------------------------------------------------------------- UTF-8

  predicate IsCont(b: u8) {
    0x80 <= b < 0xC0
  }

  /** The second byte allowed after a three-byte lead (excludes overlong forms and surrogates). */
  predicate Second3(b0: u8, b1: u8) {
    if b0 == 0xE0 then 0xA0 <= b1 < 0xC0
    else if b0 == 0xED then 0x80 <= b1 < 0xA0
    else IsCont(b1)
  }

  /** The second byte allowed after a four-byte lead (excludes overlong forms and values above U+10FFFF). */
  predicate Second4(b0: u8, b1: u8) {
    if b0 == 0xF0 then 0x90 <= b1 < 0xC0
    else if b0 == 0xF4 then 0x80 <= b1 < 0x90
    else IsCont(b1)
  }

  /** The bits a byte contributes once its marker `base` is taken off. */
  function Payload(x: u8, base: int): int {
    x as int - base
  }

  /** The scalar value that starts `b` and the number of bytes it occupies, or None when `b` does not start with a well-formed sequence. */
  function DecodeFirst(b: seq<u8>): (r: Option<(char, nat)>)
    ensures r.Some? ==> 1 <= r.value.1 <= |b|
  {
    if |b| == 0 then None
    else if b[0] < 0x80 then Some((b[0] as char, 1))
    else if 0xC2 <= b[0] < 0xE0 then
      if |b| >= 2 && IsCont(b[1])
      then Some(((Payload(b[0], 0xC0) * 0x40 + Payload(b[1], 0x80)) as char, 2))
      else None
    else if 0xE0 <= b[0] < 0xF0 then
      if |b| >= 3 && Second3(b[0], b[1]) && IsCont(b[2])
      then Some(((Payload(b[0], 0xE0) * 0x1000 + Payload(b[1], 0x80) * 0x40 + Payload(b[2], 0x80)) as char, 3))
      else None
    else if 0xF0 <= b[0] < 0xF5 then
      if |b| >= 4 && Second4(b[0], b[1]) && IsCont(b[2]) && IsCont(b[3])
      then Some(((Payload(b[0], 0xF0) * 0x40000 + Payload(b[1], 0x80) * 0x1000 + Payload(b[2], 0x80) * 0x40 + Payload(b[3], 0x80)) as char, 4))
      else None
    else None
  }

  /** `str::from_utf8`: the decoded text, or None when `b` is not valid UTF-8. */
  function Utf8Decode(b: seq<u8>): Option<string>
    decreases |b|
  {
    if |b| == 0 then Some([])
    else match DecodeFirst(b)
      case None => None
      case Some((c, n)) =>
        match Utf8Decode(b[n..])
        case None => None
        case Some(rest) => Some([c] + rest)
  }

  /** The UTF-8 bytes of one scalar value. */
  function EncodeChar(c: char): (r: seq<u8>)
    ensures 1 <= |r| <= 4
    ensures r[0] == 0 <==> c == '\0'
    ensures forall i :: 1 <= i < |r| ==> IsCont(r[i])
  {
    var n := c as int;
    if n < 0x80 then [n]
    else if n < 0x800 then [0xC0 + n / 0x40, 0x80 + n % 0x40]
    else if n < 0x1_0000 then [0xE0 + n / 0x1000, 0x80 + (n / 0x40) % 0x40, 0x80 + n % 0x40]
    else [0xF0 + n / 0x40000, 0x80 + (n / 0x1000) % 0x40, 0x80 + (n / 0x40) % 0x40, 0x80 + n % 0x40]
  }

  /** The UTF-8 bytes of a string (what a Rust `&str` holds). */
  function Utf8Encode(s: string): seq<u8>
  {
    if s == [] then [] else EncodeChar(s[0]) + Utf8Encode(s[1..])
  }

  lemma DecodeFirstEncodeChar(c: char, rest: seq<u8>)
    ensures DecodeFirst(EncodeChar(c) + rest) == Some((c, |EncodeChar(c)|))
  {
    var n := c as int;
    var b := EncodeChar(c) + rest;
    if n < 0x80 {
    } else if n < 0x800 {
      assert n == (n / 0x40) * 0x40 + n % 0x40;
      assert Payload(b[0], 0xC0) * 0x40 + Payload(b[1], 0x80) == n;
    } else if n < 0x1_0000 {
      var q := n / 0x40;
      assert n == q * 0x40 + n % 0x40;
      assert q == (q / 0x40) * 0x40 + q % 0x40;
      assert q / 0x40 == n / 0x1000;
      assert Payload(b[0], 0xE0) * 0x1000 + Payload(b[1], 0x80) * 0x40 + Payload(b[2], 0x80) == n;
    } else {
      var q := n / 0x40;
      var q2 := q / 0x40;
      assert n == q * 0x40 + n % 0x40;
      assert q == q2 * 0x40 + q % 0x40;
      assert q2 == (q2 / 0x40) * 0x40 + q2 % 0x40;
      assert q2 == n / 0x1000;
      assert q2 / 0x40 == n / 0x40000;
      assert Payload(b[0], 0xF0) * 0x40000 + Payload(b[1], 0x80) * 0x1000 + Payload(b[2], 0x80) * 0x40 + Payload(b[3], 0x80) == n;
    }
  }

  /** Decoding inverts encoding: every string's UTF-8 bytes are valid and decode back to it. */
  lemma {:induction false} Utf8RoundTrip(s: string)
    ensures Utf8Decode(Utf8Encode(s)) == Some(s)
  {
    if s != [] {
      var e := EncodeChar(s[0]);
      var tail := Utf8Encode(s[1..]);
      DecodeFirstEncodeChar(s[0], tail);
      assert (e + tail)[|e|..] == tail;
      Utf8RoundTrip(s[1..]);
      assert [s[0]] + s[1..] == s;
    }
  }

  lemma DecodeFirstIsEncoding(b: seq<u8>)
    requires DecodeFirst(b).Some?
    ensures b[..DecodeFirst(b).value.1] == EncodeChar(DecodeFirst(b).value.0)
  {
    if b[0] < 0x80 {
      assert b[..1] == [b[0]];
    } else if b[0] < 0xE0 {
      DecodeTwoIsEncoding(b);
    } else if b[0] < 0xF0 {
      DecodeThreeIsEncoding(b);
    } else {
      DecodeFourIsEncoding(b);
    }
  }

  lemma DecodeTwoIsEncoding(b: seq<u8>)
    requires DecodeFirst(b).Some? && 0x80 <= b[0] < 0xE0
    ensures b[..DecodeFirst(b).value.1] == EncodeChar(DecodeFirst(b).value.0)
  {
    var n := DecodeFirst(b).value.0 as int;
    var q, r := Payload(b[0], 0xC0), Payload(b[1], 0x80);
    assert n == q * 0x40 + r && 0 <= r < 0x40;
    assert n / 0x40 == q && n % 0x40 == r;
    assert b[..2] == [b[0], b[1]];
  }

  lemma DecodeThreeIsEncoding(b: seq<u8>)
    requires DecodeFirst(b).Some? && 0xE0 <= b[0] < 0xF0
    ensures b[..DecodeFirst(b).value.1] == EncodeChar(DecodeFirst(b).value.0)
  {
    var n := DecodeFirst(b).value.0 as int;
    var q, r1, r0 := Payload(b[0], 0xE0), Payload(b[1], 0x80), Payload(b[2], 0x80);
    var m := q * 0x40 + r1;
    assert n == m * 0x40 + r0 && 0 <= r0 < 0x40;
    assert n / 0x40 == m && n % 0x40 == r0;
    assert m / 0x40 == q && m % 0x40 == r1;
    assert n / 0x1000 == q;
    assert b[..3] == [b[0], b[1], b[2]];
  }

  lemma DecodeFourIsEncoding(b: seq<u8>)
    requires DecodeFirst(b).Some? && 0xF0 <= b[0]
    ensures b[..DecodeFirst(b).value.1] == EncodeChar(DecodeFirst(b).value.0)
  {
    var n := DecodeFirst(b).value.0 as int;
    var q, r2, r1, r0 := Payload(b[0], 0xF0), Payload(b[1], 0x80), Payload(b[2], 0x80), Payload(b[3], 0x80);
    var m2 := q * 0x40 + r2;
    var m1 := m2 * 0x40 + r1;
    assert n == m1 * 0x40 + r0 && 0 <= r0 < 0x40;
    assert n / 0x40 == m1 && n % 0x40 == r0;
    assert m1 / 0x40 == m2 && m1 % 0x40 == r1;
    assert m2 / 0x40 == q && m2 % 0x40 == r2;
    assert n / 0x1000 == m2;
    assert n / 0x40000 == q;
    assert b[..4] == [b[0], b[1], b[2], b[3]];
  }

  /** A valid, non-empty byte string starts with the encoding of one scalar value, and its rest decodes to the rest of the text. */
  lemma Utf8DecodeStep(b: seq<u8>)
    requires |b| > 0 && Utf8Decode(b).Some?
    ensures exists c: char, n: nat ::
              && 1 <= n <= |b| && b[..n] == EncodeChar(c)
              && Utf8Decode(b[n..]).Some? && Utf8Decode(b).value == [c] + Utf8Decode(b[n..]).value
  {
    DecodeFirstIsEncoding(b);
    var c, n := DecodeFirst(b).value.0, DecodeFirst(b).value.1;
    assert b[..n] == EncodeChar(c);
  }

  /** Decoding accepts nothing but encodings: a valid byte string is the encoding of what it decodes to. */
  lemma {:induction false} Utf8DecodeIsEncoding(b: seq<u8>)
    requires Utf8Decode(b).Some?
    ensures Utf8Encode(Utf8Decode(b).value) == b
    decreases |b|
  {
    if |b| > 0 {
      Utf8DecodeStep(b);
      var c: char, n: nat :| 1 <= n <= |b| && b[..n] == EncodeChar(c)
        && Utf8Decode(b[n..]).Some? && Utf8Decode(b).value == [c] + Utf8Decode(b[n..]).value;
      Utf8DecodeIsEncoding(b[n..]);
      EncodeCons(c, Utf8Decode(b[n..]).value);
      assert b == b[..n] + b[n..];
    }
  }

  lemma EncodeCons(c: char, rest: string)
    ensures Utf8Encode([c] + rest) == EncodeChar(c) + Utf8Encode(rest)
  {
    assert ([c] + rest)[1..] == rest;
  }

  /** The zero byte occurs in a string's UTF-8 bytes exactly where the string holds U+0000. */
  lemma {:induction false} Utf8EncodeNul(s: string)
    ensures NUL in Utf8Encode(s) <==> '\0' in s
  {
    if s != [] {
      Utf8EncodeNul(s[1..]);
      var e := EncodeChar(s[0]);
      assert NUL in e <==> s[0] == '\0' by {
        if NUL in e {
          var i :| 0 <= i < |e| && e[i] == NUL;
          assert i == 0;
        }
      }
      assert s == [s[0]] + s[1..];
    }
  }

  // ------------------------------------------------------------ C strings

  /**
   * `CString::from_vec_with_nul(v)` followed by `to_str()`: the text when `v`
   * holds exactly one zero byte, as its last byte, and the bytes before it
   * are valid UTF-8; None (both map to one error in the caller) otherwise.
   */
  function CStrToStr(v: seq<u8>): (r: Option<string>)
    ensures r.Some? ==> v == Utf8Encode(r.value) + [NUL] && '\0' !in r.value
  {
    if |v| > 0 && v[|v| - 1] == NUL && NUL !in v[..|v| - 1]
    then
      var d := Utf8Decode(v[..|v| - 1]);
      if d.Some? then
        Utf8DecodeIsEncoding(v[..|v| - 1]);
        Utf8EncodeNul(d.value);
        d
      else None
    else None
  }

  /** `CStrToStr` accepts every NUL-free text encoded with its terminating NUL, and yields that text. */
  lemma CStrToStrAccepts(v: seq<u8>, t: string)
    requires v == Utf8Encode(t) + [NUL] && '\0' !in t
    ensures CStrToStr(v) == Some(t)
  {
    CStrToStrComplete(v);
  }

  lemma CStrToStrComplete(v: seq<u8>)
    ensures forall t {:trigger Utf8Encode(t)} :: v == Utf8Encode(t) + [NUL] && '\0' !in t ==>
      |v| > 0 && v[|v| - 1] == NUL && NUL !in v[..|v| - 1] && Utf8Decode(v[..|v| - 1]) == Some(t)
  {
    forall t | v == Utf8Encode(t) + [NUL] && '\0' !in t
      ensures |v| > 0 && v[|v| - 1] == NUL && NUL !in v[..|v| - 1] && Utf8Decode(v[..|v| - 1]) == Some(t)
    {
      assert v[..|v| - 1] == Utf8Encode(t);
      Utf8EncodeNul(t);
      Utf8RoundTrip(t);
    }
  }

  // ----------------------------------------------------------------- trim

  /** `char::is_whitespace`: the Unicode White_Space property. */
  predicate IsWhitespace(c: char) {
    var n := c as int;
    (0x09 <= n <= 0x0D) || n == 0x20 || n == 0x85 || n == 0xA0 || n == 0x1680
    || (0x2000 <= n <= 0x200A) || n == 0x2028 || n == 0x2029 || n == 0x202F
    || n == 0x205F || n == 0x3000
  }

  predicate AllWhitespace(s: string) {
    forall i :: 0 <= i < |s| ==> IsWhitespace(s[i])
  }

  /** `str::trim_start`: drops the leading whitespace and nothing else. */
  function TrimStart(s: string): (r: string)
    ensures |r| <= |s| && r == s[|s| - |r|..]
    ensures AllWhitespace(s[..|s| - |r|])
    ensures r != [] ==> !IsWhitespace(r[0])
    decreases |s|
  {
    if s != [] && IsWhitespace(s[0]) then
      var r := TrimStart(s[1..]);
      assert s[..|s| - |r|] == [s[0]] + s[1..][..|s| - 1 - |r|];
      r
    else s
  }

  /** `str::trim_end`: drops the trailing whitespace and nothing else. */
  function TrimEnd(s: string): (r: string)
    ensures |r| <= |s| && r == s[..|r|]
    ensures AllWhitespace(s[|r|..])
    ensures r != [] ==> !IsWhitespace(r[|r| - 1])
    decreases |s|
  {
    if s != [] && IsWhitespace(s[|s| - 1]) then
      var r := TrimEnd(s[..|s| - 1]);
      assert s[|r|..] == s[..|s| - 1][|r|..] + [s[|s| - 1]];
      r
    else s
  }

  /** `t` is `s` with only whitespace removed, and only at its two ends. */
  ghost predicate StrippedAtEnds(s: string, t: string) {
    exists i :: 0 <= i <= |s| - |t| && s[i..i + |t|] == t && AllWhitespace(s[..i]) && AllWhitespace(s[i + |t|..])
  }

  lemma TrimParts(s: string, a: string, r: string)
    requires |a| <= |s| && a == s[|s| - |a|..] && AllWhitespace(s[..|s| - |a|])
    requires |r| <= |a| && r == a[..|r|] && AllWhitespace(a[|r|..])
    ensures StrippedAtEnds(s, r)
  {
    var i := |s| - |a|;
    assert s[i..i + |r|] == r;
    assert s[i + |r|..] == a[|r|..];
  }

  /** `str::trim`: both ends stripped of whitespace, the inside untouched. */
  function Trim(s: string): (r: string)
    ensures StrippedAtEnds(s, r)
    ensures r != [] ==> !IsWhitespace(r[0]) && !IsWhitespace(r[|r| - 1])
  {
    var a := TrimStart(s);
    var r := TrimEnd(a);
    TrimParts(s, a, r);
    r
  }
}
