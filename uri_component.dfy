/** `encodeURIComponent`: every character outside the "unreserved" set of section 2.3 of
    RFC 2396 becomes the %HH escapes (upper-case hex) of its UTF-8 bytes, as in section 2.1 of
    RFC 3986. Characters are Unicode scalar values, so the lone-surrogate error of the original
    cannot arise. `DecodeURIComponent` is the inverse the encoding is proved against. */
module UriComponent {
  import opened Wrappers

  type Byte = b: int | 0 <= b < 256

  /** The unreserved characters of section 2.3 of RFC 2396: letters, digits and `-_.!~*'()`. */
  predicate Unreserved(c: char)
  {
    || 'A' <= c <= 'Z' || 'a' <= c <= 'z' || '0' <= c <= '9'
    || c in "-_.!~*'()"
  }

  predicate IsUpperHex(c: char)
  {
    '0' <= c <= '9' || 'A' <= c <= 'F'
  }

  /** The upper-case hex digit of a value below 16: `0`-`9`, then `A`-`F`. */
  function HexDigit(d: int): (c: char)
    requires 0 <= d < 16
    ensures IsUpperHex(c)
  {
    if d < 10 then ('0' as int + d) as char else ('A' as int + d - 10) as char
  }

  /** The value of a hex digit of either case. */
  function HexValue(c: char): Option<int>
  {
    if '0' <= c <= '9' then Some(c as int - '0' as int)
    else if 'A' <= c <= 'F' then Some(c as int - 'A' as int + 10)
    else if 'a' <= c <= 'f' then Some(c as int - 'a' as int + 10)
    else None
  }

  lemma HexRoundTrip(d: int)
    requires 0 <= d < 16
    ensures HexValue(HexDigit(d)) == Some(d)
  {
  }

  /** The UTF-8 encoding of one scalar value (section 3 of RFC 3629). */
  function Utf8(c: char): (r: seq<Byte>)
    ensures 1 <= |r| <= 4
    ensures (c as int < 0x80) == (|r| == 1)
  {
    var cp := c as int;
    if cp < 0x80 then [cp]
    else if cp < 0x800 then [0xC0 + cp / 64, 0x80 + cp % 64]
    else if cp < 0x10000 then [0xE0 + cp / 4096, 0x80 + (cp / 64) % 64, 0x80 + cp % 64]
    else [0xF0 + cp / 262144, 0x80 + (cp / 4096) % 64, 0x80 + (cp / 64) % 64, 0x80 + cp % 64]
  }

  function Utf8String(s: string): (r: seq<Byte>)
  {
    if s == [] then [] else Utf8(s[0]) + Utf8String(s[1..])
  }

  predicate Continuation(b: Byte)
  {
    0x80 <= b < 0xC0
  }

  /** Decodes the first scalar value of `bs`, with the number of bytes it takes; overlong forms,
      surrogates and values past U+10FFFF are rejected. */
  function Utf8First(bs: seq<Byte>): (r: Option<(char, nat)>)
    ensures r.Some? ==> 1 <= r.value.1 <= |bs|
  {
    if |bs| == 0 then None
    else if bs[0] < 0x80 then Some((bs[0] as char, 1))
    else if 0xC2 <= bs[0] < 0xE0 then
      if |bs| < 2 || !Continuation(bs[1]) then None
      else Some((((bs[0] as int - 0xC0) * 64 + (bs[1] as int - 0x80)) as char, 2))
    else if 0xE0 <= bs[0] < 0xF0 then
      if |bs| < 3 || !Continuation(bs[1]) || !Continuation(bs[2]) then None
      else
        var cp := (bs[0] as int - 0xE0) * 4096 + (bs[1] as int - 0x80) * 64 + (bs[2] as int - 0x80);
        if cp < 0x800 || 0xD800 <= cp < 0xE000 then None else Some((cp as char, 3))
    else if 0xF0 <= bs[0] < 0xF5 then
      if |bs| < 4 || !Continuation(bs[1]) || !Continuation(bs[2]) || !Continuation(bs[3]) then None
      else
        var cp := (bs[0] as int - 0xF0) * 262144 + (bs[1] as int - 0x80) * 4096 + (bs[2] as int - 0x80) * 64 + (bs[3] as int - 0x80);
        if cp < 0x10000 || cp >= 0x110000 then None else Some((cp as char, 4))
    else None
  }

  function Utf8Decode(bs: seq<Byte>): (r: Option<string>)
    decreases |bs|
  {
    if bs == [] then Some([])
    else match Utf8First(bs)
      case None => None
      case Some((c, n)) =>
        match Utf8Decode(bs[n..])
        case None => None
        case Some(rest) => Some([c] + rest)
  }

  lemma Utf8FirstOfTwo(c: char, rest: seq<Byte>)
    requires 0x80 <= c as int < 0x800
    ensures Utf8First(Utf8(c) + rest) == Some((c, 2))
  {
    var cp := c as int;
    var hi, lo := cp / 64, cp % 64;
    assert cp == hi * 64 + lo;
    assert 2 <= hi < 32;
    var bs := Utf8(c) + rest;
    assert bs[0] == 0xC0 + hi && bs[1] == 0x80 + lo;
  }

  lemma Utf8FirstOfThree(c: char, rest: seq<Byte>)
    requires 0x800 <= c as int < 0x10000
    ensures Utf8First(Utf8(c) + rest) == Some((c, 3))
  {
    var cp := c as int;
    var hi, mid, lo := cp / 4096, (cp / 64) % 64, cp % 64;
    assert cp / 64 == hi * 64 + mid;
    assert cp == hi * 4096 + mid * 64 + lo;
    var bs := Utf8(c) + rest;
    assert bs[0] == 0xE0 + hi && bs[1] == 0x80 + mid && bs[2] == 0x80 + lo;
  }

  lemma Utf8FirstOfFour(c: char, rest: seq<Byte>)
    requires 0x10000 <= c as int
    ensures Utf8First(Utf8(c) + rest) == Some((c, 4))
  {
    var cp := c as int;
    var top, hi, mid, lo := cp / 262144, (cp / 4096) % 64, (cp / 64) % 64, cp % 64;
    assert cp / 4096 == top * 64 + hi;
    assert cp / 64 == (cp / 4096) * 64 + mid;
    assert cp == top * 262144 + hi * 4096 + mid * 64 + lo;
    assert top <= 4;
    var bs := Utf8(c) + rest;
    assert bs[0] == 0xF0 + top && bs[1] == 0x80 + hi && bs[2] == 0x80 + mid && bs[3] == 0x80 + lo;
  }

  lemma Utf8FirstOfEncoding(c: char, rest: seq<Byte>)
    ensures Utf8First(Utf8(c) + rest) == Some((c, |Utf8(c)|))
  {
    var cp := c as int;
    if cp < 0x80 {
    } else if cp < 0x800 {
      Utf8FirstOfTwo(c, rest);
    } else if cp < 0x10000 {
      Utf8FirstOfThree(c, rest);
    } else {
      Utf8FirstOfFour(c, rest);
    }
  }

  /** UTF-8 decoding undoes UTF-8 encoding. */
  lemma {:induction false} Utf8RoundTrip(s: string)
    ensures Utf8Decode(Utf8String(s)) == Some(s)
  {
    if s != [] {
      var bs := Utf8String(s);
      Utf8FirstOfEncoding(s[0], Utf8String(s[1..]));
      assert bs[|Utf8(s[0])|..] == Utf8String(s[1..]);
      Utf8RoundTrip(s[1..]);
      assert s == [s[0]] + s[1..];
    }
  }

  /** `%HH` for each byte. */
  function Escapes(bs: seq<Byte>): (r: string)
    ensures |r| == 3 * |bs|
  {
    if bs == [] then [] else ['%', HexDigit(bs[0] / 16), HexDigit(bs[0] % 16)] + Escapes(bs[1..])
  }

  /** At position `k` of `r` stands `%` followed by the upper-case hex digits of byte `b`. */
  predicate IsTriplet(r: string, k: int, b: Byte)
  {
    && 0 <= k && k + 3 <= |r|
    && r[k] == '%' && IsUpperHex(r[k + 1]) && IsUpperHex(r[k + 2])
    && HexValue(r[k + 1]) == Some(b / 16) && HexValue(r[k + 2]) == Some(b % 16)
  }

  lemma TripletShift(x: string, rest: string, k: int, b: Byte)
    requires |x| == 3 && IsTriplet(rest, k, b)
    ensures IsTriplet(x + rest, k + 3, b)
  {
    var s := x + rest;
    assert s[k + 3] == rest[k] && s[k + 4] == rest[k + 1] && s[k + 5] == rest[k + 2];
  }

  /** Byte `i` becomes the triplet at position `3 * i`: a `%` and the upper-case hex digits of
      its high and low halves. */
  lemma {:induction false} EscapesTriplets(bs: seq<Byte>)
    ensures forall i :: 0 <= i < |bs| ==> IsTriplet(Escapes(bs), 3 * i, bs[i])
  {
    if bs != [] {
      EscapesTriplets(bs[1..]);
      var head := ['%', HexDigit(bs[0] / 16), HexDigit(bs[0] % 16)];
      var rest := Escapes(bs[1..]);
      assert Escapes(bs) == head + rest;
      HexRoundTrip(bs[0] / 16);
      HexRoundTrip(bs[0] % 16);
      forall i | 0 <= i < |bs| ensures IsTriplet(Escapes(bs), 3 * i, bs[i]) {
        if i > 0 {
          assert bs[i] == bs[1..][i - 1];
          TripletShift(head, rest, 3 * (i - 1), bs[i]);
        }
      }
    }
  }

  function EncodeChar(c: char): (r: string)
    ensures 1 <= |r| <= 12
  {
    if Unreserved(c) then [c] else Escapes(Utf8(c))
  }

  /** `encodeURIComponent`. Every character takes one to twelve characters of output. */
  function EncodeURIComponent(s: string): (r: string)
    ensures |s| <= |r| <= 12 * |s|
  {
    if s == [] then [] else EncodeChar(s[0]) + EncodeURIComponent(s[1..])
  }

  /** The encoding works character by character: a text encodes as its pieces do. */
  lemma {:induction false} EncodeConcat(a: string, b: string)
    ensures EncodeURIComponent(a + b) == EncodeURIComponent(a) + EncodeURIComponent(b)
  {
    if a == [] {
      assert a + b == b;
    } else {
      assert (a + b)[0] == a[0];
      assert (a + b)[1..] == a[1..] + b;
      EncodeConcat(a[1..], b);
    }
  }

  /** A single character is left as it is exactly when it is unreserved; any other character
      becomes the `%HH` escapes of its UTF-8 bytes. */
  lemma EncodeSingle(c: char)
    ensures EncodeURIComponent([c]) == [c] <==> Unreserved(c)
    ensures !Unreserved(c) ==> EncodeURIComponent([c]) == Escapes(Utf8(c))
  {
    assert [c][1..] == [];
  }

  /** A string made only of unreserved characters and `%HH` triplets of upper-case hex. */
  predicate WellEncoded(s: string)
    decreases |s|
  {
    || s == []
    || (Unreserved(s[0]) && WellEncoded(s[1..]))
    || (|s| >= 3 && s[0] == '%' && IsUpperHex(s[1]) && IsUpperHex(s[2]) && WellEncoded(s[3..]))
  }

  lemma EscapesCons(bs: seq<Byte>, rest: string)
    requires bs != []
    ensures Escapes(bs) + rest == ['%', HexDigit(bs[0] / 16), HexDigit(bs[0] % 16)] + (Escapes(bs[1..]) + rest)
  {
  }

  lemma TripletWellEncoded(hi: char, lo: char, rest: string)
    requires IsUpperHex(hi) && IsUpperHex(lo) && WellEncoded(rest)
    ensures WellEncoded(['%', hi, lo] + rest)
  {
    assert (['%', hi, lo] + rest)[3..] == rest;
  }

  lemma {:induction false} EscapesWellEncoded(bs: seq<Byte>, rest: string)
    requires WellEncoded(rest)
    ensures WellEncoded(Escapes(bs) + rest)
  {
    if bs != [] {
      EscapesWellEncoded(bs[1..], rest);
      EscapesCons(bs, rest);
      TripletWellEncoded(HexDigit(bs[0] / 16), HexDigit(bs[0] % 16), Escapes(bs[1..]) + rest);
    } else {
      assert Escapes(bs) + rest == rest;
    }
  }

  /** The encoder's output contains nothing but unreserved characters and `%HH` triplets. */
  lemma {:induction false} EncodeWellEncoded(s: string)
    ensures WellEncoded(EncodeURIComponent(s))
  {
    if s != [] {
      EncodeWellEncoded(s[1..]);
      var rest := EncodeURIComponent(s[1..]);
      if Unreserved(s[0]) {
        assert ([s[0]] + rest)[1..] == rest;
      } else {
        EscapesWellEncoded(Utf8(s[0]), rest);
      }
    }
  }

  /** Percent-decoding to bytes: a `%HH` triplet (either case) is one byte, any other character
      contributes its UTF-8 bytes; a `%` without two hex digits is malformed. */
  function PercentDecode(s: string): (r: Option<seq<Byte>>)
    decreases |s|
  {
    if s == [] then Some([])
    else if s[0] == '%' then
      if |s| < 3 || HexValue(s[1]).None? || HexValue(s[2]).None? then None
      else match PercentDecode(s[3..])
        case None => None
        case Some(rest) => Some([16 * HexValue(s[1]).value + HexValue(s[2]).value] + rest)
    else match PercentDecode(s[1..])
      case None => None
      case Some(rest) => Some(Utf8(s[0]) + rest)
  }

  function DecodeURIComponent(s: string): (r: Option<string>)
  {
    match PercentDecode(s)
    case None => None
    case Some(bs) => Utf8Decode(bs)
  }

  lemma {:induction false} PercentDecodeEscapes(bs: seq<Byte>, rest: string)
    requires PercentDecode(rest).Some?
    ensures PercentDecode(Escapes(bs) + rest) == Some(bs + PercentDecode(rest).value)
  {
    if bs != [] {
      assert Escapes(bs) == ['%', HexDigit(bs[0] / 16), HexDigit(bs[0] % 16)] + Escapes(bs[1..]);
      var s := Escapes(bs) + rest;
      assert s[3..] == Escapes(bs[1..]) + rest;
      assert s[0] == '%' && s[1] == HexDigit(bs[0] / 16) && s[2] == HexDigit(bs[0] % 16);
      HexRoundTrip(bs[0] / 16);
      HexRoundTrip(bs[0] % 16);
      PercentDecodeEscapes(bs[1..], rest);
      assert [bs[0]] + (bs[1..] + PercentDecode(rest).value) == bs + PercentDecode(rest).value;
    } else {
      assert Escapes(bs) + rest == rest;
      assert bs + PercentDecode(rest).value == PercentDecode(rest).value;
    }
  }

  lemma {:induction false} PercentDecodeEncoded(s: string)
    ensures PercentDecode(EncodeURIComponent(s)) == Some(Utf8String(s))
  {
    if s != [] {
      PercentDecodeEncoded(s[1..]);
      var rest := EncodeURIComponent(s[1..]);
      if Unreserved(s[0]) {
        assert ([s[0]] + rest)[1..] == rest;
      } else {
        PercentDecodeEscapes(Utf8(s[0]), rest);
      }
    }
  }

  /** Decoding the encoder's output gives back the original text. */
  lemma EncodeRoundTrip(s: string)
    ensures DecodeURIComponent(EncodeURIComponent(s)) == Some(s)
  {
    PercentDecodeEncoded(s);
    Utf8RoundTrip(s);
  }

  /** Unreserved text passes through unchanged. */
  lemma {:induction false} EncodeUnreservedIdentity(s: string)
    requires forall i :: 0 <= i < |s| ==> Unreserved(s[i])
    ensures EncodeURIComponent(s) == s
  {
    if s != [] {
      EncodeUnreservedIdentity(s[1..]);
      assert s == [s[0]] + s[1..];
    }
  }
}
