/** `encodeURIComponent`, which the search box uses to put the query into the URL, and the
    `decodeURIComponent` that undoes it: characters outside the unreserved set become the
    percent-escaped bytes of their UTF-8 encoding, with upper-case hex digits. Characters
    are Unicode scalar values, so the lone-surrogate `URIError` cannot arise. */
module UriComponent {
  import opened Schema

  /** The characters `encodeURIComponent` leaves alone. */
  predicate Unreserved(c: char) {
    ('A' <= c <= 'Z') || ('a' <= c <= 'z') || ('0' <= c <= '9') ||
    c == '-' || c == '_' || c == '.' || c == '!' || c == '~' || c == '*' || c == '\'' || c == '(' || c == ')'
  }

  function UpperHex(d: int): (c: char)
    requires 0 <= d < 16
    ensures Unreserved(c)
  {
    if d < 10 then ('0' as int + d) as char else ('A' as int + d - 10) as char
  }

  /** A hex digit of either case, as `decodeURIComponent` accepts them. */
  function HexValue(c: char): (v: Option<int>)
    ensures v.Some? ==> 0 <= v.value < 16
  {
    if '0' <= c <= '9' then Some(c as int - '0' as int)
    else if 'A' <= c <= 'F' then Some(c as int - 'A' as int + 10)
    else if 'a' <= c <= 'f' then Some(c as int - 'a' as int + 10)
    else None
  }

  lemma HexValueOfUpperHex(d: int)
    requires 0 <= d < 16
    ensures HexValue(UpperHex(d)) == Some(d)
  {
  }

  /** The UTF-8 encoding of one scalar value: six payload bits per continuation byte. */
  function Utf8(c: char): (bs: seq<Byte>)
    ensures 1 <= |bs| <= 4
  {
    var n := c as int;
    var q := n / 64;
    var p := q / 64;
    if n < 0x80 then [n]
    else if n < 0x800 then [0xC0 + q, 0x80 + n % 64]
    else if n < 0x1_0000 then [0xE0 + p, 0x80 + q % 64, 0x80 + n % 64]
    else [0xF0 + p / 64, 0x80 + p % 64, 0x80 + q % 64, 0x80 + n % 64]
  }

  function Escape(b: Byte): string {
    ['%', UpperHex(b / 16), UpperHex(b % 16)]
  }

  function EscapeAll(bs: seq<Byte>): (t: string)
    ensures |t| == 3 * |bs|
  {
    if |bs| == 0 then "" else Escape(bs[0]) + EscapeAll(bs[1..])
  }

  /** Escapes use only '%' and upper-case hex digits. */
  lemma {:induction false} EscapeAllSafe(bs: seq<Byte>)
    ensures forall i :: 0 <= i < |EscapeAll(bs)| ==> Unreserved(EscapeAll(bs)[i]) || EscapeAll(bs)[i] == '%'
  {
    if |bs| > 0 {
      EscapeAllSafe(bs[1..]);
    }
  }

  function EncodeChar(c: char): (t: string)
    ensures forall i :: 0 <= i < |t| ==> Unreserved(t[i]) || t[i] == '%'
    ensures Unreserved(c) <==> t == [c]
  {
    if Unreserved(c) then [c] else EscapeAllSafe(Utf8(c)); EscapeAll(Utf8(c))
  }

  /** `encodeURIComponent(s)`. */
  function Encode(s: string): (t: string)
    // only unreserved characters and escapes: nothing that ends a query value
    ensures forall i :: 0 <= i < |t| ==> Unreserved(t[i]) || t[i] == '%'
    ensures |s| <= |t| <= 12 * |s|
    ensures |t| == 0 <==> |s| == 0
  {
    if |s| == 0 then "" else EncodeChar(s[0]) + Encode(s[1..])
  }

  /** Text made only of unreserved characters is its own encoding. */
  lemma {:induction false} EncodeUnreservedIsIdentity(s: string)
    requires forall i :: 0 <= i < |s| ==> Unreserved(s[i])
    ensures Encode(s) == s
  {
    if |s| > 0 {
      EncodeUnreservedIsIdentity(s[1..]);
      assert s == [s[0]] + s[1..];
    }
  }

  /** The byte escaped at `t[i..i+3]`, if there is one. */
  function EscapedByte(t: string, i: nat): (b: Option<Byte>)
    ensures b.Some? ==> i + 3 <= |t|
  {
    if i + 3 > |t| || t[i] != '%' then None
    else match (HexValue(t[i + 1]), HexValue(t[i + 2]))
      case (Some(hi), Some(lo)) => Some(16 * hi + lo)
      case _ => None
  }

  predicate Continuation(b: Option<Byte>) {
    b.Some? && 0x80 <= b.value < 0xC0
  }

  function AsChar(n: int): Option<char> {
    if 0 <= n < 0xD800 || 0xE000 <= n < 0x11_0000 then Some(n as char) else None
  }

  /** The character at the front of `t` and how many characters of `t` it took; `None` where
      `decodeURIComponent` throws (a malformed escape or ill-formed UTF-8). */
  function DecodeChar(t: string): (r: Option<(char, nat)>)
    ensures r.Some? ==> 0 < r.value.1 <= |t|
  {
    if |t| == 0 then None
    else if t[0] != '%' then Some((t[0], 1))
    else match EscapedByte(t, 0)
      case None => None
      case Some(b0) =>
        if b0 < 0x80 then Some((b0 as char, 3))
        else if 0xC2 <= b0 < 0xE0 then DecodeTwo(t, b0)
        else if 0xE0 <= b0 < 0xF0 then DecodeThree(t, b0)
        else if 0xF0 <= b0 < 0xF5 then DecodeFour(t, b0)
        else None
  }

  /** A two-byte sequence led by `b0`: one continuation byte, escaped at `t[3..6]`. */
  function DecodeTwo(t: string, b0: Byte): (r: Option<(char, nat)>)
    ensures r.Some? ==> r.value.1 == 6 <= |t|
  {
    var b1 := EscapedByte(t, 3);
    if !Continuation(b1) then None
    else match AsChar((b0 as int - 0xC0) * 64 + (b1.value as int - 0x80))
      case Some(c) => Some((c, 6))
      case None => None
  }

  /** A three-byte sequence led by `b0`; an overlong form (below U+0800) and a surrogate are refused. */
  function DecodeThree(t: string, b0: Byte): (r: Option<(char, nat)>)
    ensures r.Some? ==> r.value.1 == 9 <= |t|
  {
    var b1, b2 := EscapedByte(t, 3), EscapedByte(t, 6);
    if !Continuation(b1) || !Continuation(b2) then None
    else
      var n := (b0 as int - 0xE0) * 4096 + (b1.value as int - 0x80) * 64 + (b2.value as int - 0x80);
      if n < 0x800 then None
      else match AsChar(n)
        case Some(c) => Some((c, 9))
        case None => None
  }

  /** A four-byte sequence led by `b0`; an overlong form (below U+10000) and anything past
      U+10FFFF are refused. */
  function DecodeFour(t: string, b0: Byte): (r: Option<(char, nat)>)
    ensures r.Some? ==> r.value.1 == 12 <= |t|
  {
    var b1, b2, b3 := EscapedByte(t, 3), EscapedByte(t, 6), EscapedByte(t, 9);
    if !Continuation(b1) || !Continuation(b2) || !Continuation(b3) then None
    else
      var n := (b0 as int - 0xF0) * 262144 + (b1.value as int - 0x80) * 4096 + (b2.value as int - 0x80) * 64 +
               (b3.value as int - 0x80);
      if n < 0x1_0000 then None
      else match AsChar(n)
        case Some(c) => Some((c, 12))
        case None => None
  }

  /** `decodeURIComponent(t)`, `None` where it throws `URIError`. */
  function Decode(t: string): Option<string>
    decreases |t|
  {
    if |t| == 0 then Some("")
    else match DecodeChar(t)
      case None => None
      case Some((c, k)) =>
        match Decode(t[k..])
        case None => None
        case Some(rest) => Some([c] + rest)
  }

  /** Byte k of an escaped byte string sits at characters 3k to 3k+2. */
  lemma {:induction false} EscapeAllAt(bs: seq<Byte>, k: nat)
    requires k < |bs|
    ensures EscapeAll(bs)[3 * k] == '%'
    ensures EscapeAll(bs)[3 * k + 1] == UpperHex(bs[k] / 16)
    ensures EscapeAll(bs)[3 * k + 2] == UpperHex(bs[k] % 16)
  {
    if k > 0 {
      var tail := EscapeAll(bs[1..]);
      EscapeAllAt(bs[1..], k - 1);
      assert bs[1..][k - 1] == bs[k];
      assert EscapeAll(bs) == Escape(bs[0]) + tail;
      var j := 3 * (k - 1);
      assert EscapeAll(bs)[3 * k] == tail[j] && EscapeAll(bs)[3 * k + 1] == tail[j + 1] && EscapeAll(bs)[3 * k + 2] == tail[j + 2];
    }
  }

  /** An escape written for byte `b` reads back as `b`. */
  lemma EscapedByteOf(t: string, i: nat, b: Byte)
    requires i + 3 <= |t| && t[i] == '%' && t[i + 1] == UpperHex(b / 16) && t[i + 2] == UpperHex(b % 16)
    ensures EscapedByte(t, i) == Some(b)
  {
    HexValueOfUpperHex(b / 16);
    HexValueOfUpperHex(b % 16);
  }

  /** Text after an escape does not change what the escape reads as. */
  lemma EscapedByteOfPrefix(e: string, rest: string, i: nat)
    requires i + 3 <= |e|
    ensures EscapedByte(e + rest, i) == EscapedByte(e, i)
  {
    var t := e + rest;
    assert t[i] == e[i] && t[i + 1] == e[i + 1] && t[i + 2] == e[i + 2];
  }

  lemma EscapedByteOfEscapeAll(bs: seq<Byte>, rest: string, k: nat)
    requires k < |bs|
    ensures EscapedByte(EscapeAll(bs) + rest, 3 * k) == Some(bs[k])
  {
    var e := EscapeAll(bs);
    EscapeAllAt(bs, k);
    EscapedByteOf(e, 3 * k, bs[k]);
    EscapedByteOfPrefix(e, rest, 3 * k);
  }

  lemma AsCharOfScalar(c: char)
    ensures AsChar(c as int) == Some(c)
  {
  }

  lemma DecodeOneByte(c: char, rest: string)
    requires !Unreserved(c) && c as int < 0x80
    ensures DecodeChar(EncodeChar(c) + rest) == Some((c, 3))
  {
    EscapedByteOfEscapeAll(Utf8(c), rest, 0);
  }

  /** The bytes of a two-byte encoding: a lead byte C2..DF, one continuation byte, and the
      payload bits that add back up to the scalar value. */
  lemma Utf8Two(c: char)
    requires 0x80 <= c as int < 0x800
    ensures var bs := Utf8(c);
            |bs| == 2 && 0xC2 <= bs[0] < 0xE0 && 0x80 <= bs[1] < 0xC0 &&
            (bs[0] as int - 0xC0) * 64 + (bs[1] as int - 0x80) == c as int
  {
    var n := c as int;
    assert n == 64 * (n / 64) + n % 64;
  }

  lemma Utf8Three(c: char)
    requires 0x800 <= c as int < 0x1_0000
    ensures var bs := Utf8(c);
            |bs| == 3 && 0xE0 <= bs[0] < 0xF0 && 0x80 <= bs[1] < 0xC0 && 0x80 <= bs[2] < 0xC0 &&
            (bs[0] as int - 0xE0) * 4096 + (bs[1] as int - 0x80) * 64 + (bs[2] as int - 0x80) == c as int
  {
    var n := c as int;
    var q := n / 64;
    assert n == 64 * q + n % 64;
    assert q == 64 * (q / 64) + q % 64;
  }

  lemma Utf8Four(c: char)
    requires 0x1_0000 <= c as int
    ensures var bs := Utf8(c);
            |bs| == 4 && 0xF0 <= bs[0] < 0xF5 && 0x80 <= bs[1] < 0xC0 && 0x80 <= bs[2] < 0xC0 && 0x80 <= bs[3] < 0xC0 &&
            (bs[0] as int - 0xF0) * 262144 + (bs[1] as int - 0x80) * 4096 + (bs[2] as int - 0x80) * 64 + (bs[3] as int - 0x80) == c as int
  {
    var n := c as int;
    var q := n / 64;
    var p := q / 64;
    assert n == 64 * q + n % 64;
    assert q == 64 * p + q % 64;
    assert p == 64 * (p / 64) + p % 64;
  }

  /** Escaped lead and continuation bytes that spell `c` decode to `c`. */
  lemma DecodeTwoOf(t: string, b0: Byte, b1: Byte, c: char)
    requires EscapedByte(t, 0) == Some(b0) && EscapedByte(t, 3) == Some(b1)
    requires 0xC2 <= b0 < 0xE0 && 0x80 <= b1 < 0xC0
    requires (b0 as int - 0xC0) * 64 + (b1 as int - 0x80) == c as int
    ensures DecodeChar(t) == Some((c, 6))
  {
    assert DecodeChar(t) == DecodeTwo(t, b0);
    AsCharOfScalar(c);
  }

  lemma DecodeThreeOf(t: string, b0: Byte, b1: Byte, b2: Byte, c: char)
    requires EscapedByte(t, 0) == Some(b0) && EscapedByte(t, 3) == Some(b1) && EscapedByte(t, 6) == Some(b2)
    requires 0xE0 <= b0 < 0xF0 && 0x80 <= b1 < 0xC0 && 0x80 <= b2 < 0xC0
    requires (b0 as int - 0xE0) * 4096 + (b1 as int - 0x80) * 64 + (b2 as int - 0x80) == c as int
    requires 0x800 <= c as int
    ensures DecodeChar(t) == Some((c, 9))
  {
    assert DecodeChar(t) == DecodeThree(t, b0);
    AsCharOfScalar(c);
  }

  lemma DecodeFourOf(t: string, b0: Byte, b1: Byte, b2: Byte, b3: Byte, c: char)
    requires EscapedByte(t, 0) == Some(b0) && EscapedByte(t, 3) == Some(b1)
    requires EscapedByte(t, 6) == Some(b2) && EscapedByte(t, 9) == Some(b3)
    requires 0xF0 <= b0 < 0xF5 && 0x80 <= b1 < 0xC0 && 0x80 <= b2 < 0xC0 && 0x80 <= b3 < 0xC0
    requires (b0 as int - 0xF0) * 262144 + (b1 as int - 0x80) * 4096 + (b2 as int - 0x80) * 64 + (b3 as int - 0x80) == c as int
    requires 0x1_0000 <= c as int
    ensures DecodeChar(t) == Some((c, 12))
  {
    assert DecodeChar(t) == DecodeFour(t, b0);
    AsCharOfScalar(c);
  }

  lemma DecodeTwoBytes(c: char, rest: string)
    requires 0x80 <= c as int < 0x800
    ensures DecodeChar(EncodeChar(c) + rest) == Some((c, 6))
  {
    var bs := Utf8(c);
    Utf8Two(c);
    EscapedByteOfEscapeAll(bs, rest, 0);
    EscapedByteOfEscapeAll(bs, rest, 1);
    DecodeTwoOf(EscapeAll(bs) + rest, bs[0], bs[1], c);
  }

  lemma DecodeThreeBytes(c: char, rest: string)
    requires 0x800 <= c as int < 0x1_0000
    ensures DecodeChar(EncodeChar(c) + rest) == Some((c, 9))
  {
    var bs := Utf8(c);
    Utf8Three(c);
    EscapedByteOfEscapeAll(bs, rest, 0);
    EscapedByteOfEscapeAll(bs, rest, 1);
    EscapedByteOfEscapeAll(bs, rest, 2);
    DecodeThreeOf(EscapeAll(bs) + rest, bs[0], bs[1], bs[2], c);
  }

  lemma DecodeFourBytes(c: char, rest: string)
    requires 0x1_0000 <= c as int
    ensures DecodeChar(EncodeChar(c) + rest) == Some((c, 12))
  {
    var bs := Utf8(c);
    Utf8Four(c);
    EscapedByteOfEscapeAll(bs, rest, 0);
    EscapedByteOfEscapeAll(bs, rest, 1);
    EscapedByteOfEscapeAll(bs, rest, 2);
    EscapedByteOfEscapeAll(bs, rest, 3);
    DecodeFourOf(EscapeAll(bs) + rest, bs[0], bs[1], bs[2], bs[3], c);
  }

  /** Decoding reads back exactly one encoded character. */
  lemma DecodeEncodedChar(c: char, rest: string)
    ensures DecodeChar(EncodeChar(c) + rest) == Some((c, |EncodeChar(c)|))
  {
    var n := c as int;
    if Unreserved(c) {
    } else if n < 0x80 {
      DecodeOneByte(c, rest);
    } else if n < 0x800 {
      DecodeTwoBytes(c, rest);
    } else if n < 0x1_0000 {
      DecodeThreeBytes(c, rest);
    } else {
      DecodeFourBytes(c, rest);
    }
  }

  /** `decodeURIComponent(encodeURIComponent(s)) == s`. */
  lemma {:induction false} DecodeEncode(s: string)
    ensures Decode(Encode(s)) == Some(s)
  {
    if |s| > 0 {
      var t := Encode(s);
      DecodeEncodedChar(s[0], Encode(s[1..]));
      assert t[|EncodeChar(s[0])|..] == Encode(s[1..]);
      DecodeEncode(s[1..]);
      assert s == [s[0]] + s[1..];
    }
  }
}
