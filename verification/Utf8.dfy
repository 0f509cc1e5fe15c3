/** UTF-8 as the tokenizer reads and writes it (section 3 of RFC 3629), lenient on invalid bytes. */
module Utf8 {

  type U8 = n: nat | n < 256

  type Bytes = seq<U8>

  /** Strings one after the other. */
  function Joined(s: seq<Bytes>): Bytes {
    if s == [] then [] else s[0] + Joined(s[1..])
  }

  lemma {:induction false} JoinedConcat(a: seq<Bytes>, b: seq<Bytes>)
    ensures Joined(a + b) == Joined(a) + Joined(b)
  {
    if a == [] {
      assert a + b == b;
    } else {
      assert (a + b)[1..] == a[1..] + b;
      JoinedConcat(a[1..], b);
    }
  }

  datatype Decoded = Decoded(cp: nat, len: nat)

  /** The six payload bits of a continuation byte. */
  function Tail(c: U8): nat {
    c % 0x40
  }

  /**
   * The code point at index i and the number of bytes it takes. Continuation bytes are not checked,
   * and a byte that starts nothing, or starts more than is left, stands for itself.
   */
  function DecodeUtf8(s: Bytes, i: nat): (d: Decoded)
    requires i < |s|
    ensures 1 <= d.len <= 4 && i + d.len <= |s|
  {
    var c0: nat := s[i];
    if c0 < 0x80 then Decoded(c0, 1)
    else if 0xC0 <= c0 < 0xE0 && i + 1 < |s| then
      Decoded(c0 % 0x20 * 0x40 + Tail(s[i + 1]), 2)
    else if 0xE0 <= c0 < 0xF0 && i + 2 < |s| then
      Decoded(c0 % 0x10 * 0x1000 + Tail(s[i + 1]) * 0x40 + Tail(s[i + 2]), 3)
    else if 0xF0 <= c0 < 0xF8 && i + 3 < |s| then
      Decoded(c0 % 0x08 * 0x40000 + Tail(s[i + 1]) * 0x1000 + Tail(s[i + 2]) * 0x40 + Tail(s[i + 3]), 4)
    else Decoded(c0, 1)
  }

  function EncodeUtf8(cp: nat): (s: Bytes)
    requires cp < 0x200000
    ensures 1 <= |s| <= 4
  {
    if cp < 0x80 then [cp]
    else if cp < 0x800 then [0xC0 + cp / 0x40, 0x80 + cp % 0x40]
    else if cp < 0x10000 then [0xE0 + cp / 0x1000, 0x80 + cp / 0x40 % 0x40, 0x80 + cp % 0x40]
    else [0xF0 + cp / 0x40000, 0x80 + cp / 0x1000 % 0x40, 0x80 + cp / 0x40 % 0x40, 0x80 + cp % 0x40]
  }

  /** Two, three or four bytes begin with as many ones and a zero, every further byte with one and a zero. */
  lemma EncodedMarkers(cp: nat)
    requires cp < 0x200000
    ensures var s := EncodeUtf8(cp);
      && (|s| == 1 <==> cp < 0x80) && (|s| <= 2 <==> cp < 0x800) && (|s| <= 3 <==> cp < 0x10000)
      && (|s| == 1 ==> s[0] == cp) && (|s| == 2 ==> s[0] / 32 == 6)
      && (|s| == 3 ==> s[0] / 16 == 14) && (|s| == 4 ==> s[0] / 8 == 30)
      && forall i :: 1 <= i < |s| ==> s[i] / 64 == 2
  {
  }

  /** Decoding looks only ahead: what came before the index does not matter. */
  lemma DecodeIgnoresPrefix(s: Bytes, i: nat)
    requires i < |s|
    ensures DecodeUtf8(s, i) == DecodeUtf8(s[i..], 0)
  {
  }

  /** UTF-8 delimits itself: whatever follows, decoding an encoded code point gives it back. */
  lemma DecodeEncoded(cp: nat, rest: Bytes)
    requires cp < 0x200000
    ensures DecodeUtf8(EncodeUtf8(cp) + rest, 0) == Decoded(cp, |EncodeUtf8(cp)|)
  {
    if 0x80 <= cp < 0x800 {
      DecodeTwo(cp, rest);
    } else if 0x800 <= cp < 0x10000 {
      DecodeThree(cp, rest);
    } else if 0x10000 <= cp {
      DecodeFour(cp, rest);
    }
  }

  lemma DecodeTwo(cp: nat, rest: Bytes)
    requires 0x80 <= cp < 0x800
    ensures DecodeUtf8(EncodeUtf8(cp) + rest, 0) == Decoded(cp, 2)
  {
    var s := EncodeUtf8(cp) + rest;
    assert s[0] == 0xC0 + cp / 0x40 && s[1] == 0x80 + cp % 0x40;
    Payload(0xC0, 0x20, cp / 0x40);
    Payload(0x80, 0x40, cp % 0x40);
    assert cp / 0x40 * 0x40 + cp % 0x40 == cp;
  }

  lemma DecodeThree(cp: nat, rest: Bytes)
    requires 0x800 <= cp < 0x10000
    ensures DecodeUtf8(EncodeUtf8(cp) + rest, 0) == Decoded(cp, 3)
  {
    var s := EncodeUtf8(cp) + rest;
    var hi, mid, lo := cp / 0x1000, cp / 0x40 % 0x40, cp % 0x40;
    assert s[0] == 0xE0 + hi && s[1] == 0x80 + mid && s[2] == 0x80 + lo;
    Payload(0xE0, 0x10, hi);
    Payload(0x80, 0x40, mid);
    Payload(0x80, 0x40, lo);
    assert hi * 0x1000 + mid * 0x40 + lo == cp;
  }

  lemma DecodeFour(cp: nat, rest: Bytes)
    requires 0x10000 <= cp < 0x200000
    ensures DecodeUtf8(EncodeUtf8(cp) + rest, 0) == Decoded(cp, 4)
  {
    var s := EncodeUtf8(cp) + rest;
    var top, hi, mid, lo := cp / 0x40000, cp / 0x1000 % 0x40, cp / 0x40 % 0x40, cp % 0x40;
    assert s[0] == 0xF0 + top && s[1] == 0x80 + hi && s[2] == 0x80 + mid && s[3] == 0x80 + lo;
    Payload(0xF0, 0x08, top);
    Payload(0x80, 0x40, hi);
    Payload(0x80, 0x40, mid);
    Payload(0x80, 0x40, lo);
    FourDigits(cp);
  }

  /** A marker that is a multiple of the payload's range does not disturb the payload. */
  lemma Payload(marker: nat, range: nat, payload: nat)
    requires (marker == 0x80 && range == 0x40) || (marker == 0xC0 && range == 0x20)
          || (marker == 0xE0 && range == 0x10) || (marker == 0xF0 && range == 0x08)
    requires payload < range
    ensures (marker + payload) % range == payload
  {
  }

  lemma FourDigits(cp: nat)
    requires cp < 0x200000
    ensures cp / 0x40000 * 0x40000 + cp / 0x1000 % 0x40 * 0x1000 + cp / 0x40 % 0x40 * 0x40 + cp % 0x40 == cp
  {
    var a := cp / 0x40;
    var b := a / 0x40;
    assert b == cp / 0x1000;
    assert b / 0x40 == cp / 0x40000;
  }
}
