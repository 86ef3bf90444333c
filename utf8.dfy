/**
 * UTF-8 as defined in section 3 of RFC 3629.
 *
 * The client measures every string it sizes by writing it through a UTF-8
 * writer into a byte counter; here the count is the pure function ByteLength,
 * and Encode is the byte sequence that writer would produce. Encode is also
 * what the client hands to the object store when it offloads a body, and
 * Decode is how the stored bytes are read back as text.
 *
 * A Dafny `char` is a Unicode scalar value, so every string here is well
 * formed (no unpaired surrogates).
 */
module Utf8 {

  import opened Outcomes

  newtype byte = b: int | 0 <= b < 256

  /** Number of bytes RFC 3629 uses for one scalar value. */
  function CharWidth(c: char): (w: nat)
    ensures 1 <= w <= 4
    ensures w == 1 <==> (c as int) < 0x80
  {
    var n := c as int;
    if n < 0x80 then 1
    else if n < 0x800 then 2
    else if n < 0x10000 then 3
    else 4
  }

  /** The UTF-8 byte length of a string (the client's byte-size measure). */
  function ByteLength(s: string): (n: nat)
    ensures |s| <= n <= 4 * |s|
    ensures s == [] <==> n == 0
  {
    if s == [] then 0 else CharWidth(s[0]) + ByteLength(s[1..])
  }

  predicate IsAscii(s: string)
  {
    forall i :: 0 <= i < |s| ==> (s[i] as int) < 0x80
  }

  predicate IsContinuation(b: byte)
  {
    0x80 <= b < 0xC0
  }

  /** The bytes of one scalar value, per the table in section 3 of RFC 3629. */
  function EncodeChar(c: char): (bs: seq<byte>)
    ensures |bs| == CharWidth(c)
  {
    var n := c as int;
    if n < 0x80 then
      [n as byte]
    else if n < 0x800 then
      [(0xC0 + n / 64) as byte, (0x80 + n % 64) as byte]
    else if n < 0x10000 then
      [(0xE0 + n / 4096) as byte, (0x80 + (n / 64) % 64) as byte, (0x80 + n % 64) as byte]
    else
      [(0xF0 + n / 262144) as byte, (0x80 + (n / 4096) % 64) as byte,
       (0x80 + (n / 64) % 64) as byte, (0x80 + n % 64) as byte]
  }

  function Encode(s: string): seq<byte>
  {
    if s == [] then [] else EncodeChar(s[0]) + Encode(s[1..])
  }

  /**
   * Decodes the scalar value at the head of `bs` and says how many bytes it
   * took; None for anything RFC 3629 calls ill-formed (a stray continuation
   * byte, a truncated sequence, an overlong form, a surrogate, a value above
   * U+10FFFF).
   */
  function DecodeFirst(bs: seq<byte>): (r: Option<(char, nat)>)
    requires |bs| > 0
    ensures r.Some? ==> 1 <= r.value.1 <= |bs|
  {
    var b0 := bs[0] as int;
    if b0 < 0x80 then
      Some((b0 as char, 1))
    else if 0xC2 <= b0 <= 0xDF && |bs| >= 2 && IsContinuation(bs[1]) then
      var n := (b0 - 0xC0) * 64 + (bs[1] as int - 0x80);
      Some((n as char, 2))
    else if 0xE0 <= b0 <= 0xEF && |bs| >= 3 && IsContinuation(bs[1]) && IsContinuation(bs[2]) then
      var n := (b0 - 0xE0) * 4096 + (bs[1] as int - 0x80) * 64 + (bs[2] as int - 0x80);
      if 0x800 <= n && !(0xD800 <= n < 0xE000) then Some((n as char, 3)) else None
    else if 0xF0 <= b0 <= 0xF4 && |bs| >= 4
            && IsContinuation(bs[1]) && IsContinuation(bs[2]) && IsContinuation(bs[3]) then
      var n := (b0 - 0xF0) * 262144 + (bs[1] as int - 0x80) * 4096
               + (bs[2] as int - 0x80) * 64 + (bs[3] as int - 0x80);
      if 0x10000 <= n < 0x110000 then Some((n as char, 4)) else None
    else
      None
  }

  function Decode(bs: seq<byte>): Option<string>
    decreases |bs|
  {
    if bs == [] then Some([])
    else match DecodeFirst(bs)
      case None => None
      case Some((c, k)) =>
        match Decode(bs[k..])
        case None => None
        case Some(rest) => Some([c] + rest)
  }

  /** The byte counter and the encoder agree: ByteLength is the encoded size. */
  lemma {:induction false} ByteLengthIsEncodedLength(s: string)
    ensures ByteLength(s) == |Encode(s)|
  {
    if s != [] {
      ByteLengthIsEncodedLength(s[1..]);
    }
  }

  /** For ASCII text the byte length is the character count. */
  lemma {:induction false} AsciiByteLength(s: string)
    requires IsAscii(s)
    ensures ByteLength(s) == |s|
  {
    if s != [] {
      assert IsAscii(s[1..]) by {
        forall i | 0 <= i < |s[1..]| ensures (s[1..][i] as int) < 0x80 {
          assert s[1..][i] == s[i + 1];
        }
      }
      AsciiByteLength(s[1..]);
    }
  }

  lemma {:induction false} ByteLengthAppend(a: string, b: string)
    ensures ByteLength(a + b) == ByteLength(a) + ByteLength(b)
  {
    if a == [] {
      assert a + b == b;
    } else {
      assert (a + b)[0] == a[0] && (a + b)[1..] == a[1..] + b;
      ByteLengthAppend(a[1..], b);
    }
  }

  lemma Split64(n: int, q: int, r: int)
    requires 0 <= r < 64 && n == q * 64 + r
    ensures n / 64 == q && n % 64 == r
  {
  }

  lemma Split4096(n: int, q: int, r: int)
    requires 0 <= r < 4096 && n == q * 4096 + r
    ensures n / 4096 == q && n % 4096 == r
  {
  }

  lemma Split262144(n: int, q: int, r: int)
    requires 0 <= r < 262144 && n == q * 262144 + r
    ensures n / 262144 == q && n % 262144 == r
  {
  }

  /** The digits of n in base 64 used by the multi-byte forms. */
  lemma Base64Digits(n: nat)
    ensures n == (n / 64) * 64 + n % 64
    ensures n / 64 == ((n / 64) / 64) * 64 + (n / 64) % 64
    ensures n / 4096 == (n / 64) / 64 && n / 262144 == (n / 4096) / 64
    ensures n == (n / 4096) * 4096 + ((n / 64) % 64) * 64 + n % 64
    ensures n == (n / 262144) * 262144 + ((n / 4096) % 64) * 4096 + ((n / 64) % 64) * 64 + n % 64
  {
    var a, b, c, d := n / 262144, (n / 4096) % 64, (n / 64) % 64, n % 64;
    Split64(n, n / 64, d);
    Split64(n / 64, (n / 64) / 64, c);
    Split4096(n, (n / 64) / 64, c * 64 + d);
    Split64(n / 4096, (n / 4096) / 64, b);
    Split262144(n, (n / 4096) / 64, b * 4096 + c * 64 + d);
  }

  lemma DecodeFirstEncodeChar2(c: char, rest: seq<byte>)
    requires 0x80 <= c as int < 0x800
    ensures DecodeFirst(EncodeChar(c) + rest) == Some((c, 2))
  {
    var n := c as int;
    Base64Digits(n);
    var bs := EncodeChar(c) + rest;
    assert bs[0] as int == 0xC0 + n / 64 && bs[1] as int == 0x80 + n % 64;
  }

  lemma DecodeFirstEncodeChar3(c: char, rest: seq<byte>)
    requires 0x800 <= c as int < 0x10000
    ensures DecodeFirst(EncodeChar(c) + rest) == Some((c, 3))
  {
    var n := c as int;
    Base64Digits(n);
    var bs := EncodeChar(c) + rest;
    assert bs[0] as int == 0xE0 + n / 4096;
    assert bs[1] as int == 0x80 + (n / 64) % 64;
    assert bs[2] as int == 0x80 + n % 64;
  }

  lemma DecodeFirstEncodeChar4(c: char, rest: seq<byte>)
    requires 0x10000 <= c as int
    ensures DecodeFirst(EncodeChar(c) + rest) == Some((c, 4))
  {
    var n := c as int;
    Base64Digits(n);
    var bs := EncodeChar(c) + rest;
    assert bs[0] as int == 0xF0 + n / 262144;
    assert bs[1] as int == 0x80 + (n / 4096) % 64;
    assert bs[2] as int == 0x80 + (n / 64) % 64;
    assert bs[3] as int == 0x80 + n % 64;
  }

  /** Decoding the head of an encoded character gives the character back. */
  lemma DecodeFirstEncodeChar(c: char, rest: seq<byte>)
    ensures DecodeFirst(EncodeChar(c) + rest) == Some((c, CharWidth(c)))
  {
    var n := c as int;
    if n < 0x80 {
    } else if n < 0x800 {
      DecodeFirstEncodeChar2(c, rest);
    } else if n < 0x10000 {
      DecodeFirstEncodeChar3(c, rest);
    } else {
      DecodeFirstEncodeChar4(c, rest);
    }
  }

  /** Round trip: whatever is encoded decodes to the same text. */
  lemma {:induction false} DecodeEncode(s: string)
    ensures Decode(Encode(s)) == Some(s)
  {
    if s != [] {
      var head := EncodeChar(s[0]);
      var tail := Encode(s[1..]);
      DecodeFirstEncodeChar(s[0], tail);
      assert (head + tail)[|head|..] == tail;
      DecodeEncode(s[1..]);
      assert [s[0]] + s[1..] == s;
    }
  }

  /** The decoder accepts only the encoder's own output for the character it returns. */
  lemma EncodeCharDecodeFirst2(bs: seq<byte>)
    requires |bs| >= 2 && 0xC2 <= bs[0] as int <= 0xDF && IsContinuation(bs[1])
    ensures DecodeFirst(bs).Some? && EncodeChar(DecodeFirst(bs).value.0) == bs[..2]
  {
    var n := DecodeFirst(bs).value.0 as int;
    Split64(n, bs[0] as int - 0xC0, bs[1] as int - 0x80);
  }

  lemma EncodeCharDecodeFirst3(bs: seq<byte>)
    requires |bs| >= 3 && 0xE0 <= bs[0] as int <= 0xEF && IsContinuation(bs[1]) && IsContinuation(bs[2])
    requires DecodeFirst(bs).Some?
    ensures EncodeChar(DecodeFirst(bs).value.0) == bs[..3]
  {
    var n := DecodeFirst(bs).value.0 as int;
    var x, y, z := bs[0] as int - 0xE0, bs[1] as int - 0x80, bs[2] as int - 0x80;
    Split64(n, x * 64 + y, z);
    Split64(n / 64, x, y);
    Split4096(n, x, y * 64 + z);
  }

  lemma EncodeCharDecodeFirst4(bs: seq<byte>)
    requires |bs| >= 4 && 0xF0 <= bs[0] as int <= 0xF4
    requires IsContinuation(bs[1]) && IsContinuation(bs[2]) && IsContinuation(bs[3])
    requires DecodeFirst(bs).Some?
    ensures EncodeChar(DecodeFirst(bs).value.0) == bs[..4]
  {
    var n := DecodeFirst(bs).value.0 as int;
    var w, x, y, z := bs[0] as int - 0xF0, bs[1] as int - 0x80, bs[2] as int - 0x80, bs[3] as int - 0x80;
    Split64(n, w * 4096 + x * 64 + y, z);
    Split64(n / 64, w * 64 + x, y);
    Split4096(n, w * 64 + x, y * 64 + z);
    Split64(n / 4096, w, x);
    Split262144(n, w, x * 4096 + y * 64 + z);
  }

  lemma EncodeCharDecodeFirst(bs: seq<byte>)
    requires |bs| > 0 && DecodeFirst(bs).Some?
    ensures EncodeChar(DecodeFirst(bs).value.0) == bs[..DecodeFirst(bs).value.1]
  {
    var b0 := bs[0] as int;
    if b0 < 0x80 {
    } else if 0xC2 <= b0 <= 0xDF && |bs| >= 2 && IsContinuation(bs[1]) {
      EncodeCharDecodeFirst2(bs);
    } else if 0xE0 <= b0 <= 0xEF && |bs| >= 3 && IsContinuation(bs[1]) && IsContinuation(bs[2]) {
      EncodeCharDecodeFirst3(bs);
    } else {
      EncodeCharDecodeFirst4(bs);
    }
  }

  lemma DecodeCons(bs: seq<byte>)
    requires bs != [] && Decode(bs).Some?
    ensures DecodeFirst(bs).Some? && Decode(bs[DecodeFirst(bs).value.1..]).Some?
    ensures Decode(bs).value == [DecodeFirst(bs).value.0] + Decode(bs[DecodeFirst(bs).value.1..]).value
  {
  }

  lemma EncodeCons(c: char, rest: string)
    ensures Encode([c] + rest) == EncodeChar(c) + Encode(rest)
  {
    assert ([c] + rest)[0] == c && ([c] + rest)[1..] == rest;
  }

  /** Re-encoding decoded bytes starts with the first character's own bytes. */
  lemma EncodeDecodeStep(bs: seq<byte>)
    requires bs != [] && Decode(bs).Some?
    ensures DecodeFirst(bs).Some? && Decode(bs[DecodeFirst(bs).value.1..]).Some?
    ensures Encode(Decode(bs).value) ==
      bs[..DecodeFirst(bs).value.1] + Encode(Decode(bs[DecodeFirst(bs).value.1..]).value)
  {
    DecodeCons(bs);
    EncodeCharDecodeFirst(bs);
    EncodeCons(DecodeFirst(bs).value.0, Decode(bs[DecodeFirst(bs).value.1..]).value);
  }

  /** Round trip the other way: bytes that decode re-encode to the same bytes. */
  lemma {:induction false} EncodeDecode(bs: seq<byte>)
    requires Decode(bs).Some?
    ensures Encode(Decode(bs).value) == bs
    decreases |bs|
  {
    if bs != [] {
      EncodeDecodeStep(bs);
      var k := DecodeFirst(bs).value.1;
      calc {
        Encode(Decode(bs).value);
        bs[..k] + Encode(Decode(bs[k..]).value);
        { EncodeDecode(bs[k..]); }
        bs[..k] + bs[k..];
        bs;
      }
    }
  }
}
