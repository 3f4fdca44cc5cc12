/**
 * UTF-8 as the CBOR decoder reads a text string (worker/src/webauthn.ts, a
 * TextDecoder that is fatal and does not ignore a byte order mark): strict,
 * and a leading U+FEFF is dropped.
 */
module Texts {
  import opened Wrappers
  import opened Bytes

  /** A Unicode scalar value. */
  type Scalar = c: int | 0 <= c < 0xD800 || 0xE000 <= c < 0x110000

  const BOM: Scalar := 0xFEFF

  function EncodeScalar(c: Scalar): (s: seq<byte>)
    ensures 1 <= |s| <= 4
  {
    if c < 0x80 then [c]
    else if c < 0x800 then [0xC0 + c / 64, 0x80 + c % 64]
    else if c < 0x10000 then [0xE0 + c / 4096, 0x80 + c / 64 % 64, 0x80 + c % 64]
    else [0xF0 + c / 262144, 0x80 + c / 4096 % 64, 0x80 + c / 64 % 64, 0x80 + c % 64]
  }

  function Encode(t: seq<Scalar>): seq<byte> {
    if t == [] then [] else EncodeScalar(t[0]) + Encode(t[1..])
  }

  predicate Tail(b: byte) {
    0x80 <= b < 0xC0
  }

  /**
   * The first scalar value of `b` and its length; nothing for a sequence UTF-8
   * does not write: overlong, a surrogate, past U+10FFFF, cut short.
   */
  function Two(a: int, b: int): int {
    (a - 0xC0) * 64 + (b - 0x80)
  }

  function Three(a: int, b: int, c: int): int {
    (a - 0xE0) * 4096 + (b - 0x80) * 64 + (c - 0x80)
  }

  function Four(a: int, b: int, c: int, d: int): int {
    (a - 0xF0) * 262144 + (b - 0x80) * 4096 + (c - 0x80) * 64 + (d - 0x80)
  }

  function First(b: seq<byte>): (r: Option<(Scalar, nat)>)
    ensures r.Some? ==> 1 <= r.value.1 <= |b|
  {
    if b == [] then None
    else if b[0] < 0x80 then Some((b[0], 1))
    else if 0xC2 <= b[0] < 0xE0 then
      if |b| >= 2 && Tail(b[1]) then Some((Two(b[0], b[1]), 2)) else None
    else if 0xE0 <= b[0] < 0xF0 then
      if |b| >= 3 && Tail(b[1]) && Tail(b[2]) && (b[0] == 0xE0 ==> b[1] >= 0xA0) && (b[0] == 0xED ==> b[1] < 0xA0) then
        Some((Three(b[0], b[1], b[2]), 3))
      else None
    else if 0xF0 <= b[0] < 0xF5 then
      if |b| >= 4 && Tail(b[1]) && Tail(b[2]) && Tail(b[3]) && (b[0] == 0xF0 ==> b[1] >= 0x90)
         && (b[0] == 0xF4 ==> b[1] < 0x90) then
        Some((Four(b[0], b[1], b[2], b[3]), 4))
      else None
    else None
  }

  function Decode(b: seq<byte>): Option<seq<Scalar>> {
    if b == [] then Some([])
    else
      var f := First(b);
      if f.None? then None
      else
        var rest := Decode(b[f.value.1..]);
        if rest.None? then None else Some([f.value.0] + rest.value)
  }

  /** A text without the byte order mark it begins with. */
  function Strip(t: seq<Scalar>): seq<Scalar> {
    if t != [] && t[0] == BOM then t[1..] else t
  }

  /** What the decoder's TextDecoder makes of the bytes. */
  function Read(b: seq<byte>): Option<seq<Scalar>> {
    var t := Decode(b);
    if t.None? then None else Some(Strip(t.value))
  }

  lemma FirstEncoded(c: Scalar, rest: seq<byte>)
    ensures First(EncodeScalar(c) + rest) == Some((c, |EncodeScalar(c)|))
  {
    var e := EncodeScalar(c);
    var s := e + rest;
    assert forall i | 0 <= i < |e| :: s[i] == e[i];
    var q, r := c / 64, c % 64;
    assert c == q * 64 + r;
    if 0x80 <= c < 0x800 {
      assert Two(e[0], e[1]) == c;
    } else if 0x800 <= c < 0x10000 {
      assert c / 4096 == q / 64;
      assert Three(e[0], e[1], e[2]) == c;
    } else if 0x10000 <= c {
      assert c / 4096 == q / 64 && c / 262144 == q / 64 / 64;
      assert Four(e[0], e[1], e[2], e[3]) == c;
    }
  }

  lemma Digits(x: int, y: int, z: int)
    requires 0 <= y < 64 && 0 <= z < 64
    ensures (x * 4096 + y * 64 + z) / 64 == x * 64 + y && (x * 4096 + y * 64 + z) % 64 == z
    ensures (x * 4096 + y * 64 + z) / 4096 == x && (x * 64 + y) % 64 == y
  {
  }

  lemma TwoExact(a: byte, b: byte)
    requires 0xC2 <= a < 0xE0 && Tail(b)
    ensures 0x80 <= Two(a, b) < 0x800 && EncodeScalar(Two(a, b)) == [a, b]
  {
    assert Two(a, b) / 64 == a as int - 0xC0 && Two(a, b) % 64 == b as int - 0x80;
  }

  lemma ThreeExact(a: byte, b: byte, c: byte)
    requires 0xE0 <= a < 0xF0 && Tail(b) && Tail(c) && (a == 0xE0 ==> b >= 0xA0) && (a == 0xED ==> b < 0xA0)
    ensures var s := Three(a, b, c); 0x800 <= s < 0x10000 && !(0xD800 <= s < 0xE000) && EncodeScalar(s) == [a, b, c]
  {
    Digits(a as int - 0xE0, b as int - 0x80, c as int - 0x80);
  }

  lemma FourExact(a: byte, b: byte, c: byte, d: byte)
    requires 0xF0 <= a < 0xF5 && Tail(b) && Tail(c) && Tail(d) && (a == 0xF0 ==> b >= 0x90) && (a == 0xF4 ==> b < 0x90)
    ensures var s := Four(a, b, c, d); 0x10000 <= s < 0x110000 && EncodeScalar(s) == [a, b, c, d]
  {
    var x := (a as int - 0xF0) * 64 + (b as int - 0x80);
    Digits(x, c as int - 0x80, d as int - 0x80);
    assert Four(a, b, c, d) / 262144 == x / 64;
  }

  lemma FirstExact(b: seq<byte>)
    requires First(b).Some?
    ensures b[..First(b).value.1] == EncodeScalar(First(b).value.0)
  {
    hide EncodeScalar, Two, Three, Four;
    var n := First(b).value.1;
    if n == 1 {
      OneExact(b[0]);
    } else if n == 2 {
      TwoExact(b[0], b[1]);
    } else if n == 3 {
      ThreeExact(b[0], b[1], b[2]);
    } else {
      FourExact(b[0], b[1], b[2], b[3]);
    }
  }

  lemma OneExact(a: byte)
    requires a < 0x80
    ensures EncodeScalar(a) == [a]
  {
  }

  /** Every text comes back from its encoding. */
  lemma {:induction false} DecodeEncode(t: seq<Scalar>)
    ensures Decode(Encode(t)) == Some(t)
  {
    if t != [] {
      FirstEncoded(t[0], Encode(t[1..]));
      assert Encode(t)[|EncodeScalar(t[0])|..] == Encode(t[1..]);
      DecodeEncode(t[1..]);
      assert [t[0]] + t[1..] == t;
    }
  }

  /** And every accepted byte string is one text's only encoding. */
  lemma {:induction false} EncodeDecode(b: seq<byte>)
    requires Decode(b).Some?
    ensures Encode(Decode(b).value) == b
    decreases |b|
  {
    hide First, EncodeScalar, Encode, Decode;
    EncodeNone();
    if b != [] {
      DecodeCons(b);
      var c, n := First(b).value.0, First(b).value.1;
      FirstExact(b);
      EncodeDecode(b[n..]);
      EncodeCons(c, Decode(b[n..]).value);
      assert b == b[..n] + b[n..];
    }
  }

  lemma EncodeNone()
    ensures Decode([]) == Some([]) && Encode([]) == []
  {
  }

  lemma DecodeCons(b: seq<byte>)
    requires b != [] && Decode(b).Some?
    ensures First(b).Some? && Decode(b[First(b).value.1..]).Some?
    ensures Decode(b).value == [First(b).value.0] + Decode(b[First(b).value.1..]).value
  {
  }

  lemma EncodeCons(c: Scalar, t: seq<Scalar>)
    ensures Encode([c] + t) == EncodeScalar(c) + Encode(t)
  {
    assert ([c] + t)[1..] == t;
  }
}
