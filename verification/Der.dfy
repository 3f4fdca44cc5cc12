/**
 * An ECDSA signature from DER to the raw form WebCrypto verifies
 * (worker/src/webauthn.ts `derToRaw`), against the ECDSA-Sig-Value of section
 * 2.2.3 of RFC 3279.
 */
module Der {
  import opened Wrappers
  import opened Bytes
  import opened CborWire

  const SIZE: nat := 32

  function Zeros(k: nat): (z: seq<byte>)
    ensures |z| == k && forall i | 0 <= i < k :: z[i] == 0
  {
    if k == 0 then [] else Zeros(k - 1) + [0]
  }

  /** Without its leading zero octets, one octet at least. */
  function Trim(v: seq<byte>): seq<byte> {
    if |v| > 1 && v[0] == 0 then Trim(v[1..]) else v
  }

  /** The INTEGER at `i`, left-padded to the curve's size, and where it ends. */
  function ReadInteger(b: seq<byte>, i: nat): (r: Option<(seq<byte>, nat)>)
    ensures r.Some? ==> i < r.value.1 <= |b|
  {
    if i + 2 > |b| || b[i] != 0x02 then None
    else
      var l: nat := b[i + 1];
      if l < 1 || l > SIZE + 1 || i + 2 + l > |b| then None
      else
        var v := b[i + 2..i + 2 + l];
        if v[0] >= 0x80 || |Trim(v)| > SIZE then None else Some((Zeros(SIZE - |Trim(v)|) + Trim(v), i + 2 + l))
  }

  /** Where the sequence's content begins, when its length is the rest's. */
  function ReadSequence(b: seq<byte>): (r: Option<nat>)
    ensures r.Some? ==> r.value <= |b|
  {
    if |b| < 2 || b[0] != 0x30 then None
    else if b[1] == 0x81 then if |b| < 3 || 3 + b[2] as int != |b| then None else Some(3)
    else if b[1] >= 0x80 || 2 + b[1] as int != |b| then None
    else Some(2)
  }

  function Raw(b: seq<byte>): Option<seq<byte>> {
    var at := ReadSequence(b);
    if at.None? then None
    else
      var r := ReadInteger(b, at.value);
      if r.None? then None
      else
        var s := ReadInteger(b, r.value.1);
        if s.None? || s.value.1 != |b| then None else Some(r.value.0 + s.value.0)
  }

  /** One integer as the converter reads it: a cursor, and zeros dropped one by one. */
  method Integer(b: seq<byte>, at: nat) returns (r: Option<(seq<byte>, nat)>)
    ensures r == ReadInteger(b, at)
  {
    var i := at;
    if i >= |b| || b[i] != 0x02 { return None; }
    i := i + 1;
    if i >= |b| { return None; }
    var l := b[i] as int;
    i := i + 1;
    if l < 1 || l > SIZE + 1 || i + l > |b| { return None; }
    var v := b[i..i + l];
    i := i + l;
    if v[0] >= 0x80 { return None; }
    ghost var whole := v;
    while |v| > 1 && v[0] == 0
      invariant |v| >= 1 && Trim(v) == Trim(whole)
      decreases |v|
    {
      v := v[1..];
    }
    assert Trim(v) == v;
    if |v| > SIZE { return None; }
    var out := Pad(v);
    r := Some((out, i));
  }

  /** The octets set at the end of a zeroed buffer of the curve's size. */
  method Pad(v: seq<byte>) returns (s: seq<byte>)
    requires |v| <= SIZE
    ensures s == Zeros(SIZE - |v|) + v
  {
    var out := new byte[SIZE](_ => 0);
    var from := SIZE - |v|;
    var k := 0;
    while k < |v|
      invariant 0 <= k <= |v|
      invariant forall j | 0 <= j < from :: out[j] == 0
      invariant forall j | 0 <= j < k :: out[from + j] == v[j]
    {
      out[from + k] := v[k];
      k := k + 1;
    }
    assert out[..from] == Zeros(from) && out[from..] == v;
    s := out[..];
  }

  method DerToRaw(b: seq<byte>) returns (r: Option<seq<byte>>)
    ensures r == Raw(b)
  {
    var at := ReadSequence(b);
    if at.None? { return None; }
    var x := Integer(b, at.value);
    if x.None? { return None; }
    var y := Integer(b, x.value.1);
    if y.None? { return None; }
    if y.value.1 != |b| { return None; }
    r := Some(x.value.0 + y.value.0);
  }

  // ---------- the numbers ----------

  lemma {:induction false} ZerosNumber(k: nat, v: seq<byte>)
    ensures Number(Zeros(k) + v) == Number(v)
  {
    NumberJoin(Zeros(k), v);
    ZerosNothing(k);
  }

  lemma {:induction false} ZerosNothing(k: nat)
    ensures Number(Zeros(k)) == 0
  {
    if k > 0 {
      ZerosNothing(k - 1);
      assert Zeros(k)[..k - 1] == Zeros(k - 1);
    }
  }

  lemma {:induction false} TrimNumber(v: seq<byte>)
    ensures Number(Trim(v)) == Number(v)
    ensures |Trim(v)| > 1 ==> Number(v) >= Pow256(|Trim(v)| - 1)
  {
    if |v| > 1 && v[0] == 0 {
      TrimNumber(v[1..]);
      assert Zeros(1) == [0] && v == Zeros(1) + v[1..];
      ZerosNumber(1, v[1..]);
    } else if |v| > 1 {
      assert v == [v[0]] + v[1..];
      NumberJoin([v[0]], v[1..]);
      assert Number([v[0]]) == v[0] as int by { assert [v[0]][..0] == []; }
      AtLeast(v[0] as int, Pow256(|v| - 1), Number(v[1..]));
    }
  }

  lemma AtLeast(a: int, p: nat, n: nat)
    requires a >= 1
    ensures a * p + n >= p
  {
    assert a * p == (a - 1) * p + p;
  }

  lemma {:induction false} PowGrows(j: nat, k: nat)
    requires j <= k
    ensures Pow256(j) <= Pow256(k)
  {
    if j < k { PowGrows(j, k - 1); }
  }

  /** Trimmed and padded, an integer is its number in the curve's size; it fits exactly when the number does. */
  lemma PaddedNumber(v: seq<byte>)
    ensures |Trim(v)| <= SIZE <==> Number(v) < Pow256(SIZE)
    ensures |Trim(v)| <= SIZE ==> Zeros(SIZE - |Trim(v)|) + Trim(v) == Spell(Number(v), SIZE)
  {
    hide Number, Spell, Pow256, Zeros;
    TrimNumber(v);
    if |Trim(v)| <= SIZE {
      var padded := Zeros(SIZE - |Trim(v)|) + Trim(v);
      ZerosNumber(SIZE - |Trim(v)|, Trim(v));
      SpellNumber(padded);
    } else {
      PowGrows(SIZE, |Trim(v)| - 1);
    }
  }

  // ---------- what is accepted ----------

  /** A signature as written: the octets of its two integers, and whether its length takes the long form. */
  datatype Signature = Signature(long: bool, r: seq<byte>, s: seq<byte>)

  /**
   * An INTEGER of the curve, its value unsigned: no sign bit, no wider than the
   * curve's octets and one zero before them.
   */
  predicate Fit(v: seq<byte>) {
    1 <= |v| <= SIZE + 1 && v[0] < 0x80 && Number(v) < Pow256(SIZE)
  }

  function PutInteger(v: seq<byte>): seq<byte> {
    [0x02, |v| % 256] + v
  }

  function Put(x: Signature): seq<byte> {
    var content := PutInteger(x.r) + PutInteger(x.s);
    [0x30] + (if x.long then [0x81] else []) + [|content| % 256] + content
  }

  lemma IntegerReads(b: seq<byte>, i: nat, v: seq<byte>)
    requires Fit(v) && Stands(b, i, PutInteger(v))
    ensures ReadInteger(b, i) == Some((Spell(Number(v), SIZE), i + 2 + |v|))
  {
    hide Number, Spell, Pow256, Zeros, Trim;
    StandsJoin(b, i, [0x02, |v| % 256], v);
    assert b[i] == b[i..i + 2][0] && b[i + 1] == b[i..i + 2][1];
    PaddedNumber(v);
  }

  lemma IntegerWritten(b: seq<byte>, i: nat) returns (v: seq<byte>)
    requires ReadInteger(b, i).Some?
    ensures Fit(v) && Stands(b, i, PutInteger(v)) && ReadInteger(b, i).value == (Spell(Number(v), SIZE), i + 2 + |v|)
  {
    hide Number, Spell, Pow256, Zeros, Trim;
    v := b[i + 2..i + 2 + b[i + 1] as int];
    PaddedNumber(v);
    assert b[i..i + 2] == [0x02, |v| % 256];
    StandsJoin(b, i, [0x02, |v| % 256], v);
  }

  /** The raw form of two numbers. */
  function RawOf(r: nat, s: nat): seq<byte> {
    Spell(r, SIZE) + Spell(s, SIZE)
  }

  /** Every signature written so is accepted, and keeps its two numbers. */
  lemma PutReads(x: Signature)
    requires Fit(x.r) && Fit(x.s)
    ensures Raw(Put(x)) == Some(RawOf(Number(x.r), Number(x.s)))
  {
    hide Number, Spell, Pow256, ReadInteger;
    var b, r, s := Put(x), PutInteger(x.r), PutInteger(x.s);
    var at := if x.long then 3 else 2;
    assert b[at..at + |r + s|] == r + s;
    assert Stands(b, at, r + s);
    StandsJoin(b, at, r, s);
    IntegerReads(b, at, x.r);
    IntegerReads(b, at + |r|, x.s);
    assert ReadSequence(b) == Some(at);
  }

  lemma RawWritten(b: seq<byte>) returns (x: Signature)
    requires Raw(b).Some?
    ensures Fit(x.r) && Fit(x.s) && Put(x) == b && Raw(b).value == RawOf(Number(x.r), Number(x.s))
  {
    hide Number, Spell, Pow256, ReadInteger;
    var at := ReadSequence(b).value;
    var r := IntegerWritten(b, at);
    var s := IntegerWritten(b, at + 2 + |r|);
    x := Signature(b[1] == 0x81, r, s);
    StandsJoin(b, at, PutInteger(r), PutInteger(s));
    assert b[at..|b|] == PutInteger(r) + PutInteger(s);
    assert b == b[..at] + b[at..];
    assert b[..at] == [0x30] + (if x.long then [0x81] else []) + [(|b| - at) % 256];
  }

  /**
   * Whatever is accepted is the two integers it denotes, padded; and every such
   * writing, in the short or the long form, with or without zeros before, is
   * accepted.
   */
  lemma RawExact(b: seq<byte>, raw: seq<byte>)
    ensures Raw(b) == Some(raw)
            <==> exists x: Signature :: Fit(x.r) && Fit(x.s) && Put(x) == b && raw == RawOf(Number(x.r), Number(x.s))
  {
    hide Raw, Put, Fit, RawOf;
    if Raw(b) == Some(raw) {
      var x := RawWritten(b);
    }
    forall x: Signature | Fit(x.r) && Fit(x.s) && Put(x) == b && raw == RawOf(Number(x.r), Number(x.s))
      ensures Raw(b) == Some(raw)
    {
      PutReads(x);
    }
  }

  // ---------- DER itself ----------

  /** The one content DER writes for a number. */
  function Content(n: nat): (v: seq<byte>)
    ensures v != [] && v[0] < 0x80
  {
    if n < 128 then [n] else Content(n / 256) + [n % 256]
  }

  lemma {:induction false} ContentIs(n: nat, k: nat)
    requires n < Pow256(k)
    ensures Number(Content(n)) == n && |Content(n)| <= k + 1
    ensures |Content(n)| > 1 && Content(n)[0] == 0 ==> Content(n)[1] >= 0x80
  {
    if n < 128 {
      assert Content(n)[..0] == [];
    } else {
      ContentIs(n / 256, k - 1);
      assert Content(n)[..|Content(n)| - 1] == Content(n / 256);
    }
  }

  /** The DER of any two numbers below 256^32 converts to those numbers, each in 32 octets. */
  lemma DerConverts(r: nat, s: nat)
    requires r < Pow256(SIZE) && s < Pow256(SIZE)
    ensures Raw(Put(Signature(false, Content(r), Content(s)))) == Some(RawOf(r, s))
  {
    hide Content, Raw, Put, RawOf, Pow256;
    ContentIs(r, SIZE);
    ContentIs(s, SIZE);
    PutReads(Signature(false, Content(r), Content(s)));
  }

  /** And the raw form gives the numbers back. */
  lemma RawKeeps(r: nat, s: nat)
    requires r < Pow256(SIZE) && s < Pow256(SIZE)
    ensures Number(RawOf(r, s)[..SIZE]) == r && Number(RawOf(r, s)[SIZE..]) == s && |RawOf(r, s)| == 2 * SIZE
  {
    hide Number, Pow256, Spell;
    NumberSpell(r, SIZE);
    NumberSpell(s, SIZE);
    assert RawOf(r, s)[..SIZE] == Spell(r, SIZE) && RawOf(r, s)[SIZE..] == Spell(s, SIZE);
  }
}
