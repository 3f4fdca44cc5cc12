/** Bytes, and the big-endian numbers they spell (worker/src/webauthn.ts). */
module Bytes {
  type byte = x: int | 0 <= x < 256

  function Pow256(k: nat): (p: nat)
    ensures p > 0
  {
    if k == 0 then 1 else Pow256(k - 1) * 256
  }

  /** The number `s` spells, most significant byte first. */
  function Number(s: seq<byte>): nat {
    if s == [] then 0 else Number(s[..|s| - 1]) * 256 + s[|s| - 1] as int
  }

  /** `n` in `k` bytes, most significant first; what does not fit is dropped. */
  function Spell(n: nat, k: nat): (s: seq<byte>)
    ensures |s| == k
  {
    if k == 0 then [] else Spell(n / 256, k - 1) + [n % 256]
  }

  function U16(b: seq<byte>, i: nat): nat
    requires i + 2 <= |b|
  {
    b[i] as int * 256 + b[i + 1] as int
  }

  function U32(b: seq<byte>, i: nat): nat
    requires i + 4 <= |b|
  {
    b[i] as int * 16777216 + (b[i + 1] as int * 65536 + b[i + 2] as int * 256 + b[i + 3] as int)
  }

  lemma {:induction false} NumberSpell(n: nat, k: nat)
    requires n < Pow256(k)
    ensures Number(Spell(n, k)) == n
  {
    if k > 0 {
      NumberSpell(n / 256, k - 1);
      assert Spell(n, k)[..k - 1] == Spell(n / 256, k - 1);
    }
  }

  lemma {:induction false} SpellNumber(s: seq<byte>)
    ensures Number(s) < Pow256(|s|) && Spell(Number(s), |s|) == s
  {
    if s != [] {
      SpellNumber(s[..|s| - 1]);
      assert s == s[..|s| - 1] + [s[|s| - 1]];
    }
  }

  lemma {:induction false} NumberJoin(s: seq<byte>, t: seq<byte>)
    ensures Number(s + t) == Number(s) * Pow256(|t|) + Number(t)
  {
    if t == [] {
      assert s + t == s;
    } else {
      NumberJoin(s, t[..|t| - 1]);
      assert (s + t)[..|s + t| - 1] == s + t[..|t| - 1];
    }
  }

  lemma U16Is(b: seq<byte>, i: nat)
    requires i + 2 <= |b|
    ensures U16(b, i) == Number(b[i..i + 2])
  {
    var two, one := b[i..i + 2], b[i..i + 1];
    assert two[..1] == one && one[..0] == [];
    assert Number(one) == one[0] as int;
  }

  lemma U32Is(b: seq<byte>, i: nat)
    requires i + 4 <= |b|
    ensures U32(b, i) == Number(b[i..i + 4])
  {
    assert b[i..i + 4] == b[i..i + 2] + b[i + 2..i + 4];
    NumberJoin(b[i..i + 2], b[i + 2..i + 4]);
    U16Is(b, i);
    U16Is(b, i + 2);
    assert Pow256(2) == 65536;
  }
}
