/** base64url without padding, section 5 of RFC 4648 (worker/src/webauthn.ts `toB64url`, `fromB64url`). */
module Base64 {
  import opened Wrappers
  import opened Bytes

  type digit = x: int | 0 <= x < 64

  function Symbol(d: digit): char {
    if d < 26 then 'A' + d as char else if d < 52 then 'a' + (d - 26) as char else if d < 62 then '0' + (d - 52) as char
    else if d == 62 then '-' else '_'
  }

  function DigitOf(c: char): Option<digit> {
    if 'A' <= c <= 'Z' then Some(c as int - 'A' as int)
    else if 'a' <= c <= 'z' then Some(c as int - 'a' as int + 26)
    else if '0' <= c <= '9' then Some(c as int - '0' as int + 52)
    else if c == '-' then Some(62)
    else if c == '_' then Some(63)
    else None
  }

  function Four(x: byte, y: byte, z: byte): (d: seq<digit>)
    ensures |d| == 4
  {
    [x / 4, x as int % 4 * 16 + y as int / 16, y as int % 16 * 4 + z as int / 64, z % 64]
  }

  function Three(p: digit, q: digit, r: digit, s: digit): (b: seq<byte>)
    ensures |b| == 3
  {
    [p as int * 4 + q as int / 16, q as int % 16 * 16 + r as int / 4, r as int % 4 * 64 + s as int]
  }

  function ToDigits(b: seq<byte>): (d: seq<digit>)
    ensures |d| % 4 != 1
  {
    if |b| == 0 then []
    else if |b| == 1 then Four(b[0], 0, 0)[..2]
    else if |b| == 2 then Four(b[0], b[1], 0)[..3]
    else Four(b[0], b[1], b[2]) + ToDigits(b[3..])
  }

  /** The bytes of the digits; the bits a last digit has over are dropped. */
  function FromDigits(d: seq<digit>): seq<byte>
    requires |d| % 4 != 1
  {
    if |d| == 0 then []
    else if |d| == 2 then Three(d[0], d[1], 0, 0)[..1]
    else if |d| == 3 then Three(d[0], d[1], d[2], 0)[..2]
    else Three(d[0], d[1], d[2], d[3]) + FromDigits(d[4..])
  }

  function Symbols(d: seq<digit>): (s: string)
    ensures |s| == |d| && forall i | 0 <= i < |d| :: s[i] == Symbol(d[i])
  {
    if d == [] then [] else [Symbol(d[0])] + Symbols(d[1..])
  }

  function Digits(s: string): (r: Option<seq<digit>>)
    ensures r.Some? <==> forall i | 0 <= i < |s| :: DigitOf(s[i]).Some?
    ensures r.Some? ==> |r.value| == |s| && forall i | 0 <= i < |s| :: DigitOf(s[i]) == Some(r.value[i])
  {
    if s == [] then Some([])
    else
      var rest := Digits(s[1..]);
      if DigitOf(s[0]).None? || rest.None? then None else Some([DigitOf(s[0]).value] + rest.value)
  }

  function To(b: seq<byte>): string {
    Symbols(ToDigits(b))
  }

  /** Nothing for a character outside the alphabet, or a length no encoder writes. */
  function From(s: string): Option<seq<byte>> {
    var d := Digits(s);
    if d.None? || |s| % 4 == 1 then None else Some(FromDigits(d.value))
  }

  /** The bits a last digit has over are zero. */
  predicate Whole(d: seq<digit>) {
    (|d| % 4 == 2 ==> d[|d| - 1] as int % 16 == 0) && (|d| % 4 == 3 ==> d[|d| - 1] as int % 4 == 0)
  }

  lemma ThreeOfFour(x: byte, y: byte, z: byte)
    ensures var d := Four(x, y, z); Three(d[0], d[1], d[2], d[3]) == [x, y, z]
  {
  }

  /** Four digits are three bytes of the same number. */
  lemma SameNumber(x: byte, y: byte, z: byte)
    ensures var d := Four(x, y, z);
            d[0] as int * 262144 + d[1] as int * 4096 + d[2] as int * 64 + d[3] as int
            == x as int * 65536 + y as int * 256 + z as int
  {
  }

  /** Splitting at four, at sixteen and at sixty-four takes back what was put together. */
  lemma Splits(x: nat, y: nat, m: nat)
    requires y < m && m in {4, 16, 64}
    ensures (x * m + y) / m == x && (x * m + y) % m == y
  {
  }

  lemma FourOfThree(p: digit, q: digit, r: digit, s: digit)
    ensures var b := Three(p, q, r, s); Four(b[0], b[1], b[2]) == [p, q, r, s]
  {
    Splits(p, q as int / 16, 4);
    Splits(q as int % 16, r as int / 4, 16);
    Splits(r as int % 4, s, 64);
  }

  lemma FourEnds(x: byte, y: byte)
    ensures Four(x, y, 0)[3] == 0 && Four(x, y, 0)[2] as int % 4 == 0
    ensures y == 0 ==> Four(x, y, 0)[2] == 0 && Four(x, y, 0)[1] as int % 16 == 0
  {
  }

  lemma ThreeEnds(p: digit, q: digit, r: digit)
    ensures r as int % 4 == 0 ==> Three(p, q, r, 0)[2] == 0
    ensures q as int % 16 == 0 && r == 0 ==> Three(p, q, r, 0)[1] == 0
  {
  }

  lemma ShortBytesBack(b: seq<byte>)
    requires |b| < 3
    ensures FromDigits(ToDigits(b)) == b && Whole(ToDigits(b))
  {
    hide Four, Three;
    if b != [] {
      var y := if |b| == 2 then b[1] else 0;
      FourEnds(b[0], y);
      ThreeOfFour(b[0], y, 0);
      assert ToDigits(b) == Four(b[0], y, 0)[..|b| + 1];
    }
  }

  lemma ShortDigitsBack(d: seq<digit>)
    requires |d| < 4 && |d| != 1 && Whole(d)
    ensures ToDigits(FromDigits(d)) == d
  {
    hide Four, Three;
    if d != [] {
      var r := if |d| == 3 then d[2] else 0;
      ThreeEnds(d[0], d[1], r);
      FourOfThree(d[0], d[1], r, 0);
      assert FromDigits(d) == Three(d[0], d[1], r, 0)[..|d| - 1];
    }
  }

  lemma LongBytes(b: seq<byte>)
    requires |b| >= 3
    ensures ToDigits(b) == Four(b[0], b[1], b[2]) + ToDigits(b[3..]) && ToDigits(b)[4..] == ToDigits(b[3..])
    ensures Whole(ToDigits(b[3..])) ==> Whole(ToDigits(b))
  {
    hide Four;
    var rest := ToDigits(b[3..]);
    assert ToDigits(b) == Four(b[0], b[1], b[2]) + rest;
    WholeAfter(Four(b[0], b[1], b[2]), rest);
  }

  /** Four digits before change nothing about the last. */
  lemma WholeAfter(four: seq<digit>, rest: seq<digit>)
    requires |four| == 4
    ensures (four + rest)[4..] == rest && (Whole(rest) <==> Whole(four + rest)) && |four + rest| % 4 == |rest| % 4
  {
    assert |four + rest| == 4 + |rest|;
    if rest != [] { assert (four + rest)[|four + rest| - 1] == rest[|rest| - 1]; }
  }

  lemma LongDigits(d: seq<digit>)
    requires |d| % 4 != 1 && |d| >= 4
    ensures |d[4..]| % 4 != 1 && FromDigits(d) == Three(d[0], d[1], d[2], d[3]) + FromDigits(d[4..])
            && FromDigits(d)[3..] == FromDigits(d[4..])
    ensures Whole(d) ==> Whole(d[4..])
  {
    hide Three;
    assert d == d[..4] + d[4..];
    WholeAfter(d[..4], d[4..]);
  }

  lemma {:induction false} BytesBack(b: seq<byte>)
    ensures FromDigits(ToDigits(b)) == b && Whole(ToDigits(b))
  {
    hide *;
    if |b| < 3 {
      ShortBytesBack(b);
    } else {
      BytesBack(b[3..]);
      ThreeOfFour(b[0], b[1], b[2]);
      LongBytes(b);
      LongDigits(ToDigits(b));
      assert b == [b[0], b[1], b[2]] + b[3..];
    }
  }

  lemma {:induction false} DigitsBack(d: seq<digit>)
    requires |d| % 4 != 1 && Whole(d)
    ensures ToDigits(FromDigits(d)) == d
  {
    hide *;
    if |d| < 4 {
      ShortDigitsBack(d);
    } else {
      LongDigits(d);
      DigitsBack(d[4..]);
      FourOfThree(d[0], d[1], d[2], d[3]);
      LongBytes(FromDigits(d));
      assert d == [d[0], d[1], d[2], d[3]] + d[4..];
    }
  }

  lemma SymbolBack(d: digit)
    ensures DigitOf(Symbol(d)) == Some(d)
  {
  }

  lemma DigitBack(c: char)
    requires DigitOf(c).Some?
    ensures Symbol(DigitOf(c).value) == c
  {
  }

  lemma StringBack(s: string)
    requires Digits(s).Some?
    ensures Symbols(Digits(s).value) == s
  {
    var d := Digits(s).value;
    forall i | 0 <= i < |s| ensures Symbols(d)[i] == s[i] {
      DigitBack(s[i]);
    }
  }

  lemma DigitsOfSymbols(d: seq<digit>)
    ensures Digits(Symbols(d)) == Some(d)
  {
    forall i | 0 <= i < |d| ensures DigitOf(Symbols(d)[i]) == Some(d[i]) {
      SymbolBack(d[i]);
    }
    assert Digits(Symbols(d)).value == d;
  }

  /** Every byte string comes back. */
  lemma FromTo(b: seq<byte>)
    ensures From(To(b)) == Some(b)
  {
    DigitsOfSymbols(ToDigits(b));
    BytesBack(b);
  }

  /** An accepted string comes back exactly when no bit of its last character is dropped. */
  lemma ToFrom(s: string)
    requires From(s).Some?
    ensures To(From(s).value) == s <==> Whole(Digits(s).value)
  {
    var d := Digits(s).value;
    StringBack(s);
    if Whole(d) {
      DigitsBack(d);
    }
    if To(From(s).value) == s {
      DigitsOfSymbols(ToDigits(FromDigits(d)));
      BytesBack(FromDigits(d));
    }
  }

  /** Two strings may give the same bytes. */
  lemma BitsDropped()
    ensures From("AA") == From("AB") == Some([0])
  {
    hide Four, ToDigits, Three;
    DigitsOfSymbols([0, 0]);
    DigitsOfSymbols([0, 1]);
    assert Symbols([0, 0]) == "AA" && Symbols([0, 1]) == "AB";
    ThreeDrops(0);
    ThreeDrops(1);
  }

  lemma ThreeDrops(q: digit)
    requires q < 16
    ensures Three(0, q, 0, 0)[..1] == [0]
  {
  }

  /** The alphabet of section 5, in the order of its digits. */
  const UPPER: string := "ABCDEFGHIJKLMNOPQRSTUVWXYZ"
  const LOWER: string := "abcdefghijklmnopqrstuvwxyz"
  const OTHERS: string := "0123456789-_"
  const ALPHABET: string := UPPER + LOWER + OTHERS

  /** Each digit is written as the alphabet has it, and no other character is read. */
  lemma Alphabet(d: digit, c: char)
    ensures |ALPHABET| == 64 && Symbol(d) == ALPHABET[d]
    ensures DigitOf(c) == Some(d) <==> c == ALPHABET[d]
    ensures DigitOf(c).Some? <==> c in ALPHABET
  {
    LettersOf(d);
    InAlphabet(c);
  }

  lemma LettersOf(d: digit)
    ensures |ALPHABET| == 64 && Symbol(d) == ALPHABET[d] && DigitOf(Symbol(d)) == Some(d)
  {
    if d < 26 {
      Uppers(d);
    } else if d < 52 {
      Lowers(d - 26);
    } else {
      OthersAre(d - 52);
    }
    Pieces(d);
  }

  lemma Pieces(d: digit)
    ensures |ALPHABET| == 64
    ensures ALPHABET[d] == if d < 26 then UPPER[d] else if d < 52 then LOWER[d - 26] else OTHERS[d - 52]
  {
  }

  lemma Uppers(d: nat)
    requires d < 26
    ensures UPPER[d] == 'A' + d as char
  {
  }

  lemma Lowers(d: nat)
    requires d < 26
    ensures LOWER[d] == 'a' + d as char
  {
  }

  lemma OthersAre(d: nat)
    requires d < 12
    ensures OTHERS[d] == if d < 10 then '0' + d as char else if d == 10 then '-' else '_'
  {
  }

  lemma InAlphabet(c: char)
    ensures DigitOf(c).Some? ==> ALPHABET[DigitOf(c).value] == c
    ensures c in ALPHABET ==> DigitOf(c).Some?
  {
    if DigitOf(c).Some? {
      LettersOf(DigitOf(c).value);
      assert Symbol(DigitOf(c).value) == c;
    }
    if c in ALPHABET {
      var i :| 0 <= i < |ALPHABET| && ALPHABET[i] == c;
      LettersOf(i);
    }
  }
}
