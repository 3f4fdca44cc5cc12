/**
 * The CBOR decoder (worker/src/webauthn.ts `decodeCbor`, `decodeCborAll`): a
 * subset of RFC 8949 section 3, items of definite length with integers an
 * IEEE double counts exactly.
 */
module Cbor {
  import opened Wrappers
  import opened Bytes
  import Texts

  const MAX_DEPTH: nat := 16
  const TWO32: nat := 0x1_0000_0000
  const TWO53: nat := 0x20_0000_0000_0000

  datatype Error =
    | TooDeep | EndedEarly | PastInteger | Indefinite | Reserved
    | NotUtf8 | KeyKind | KeyTwice | Tagged | Simple

  /** A decoded value; a table keeps its entries in order, each key once. */
  datatype Item =
    | Int(n: int) | Octets(b: seq<byte>) | Text(t: seq<Texts.Scalar>)
    | List(items: seq<Item>) | Table(entries: seq<Entry>)
    | Truth(v: bool) | Null

  datatype Entry = Entry(key: Item, value: Item)

  datatype Head = Head(major: nat, info: nat, arg: nat, next: nat)

  /** A value and where it ends. */
  datatype Decoded<T> = Decoded(value: T, end: nat)

  /** An item's first byte and its argument, in whichever width the byte announces. */
  function ReadHead(b: seq<byte>, at: nat): (r: Result<Head, Error>)
    requires at < |b|
    ensures r.Ok? ==> at < r.value.next <= |b|
  {
    var major, info, i := b[at] as int / 32, b[at] as int % 32, at + 1;
    if info < 24 then Ok(Head(major, info, info, i))
    else if info == 24 then if i + 1 > |b| then Err(EndedEarly) else Ok(Head(major, info, b[i] as int, i + 1))
    else if info == 25 then if i + 2 > |b| then Err(EndedEarly) else Ok(Head(major, info, U16(b, i), i + 2))
    else if info == 26 then if i + 4 > |b| then Err(EndedEarly) else Ok(Head(major, info, U32(b, i), i + 4))
    else if info == 27 then
      if i + 8 > |b| then Err(EndedEarly)
      else if U32(b, i) > 0x1fffff then Err(PastInteger)
      else Ok(Head(major, info, U32(b, i) * TWO32 + U32(b, i + 4), i + 8))
    else Err(if info == 31 then Indefinite else Reserved)
  }

  function KeysOf(entries: seq<Entry>): set<Item> {
    set e <- entries :: e.key
  }

  /** The item at `at`. */
  function Decode(b: seq<byte>, at: nat, depth: nat): (r: Result<Decoded<Item>, Error>)
    requires depth <= MAX_DEPTH + 1
    ensures r.Ok? ==> at < r.value.end <= |b|
    decreases MAX_DEPTH + 2 - depth, 0, 0
  {
    if depth > MAX_DEPTH then Err(TooDeep)
    else if at >= |b| then Err(EndedEarly)
    else
      var h := ReadHead(b, at);
      if h.Err? then Err(h.error) else Content(b, h.value, depth)
  }

  /** What stands behind a head. */
  function Content(b: seq<byte>, h: Head, depth: nat): (r: Result<Decoded<Item>, Error>)
    requires depth <= MAX_DEPTH && h.next <= |b|
    ensures r.Ok? ==> h.next <= r.value.end <= |b|
    decreases MAX_DEPTH + 1 - depth, 2, 0
  {
    match h.major
    case 0 => Ok(Decoded(Int(h.arg), h.next))
    case 1 => Ok(Decoded(Int(-1 - h.arg), h.next))
    case 2 => if h.next + h.arg > |b| then Err(EndedEarly)
              else Ok(Decoded(Octets(b[h.next..h.next + h.arg]), h.next + h.arg))
    case 3 =>
      if h.next + h.arg > |b| then Err(EndedEarly)
      else
        var t := Texts.Read(b[h.next..h.next + h.arg]);
        if t.None? then Err(NotUtf8) else Ok(Decoded(Text(t.value), h.next + h.arg))
    case 4 =>
      var r := Items(b, h.next, depth + 1, h.arg);
      if r.Err? then Err(r.error) else Ok(Decoded(List(r.value.value), r.value.end))
    case 5 =>
      var r := Entries(b, h.next, depth + 1, h.arg);
      if r.Err? then Err(r.error) else Ok(Decoded(Table(r.value.value), r.value.end))
    case 6 => Err(Tagged)
    case _ =>
      if h.info == 20 then Ok(Decoded(Truth(false), h.next))
      else if h.info == 21 then Ok(Decoded(Truth(true), h.next))
      else if h.info == 22 then Ok(Decoded(Null, h.next))
      else Err(Simple)
  }

  /** The first `n` items of an array. */
  function Items(b: seq<byte>, at: nat, depth: nat, n: nat): (r: Result<Decoded<seq<Item>>, Error>)
    requires depth <= MAX_DEPTH + 1 && at <= |b|
    ensures r.Ok? ==> at <= r.value.end <= |b|
    decreases MAX_DEPTH + 2 - depth, 1, n
  {
    if n == 0 then Ok(Decoded([], at))
    else
      var r := Items(b, at, depth, n - 1);
      if r.Err? then r else NextItem(b, depth, r.value)
  }

  /** One more item. */
  function NextItem(b: seq<byte>, depth: nat, so: Decoded<seq<Item>>): (r: Result<Decoded<seq<Item>>, Error>)
    requires depth <= MAX_DEPTH + 1 && so.end <= |b|
    ensures r.Ok? ==> so.end <= r.value.end <= |b|
    decreases MAX_DEPTH + 2 - depth, 1, 0
  {
    var x := Decode(b, so.end, depth);
    if x.Err? then Err(x.error) else Ok(Decoded(so.value + [x.value.value], x.value.end))
  }

  /** The first `n` entries of a map. */
  function Entries(b: seq<byte>, at: nat, depth: nat, n: nat): (r: Result<Decoded<seq<Entry>>, Error>)
    requires depth <= MAX_DEPTH + 1 && at <= |b|
    ensures r.Ok? ==> at <= r.value.end <= |b|
    decreases MAX_DEPTH + 2 - depth, 1, n
  {
    if n == 0 then Ok(Decoded([], at))
    else
      var r := Entries(b, at, depth, n - 1);
      if r.Err? then r else NextEntry(b, depth, r.value)
  }

  /** One more entry: its key an integer or a text not seen yet. */
  function NextEntry(b: seq<byte>, depth: nat, so: Decoded<seq<Entry>>): (r: Result<Decoded<seq<Entry>>, Error>)
    requires depth <= MAX_DEPTH + 1 && so.end <= |b|
    ensures r.Ok? ==> so.end <= r.value.end <= |b|
    decreases MAX_DEPTH + 2 - depth, 1, 0
  {
    var k := Decode(b, so.end, depth);
    if k.Err? then Err(k.error)
    else if !k.value.value.Int? && !k.value.value.Text? then Err(KeyKind)
    else if k.value.value in KeysOf(so.value) then Err(KeyTwice)
    else
      var v := Decode(b, k.value.end, depth);
      if v.Err? then Err(v.error) else Ok(Decoded(so.value + [Entry(k.value.value, v.value.value)], v.value.end))
  }

  datatype AllError = Cbor(error: Error) | After

  function DecodeAll(b: seq<byte>): Result<Item, AllError> {
    var r := Decode(b, 0, 0);
    if r.Err? then Err(Cbor(r.error)) else if r.value.end != |b| then Err(After) else Ok(r.value.value)
  }

  // ---------- the decoder's own loops ----------

  /** The decoder as it runs: a cursor, and loops over what an array or a map announces. */
  method DecodeCbor(b: seq<byte>, at: nat, depth: nat) returns (r: Result<Decoded<Item>, Error>)
    requires depth <= MAX_DEPTH + 1
    ensures r == Decode(b, at, depth)
    decreases MAX_DEPTH + 1 - depth, 2
  {
    if depth > MAX_DEPTH { return Err(TooDeep); }
    if at >= |b| { return Err(EndedEarly); }
    var h := ReadHead(b, at);
    if h.Err? { return Err(h.error); }
    if h.value.major == 4 {
      r := DecodeArray(b, h.value.next, depth, h.value.arg);
    } else if h.value.major == 5 {
      r := DecodeMap(b, h.value.next, depth, h.value.arg);
    } else {
      r := Content(b, h.value, depth);
    }
  }

  method DecodeArray(b: seq<byte>, at: nat, depth: nat, arg: nat) returns (r: Result<Decoded<Item>, Error>)
    requires depth <= MAX_DEPTH && at <= |b|
    ensures var xs := Items(b, at, depth + 1, arg);
            r == if xs.Err? then Err(xs.error) else Ok(Decoded(List(xs.value.value), xs.value.end))
    decreases MAX_DEPTH + 1 - depth, 0
  {
    var out: seq<Item>, i: nat := [], at;
    for n := 0 to arg
      invariant i <= |b| && Items(b, at, depth + 1, n) == Ok(Decoded(out, i))
    {
      var item := DecodeCbor(b, i, depth + 1);
      if item.Err? {
        ItemsFail(b, at, depth + 1, n + 1, arg, item.error);
        return Err(item.error);
      }
      out := out + [item.value.value];
      i := item.value.end;
    }
    r := Ok(Decoded(List(out), i));
  }

  method DecodeMap(b: seq<byte>, at: nat, depth: nat, arg: nat) returns (r: Result<Decoded<Item>, Error>)
    requires depth <= MAX_DEPTH && at <= |b|
    ensures var es := Entries(b, at, depth + 1, arg);
            r == if es.Err? then Err(es.error) else Ok(Decoded(Table(es.value.value), es.value.end))
    decreases MAX_DEPTH + 1 - depth, 1
  {
    var out: seq<Entry>, i: nat := [], at;
    for n := 0 to arg
      invariant i <= |b| && Entries(b, at, depth + 1, n) == Ok(Decoded(out, i))
    {
      var next := DecodeEntry(b, depth, Decoded(out, i));
      if next.Err? {
        EntriesFail(b, at, depth + 1, n + 1, arg, next.error);
        return Err(next.error);
      }
      out := next.value.value;
      i := next.value.end;
    }
    r := Ok(Decoded(Table(out), i));
  }

  method DecodeEntry(b: seq<byte>, depth: nat, so: Decoded<seq<Entry>>) returns (r: Result<Decoded<seq<Entry>>, Error>)
    requires depth <= MAX_DEPTH && so.end <= |b|
    ensures r == NextEntry(b, depth + 1, so)
    decreases MAX_DEPTH + 1 - depth, 0
  {
    var k := DecodeCbor(b, so.end, depth + 1);
    if k.Err? { return Err(k.error); }
    if !k.value.value.Int? && !k.value.value.Text? { return Err(KeyKind); }
    if k.value.value in KeysOf(so.value) { return Err(KeyTwice); }
    var v := DecodeCbor(b, k.value.end, depth + 1);
    if v.Err? { return Err(v.error); }
    r := Ok(Decoded(so.value + [Entry(k.value.value, v.value.value)], v.value.end));
  }

  lemma {:induction false} ItemsFail(b: seq<byte>, at: nat, depth: nat, m: nat, n: nat, e: Error)
    requires depth <= MAX_DEPTH + 1 && at <= |b| && m <= n && Items(b, at, depth, m) == Err(e)
    ensures Items(b, at, depth, n) == Err(e)
  {
    if m < n { ItemsFail(b, at, depth, m, n - 1, e); }
  }

  lemma {:induction false} EntriesFail(b: seq<byte>, at: nat, depth: nat, m: nat, n: nat, e: Error)
    requires depth <= MAX_DEPTH + 1 && at <= |b| && m <= n && Entries(b, at, depth, m) == Err(e)
    ensures Entries(b, at, depth, n) == Err(e)
  {
    if m < n { EntriesFail(b, at, depth, m, n - 1, e); }
  }
}
