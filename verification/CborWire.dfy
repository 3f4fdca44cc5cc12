/**
 * What the CBOR decoder accepts, as a grammar of its own (RFC 8949 section 3):
 * an item as a writer puts it on the wire, head width by head width. The
 * decoder is sound and complete for it.
 */
module CborWire {
  import opened Wrappers
  import opened Bytes
  import opened Cbor
  import Texts

  /** How a head writes its argument: in the first byte, or in one, two, four or eight bytes after it. */
  datatype Width = Direct | One | Two | Four | Eight

  /** An item as written; a text carries its scalar values, a leading byte order mark included. */
  datatype Wire =
    | WInt(w: Width, neg: bool, arg: nat) | WOctets(w: Width, b: seq<byte>) | WText(w: Width, t: seq<Texts.Scalar>)
    | WList(w: Width, items: seq<Wire>) | WTable(w: Width, entries: seq<WEntry>) | WTruth(v: bool) | WNull

  datatype WEntry = WEntry(key: Wire, value: Wire)

  function Size(w: Width): nat {
    match w case Direct => 0 case One => 1 case Two => 2 case Four => 4 case Eight => 8
  }

  function Code(w: Width): nat {
    match w case Direct => 0 case One => 24 case Two => 25 case Four => 26 case Eight => 27
  }

  predicate Fits(w: Width, arg: nat) {
    match w
    case Direct => arg < 24
    case One => arg < 256
    case Two => arg < 65536
    case Four => arg < 0x1_0000_0000
    case Eight => arg < 0x20_0000_0000_0000
  }

  function PutHead(major: nat, w: Width, arg: nat): (s: seq<byte>)
    ensures |s| == 1 + Size(w)
  {
    [(major * 32 + if w == Direct then arg else Code(w)) % 256] + Spell(arg, Size(w))
  }

  function Write(x: Wire): seq<byte> {
    match x
    case WInt(w, neg, arg) => PutHead(if neg then 1 else 0, w, arg)
    case WOctets(w, b) => PutHead(2, w, |b|) + b
    case WText(w, t) => PutHead(3, w, |Texts.Encode(t)|) + Texts.Encode(t)
    case WList(w, items) => PutHead(4, w, |items|) + WriteAll(items)
    case WTable(w, entries) => PutHead(5, w, |entries|) + WriteEntries(entries)
    case WTruth(v) => [if v then 0xF5 else 0xF4]
    case WNull => [0xF6]
  }

  function WriteAll(xs: seq<Wire>): seq<byte> {
    if xs == [] then [] else WriteAll(xs[..|xs| - 1]) + Write(xs[|xs| - 1])
  }

  function WriteEntries(es: seq<WEntry>): seq<byte> {
    if es == [] then [] else WriteEntries(es[..|es| - 1]) + WriteEntry(es[|es| - 1])
  }

  function WriteEntry(e: WEntry): seq<byte> {
    Write(e.key) + Write(e.value)
  }

  /** The value the writer meant, as the decoder gives it: a text without its byte order mark. */
  function Means(x: Wire): Item {
    match x
    case WInt(_, neg, arg) => Int(if neg then -1 - arg else arg)
    case WOctets(_, b) => Octets(b)
    case WText(_, t) => Text(Texts.Strip(t))
    case WList(_, items) => List(MeansAll(items))
    case WTable(_, entries) => Table(MeansEntries(entries))
    case WTruth(v) => Truth(v)
    case WNull => Null
  }

  function MeansAll(xs: seq<Wire>): seq<Item> {
    if xs == [] then [] else MeansAll(xs[..|xs| - 1]) + [Means(xs[|xs| - 1])]
  }

  function MeansEntries(es: seq<WEntry>): seq<Entry> {
    if es == [] then [] else MeansEntries(es[..|es| - 1]) + [MeansEntry(es[|es| - 1])]
  }

  function MeansEntry(e: WEntry): Entry {
    Entry(Means(e.key), Means(e.value))
  }

  /**
   * The items the pool takes: arguments in their width, keys integers or texts and
   * each once, nested no deeper than the limit.
   */
  predicate Supported(x: Wire, depth: nat) {
    depth <= 16 &&
    match x
    case WInt(w, _, arg) => Fits(w, arg)
    case WOctets(w, b) => Fits(w, |b|)
    case WText(w, t) => Fits(w, |Texts.Encode(t)|)
    case WList(w, items) => Fits(w, |items|) && SupportedAll(items, depth + 1)
    case WTable(w, entries) => Fits(w, |entries|) && SupportedEntries(entries, depth + 1)
    case WTruth(_) => true
    case WNull => true
  }

  predicate SupportedAll(xs: seq<Wire>, depth: nat) {
    xs == [] || (SupportedAll(xs[..|xs| - 1], depth) && Supported(xs[|xs| - 1], depth))
  }

  predicate SupportedEntries(es: seq<WEntry>, depth: nat) {
    es == [] ||
    var e := es[|es| - 1];
    && SupportedEntries(es[..|es| - 1], depth) && SupportedEntry(e, depth)
    && Means(e.key) !in KeysOf(MeansEntries(es[..|es| - 1]))
  }

  predicate SupportedEntry(e: WEntry, depth: nat) {
    (e.key.WInt? || e.key.WText?) && Supported(e.key, depth) && Supported(e.value, depth)
  }

  /** `s` stands in `b` at `at`. */
  predicate Stands(b: seq<byte>, at: nat, s: seq<byte>) {
    at + |s| <= |b| && b[at..at + |s|] == s
  }

  lemma StandsJoin(b: seq<byte>, at: nat, s: seq<byte>, t: seq<byte>)
    ensures Stands(b, at, s + t) <==> Stands(b, at, s) && Stands(b, at + |s|, t)
  {
    if at + |s| + |t| <= |b| {
      assert b[at..at + |s| + |t|] == b[at..at + |s|] + b[at + |s|..at + |s| + |t|];
      assert (s + t)[..|s|] == s && (s + t)[|s|..] == t;
    }
  }

  // ---------- heads ----------

  lemma Powers()
    ensures Pow256(0) == 1 && Pow256(1) == 256 && Pow256(2) == 65536 && Pow256(4) == TWO32 && Pow256(8) == TWO32 * TWO32
  {
    assert Pow256(3) == 16777216 && Pow256(5) == 256 * TWO32 && Pow256(6) == 65536 * TWO32
           && Pow256(7) == 16777216 * TWO32;
  }

  lemma U64Is(b: seq<byte>, i: nat)
    requires i + 8 <= |b|
    ensures U32(b, i) * TWO32 + U32(b, i + 4) == Number(b[i..i + 8])
  {
    assert b[i..i + 8] == b[i..i + 4] + b[i + 4..i + 8];
    NumberJoin(b[i..i + 4], b[i + 4..i + 8]);
    U32Is(b, i);
    U32Is(b, i + 4);
    Powers();
  }

  /** The number after the first byte, in the width that byte announces. */
  lemma ArgumentIs(b: seq<byte>, at: nat, w: Width, arg: nat)
    requires w != Direct && Stands(b, at, Spell(arg, Size(w))) && Fits(w, arg)
    ensures Number(b[at..at + Size(w)]) == arg
  {
    Powers();
    NumberSpell(arg, Size(w));
  }

  lemma FirstByte(b: seq<byte>, at: nat, major: nat, w: Width, arg: nat)
    requires major < 8 && Fits(w, arg) && Stands(b, at, PutHead(major, w, arg))
    ensures at < |b| && b[at] as int / 32 == major && b[at] as int % 32 == (if w == Direct then arg else Code(w))
    ensures Stands(b, at + 1, Spell(arg, Size(w)))
  {
    var first := [(major * 32 + if w == Direct then arg else Code(w)) % 256];
    StandsJoin(b, at, first, Spell(arg, Size(w)));
    assert b[at] == b[at..at + 1][0] == first[0];
  }

  /** Every head a writer may choose reads back. */
  lemma HeadComplete(b: seq<byte>, at: nat, major: nat, w: Width, arg: nat)
    requires major < 8 && Fits(w, arg) && Stands(b, at, PutHead(major, w, arg))
    ensures at < |b| && ReadHead(b, at) == Ok(Head(major, if w == Direct then arg else Code(w), arg, at + 1 + Size(w)))
  {
    hide PutHead, Spell, Number, U16, U32, Stands;
    FirstByte(b, at, major, w, arg);
    if w != Direct {
      StandsFits(b, at + 1, Spell(arg, Size(w)));
      ArgumentIs(b, at + 1, w, arg);
      HeadNumber(b, at + 1, w);
      if w == Eight {
        LowPart(b, at + 5);
        HighPart(U32(b, at + 1), U32(b, at + 5));
      }
    }
  }

  lemma StandsFits(b: seq<byte>, at: nat, s: seq<byte>)
    requires Stands(b, at, s)
    ensures at + |s| <= |b|
  {
  }

  lemma LowPart(b: seq<byte>, i: nat)
    requires i + 4 <= |b|
    ensures U32(b, i) < TWO32
  {
  }

  function WidthOf(info: nat): Width {
    if info < 24 then Direct
    else if info == 24 then One
    else if info == 25 then Two
    else if info == 26 then Four
    else Eight
  }

  /** And every head read was written in some width that holds it. */
  lemma HeadSound(b: seq<byte>, at: nat)
    requires at < |b| && ReadHead(b, at).Ok?
    ensures var h, w := ReadHead(b, at).value, WidthOf(ReadHead(b, at).value.info);
            && h.major < 8 && Fits(w, h.arg) && h.next == at + 1 + Size(w) && Stands(b, at, PutHead(h.major, w, h.arg))
            && h.info == if w == Direct then h.arg else Code(w)
  {
    hide Spell, Number, U16, U32;
    var h := ReadHead(b, at).value;
    var w := WidthOf(h.info);
    Powers();
    if w != Direct {
      HeadNumber(b, at + 1, w);
      SpellNumber(b[at + 1..at + 1 + Size(w)]);
      if w == Eight {
        LowPart(b, at + 5);
        HighPart(U32(b, at + 1), U32(b, at + 5));
      }
    }
    assert Spell(h.arg, Size(w)) == b[at + 1..at + 1 + Size(w)] by { if w == Direct { SpellNothing(h.arg); } }
    assert b[at..h.next] == [b[at]] + b[at + 1..h.next];
  }

  lemma SpellNothing(n: nat)
    ensures Spell(n, 0) == []
  {
  }

  lemma HeadNumber(b: seq<byte>, i: nat, w: Width)
    requires w != Direct && i + Size(w) <= |b|
    ensures Number(b[i..i + Size(w)]) ==
            match w
            case One => b[i] as int
            case Two => U16(b, i)
            case Four => U32(b, i)
            case Eight => U32(b, i) * TWO32 + U32(b, i + 4)
  {
    match w
    case One => assert b[i..i + 1][..0] == []; assert Number(b[i..i + 1]) == Number([]) * 256 + b[i] as int;
    case Two => U16Is(b, i);
    case Four => U32Is(b, i);
    case Eight => U64Is(b, i);
  }

  lemma HighPart(hi: nat, lo: nat)
    requires lo < TWO32
    ensures hi * TWO32 + lo < TWO53 <==> hi <= 0x1fffff
  {
  }

  // ---------- every supported item reads back ----------

  lemma DecodeIs(b: seq<byte>, at: nat, depth: nat, h: Head)
    requires depth <= MAX_DEPTH && at < |b| && ReadHead(b, at) == Ok(h)
    ensures Decode(b, at, depth) == Content(b, h, depth)
  {
  }

  lemma ContentText(b: seq<byte>, h: Head, depth: nat, t: seq<Texts.Scalar>)
    requires depth <= MAX_DEPTH && h.next <= |b| && h.major == 3 && h.arg == |Texts.Encode(t)|
             && Stands(b, h.next, Texts.Encode(t))
    ensures Content(b, h, depth) == Ok(Decoded(Text(Texts.Strip(t)), h.next + h.arg))
  {
    hide Texts.Encode, Texts.Decode, Texts.Strip;
    Texts.DecodeEncode(t);
  }

  lemma ContentOctets(b: seq<byte>, h: Head, depth: nat, o: seq<byte>)
    requires depth <= MAX_DEPTH && h.next <= |b| && h.major == 2 && h.arg == |o| && Stands(b, h.next, o)
    ensures Content(b, h, depth) == Ok(Decoded(Octets(o), h.next + h.arg))
  {
  }

  lemma ContentList(b: seq<byte>, h: Head, depth: nat, items: seq<Item>, end: nat)
    requires depth <= MAX_DEPTH && h.next <= |b| && h.major == 4
             && Items(b, h.next, depth + 1, h.arg) == Ok(Decoded(items, end))
    ensures Content(b, h, depth) == Ok(Decoded(List(items), end))
  {
  }

  lemma ContentTable(b: seq<byte>, h: Head, depth: nat, entries: seq<Entry>, end: nat)
    requires depth <= MAX_DEPTH && h.next <= |b| && h.major == 5
             && Entries(b, h.next, depth + 1, h.arg) == Ok(Decoded(entries, end))
    ensures Content(b, h, depth) == Ok(Decoded(Table(entries), end))
  {
  }

  lemma CompleteInt(b: seq<byte>, at: nat, w: Width, neg: bool, arg: nat, depth: nat)
    requires depth <= MAX_DEPTH && Fits(w, arg) && Stands(b, at, PutHead(if neg then 1 else 0, w, arg))
    ensures Decode(b, at, depth) == Ok(Decoded(Int(if neg then -1 - arg else arg), at + 1 + Size(w)))
  {
    hide ReadHead, PutHead, Stands, Items, Entries;
    HeadComplete(b, at, if neg then 1 else 0, w, arg);
  }

  lemma CompleteSimple(b: seq<byte>, at: nat, x: byte, depth: nat)
    requires depth <= MAX_DEPTH && 0xF4 <= x <= 0xF6 && Stands(b, at, [x])
    ensures Decode(b, at, depth) == Ok(Decoded(if x == 0xF6 then Null else Truth(x == 0xF5), at + 1))
  {
    hide ReadHead, Items, Entries;
    OneByte(b, at, x);
  }

  /**
   * Completeness: a supported item, however its heads are written, is decoded
   * to its value and its exact end, whatever follows it.
   */
  lemma {:induction false} Complete(b: seq<byte>, at: nat, x: Wire, depth: nat)
    requires Supported(x, depth) && Stands(b, at, Write(x))
    ensures Decode(b, at, depth) == Ok(Decoded(Means(x), at + |Write(x)|))
    decreases x
  {
    hide ReadHead, PutHead, Stands, SupportedAll, SupportedEntries, WriteAll, WriteEntries, MeansAll, MeansEntries,
         Items, Entries;
    hide Decode, Content, Texts.Encode, Texts.Strip, Fits;
    match x
    case WInt(w, neg, arg) => CompleteInt(b, at, w, neg, arg, depth);
    case WTruth(v) => CompleteSimple(b, at, if v then 0xF5 else 0xF4, depth);
    case WNull => CompleteSimple(b, at, 0xF6, depth);
    case WOctets(w, o) =>
      var h := HeadOf(b, at, 2, w, |o|, o, depth);
      ContentOctets(b, h, depth, o);
    case WText(w, t) =>
      var h := HeadOf(b, at, 3, w, |Texts.Encode(t)|, Texts.Encode(t), depth);
      ContentText(b, h, depth, t);
    case WList(w, items) =>
      var h := HeadOf(b, at, 4, w, |items|, WriteAll(items), depth);
      CompleteAll(b, h.next, items, depth + 1);
      ContentList(b, h, depth, MeansAll(items), h.next + |WriteAll(items)|);
    case WTable(w, entries) =>
      var h := HeadOf(b, at, 5, w, |entries|, WriteEntries(entries), depth);
      CompleteEntries(b, h.next, entries, depth + 1);
      ContentTable(b, h, depth, MeansEntries(entries), h.next + |WriteEntries(entries)|);
  }

  lemma OneByte(b: seq<byte>, at: nat, x: byte)
    requires Stands(b, at, [x])
    ensures at < |b| && b[at] == x
            && (0xF4 <= x <= 0xF6 ==> ReadHead(b, at) == Ok(Head(7, x as int - 0xE0, x as int - 0xE0, at + 1)))
  {
    assert b[at] == b[at..at + 1][0];
  }

  lemma HeadOf(b: seq<byte>, at: nat, major: nat, w: Width, arg: nat, content: seq<byte>, depth: nat) returns (h: Head)
    requires depth <= MAX_DEPTH && major < 8 && Fits(w, arg) && Stands(b, at, PutHead(major, w, arg) + content)
    ensures h.major == major && h.arg == arg && h.next == at + |PutHead(major, w, arg)| <= |b|
            && Decode(b, at, depth) == Content(b, h, depth)
    ensures Stands(b, h.next, content)
  {
    hide ReadHead;
    h := Head(major, if w == Direct then arg else Code(w), arg, at + 1 + Size(w));
    StandsJoin(b, at, PutHead(major, w, arg), content);
    HeadComplete(b, at, major, w, arg);
    DecodeIs(b, at, depth, h);
  }

  lemma AllNone(b: seq<byte>, at: nat, depth: nat)
    requires depth <= MAX_DEPTH + 1 && at <= |b|
    ensures Items(b, at, depth, 0) == Ok(Decoded(MeansAll([]), at)) && WriteAll([]) == []
  {
  }

  lemma AllSplit(xs: seq<Wire>, depth: nat)
    requires xs != []
    ensures var front, x := xs[..|xs| - 1], xs[|xs| - 1];
            && WriteAll(xs) == WriteAll(front) + Write(x) && MeansAll(xs) == MeansAll(front) + [Means(x)]
            && (SupportedAll(xs, depth) ==> SupportedAll(front, depth) && Supported(x, depth))
  {
  }

  lemma ItemsMore(b: seq<byte>, at: nat, depth: nat, n: nat, so: Decoded<seq<Item>>, x: Decoded<Item>)
    requires depth <= MAX_DEPTH + 1 && at <= |b| && n > 0 && Items(b, at, depth, n - 1) == Ok(so)
             && Decode(b, so.end, depth) == Ok(x)
    ensures Items(b, at, depth, n) == Ok(Decoded(so.value + [x.value], x.end))
  {
  }

  lemma {:induction false} CompleteAll(b: seq<byte>, at: nat, xs: seq<Wire>, depth: nat)
    requires depth <= MAX_DEPTH + 1 && at <= |b| && SupportedAll(xs, depth) && Stands(b, at, WriteAll(xs))
    ensures Items(b, at, depth, |xs|) == Ok(Decoded(MeansAll(xs), at + |WriteAll(xs)|))
    decreases xs
  {
    hide *;
    if xs == [] {
      AllNone(b, at, depth);
    } else {
      var front, x := xs[..|xs| - 1], xs[|xs| - 1];
      AllSplit(xs, depth);
      StandsJoin(b, at, WriteAll(front), Write(x));
      CompleteAll(b, at, front, depth);
      Complete(b, at + |WriteAll(front)|, x, depth);
      ItemsMore(b, at, depth, |xs|, Decoded(MeansAll(front), at + |WriteAll(front)|),
                Decoded(Means(x), at + |WriteAll(xs)|));
    }
  }

  lemma EntriesNone(b: seq<byte>, at: nat, depth: nat)
    requires depth <= MAX_DEPTH + 1 && at <= |b|
    ensures Entries(b, at, depth, 0) == Ok(Decoded(MeansEntries([]), at)) && WriteEntries([]) == []
  {
  }

  lemma EntriesSplit(es: seq<WEntry>, depth: nat)
    requires es != []
    ensures var front, e := es[..|es| - 1], es[|es| - 1];
            && WriteEntries(es) == WriteEntries(front) + WriteEntry(e)
               && MeansEntries(es) == MeansEntries(front) + [MeansEntry(e)]
            && (SupportedEntries(es, depth) ==>
                  SupportedEntries(front, depth) && SupportedEntry(e, depth)
                  && Means(e.key) !in KeysOf(MeansEntries(front)))
  {
  }

  lemma EntriesMore(b: seq<byte>, at: nat, depth: nat, n: nat, so: Decoded<seq<Entry>>)
    requires depth <= MAX_DEPTH + 1 && at <= |b| && n > 0 && Entries(b, at, depth, n - 1) == Ok(so)
    ensures Entries(b, at, depth, n) == NextEntry(b, depth, so)
  {
  }

  lemma {:induction false} CompleteEntries(b: seq<byte>, at: nat, es: seq<WEntry>, depth: nat)
    requires depth <= MAX_DEPTH + 1 && at <= |b| && SupportedEntries(es, depth) && Stands(b, at, WriteEntries(es))
    ensures Entries(b, at, depth, |es|) == Ok(Decoded(MeansEntries(es), at + |WriteEntries(es)|))
    decreases es
  {
    hide *;
    if es == [] {
      EntriesNone(b, at, depth);
    } else {
      var front, e := es[..|es| - 1], es[|es| - 1];
      var so := Decoded(MeansEntries(front), at + |WriteEntries(front)|);
      EntriesSplit(es, depth);
      StandsJoin(b, at, WriteEntries(front), WriteEntry(e));
      CompleteEntries(b, at, front, depth);
      CompleteEntry(b, so, e, depth);
      EntriesMore(b, at, depth, |es|, so);
    }
  }

  lemma KeyMeans(x: Wire)
    ensures Means(x).Int? || Means(x).Text? <==> x.WInt? || x.WText?
  {
  }

  lemma {:induction false} CompleteEntry(b: seq<byte>, so: Decoded<seq<Entry>>, e: WEntry, depth: nat)
    requires depth <= MAX_DEPTH + 1 && so.end <= |b| && SupportedEntry(e, depth) && Stands(b, so.end, WriteEntry(e))
             && Means(e.key) !in KeysOf(so.value)
    ensures NextEntry(b, depth, so) == Ok(Decoded(so.value + [MeansEntry(e)], so.end + |WriteEntry(e)|))
    decreases e
  {
    hide Supported, Write, Means, Decode, Stands, KeysOf;
    StandsJoin(b, so.end, Write(e.key), Write(e.value));
    KeyMeans(e.key);
    Complete(b, so.end, e.key, depth);
    Complete(b, so.end + |Write(e.key)|, e.value, depth);
  }

  // ---------- every accepted item is supported ----------

  /**
   * Soundness: whatever the decoder accepts is a supported item, written from
   * `at` up to the end it returns, and means the value it returns.
   */
  lemma {:induction false} Sound(b: seq<byte>, at: nat, depth: nat) returns (x: Wire)
    requires depth <= MAX_DEPTH + 1 && Decode(b, at, depth).Ok?
    ensures Supported(x, depth) && Means(x) == Decode(b, at, depth).value.value
    ensures at + |Write(x)| == Decode(b, at, depth).value.end && Stands(b, at, Write(x))
    decreases MAX_DEPTH + 2 - depth, 0, 0
  {
    hide ReadHead, PutHead, Stands, SupportedAll, SupportedEntries, WriteAll, WriteEntries, MeansAll, MeansEntries,
         Items, Entries, Texts.Encode, Texts.Decode;
    HeadSound(b, at);
    var h := ReadHead(b, at).value;
    var w := WidthOf(h.info);
    match h.major
    case 0 => x := WInt(w, false, h.arg);
    case 1 => x := WInt(w, true, h.arg);
    case 2 =>
      x := WOctets(w, b[h.next..h.next + h.arg]);
      Follows(b, at, PutHead(2, w, h.arg), b[h.next..h.next + h.arg]);
    case 3 =>
      var o := b[h.next..h.next + h.arg];
      x := WText(w, Texts.Decode(o).value);
      Texts.EncodeDecode(o);
      Follows(b, at, PutHead(3, w, h.arg), o);
    case 4 =>
      var items := SoundAll(b, h.next, depth + 1, h.arg);
      x := WList(w, items);
      StandsJoin(b, at, PutHead(4, w, h.arg), WriteAll(items));
    case 5 =>
      var entries := SoundEntries(b, h.next, depth + 1, h.arg);
      x := WTable(w, entries);
      StandsJoin(b, at, PutHead(5, w, h.arg), WriteEntries(entries));
    case _ =>
      x := if h.info == 22 then WNull else WTruth(h.info == 21);
      SimpleByte(b, at);
  }

  lemma Follows(b: seq<byte>, at: nat, head: seq<byte>, content: seq<byte>)
    requires Stands(b, at, head) && at + |head| + |content| <= |b| && b[at + |head|..at + |head| + |content|] == content
    ensures Stands(b, at, head + content)
  {
    StandsJoin(b, at, head, content);
  }

  lemma SimpleByte(b: seq<byte>, at: nat)
    requires at < |b| && ReadHead(b, at).Ok? && ReadHead(b, at).value.major == 7
             && ReadHead(b, at).value.info in {20, 21, 22}
    ensures ReadHead(b, at).value.next == at + 1 && Stands(b, at, [(0xE0 + ReadHead(b, at).value.info) % 256])
  {
  }

  lemma {:induction false} SoundAll(b: seq<byte>, at: nat, depth: nat, n: nat) returns (xs: seq<Wire>)
    requires depth <= MAX_DEPTH + 1 && at <= |b| && Items(b, at, depth, n).Ok?
    ensures |xs| == n && SupportedAll(xs, depth) && MeansAll(xs) == Items(b, at, depth, n).value.value
    ensures at + |WriteAll(xs)| == Items(b, at, depth, n).value.end && Stands(b, at, WriteAll(xs))
    decreases MAX_DEPTH + 2 - depth, 1, n
  {
    xs := [];
    if n > 0 {
      hide Stands, Supported, Means, Write, Decode;
      var front := SoundAll(b, at, depth, n - 1);
      var x := Sound(b, Items(b, at, depth, n - 1).value.end, depth);
      xs := front + [x];
      StandsJoin(b, at, WriteAll(front), Write(x));
      assert xs[..n - 1] == front;
    }
  }

  lemma {:induction false} SoundEntries(b: seq<byte>, at: nat, depth: nat, n: nat) returns (es: seq<WEntry>)
    requires depth <= MAX_DEPTH + 1 && at <= |b| && Entries(b, at, depth, n).Ok?
    ensures |es| == n && SupportedEntries(es, depth) && MeansEntries(es) == Entries(b, at, depth, n).value.value
    ensures at + |WriteEntries(es)| == Entries(b, at, depth, n).value.end && Stands(b, at, WriteEntries(es))
    decreases MAX_DEPTH + 2 - depth, 1, n
  {
    es := [];
    if n > 0 {
      hide SupportedEntry, WriteEntry, MeansEntry, NextEntry, Stands, KeysOf, Supported, Means;
      var front := SoundEntries(b, at, depth, n - 1);
      var so := Entries(b, at, depth, n - 1).value;
      var e := SoundEntry(b, so, depth);
      es := front + [e];
      StandsJoin(b, at, WriteEntries(front), WriteEntry(e));
      assert es[..n - 1] == front;
    }
  }

  lemma {:induction false} SoundEntry(b: seq<byte>, so: Decoded<seq<Entry>>, depth: nat) returns (e: WEntry)
    requires depth <= MAX_DEPTH + 1 && so.end <= |b| && NextEntry(b, depth, so).Ok?
    ensures SupportedEntry(e, depth) && Means(e.key) !in KeysOf(so.value)
    ensures NextEntry(b, depth, so) == Ok(Decoded(so.value + [MeansEntry(e)], so.end + |WriteEntry(e)|))
            && Stands(b, so.end, WriteEntry(e))
    decreases MAX_DEPTH + 2 - depth, 1, 0
  {
    hide Supported, Write, Means, Decode, Stands, KeysOf;
    var k := Sound(b, so.end, depth);
    KeyMeans(k);
    var v := Sound(b, Decode(b, so.end, depth).value.end, depth);
    e := WEntry(k, v);
    StandsJoin(b, so.end, Write(k), Write(v));
  }
}
