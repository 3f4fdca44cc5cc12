/** What follows for whole documents: exactly what is accepted, what a round trip keeps, and which integers come out. */
module CborTrip {
  import opened Wrappers
  import opened Bytes
  import opened Cbor
  import opened CborWire
  import Texts

  /** The decoder accepts at `at`, with this value and end, exactly when a supported item meaning it stands there. */
  lemma DecodeExact(b: seq<byte>, at: nat, depth: nat, item: Item, end: nat)
    requires depth <= MAX_DEPTH + 1
    ensures Decode(b, at, depth) == Ok(Decoded(item, end))
       <==> exists x :: Supported(x, depth) && Stands(b, at, Write(x)) && Means(x) == item && at + |Write(x)| == end
  {
    hide *;
    if Decode(b, at, depth) == Ok(Decoded(item, end)) {
      var x := Sound(b, at, depth);
    }
    forall x | Supported(x, depth) && Stands(b, at, Write(x)) && Means(x) == item && at + |Write(x)| == end
      ensures Decode(b, at, depth) == Ok(Decoded(item, end))
    {
      Complete(b, at, x, depth);
    }
  }

  /** A whole document is one supported item and not a byte after it. */
  lemma DecodeAllExact(b: seq<byte>, item: Item)
    ensures DecodeAll(b) == Ok(item) <==> exists x :: Supported(x, 0) && Write(x) == b && Means(x) == item
  {
    hide Decode, Supported, Write, Means;
    DecodeExact(b, 0, 0, item, |b|);
    assert b[0..|b|] == b;
    forall x ensures Stands(b, 0, Write(x)) && |Write(x)| == |b| <==> Write(x) == b {
    }
    assert forall x :: Supported(x, 0) && Write(x) == b && Means(x) == item <==>
      Supported(x, 0) && Stands(b, 0, Write(x)) && Means(x) == item && 0 + |Write(x)| == |b|;
  }

  // ---------- the byte order mark ----------

  /** The value the writer wrote, its texts whole. */
  function Raw(x: Wire): Item {
    match x
    case WInt(_, neg, arg) => Int(if neg then -1 - arg else arg)
    case WOctets(_, b) => Octets(b)
    case WText(_, t) => Text(t)
    case WList(_, items) => List(RawAll(items))
    case WTable(_, entries) => Table(RawEntries(entries))
    case WTruth(v) => Truth(v)
    case WNull => Null
  }

  function RawAll(xs: seq<Wire>): (r: seq<Item>)
    ensures |r| == |xs|
  {
    if xs == [] then [] else RawAll(xs[..|xs| - 1]) + [Raw(xs[|xs| - 1])]
  }

  function RawEntries(es: seq<WEntry>): (r: seq<Entry>)
    ensures |r| == |es|
  {
    if es == [] then [] else RawEntries(es[..|es| - 1]) + [RawEntry(es[|es| - 1])]
  }

  function RawEntry(e: WEntry): Entry {
    Entry(Raw(e.key), Raw(e.value))
  }

  /** No text in the item begins with U+FEFF. */
  predicate Unmarked(x: Wire) {
    match x
    case WText(_, t) => t == [] || t[0] != Texts.BOM
    case WList(_, items) => UnmarkedAll(items)
    case WTable(_, entries) => UnmarkedEntries(entries)
    case _ => true
  }

  predicate UnmarkedAll(xs: seq<Wire>) {
    xs == [] || (UnmarkedAll(xs[..|xs| - 1]) && Unmarked(xs[|xs| - 1]))
  }

  predicate UnmarkedEntries(es: seq<WEntry>) {
    es == [] || (UnmarkedEntries(es[..|es| - 1]) && UnmarkedEntry(es[|es| - 1]))
  }

  predicate UnmarkedEntry(e: WEntry) {
    Unmarked(e.key) && Unmarked(e.value)
  }

  lemma {:induction false} MeansRaw(x: Wire)
    ensures Means(x) == Raw(x) <==> Unmarked(x)
    decreases x
  {
    match x
    case WList(_, items) => MeansRawAll(items);
    case WTable(_, entries) => MeansRawEntries(entries);
    case WText(_, t) => assert Texts.Strip(t) == t <==> t == [] || t[0] != Texts.BOM;
    case _ =>
  }

  lemma SnocEqual<T>(s: seq<T>, x: T, t: seq<T>, y: T)
    ensures s + [x] == t + [y] <==> s == t && x == y
  {
    if s + [x] == t + [y] {
      assert (s + [x])[|s|] == x && (t + [y])[|t|] == y;
      assert (s + [x])[..|s|] == s && (t + [y])[..|t|] == t;
    }
  }

  lemma {:induction false} MeansRawAll(xs: seq<Wire>)
    ensures MeansAll(xs) == RawAll(xs) <==> UnmarkedAll(xs)
    decreases xs
  {
    if xs != [] {
      hide Means, Raw, Unmarked;
      var front, x := xs[..|xs| - 1], xs[|xs| - 1];
      MeansRawAll(front);
      MeansRaw(x);
      SnocEqual(MeansAll(front), Means(x), RawAll(front), Raw(x));
    }
  }

  lemma {:induction false} MeansRawEntry(e: WEntry)
    ensures MeansEntry(e) == RawEntry(e) <==> UnmarkedEntry(e)
    decreases e
  {
    MeansRaw(e.key);
    MeansRaw(e.value);
  }

  lemma {:induction false} MeansRawEntries(es: seq<WEntry>)
    ensures MeansEntries(es) == RawEntries(es) <==> UnmarkedEntries(es)
    decreases es
  {
    if es != [] {
      hide MeansEntry, RawEntry, UnmarkedEntry;
      var front, e := es[..|es| - 1], es[|es| - 1];
      MeansRawEntries(front);
      MeansRawEntry(e);
      SnocEqual(MeansEntries(front), MeansEntry(e), RawEntries(front), RawEntry(e));
    }
  }

  /** Decoding gives back what was written exactly when no text in it begins with U+FEFF. */
  lemma RoundTrip(x: Wire, after: seq<byte>)
    requires Supported(x, 0)
    ensures Decode(Write(x) + after, 0, 0) == Ok(Decoded(Raw(x), |Write(x)|)) <==> Unmarked(x)
  {
    hide *;
    StandsFirst(Write(x), after);
    Complete(Write(x) + after, 0, x, 0);
    MeansRaw(x);
  }

  lemma StandsFirst(s: seq<byte>, after: seq<byte>)
    ensures Stands(s + after, 0, s)
  {
    assert (s + after)[0..|s|] == s;
  }

  /** The text U+FEFF comes back empty, wherever it stands. */
  lemma MarkLost(b: seq<byte>, at: nat, depth: nat)
    requires depth <= MAX_DEPTH && Stands(b, at, [0x63, 0xEF, 0xBB, 0xBF])
    ensures Decode(b, at, depth) == Ok(Decoded(Text([]), at + 4))
  {
    var x := WText(Direct, [Texts.BOM]);
    assert Texts.EncodeScalar(Texts.BOM) == [0xEF, 0xBB, 0xBF];
    assert Texts.Encode([Texts.BOM]) == [0xEF, 0xBB, 0xBF];
    assert Spell(3, 0) == [];
    assert Write(x) == [0x63, 0xEF, 0xBB, 0xBF];
    Complete(b, at, x, depth);
  }

  lemma EmptyText(b: seq<byte>, at: nat, depth: nat)
    requires depth <= MAX_DEPTH && Stands(b, at, [0x60])
    ensures Decode(b, at, depth) == Ok(Decoded(Text([]), at + 1))
  {
    assert Write(WText(Direct, [])) == [0x60];
    Complete(b, at, WText(Direct, []), depth);
  }

  lemma Zero(b: seq<byte>, at: nat, depth: nat)
    requires depth <= MAX_DEPTH && Stands(b, at, [0x00])
    ensures Decode(b, at, depth) == Ok(Decoded(Int(0), at + 1))
  {
    assert Write(WInt(Direct, false, 0)) == [0x00];
    Complete(b, at, WInt(Direct, false, 0), depth);
  }

  lemma KeyAgain(b: seq<byte>, depth: nat, so: Decoded<seq<Entry>>, k: Decoded<Item>, i: nat)
    requires depth <= MAX_DEPTH && so.end <= |b| && Decode(b, so.end, depth) == Ok(k) && k.value.Text? && i < |so.value|
             && so.value[i].key == k.value
    ensures NextEntry(b, depth, so) == Err(KeyTwice)
  {
    hide Decode;
    assert so.value[i] in so.value;
  }

  lemma FirstEntry(b: seq<byte>, depth: nat, at: nat, k: Decoded<Item>, v: Decoded<Item>)
    requires depth <= MAX_DEPTH && at <= |b| && Decode(b, at, depth) == Ok(k) && k.value.Text?
             && Decode(b, k.end, depth) == Ok(v)
    ensures NextEntry(b, depth, Decoded([], at)) == Ok(Decoded([Entry(k.value, v.value)], v.end))
  {
    hide Decode;
    var none: seq<Entry> := [];
    assert KeysOf(none) == {} && none + [Entry(k.value, v.value)] == [Entry(k.value, v.value)];
  }

  /** So a map of the two different keys U+FEFF and the empty text is refused for a key twice. */
  lemma MarkedKeysCollide()
    ensures Decode([0xA2, 0x63, 0xEF, 0xBB, 0xBF, 0x00, 0x60, 0x01], 0, 0) == Err(KeyTwice)
  {
    var b: seq<byte> := [0xA2, 0x63, 0xEF, 0xBB, 0xBF, 0x00, 0x60, 0x01];
    var first := Entry(Text([]), Int(0));
    assert ReadHead(b, 0) == Ok(Head(5, 2, 2, 1));
    assert NextEntry(b, 1, Decoded([], 1)) == Ok(Decoded([first], 6)) by {
      hide Decode, NextEntry;
      assert b[1..5] == [0x63, 0xEF, 0xBB, 0xBF] && b[5..6] == [0x00];
      MarkLost(b, 1, 1);
      Zero(b, 5, 1);
      FirstEntry(b, 1, 1, Decoded(Text([]), 5), Decoded(Int(0), 6));
    }
    assert NextEntry(b, 1, Decoded([first], 6)) == Err(KeyTwice) by {
      hide Decode, NextEntry;
      assert b[6..7] == [0x60];
      EmptyText(b, 6, 1);
      KeyAgain(b, 1, Decoded([first], 6), Decoded(Text([]), 7), 0);
    }
    hide NextEntry, Entries;
    EntriesNone(b, 1, 1);
    EntriesMore(b, 1, 1, 1, Decoded([], 1));
    EntriesMore(b, 1, 1, 2, Decoded([first], 6));
    assert Content(b, Head(5, 2, 2, 1), 0) == Err(KeyTwice);
    DecodeIs(b, 0, 0, Head(5, 2, 2, 1));
  }

  // ---------- the integers ----------

  /** Every integer of the value lies from -2^53 to 2^53 - 1. */
  predicate InRange(i: Item) {
    match i
    case Int(n) => -(TWO53 as int) <= n < TWO53
    case List(items) => InRangeAll(items)
    case Table(entries) => InRangeEntries(entries)
    case _ => true
  }

  predicate InRangeAll(s: seq<Item>) {
    s == [] || (InRangeAll(s[..|s| - 1]) && InRange(s[|s| - 1]))
  }

  predicate InRangeEntries(s: seq<Entry>) {
    s == [] || (InRangeEntries(s[..|s| - 1]) && InRangeEntry(s[|s| - 1]))
  }

  predicate InRangeEntry(e: Entry) {
    InRange(e.key) && InRange(e.value)
  }

  lemma {:induction false} SupportedInRange(x: Wire, depth: nat)
    requires Supported(x, depth)
    ensures InRange(Means(x))
    decreases x
  {
    match x
    case WList(_, items) => AllInRange(items, depth + 1);
    case WTable(_, entries) => EntriesInRange(entries, depth + 1);
    case _ =>
  }

  lemma {:induction false} AllInRange(xs: seq<Wire>, depth: nat)
    requires SupportedAll(xs, depth)
    ensures InRangeAll(MeansAll(xs))
    decreases xs
  {
    if xs != [] {
      AllInRange(xs[..|xs| - 1], depth);
      SupportedInRange(xs[|xs| - 1], depth);
      assert MeansAll(xs)[..|MeansAll(xs)| - 1] == MeansAll(xs[..|xs| - 1]);
    }
  }

  lemma {:induction false} EntriesInRange(es: seq<WEntry>, depth: nat)
    requires SupportedEntries(es, depth)
    ensures InRangeEntries(MeansEntries(es))
    decreases es
  {
    if es != [] {
      EntriesInRange(es[..|es| - 1], depth);
      EntryInRange(es[|es| - 1], depth);
      assert MeansEntries(es)[..|MeansEntries(es)| - 1] == MeansEntries(es[..|es| - 1]);
    }
  }

  lemma {:induction false} EntryInRange(e: WEntry, depth: nat)
    requires SupportedEntry(e, depth)
    ensures InRangeEntry(MeansEntry(e))
    decreases e
  {
    SupportedInRange(e.key, depth);
    SupportedInRange(e.value, depth);
  }

  /** No accepted document holds an integer outside the range a double counts exactly. */
  lemma DecodedInRange(b: seq<byte>, at: nat, depth: nat)
    requires depth <= MAX_DEPTH + 1 && Decode(b, at, depth).Ok?
    ensures InRange(Decode(b, at, depth).value.value)
  {
    hide *;
    var x := Sound(b, at, depth);
    SupportedInRange(x, depth);
  }

  /** The lowest is taken: -2^53 itself, one past what 2^53 - 1 is above zero. */
  lemma LowestTaken()
    ensures Decode([0x3B, 0x00, 0x1F, 0xFF, 0xFF, 0xFF, 0xFF, 0xFF, 0xFF], 0, 0) == Ok(Decoded(Int(-(TWO53 as int)), 9))
  {
  }
}
