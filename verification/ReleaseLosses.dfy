/**
 * Four runs on which retention or a served database loses a package, each
 * with nothing wrong but the one condition the theorems ask for. All start
 * with the same six releases of a ring: the second to the fourth list one
 * package more than the others.
 */
module ReleaseLosses {
  import opened Wrappers
  import opened ReleaseLog
  import opened ReleaseSafety
  import opened ReleaseRuns
  import opened ReleaseServed

  const KEPT := Package(1, X86_64)
  const LOST := Package(2, X86_64)
  const PLAIN := Request(Edge, Own, None, None, false, {}, {})

  function Chosen(s: nat): set<Package> {
    if s == 0 then {} else if 2 <= s <= 4 then {KEPT, LOST} else {KEPT}
  }

  /** What the next release after the nth asks for. */
  function Asking(n: nat): Request {
    if n == 0 then PLAIN.(adds := {KEPT})
    else if n == 1 then PLAIN.(adds := {LOST})
    else if n == 4 then PLAIN.(removes := true, drop := {LOST})
    else PLAIN
  }

  function Steps(n: nat): seq<Step> {
    if n == 0 then [Upload(KEPT), Upload(LOST)] else Steps(n - 1) + [Publishing(10 + n, Asking(n - 1))]
  }

  function Ids(n: nat): (ids: set<nat>)
    ensures forall id :: id in ids <==> 11 <= id <= 10 + n
  {
    if n == 0 then {} else Ids(n - 1) + {10 + n}
  }

  function Rows(n: nat): map<nat, Row> {
    map id | id in Ids(n) :: Row(Edge, id - 10, if id == 11 then None else Some(id - 1), id == 11)
  }

  /** The places of the first n releases in the order of the ring. */
  function Places(n: nat): (places: set<(Ring, nat)>)
    ensures forall p :: p in places <==> p.0 == Edge && 1 <= p.1 <= n
  {
    if n == 0 then {} else Places(n - 1) + {(Edge, n)}
  }

  function Order(n: nat): map<(Ring, nat), nat> {
    map p | p in Places(n) :: 10 + p.1
  }

  function Deltas(n: nat): map<nat, map<Package, Op>> {
    map id | id in Ids(n) :: Diff(Chosen(id - 11), Chosen(id - 10))
  }

  function Bare(n: nat): map<nat, Each<Shelf>> {
    map id | id in Ids(n) :: Each(NoRows, NoRows)
  }

  function Native(n: nat): map<nat, set<Arch>> {
    map id | id in Ids(n) :: {X86_64}
  }

  /** The ring after its first n releases, numbered 11 on, with no database put. */
  function State(n: nat): Db {
    if n == 0 then EMPTY.(packages := {KEPT, LOST})
    else Db(Rows(n), Order(n), map[Edge := 10 + n], map[Edge := Chosen(n)], map[11 := {KEPT}], Deltas(n), {KEPT, LOST},
            Native(n), Bare(n), map[])
  }

  function Past(n: nat): History {
    History(map p | p in Places(n) :: Chosen(p.1), map[], map[])
  }

  lemma {:induction false} NothingNear(db: Db, id: nat, arch: Arch, depth: nat)
    requires forall i {:trigger ShelfOf(db, i, arch)} :: ShelfOf(db, i, arch) == NoRows
    ensures Nearest(db, id, arch, depth).None?
    decreases CARRY_DEPTH - depth
  {
    if depth < CARRY_DEPTH && id in db.rows && db.rows[id].parent.Some? {
      NothingNear(db, db.rows[id].parent.value, arch, depth + 1);
    }
  }

  lemma NoShelves(n: nat, i: nat, arch: Arch)
    ensures ShelfOf(State(n), i, arch) == NoRows
  {
    hide Rows, Order, Deltas, Ids, Chosen;
  }

  lemma NothingCarried(n: nat, id: nat, arch: Arch, kept: bool)
    ensures Carried(State(n), Edge, id, arch, kept) == NoRows
  {
    hide State;
    forall i ensures ShelfOf(State(n), i, arch) == NoRows {
      NoShelves(n, i, arch);
    }
    if Edge in State(n).heads {
      NothingNear(State(n), State(n).heads[Edge], arch, 0);
    }
  }

  lemma LiveIs(n: nat)
    ensures Live(State(n), Edge) == Chosen(n) && State(n).packages == {KEPT, LOST} && Top(State(n), Edge) == n
            && State(n).bytes == map[]
    ensures State(n).heads == if n == 0 then map[] else map[Edge := 10 + n]
  {
    hide Order, Deltas;
  }

  lemma TargetIs(n: nat)
    requires n < 6
    ensures Target(State(n), Asking(n), Chosen(n)) == Chosen(n + 1)
  {
    hide State;
    LiveIs(n);
  }

  lemma DueIs(n: nat)
    requires n < 6
    ensures CheckpointDue(State(n), Edge) == (n == 0)
  {
    hide State;
    LiveIs(n);
  }

  lemma TablesGrow(n: nat)
    ensures Rows(n)[11 + n := Row(Edge, n + 1, if n == 0 then None else Some(10 + n), n == 0)] == Rows(n + 1)
    ensures Deltas(n)[11 + n := Diff(Chosen(n), Chosen(n + 1))] == Deltas(n + 1)
  {
    hide Chosen, Diff;
  }

  lemma OrderGrows(n: nat)
    ensures Order(n)[(Edge, n + 1) := 11 + n] == Order(n + 1)
  {
    hide Places;
  }

  lemma ShelvesGrow(n: nat)
    ensures Bare(n)[11 + n := Each(NoRows, NoRows)] == Bare(n + 1)
    ensures Native(n)[11 + n := {X86_64}] == Native(n + 1)
  {
  }

  lemma Slices(n: nat)
    requires n > 0
    ensures (set p | p in Chosen(n) :: p.arch) == {X86_64}
  {
    assert KEPT in Chosen(n);
  }

  /** Each release makes the next state. */
  lemma Grows(n: nat)
    requires n < 6
    ensures Release(State(n), 11 + n, Asking(n)) == Ok(State(n + 1))
  {
    hide Ids, Rows, Order, Deltas, Bare, Native, Chosen, Diff, Apply, CarriedFrom, CheckpointDue, Top, Target;
    LiveIs(n);
    TargetIs(n);
    DueIs(n);
    NothingCarried(n, 11 + n, X86_64, false);
    NothingCarried(n, 11 + n, Aarch64, false);
    ApplyDiff(Chosen(n), Chosen(n + 1));
    TablesGrow(n);
    OrderGrows(n);
    ShelvesGrow(n);
    Slices(n + 1);
    FirstTables();
    assert Unchanged(State(n), Asking(n)) == {};
    var after := Publish(State(n), Edge, 11 + n, Chosen(n + 1), {});
    assert Release(State(n), 11 + n, Asking(n)) == Ok(after);
    assert after.rows == Rows(n + 1);
    assert after.bySeq == Order(n + 1);
    assert after.heads == map[Edge := 11 + n];
    assert after.live == map[Edge := Chosen(n + 1)];
    assert after.members == map[11 := {KEPT}];
    assert after.deltas == Deltas(n + 1);
    assert after.sources == Native(n + 1);
    assert after.shelves == Bare(n + 1);
    assert after.bytes == map[];
  }

  lemma FirstTables()
    ensures Rows(0) == map[] && Order(0) == map[] && Deltas(0) == map[] && Bare(0) == map[] && Native(0) == map[]
    ensures Past(0).sel == map[]
    ensures Chosen(1) == {KEPT}
  {
  }

  // ---------- runs ----------

  lemma Took(steps: seq<Step>, keep: nat, db: Db, h: History, step: Step)
    requires Run(steps, keep) == Some((db, h)) && Allowed(db, step, keep)
    ensures Run(steps + [step], keep) == Some((Next(db, step), NextHistory(db, h, step)))
    ensures Gapless(steps, keep) && KeepsReach(db, step) ==> Gapless(steps + [step], keep)
    ensures InTurn(steps, keep) && TakesTurn(db, h, step) ==> InTurn(steps + [step], keep)
  {
    hide Next, NextHistory, Allowed, KeepsReach, TakesTurn;
    assert (steps + [step])[..|steps + [step]| - 1] == steps;
  }

  lemma Uploads(keep: nat)
    ensures Run(Steps(0), keep) == Some((State(0), Past(0))) && Gapless(Steps(0), keep) && InTurn(Steps(0), keep)
  {
    hide Run, Gapless, InTurn;
    var nothing := History(map[], map[], map[]);
    NothingYet(keep);
    Took([], keep, EMPTY, nothing, Upload(KEPT));
    var one := EMPTY.(packages := {KEPT});
    assert Next(EMPTY, Upload(KEPT)) == one by { assert {} + {KEPT} == {KEPT}; }
    Took([] + [Upload(KEPT)], keep, one, nothing, Upload(LOST));
    assert [] + [Upload(KEPT)] + [Upload(LOST)] == Steps(0);
    assert Next(one, Upload(LOST)) == State(0) by { assert {KEPT} + {LOST} == {KEPT, LOST}; }
    assert Past(0) == nothing by { FirstTables(); }
  }

  lemma NothingYet(keep: nat)
    ensures Run([], keep) == Some((EMPTY, History(map[], map[], map[]))) && Gapless([], keep) && InTurn([], keep)
  {
  }

  lemma PastGrows(n: nat)
    requires n < 6
    ensures NextHistory(State(n), Past(n), Publishing(11 + n, Asking(n))) == Past(n + 1)
  {
    hide State, Target, Chosen, Asking, Release, Top;
    Grows(n);
    LiveIs(n);
    TargetIs(n);
    AskingIs(n);
    assert Asked(State(n), Asking(n)) == Chosen(n + 1);
    PastIs(n);
  }

  lemma AskingIs(n: nat)
    ensures Asking(n).ring == Edge && Asking(n).base == Own && Scoped(Asking(n))
  {
  }

  lemma PastIs(n: nat)
    ensures Past(n + 1).sel == Past(n).sel[(Edge, n + 1) := Chosen(n + 1)]
  {
    hide Chosen, Places;
  }

  /** The six releases are a run, whatever its collections keep, and none of them carries rows past its parent. */
  lemma {:induction false} Prefix(n: nat, keep: nat)
    requires n <= 6
    ensures Run(Steps(n), keep) == Some((State(n), Past(n))) && Gapless(Steps(n), keep) && InTurn(Steps(n), keep)
  {
    hide State, Past, Release, Asking, Gapless, InTurn, Run;
    if n == 0 {
      Uploads(keep);
    } else {
      Prefix(n - 1, keep);
      Grows(n - 1);
      PastGrows(n - 1);
      NextAllowed(n - 1, keep);
      Took(Steps(n - 1), keep, State(n - 1), Past(n - 1), Publishing(10 + n, Asking(n - 1)));
    }
  }

  lemma NextAllowed(n: nat, keep: nat)
    requires n < 6
    ensures Allowed(State(n), Publishing(11 + n, Asking(n)), keep)
            && KeepsReach(State(n), Publishing(11 + n, Asking(n)))
  {
    hide Order, Deltas, Release, Bare, Native;
    forall i, arch ensures ShelfOf(State(n), i, arch) == NoRows {
      NoShelves(n, i, arch);
    }
    forall arch ensures NoGap(State(n), Edge, arch) {
      NothingNear(State(n), 10 + n, arch, 0);
    }
  }

  /** With the tables of the six releases and only the head protected, nothing names the lost package. */
  lemma LostOutside(db: Db)
    requires db.live == map[Edge := {KEPT}] && db.members == map[11 := {KEPT}] && db.deltas == Deltas(6)
             && db.rows == Rows(6)
    requires Oldest(db, Edge, 1) == 6
    ensures Outside(db, 1, LOST)
  {
    hide IsKept, Oldest, IsProtected, Deltas, Rows;
    forall id | id in db.deltas && IsProtected(db, 1, id) ensures LOST !in db.deltas[id] {
      OnlyHead(db, id);
      NamesLost();
    }
  }

  lemma OnlyHead(db: Db, id: nat)
    requires db.rows == Rows(6) && Oldest(db, Edge, 1) == 6 && IsProtected(db, 1, id)
    ensures id == 16
  {
    hide Oldest;
  }

  lemma NamesLost()
    ensures 15 in Deltas(6) && LOST in Deltas(6)[15] && 16 in Deltas(6) && LOST !in Deltas(6)[16]
  {
    assert 15 in Ids(6) && 16 in Ids(6);
    assert Deltas(6)[16] == Diff({KEPT}, {KEPT});
    assert Deltas(6)[15] == Diff({KEPT, LOST}, {KEPT});
  }

  /** Where no head row awaits a render, retention is the last releases. */
  lemma OldestPlain(db: Db, keep: nat)
    requires Top(db, Edge) == 6 && Edge in db.heads && forall arch :: !ShelfOf(db, db.heads[Edge], arch).Awaiting?
    requires 1 <= keep <= 6
    ensures Oldest(db, Edge, keep) == 7 - keep
  {
    hide Top, ShelfOf;
    assert ArchSince(db, Edge, X86_64) == None && ArchSince(db, Edge, Aarch64) == None;
  }

  lemma SixTables()
    ensures var db := State(6);
            && db.live == map[Edge := {KEPT}] && db.members == map[11 := {KEPT}] && db.deltas == Deltas(6)
               && db.rows == Rows(6)
            && db.heads == map[Edge := 16] && Top(db, Edge) == 6 && db.packages == {KEPT, LOST}
            && forall i, arch :: ShelfOf(db, i, arch) == NoRows
  {
    hide Rows, Order, Deltas, Ids, Bare, Native, ShelfOf, Top;
    LiveIs(6);
    forall i, arch ensures ShelfOf(State(6), i, arch) == NoRows {
      NoShelves(6, i, arch);
    }
  }

  lemma SixProtected()
    ensures var db := State(6);
            && Outside(db, 1, LOST) && !Outside(db, 3, LOST)
            && IsProtected(db, 3, 14) && Oldest(db, Edge, 1) == 6
  {
    hide State, Outside, Oldest, Rows, Deltas, Top, ShelfOf;
    SixTables();
    OldestPlain(State(6), 1);
    OldestPlain(State(6), 3);
    LostOutside(State(6));
    NamesLost();
    RowsIs(6, 14);
    RowsIs(6, 15);
    NamedBy(State(6), 3, 15);
  }

  /**
   * A collection that keeps fewer releases than a later one calls protected
   * may already have taken their packages: after six releases keep one, and
   * the fourth cannot be read, though retention of three protects it.
   */
  lemma SmallerKeepLoses()
    ensures Run(Steps(6), 3).Some? && Gapless(Steps(6), 3)
    ensures var db := Run(Steps(6), 3).value.0;
            && Outside(db, 1, LOST) && !Outside(db, 3, LOST)
            && IsProtected(db, 3, 14) && Checkpointed(db, 14).Ok?
            && IsProtected(Collect(db, 1, {LOST}), 3, 14) && Checkpointed(Collect(db, 1, {LOST}), 14).Err?
  {
    hide *;
    Prefix(6, 3);
    SixProtected();
    ProtectedReadable(Steps(6), 3, 14);
    SmallerKeepExact(Steps(6), 3, 1, {LOST}, 14);
    LostSelected(14);
    LostListed();
  }

  lemma OneOutside()
    ensures Outside(State(1), 3, LOST) && LOST in State(1).packages
  {
    hide Rows, Order, Bare, Native, IsKept, IsProtected, Ids;
    assert Deltas(1) == map[11 := Diff({}, {KEPT})] by { OneDelta(); }
  }

  lemma OneDelta()
    ensures Deltas(1) == map[11 := Diff({}, {KEPT})]
  {
  }

  /**
   * A victim listed and deleted late: outside retention after the first
   * release, taken back by the second and dropped by the fifth, it is served
   * by no ring when its row goes, and the fourth release, protected, cannot be
   * read any more.
   */
  lemma LateDeleteLoses()
    ensures Run(Steps(1), 3).Some? && Outside(Run(Steps(1), 3).value.0, 3, LOST)
            && LOST in Run(Steps(1), 3).value.0.packages
    ensures Run(Steps(6), 3).Some? && Gapless(Steps(6), 3)
    ensures var db := Run(Steps(6), 3).value.0;
            IsProtected(db, 3, 14) && Checkpointed(db, 14).Ok? && !IsServed(db, LOST)
            && Checkpointed(Deleted(db, LOST), 14).Err?
  {
    hide *;
    Prefix(1, 3);
    OneOutside();
    Prefix(6, 3);
    SixProtected();
    ProtectedReadable(Steps(6), 3, 14);
    DeleteExact(Steps(6), 3, LOST, 14);
    RowsIs(6, 14);
    LostSelected(14);
    LostListed();
    NotServed();
  }

  lemma NotServed()
    ensures !IsServed(State(6), LOST)
  {
    hide Rows, Order, Deltas, Bare, Native;
    SixTables();
  }

  /** A protected release's delta that names a package keeps it. */
  lemma NamedBy(db: Db, keep: nat, id: nat)
    requires id in db.deltas && LOST in db.deltas[id] && IsProtected(db, keep, id)
    ensures !Outside(db, keep, LOST)
  {
  }

  lemma PastSel(n: nat, s: nat)
    requires 1 <= s <= n
    ensures Sel(Past(n), Edge, s) == Chosen(s)
  {
    hide Chosen, Places;
  }

  lemma RowsIs(n: nat, id: nat)
    requires 11 <= id <= 10 + n
    ensures id in State(n).rows
            && State(n).rows[id] == Row(Edge, id - 10, if id == 11 then None else Some(id - 1), id == 11)
  {
    hide Order, Deltas, Chosen, Bare, Native;
  }

  lemma LostListed()
    ensures LOST in Chosen(2) && LOST in Chosen(4) && LOST !in Chosen(6)
  {
  }

  /** What the releases select. */
  lemma LostSelected(id: nat)
    requires 11 <= id <= 16
    ensures id in State(6).rows && SelOf(State(6), Past(6), id) == Chosen(id - 10)
  {
    hide State, Past, Chosen;
    RowsIs(6, id);
    PastSel(6, id - 10);
  }

  // ---------- a late render ----------

  /**
   * The head is rendered; then a render of the second release, still under way,
   * lands; then a collection keeps the head alone.
   */
  function LateSteps(): seq<Step> {
    Steps(6) + [Putting(16, X86_64)] + [Putting(12, X86_64)] + [Collecting(1, {LOST})]
  }

  /** A ring that still has the six releases' tables, with the head's own row rendered. */
  predicate HeadRendered(db: Db) {
    && db.live == map[Edge := {KEPT}] && db.members == map[11 := {KEPT}] && db.deltas == Deltas(6) && db.rows == Rows(6)
    && db.heads == map[Edge := 16] && Top(db, Edge) == 6 && db.packages == {KEPT, LOST}
    && ShelfOf(db, 16, X86_64) == Rendered && ShelfOf(db, 16, Aarch64) == NoRows
  }

  lemma PutLeaves(db: Db, of: nat, arch: Arch)
    requires of in db.rows
    ensures Put(db, of, arch) == db.(shelves := Put(db, of, arch).shelves, bytes := Put(db, of, arch).bytes)
  {
  }

  function First(): Db {
    Next(State(6), Putting(16, X86_64))
  }

  function Late(): Db {
    Next(First(), Putting(12, X86_64))
  }

  lemma FirstPut()
    ensures HeadRendered(First()) && 16 in State(6).rows && InOrder(State(6), Past(6), 16, X86_64)
  {
    hide State, Put, Rows, Deltas, Order, Past, Top, ShelfOf;
    SixTables();
    RowsIs(6, 16);
    PutLeaves(State(6), 16, X86_64);
    PutTables(State(6), 16, X86_64, Edge);
    PutShelf(State(6), 16, X86_64, 16, X86_64);
    PutShelf(State(6), 16, X86_64, 16, Aarch64);
  }

  lemma LatePut()
    ensures HeadRendered(Late()) && BytesOf(Late(), Edge, X86_64) == Some(12)
    ensures 12 in First().rows && !InOrder(First(), Past(6), 12, X86_64)
  {
    hide State, Put, Rows, Deltas, Order, Past, Top, ShelfOf, First;
    var db := First();
    FirstPut();
    RowsOf12And16();
    PutLeaves(db, 12, X86_64);
    PutTables(db, 12, X86_64, Edge);
    ShelfMoves(db, Putting(12, X86_64), 16, X86_64);
    ShelfMoves(db, Putting(12, X86_64), 16, Aarch64);
    PutBytes(db, 12, X86_64, Edge, X86_64);
    FirstOrder();
    NotAgain(db);
    assert Marked(db, 12, Edge, X86_64, 6);
  }

  lemma RowsOf12And16()
    ensures 12 in Rows(6) && Rows(6)[12].seqNo == 2 && Rows(6)[12].ring == Edge
    ensures 16 in Rows(6) && Rows(6)[16].seqNo == 6 && Rows(6)[16].ring == Edge
  {
    assert 12 in Ids(6) && 16 in Ids(6);
  }

  lemma FirstOrder()
    ensures (Edge, 6) in First().bySeq && First().bySeq[(Edge, 6)] == 16
  {
    hide State, Order, Put;
    SixOrder();
    RowsIs(6, 16);
    OrderAt(6);
    PutTables(State(6), 16, X86_64, Edge);
  }

  /** No release from the head on lists what the second does. */
  lemma NotAgain(db: Db)
    requires Top(db, Edge) == 6
    ensures !Again(db, Past(6), Edge, X86_64, 6, Content(Past(6), Edge, X86_64, 2))
  {
    hide Past, Top, Chosen;
    PastSel(6, 2);
    PastSel(6, 6);
    LostListed();
    assert LOST in Content(Past(6), Edge, X86_64, 2);
  }

  /**
   * A render that lands late, and what it costs: the database of the ring's
   * head lists a package that is gone, though every row the collection read
   * was rendered, no release carried rows past its parent and every earlier
   * render landed in order.
   */
  lemma LateRenderLoses()
    ensures Run(LateSteps(), 1).Some? && Gapless(LateSteps(), 1)
    ensures InTurn(Steps(6) + [Putting(16, X86_64)], 1) && 12 in First().rows && !InOrder(First(), Past(6), 12, X86_64)
    ensures var (db, h) := Run(LateSteps(), 1).value;
            && Edge in db.heads && ShelfOf(db, db.heads[Edge], X86_64) == Rendered
            && HasBytes(db, Edge, X86_64) && LOST in Listed(db, h, Edge, X86_64) && LOST !in db.packages
  {
    hide State, Past, Steps, Run, Gapless, InTurn, InOrder, HeadRendered, Put, Outside, Collect, Gone, HasBytes,
         Listed, ShelfOf;
    Prefix(6, 1);
    FirstPut();
    Took(Steps(6), 1, State(6), Past(6), Putting(16, X86_64));
    LatePut();
    Took(Steps(6) + [Putting(16, X86_64)], 1, First(), Past(6), Putting(12, X86_64));
    LateOutside();
    Took(Steps(6) + [Putting(16, X86_64)] + [Putting(12, X86_64)], 1, Late(), Past(6), Collecting(1, {LOST}));
    LateServes();
  }

  lemma LateOutside()
    ensures Outside(Late(), 1, LOST)
  {
    hide Late, Outside, Oldest, Rows, Deltas, Top, ShelfOf;
    LatePut();
    forall arch ensures !ShelfOf(Late(), 16, arch).Awaiting? {
      assert arch == X86_64 || arch == Aarch64;
    }
    OldestPlain(Late(), 1);
    LostOutside(Late());
  }

  lemma LateServes()
    ensures var db, h := Collect(Late(), 1, {LOST}), Gone(Late(), Past(6), 1);
            && Edge in db.heads && ShelfOf(db, db.heads[Edge], X86_64) == Rendered
            && HasBytes(db, Edge, X86_64) && LOST in Listed(db, h, Edge, X86_64) && LOST !in db.packages
  {
    hide Late, Gone, Collect, Rows, Deltas, Top, Past, Chosen, Sel, ShelfOf, BytesOf;
    LatePut();
    RowsOf12And16();
    CollectSame(Late(), 1, {LOST}, Edge);
    GoneHistory(Late(), Past(6), 1, Edge);
    PastSel(6, 2);
    LostListed();
    SweptLists(Late(), {LOST});
  }

  /** A collection leaves the databases and the rows of what they list. */
  lemma SweptLists(db: Db, victims: set<Package>)
    ensures var after := Collect(db, 1, victims);
            && after.heads == db.heads && after.packages == db.packages - victims
            && (forall i, arch :: ShelfOf(after, i, arch) == ShelfOf(db, i, arch))
            && (forall ring, arch :: BytesOf(after, ring, arch) == BytesOf(db, ring, arch))
  {
    hide IsKept, DeltaPruned;
  }

  // ---------- rows carried past a parent ----------

  /**
   * The render of the first release lands: its kin, three generations down,
   * are marked with it, the two after them have no rows. A collection keeps
   * the head alone, and a seventh release carries the fourth's rows.
   */
  function GapSteps(): seq<Step> {
    Steps(6) + [Putting(11, X86_64)] + [Collecting(1, {LOST})] + [Publishing(17, PLAIN)]
  }

  function Kin(): Db {
    Next(State(6), Putting(11, X86_64))
  }

  /** A ring of the six releases whose fourth is rendered and whose later ones have no rows. */
  predicate FourthRendered(db: Db) {
    && db.live == map[Edge := {KEPT}] && db.members == map[11 := {KEPT}] && db.deltas == Deltas(6) && db.rows == Rows(6)
    && db.heads == map[Edge := 16] && Top(db, Edge) == 6 && db.packages == {KEPT, LOST}
    && FourthShelves(db)
  }

  predicate FourthShelves(db: Db) {
    && ShelfOf(db, 14, X86_64) == Rendered && ShelfOf(db, 15, X86_64) == NoRows && ShelfOf(db, 16, X86_64) == NoRows
    && ShelfOf(db, 16, Aarch64) == NoRows && db.bySeq == Order(6) && db.sources == Native(6)
  }

  lemma KinOfFirst(db: Db)
    requires db.rows == Rows(6)
    ensures IsKin(db, 11, 14, 3) && !IsKin(db, 11, 15, 3) && !IsKin(db, 11, 16, 3)
  {
    forall id | 12 <= id <= 16 ensures id in db.rows && db.rows[id].parent == Some(id - 1) {
      assert id in Ids(6);
    }
    hide Rows;
    assert IsKin(db, 11, 12, 1) && IsKin(db, 11, 13, 2);
    assert !IsKin(db, 11, 13, 1) && !IsKin(db, 11, 14, 1) && !IsKin(db, 11, 14, 2) && !IsKin(db, 11, 15, 2);
  }

  lemma KinPut()
    ensures FourthRendered(Kin()) && 11 in State(6).rows
  {
    hide State, Put, Rows, Deltas, Order, Top, ShelfOf, IsKin, Native;
    SixTables();
    RowsIs(6, 11);
    RowsIs(6, 14);
    RowsIs(6, 15);
    RowsIs(6, 16);
    KinOfFirst(State(6));
    PutLeaves(State(6), 11, X86_64);
    PutTables(State(6), 11, X86_64, Edge);
    PutShelf(State(6), 11, X86_64, 14, X86_64);
    PutShelf(State(6), 11, X86_64, 15, X86_64);
    PutShelf(State(6), 11, X86_64, 16, X86_64);
    PutShelf(State(6), 11, X86_64, 16, Aarch64);
    SixOrder();
  }

  lemma SixOrder()
    ensures State(6).bySeq == Order(6) && State(6).sources == Native(6)
  {
  }

  lemma KinOutside()
    ensures Outside(Kin(), 1, LOST)
  {
    hide Kin, Outside, Oldest, Rows, Deltas, Top, ShelfOf, Order, Native;
    KinPut();
    forall arch ensures !ShelfOf(Kin(), 16, arch).Awaiting? {
      assert arch == X86_64 || arch == Aarch64;
    }
    OldestPlain(Kin(), 1);
    LostOutside(Kin());
  }

  /** What the collection leaves: the shelves, the order and the rows but for their flags. */
  function Swept(): Db {
    Collect(Kin(), 1, {LOST})
  }

  lemma SweptIs()
    ensures FourthShelves(Swept()) && Swept().heads == map[Edge := 16] && Top(Swept(), Edge) == 6
            && LOST !in Swept().packages
    ensures forall id | 11 <= id <= 16 ::
              id in Swept().rows && Swept().rows[id].ring == Edge && Swept().rows[id].seqNo == id - 10
              && Swept().rows[id].parent == (if id == 11 then None else Some(id - 1))
    ensures !Swept().rows[14].checkpoint && Swept().rows.Keys == Ids(6)
  {
    hide Kin, IsKept, DeltaPruned, Deltas, Top, Order, Native, ShelfOf;
    KinPut();
    CollectSame(Kin(), 1, {LOST}, Edge);
    assert forall id :: id in Rows(6) <==> id in Ids(6);
    SweptShelves();
  }

  lemma SweptShelves()
    ensures FourthShelves(Swept())
  {
    hide Kin, IsKept, DeltaPruned, Deltas, Rows, Order, Native, Top;
    KinPut();
  }

  /** The seventh release carries the fourth's rows, two releases back. */
  lemma GapCarried(kept: bool)
    ensures Carried(Swept(), Edge, 17, X86_64, kept).Awaiting? && !NoGap(Swept(), Edge, X86_64)
    ensures Carried(Swept(), Edge, 17, Aarch64, kept) == NoRows
  {
    hide Swept, Order, Top, ShelfOf;
    SweptIs();
    var db := Swept();
    assert 14 in Ids(6) && 15 in Ids(6) && 16 in Ids(6);
    assert Nearest(db, 14, X86_64, 2) == Some((Rendered, 2));
    assert Nearest(db, 15, X86_64, 1) == Nearest(db, 14, X86_64, 2);
    assert Nearest(db, 16, X86_64, 0) == Nearest(db, 15, X86_64, 1);
    assert Nearest(db, 16, Aarch64, 0).None?;
  }

  function Seventh(): Result<Db, Refusal> {
    Release(Swept(), 17, PLAIN)
  }

  lemma GapAllowed()
    ensures Seventh().Ok? && 17 !in Swept().rows && Scoped(PLAIN)
    ensures Seventh().value
              == Publish(Swept(), Edge, 17, Target(Swept(), PLAIN, Live(Swept(), Edge)), Unchanged(Swept(), PLAIN))
  {
    hide Swept, Order, Top, ShelfOf, Publish, Target, Unchanged;
    SweptIs();
  }

  lemma OrderAt(s: nat)
    requires 1 <= s <= 6
    ensures (Edge, s) in Order(6) && Order(6)[(Edge, s)] == 10 + s
  {
    hide Places;
  }

  /** A ring of seven releases whose head carries the fourth's rows of an architecture. */
  predicate Carrying(db: Db) {
    && Edge in db.heads && db.heads[Edge] == 17 && Top(db, Edge) == 7 && db.bySeq == Order(6)[(Edge, 7) := 17]
    && ShelfOf(db, 17, X86_64).Awaiting? && ShelfOf(db, 17, Aarch64) == NoRows
    && ShelfOf(db, 14, X86_64) == Rendered && ShelfOf(db, 15, X86_64) == NoRows && ShelfOf(db, 16, X86_64) == NoRows
  }

  lemma GapTables(h: History)
    requires Inv(Swept(), h)
    ensures Seventh().Ok? && Carrying(Seventh().value)
  {
    hide Swept, Order, Top, ShelfOf, Inv, Native, Carried, NoGap, Unchanged, Release;
    GapAllowed();
    SweptIs();
    var was := Swept();
    NewHead(was, h, 17, PLAIN, Edge);
    GapCarried(X86_64 in Unchanged(was, PLAIN));
    GapCarried(Aarch64 in Unchanged(was, PLAIN));
    NewShelves(was, h, 17, PLAIN, 17, X86_64);
    NewShelves(was, h, 17, PLAIN, 17, Aarch64);
    NewShelves(was, h, 17, PLAIN, 16, X86_64);
    NewShelves(was, h, 17, PLAIN, 15, X86_64);
    NewShelves(was, h, 17, PLAIN, 14, X86_64);
  }

  /** Retention of one reaches back to the fourth release. */
  lemma GapOldest(db: Db)
    requires Carrying(db)
    ensures Oldest(db, Edge, 1) == 4
  {
    hide Order, Top, ShelfOf, Oldest, Reach, RenderedFrom;
    OrderAt(4);
    OrderAt(5);
    OrderAt(6);
    RenderedStep(db, Edge, X86_64, 6, 0);
    RenderedStep(db, Edge, X86_64, 5, 0);
    RenderedStep(db, Edge, X86_64, 4, 0);
    ReachIs(db, Edge, X86_64);
    ReachIs(db, Edge, Aarch64);
    OldestByReach(db, Edge, 1);
  }

  /** What the seventh release leaves of the fourth. */
  lemma GapFourth()
    ensures var db := Seventh().value;
            Seventh().Ok? && 14 in db.rows && db.rows[14].ring == Edge && db.rows[14].seqNo == 4
            && !db.rows[14].checkpoint && LOST !in db.packages
  {
    hide Swept, Seventh, Top, Unchanged, Carried, CheckpointDue, Diff, Apply, FourthShelves, Target, Live;
    GapAllowed();
    SweptIs();
  }

  /**
   * A release that carries rows its parent does not have makes retention
   * reach behind what a collection already took: retention of one protects the
   * fourth release, which cannot be read any more. Every collection kept one.
   */
  lemma GapReachesBack()
    ensures Run(GapSteps(), 1).Some? && Gapless(GapSteps()[..|GapSteps()| - 1], 1) && !Gapless(GapSteps(), 1)
    ensures var (db, h) := Run(GapSteps(), 1).value;
            IsProtected(db, 1, 14) && LOST in SelOf(db, h, 14) && LOST !in db.packages && Checkpointed(db, 14).Err?
  {
    hide State, Past, Steps, Run, Gapless, InTurn, Kin, FourthRendered, Put, Outside, Gone, Swept, Release, Oldest,
         Checkpointed, Inv, Carried, NoGap, Seventh, Published, Carrying;
    GapRun();
    RunKeeps(GapSteps()[..|GapSteps()| - 1], 1);
    RunKeeps(GapSteps(), 1);
    GapTables(Gone(Kin(), Past(6), 1));
    GapOldest(Seventh().value);
    GapFourth();
    GapSelected();
    CheckpointedExact(Seventh().value, GapPast(), 14);
  }

  function GapPast(): History {
    Published(Swept(), Gone(Kin(), Past(6), 1), Edge, Asked(Swept(), PLAIN))
  }

  lemma GapRun()
    ensures Run(GapSteps()[..|GapSteps()| - 1], 1) == Some((Swept(), Gone(Kin(), Past(6), 1)))
    ensures Seventh().Ok? && Run(GapSteps(), 1) == Some((Seventh().value, GapPast()))
    ensures Gapless(GapSteps()[..|GapSteps()| - 1], 1) && !Gapless(GapSteps(), 1)
  {
    hide State, Past, Steps, Run, Gapless, InTurn, FourthRendered, Put, Outside, Gone, Collect, Release, Carried,
         NoGap, Published, Asked;
    var most := Steps(6) + [Putting(11, X86_64)] + [Collecting(1, {LOST})];
    assert GapSteps()[..|GapSteps()| - 1] == most;
    Prefix(6, 1);
    KinPut();
    Took(Steps(6), 1, State(6), Past(6), Putting(11, X86_64));
    KinOutside();
    Took(Steps(6) + [Putting(11, X86_64)], 1, Kin(), Past(6), Collecting(1, {LOST}));
    GapAllowed();
    GapCarried(false);
    Took(most, 1, Swept(), Gone(Kin(), Past(6), 1), Publishing(17, PLAIN));
    GapBroken(most, Gone(Kin(), Past(6), 1));
  }

  lemma GapBroken(most: seq<Step>, h: History)
    requires Run(most, 1) == Some((Swept(), h)) && Seventh().Ok? && !NoGap(Swept(), Edge, X86_64)
    ensures !Gapless(most + [Publishing(17, PLAIN)], 1)
  {
    hide Swept, Run, NoGap, Release;
    var steps := most + [Publishing(17, PLAIN)];
    assert steps[..|steps| - 1] == most;
  }

  lemma GapSelected()
    ensures Sel(GapPast(), Edge, 4) == Chosen(4) && LOST in Chosen(4)
  {
    hide Past, Chosen, Gone, Asked, Swept, Kin, Published, Top;
    SweptIs();
    SelAfter(Swept(), Gone(Kin(), Past(6), 1), Edge, Asked(Swept(), PLAIN), Edge, 4);
    GoneHistory(Kin(), Past(6), 1, Edge);
    PastSel(6, 4);
    LostListed();
  }
}
