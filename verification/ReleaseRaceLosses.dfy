/**
 * Three interleavings that lose something, each from a state a run of releases
 * reaches: a prune between a rollback's read and its batch, a release that
 * lands between another's two reads, and a delete between a release's lookup
 * and its batch.
 */
module ReleaseRaceLosses {
  import opened Wrappers
  import opened ReleaseLog
  import opened ReleaseSafety
  import opened ReleaseRaces
  import opened ReleaseOutcomes
  import opened ReleaseRollbacks
  import opened ReleaseSerial
  import R = ReleaseRuns
  import L = ReleaseLosses

  /** The nth state of the six releases, with what collections listed before. */
  function At(n: nat, sweeps: seq<Sweep>): World {
    World(L.State(n), L.Past(n), [], sweeps)
  }

  lemma AtSolid(n: nat, sweeps: seq<Sweep>)
    requires n <= 6
    ensures Solid(At(n, sweeps))
  {
    hide *;
    L.Prefix(n, 3);
    var fine, v := SerialRun(L.Steps(n), 3);
    AtIs(n, sweeps);
    SolidSame(v, At(n, sweeps));
  }

  lemma AtIs(n: nat, sweeps: seq<Sweep>)
    ensures At(n, sweeps).db == L.State(n) && At(n, sweeps).h == L.Past(n) && At(n, sweeps).plans == []
            && At(n, sweeps).sweeps == sweeps
  {
  }

  // ---------- a prune before a rollback's batch ----------

  lemma ThreeProtected()
    ensures var db := L.State(3);
            && IsProtected(db, 3, 12) && 12 in db.rows && db.rows[12] == Row(Edge, 2, Some(11), false)
            && Top(db, Edge) == 3 && !IsKept(db, 3, 12) && Live(db, Edge) == {L.KEPT, L.LOST}
  {
    hide L.State, Top, Oldest;
    L.RowsIs(3, 12);
    L.LiveIs(3);
    FirstOldest(L.State(3), 3);
  }

  /** A ring of no more releases than are kept is protected whole. */
  lemma FirstOldest(db: Db, keep: nat)
    requires 0 < Top(db, Edge) <= keep
    ensures Oldest(db, Edge, keep) == 1
  {
    OldestBounds(db, Edge, keep);
    OldestIs(db, Edge, keep);
  }

  lemma OnePrune(u: World, of: nat, ring: Ring, sel: set<Package>)
    requires of in u.db.rows && |u.sweeps| > 0 && of !in u.sweeps[0].kept
    ensures Run([Pruning(0)], u) == Some(Next(u, Pruning(0)))
    ensures EverPruned([Pruning(0)], u, of) && NeverRewritten([Pruning(0)], u, of) && !EverDeleted([Pruning(0)], u, sel)
            && NoneUploaded([Pruning(0)], sel) && Landings([Pruning(0)], u, ring) == 0
  {
    assert [Pruning(0)][..0] == [];
    assert Run([], u) == Some(u);
  }

  /**
   * A collection lists while the protected second release has no rows of its
   * own; a rollback to it writes them; the collection prunes them, and the
   * release stands flagged without a row; the batch then takes every package
   * from the ring.
   */
  lemma PruneEmptiesRollback()
    ensures R.Run(L.Steps(3), 3).Some? && R.Gapless(L.Steps(3), 3)
    ensures var (db, h) := R.Run(L.Steps(3), 3).value;
            && IsProtected(db, 3, 12) && Live(db, Edge) == {L.KEPT, L.LOST} && SelOf(db, h, 12) == {L.KEPT, L.LOST}
            && var u := BackRead(db, h, [Listed(db, 3, {})], 12);
            var v := Next(u, Pruning(0));
            && MembersOf(u.db, 12) == {L.KEPT, L.LOST}
            && 12 in v.db.rows && v.db.rows[12].checkpoint && MembersOf(v.db, 12) == {}
            && Lands(v, Batching(0, 14)) && Live(Next(v, Batching(0, 14)).db, Edge) == {}
  {
    hide *;
    L.Prefix(3, 3);
    var db, h := L.State(3), L.Past(3);
    var listed := Listed(db, 3, {});
    ThreeProtected();
    Second();
    R.RunGuards(L.Steps(3), 3);
    ReadWhole(db, h, 3, 12);
    AtSolid(3, [listed]);
    AtIs(3, [listed]);
    BackReads(At(3, [listed]), 3, 12);
    BackSolid(At(3, [listed]), 12);
    BackListed(db, h, [listed], 12);
    var u := BackRead(db, h, [listed], 12);
    ListedKept(db, 3, {}, 12);
    OnePrune(u, 12, Edge, {L.KEPT, L.LOST});
    StillFlagged(db, u, 12);
    LandsExactly([Pruning(0)], u, 0, 14);
    RowsStand([Pruning(0)], u, 12);
    PlansStay([Pruning(0)], u, 0);
    ReleaseRaces.RunKeeps([Pruning(0)], u);
    FourteenFree(db, u);
    BatchAllowed(Next(u, Pruning(0)), 0, 14);
    RolledBack(Next(u, Pruning(0)), 0, 14);
    RowsOf(Next(u, Pruning(0)).db, 12);
  }

  lemma Second()
    ensures 12 in L.State(3).rows && SelOf(L.State(3), L.Past(3), 12) == {L.KEPT, L.LOST}
  {
    hide L.State, L.Past;
    L.RowsIs(3, 12);
    L.PastSel(3, 2);
  }

  lemma BackListed(db: Db, h: History, sweeps: seq<Sweep>, to: nat)
    requires to in db.rows
    ensures BackRead(db, h, sweeps, to).sweeps == sweeps
  {
    hide Prepared;
  }

  lemma ListedKept(db: Db, keep: nat, victims: set<Package>, id: nat)
    requires !IsKept(db, keep, id)
    ensures id !in Listed(db, keep, victims).kept
  {
    hide IsKept, BaseSeq;
  }

  lemma StillFlagged(db: Db, u: World, id: nat)
    requires Checkpointed(db, id).Ok? && u.db == Checkpointed(db, id).value && |u.sweeps| > 0
    ensures id in Next(u, Pruning(0)).db.rows && Next(u, Pruning(0)).db.rows[id].checkpoint
  {
    hide Selection;
  }

  lemma FourteenFree(db: Db, u: World)
    requires db == L.State(3) && Checkpointed(db, 12).Ok? && u.db == Checkpointed(db, 12).value && |u.sweeps| > 0
    ensures 14 !in Next(u, Pruning(0)).db.rows
  {
    hide Selection, L.Order, L.Deltas, L.Bare, L.Native;
  }

  // ---------- a delete before a release's batch ----------

  /**
   * A package outside retention is listed; a release that takes it back finds it
   * stored; it is deleted, no ring serving it; the batch then serves a package
   * the store has not.
   */
  lemma DeleteBeforeBatch()
    ensures R.Run(L.Steps(1), 3).Some? && Outside(R.Run(L.Steps(1), 3).value.0, 3, L.LOST)
    ensures var (db, h) := R.Run(L.Steps(1), 3).value;
            var w := World(db, h, [], [Listed(db, 3, {L.LOST})]);
            var u := Next(Next(w, Opening(L.Asking(1))), Preparing(0));
            var v := Next(u, Deleting(0, L.LOST));
            && AllStored(db) && Allowed(u, Deleting(0, L.LOST)) && Lands(v, Batching(0, 12))
            && L.LOST in Live(Next(v, Batching(0, 12)).db, Edge) && L.LOST !in Next(v, Batching(0, 12)).db.packages
  {
    hide *;
    L.Prefix(1, 3);
    L.OneOutside();
    var sweep := Listed(L.State(1), 3, {L.LOST});
    var w := At(1, [sweep]);
    AtIs(1, [sweep]);
    AtSolid(1, [sweep]);
    OneServes();
    L.AskingIs(1);
    OneAsks(w, [sweep]);
    var u := Next(Next(w, Opening(L.Asking(1))), Preparing(0));
    OpeningSolid(w, L.Asking(1));
    PreparingKeeps(Next(w, Opening(L.Asking(1))), 0);
    ListedVictims(L.State(1), 3, {L.LOST});
    OneDeleted(u);
    SweepingKeeps(u, Deleting(0, L.LOST));
    var v := Next(u, Deleting(0, L.LOST));
    OneLands(v);
    LandedIs(v, Batching(0, 12));
    AimIs(v.db, v.plans[0]);
  }

  lemma OneServes()
    ensures AllStored(L.State(1)) && !R.IsServed(L.State(1), L.LOST) && L.Asking(1).adds == {L.LOST}
            && L.LOST in L.State(1).packages && 12 !in L.State(1).rows
  {
    hide L.Order, L.Deltas, L.Bare, L.Native;
  }

  /** The release has read its parent, its number and what it adds. */
  lemma OneAsks(w: World, sweeps: seq<Sweep>)
    requires w == At(1, sweeps) && Solid(w) && L.Asking(1).adds == {L.LOST} && Scoped(L.Asking(1))
             && L.LOST in L.State(1).packages && L.Asking(1).ring == Edge && L.Asking(1).base == Own
    ensures var u := Next(Next(w, Opening(L.Asking(1))), Preparing(0));
            && u.db == L.State(1) && |u.plans| == 1 && u.sweeps == sweeps
            && u.plans[0].q == L.Asking(1) && u.plans[0].ready.Some? && u.plans[0].ready.value.seqNo == 2
  {
    hide L.State, L.Past, Solid, CheckpointDue, UnchangedOver, Top;
    L.LiveIs(1);
    assert L.Asking(1).onlyArch.None?;
  }

  lemma OneDeleted(u: World)
    requires u.db == L.State(1) && |u.sweeps| > 0 && u.sweeps[0].victims == {L.LOST} && !R.IsServed(L.State(1), L.LOST)
    ensures Allowed(u, Deleting(0, L.LOST))
    ensures var v := Next(u, Deleting(0, L.LOST));
            v.db == L.State(1).(packages := L.State(1).packages - {L.LOST}) && v.plans == u.plans
  {
    hide L.State, R.IsServed;
  }

  lemma OneLands(v: World)
    requires v.db == L.State(1).(packages := L.State(1).packages - {L.LOST}) && |v.plans| > 0 && 12 !in L.State(1).rows
    requires v.plans[0].q == L.Asking(1) && L.Asking(1).ring == Edge && v.plans[0].ready.Some?
             && v.plans[0].ready.value.seqNo == 2
    ensures Lands(v, Batching(0, 12)) && Allowed(v, Batching(0, 12))
  {
    hide L.Rows, L.Deltas, L.Bare, L.Native;
  }

  // ---------- a release between another's two reads ----------

  /** A sync has read its parent; another release of the ring is made whole; then the sync reads the rest. */
  ghost function Overlapped(w: World): World
    requires Run(Whole(L.Asking(1), 1, 12), Next(w, Opening(L.PLAIN))).Some?
  {
    Next(Run(Whole(L.Asking(1), 1, 12), Next(w, Opening(L.PLAIN))).value, Preparing(0))
  }

  /**
   * A release lands between another's read of its parent and of its number: the
   * later one is numbered third, its parent is the first and its delta is against
   * the second, empty. Once a fourth is made, reading the third by its id writes
   * and flags the first's selection as its own.
   */
  lemma LateParentMisreads()
    ensures R.Run(L.Steps(1), 3).Some?
    ensures var (db, h) := R.Run(L.Steps(1), 3).value;
            var w := World(db, h, [], []);
            && Run(Whole(L.Asking(1), 1, 12), Next(w, Opening(L.PLAIN))).Some?
            && Lands(Overlapped(w), Batching(0, 13))
            && var x := Next(Overlapped(w), Batching(0, 13));
            && Sel(x.h, Edge, 1) == {L.KEPT} && Sel(x.h, Edge, 3) == {L.KEPT, L.LOST} == Live(x.db, Edge)
            && 13 in x.db.rows && x.db.rows[13] == Row(Edge, 3, Some(11), false)
            && 13 in x.db.deltas && Apply(Sel(x.h, Edge, 1), x.db.deltas[13]) == {L.KEPT}
            && Run(Whole(L.PLAIN, |x.plans|, 14), x).Some?
            && var after := Next(Run(Whole(L.PLAIN, |x.plans|, 14), x).value, Calm(R.Reading(13)));
            && Sel(after.h, Edge, 3) == {L.KEPT, L.LOST} && 13 in after.db.rows && after.db.rows[13].checkpoint
            && MembersOf(after.db, 13) == {L.KEPT}
  {
    hide *;
    PlainIs();
    L.Prefix(1, 3);
    var w := At(1, []);
    AtIs(1, []);
    AtSolid(1, []);
    SyncOpens(w);
    SyncReads(w);
    var p := Overlapped(w);
    PlainLands(p);
    var x := Next(p, Batching(0, 13));
    LandedIs(p, Batching(0, 13));
    StepKeeps(p, Batching(0, 13));
    LandsReady(p, Batching(0, 13));
    PlainAim(p.db, p.plans[0]);
    PlainMembers(p);
    Third(p, x);
    Fourth(x);
    var y := Run(Whole(L.PLAIN, |x.plans|, 14), x).value;
    Misread(y.db);
    ReadAfter(y, 13);
  }

  lemma SyncOpens(w: World)
    requires w == At(1, []) && Solid(w)
    ensures var o := Next(w, Opening(L.PLAIN));
            && Solid(o) && o.db == L.State(1) && o.h == L.Past(1)
            && o.plans == [Plan(L.PLAIN, None, Some(11), None)]
  {
    hide L.State, L.Past, Solid;
    PlainIs();
    L.LiveIs(1);
    OpeningSolid(w, L.PLAIN);
  }

  lemma PlainIs()
    ensures Scoped(L.PLAIN) && L.PLAIN.ring == Edge && L.PLAIN.base == Own && L.PLAIN.adds == {}
            && L.PLAIN.onlyArch.None? && L.PLAIN.drop == {}
  {
  }

  lemma SyncReads(w: World)
    requires var o := Next(w, Opening(L.PLAIN));
             && Solid(o) && o.db == L.State(1) && o.h == L.Past(1)
             && o.plans == [Plan(L.PLAIN, None, Some(11), None)]
    ensures Run(Whole(L.Asking(1), 1, 12), Next(w, Opening(L.PLAIN))).Some?
    ensures var p := Overlapped(w);
            && Solid(p) && p.db == L.State(2) && p.h.sel == L.Past(2).sel && |p.plans| > 0
            && p.plans[0] == Plan(L.PLAIN, None, Some(11), Some(Ready(3, Served(Edge), false, {})))
  {
    hide Next, Run, Solid, Whole, L.State, L.Past, Release, Top, Asked, L.Asking, Landed, Scoped, Diff, Prepared;
    var o := Next(w, Opening(L.PLAIN));
    L.Grows(1);
    L.AskingIs(1);
    TwelveFree();
    ReleaseAtOnce(o, 12, L.Asking(1));
    var v := Run(Whole(L.Asking(1), 1, 12), o).value;
    PastTwo(o, v);
    WholeSteps(L.Asking(1), 1, 12);
    PlanAlone(Whole(L.Asking(1), 1, 12), o, 0);
    ReleaseRaces.RunKeeps(Whole(L.Asking(1), 1, 12), o);
    PreparingKeeps(v, 0);
    PlainReads(v);
  }

  lemma TwelveFree()
    ensures 12 !in L.State(1).rows && Top(L.State(1), Edge) == 1
  {
    hide L.Order, L.Deltas, L.Bare, L.Native;
  }

  lemma PastTwo(o: World, v: World)
    requires o.db == L.State(1) && o.h == L.Past(1) && L.Asking(1).ring == Edge
    requires v.h.sel == o.h.sel[(Edge, Top(o.db, Edge) + 1) := Asked(o.db, L.Asking(1))]
    requires Release(L.State(1), 12, L.Asking(1)).Ok?
    ensures v.h.sel == L.Past(2).sel
  {
    hide L.State, L.Past, Release, Top, Asked, L.Asking;
    L.PastGrows(1);
  }

  /** A release under way stands as it was through every step that is not its own read. */
  lemma {:induction false} PlanAlone(steps: seq<Step>, w: World, at: nat)
    requires Run(steps, w).Some? && at < |w.plans| && forall s | s in steps :: s != Preparing(at)
    ensures at < |Run(steps, w).value.plans| && Run(steps, w).value.plans[at] == w.plans[at]
    decreases |steps|
  {
    hide Next, Allowed;
    if steps != [] {
      var before := steps[..|steps| - 1];
      forall s | s in before ensures s != Preparing(at) {
        assert s in steps;
      }
      PlanAlone(before, w, at);
      assert steps[|steps| - 1] in steps;
      OtherPlan(Run(steps[..|steps| - 1], w).value, steps[|steps| - 1], at);
    }
  }

  lemma OtherPlan(w: World, s: Step, at: nat)
    requires at < |w.plans| && s != Preparing(at)
    ensures at < |Next(w, s).plans| && Next(w, s).plans[at] == w.plans[at]
  {
    hide Prepared, After, Aim, Lands, R.Next;
  }

  lemma WholeSteps(q: Request, at: nat, id: nat)
    ensures forall s | s in Whole(q, at, id) :: s == Opening(q) || s == Preparing(at) || s == Batching(at, id)
  {
  }

  lemma PlainReads(v: World)
    requires v.db == L.State(2) && |v.plans| > 0 && v.plans[0] == Plan(L.PLAIN, None, Some(11), None)
    ensures var p := Next(v, Preparing(0));
            && p.db == v.db && p.h == v.h && |p.plans| > 0
            && p.plans[0] == Plan(L.PLAIN, None, Some(11), Some(Ready(3, Served(Edge), false, {})))
  {
    hide L.State, CheckpointDue, Top;
    PlainIs();
    L.LiveIs(2);
    L.DueIs(2);
  }

  lemma PlainLands(p: World)
    requires p.db == L.State(2) && |p.plans| > 0
             && p.plans[0] == Plan(L.PLAIN, None, Some(11), Some(Ready(3, Served(Edge), false, {})))
    ensures Lands(p, Batching(0, 13)) && Allowed(p, Batching(0, 13))
  {
    hide L.Deltas, L.Bare, L.Native;
    PlainIs();
  }

  lemma PlainAim(db: Db, plan: Plan)
    requires db == L.State(2) && plan == Plan(L.PLAIN, None, Some(11), Some(Ready(3, Served(Edge), false, {})))
    ensures Aim(db, plan) == {L.KEPT, L.LOST} == Live(db, Edge) && db.packages == {L.KEPT, L.LOST}
  {
    hide L.State;
    PlainIs();
    L.LiveIs(2);
  }

  /** The release the sync made: the third, its parent the first, its delta empty. */
  lemma Third(p: World, x: World)
    requires p.db == L.State(2) && p.h.sel == L.Past(2).sel
    requires x.db.rows == p.db.rows[13 := Row(Edge, 3, Some(11), false)] && x.db.heads == p.db.heads[Edge := 13]
    requires x.db.deltas == p.db.deltas[13 := Diff({L.KEPT, L.LOST}, {L.KEPT, L.LOST})]
    requires x.h == p.h.(sel := p.h.sel[(Edge, 3) := {L.KEPT, L.LOST}]) && x.db.packages == p.db.packages
    ensures Sel(x.h, Edge, 1) == {L.KEPT} && Sel(x.h, Edge, 3) == {L.KEPT, L.LOST}
            && x.db.rows[13] == Row(Edge, 3, Some(11), false) && Apply({L.KEPT}, x.db.deltas[13]) == {L.KEPT}
            && 11 in x.db.rows && x.db.rows[11].checkpoint && x.db.deltas[13] == map[]
            && x.db.heads == map[Edge := 13] && 14 !in x.db.rows && x.db.packages == {L.KEPT, L.LOST}
  {
    hide L.State, L.Past, Diff, Apply;
    L.LiveIs(2);
    L.RowsIs(2, 11);
    L.PastSel(2, 1);
    NoDelta({L.KEPT, L.LOST}, {L.KEPT});
    FourteenNot();
    FirstListed();
    PastSame(p.h);
  }

  lemma FirstListed()
    ensures L.Chosen(1) == {L.KEPT}
  {
  }

  lemma PastSame(h: History)
    requires h.sel == L.Past(2).sel
    ensures Sel(h, Edge, 1) == Sel(L.Past(2), Edge, 1)
  {
    hide L.Past;
  }

  lemma FourteenNot()
    ensures 14 !in L.State(2).rows
  {
    hide L.Order, L.Deltas, L.Bare, L.Native;
  }

  lemma NoDelta(served: set<Package>, rows: set<Package>)
    ensures Diff(served, served) == map[] && Apply(rows, map[]) == rows
  {
  }

  lemma PlainMembers(p: World)
    requires p.db == L.State(2) && |p.plans| > 0 && Lands(p, Batching(0, 13))
             && p.plans[0] == Plan(L.PLAIN, None, Some(11), Some(Ready(3, Served(Edge), false, {})))
    ensures Next(p, Batching(0, 13)).db.members == map[11 := {L.KEPT}]
  {
    hide Aim, Diff, Apply, CarriedFrom, Live, L.Rows, L.Order, L.Deltas, L.Bare, L.Native, Lands;
  }

  lemma Fourth(x: World)
    requires Solid(x) && 13 in x.db.rows && x.db.rows[13] == Row(Edge, 3, Some(11), false)
    requires 11 in x.db.rows && x.db.rows[11].checkpoint && 13 in x.db.deltas && x.db.deltas[13] == map[]
    requires x.db.heads == map[Edge := 13] && 14 !in x.db.rows && x.db.members == map[11 := {L.KEPT}]
    ensures Run(Whole(L.PLAIN, |x.plans|, 14), x).Some?
    ensures var y := Run(Whole(L.PLAIN, |x.plans|, 14), x).value;
            && 13 in y.db.rows && y.db.rows[13] == x.db.rows[13] && 11 in y.db.rows && y.db.rows[11].checkpoint
            && 13 in y.db.deltas && y.db.deltas[13] == map[]
            && MembersOf(y.db, 11) == {L.KEPT} && MembersOf(y.db, 13) == {}
            && y.db.heads == map[Edge := 14] && y.db.packages == x.db.packages && Sel(y.h, Edge, 3) == Sel(x.h, Edge, 3)
  {
    hide *;
    PlainIs();
    PlainReleased(x.db);
    ReleaseAtOnce(x, 14, L.PLAIN);
    ThirdTop(x.db);
    SelIs(x.h, Run(Whole(L.PLAIN, |x.plans|, 14), x).value.h, Asked(x.db, L.PLAIN));
  }

  lemma ThirdTop(db: Db)
    requires 13 in db.rows && db.rows[13] == Row(Edge, 3, Some(11), false) && db.heads == map[Edge := 13]
    ensures Top(db, Edge) == 3
  {
  }

  lemma SelIs(h: History, h': History, target: set<Package>)
    requires h'.sel == h.sel[(Edge, 4) := target]
    ensures Sel(h', Edge, 3) == Sel(h, Edge, 3)
  {
  }

  lemma PlainReleased(db: Db)
    requires 13 in db.rows && 11 in db.rows && 13 in db.deltas && db.heads == map[Edge := 13]
             && db.members == map[11 := {L.KEPT}]
    ensures Release(db, 14, L.PLAIN).Ok?
    ensures var after := Release(db, 14, L.PLAIN).value;
            && 13 in after.rows && after.rows[13] == db.rows[13] && 11 in after.rows && after.rows[11] == db.rows[11]
            && 13 in after.deltas && after.deltas[13] == db.deltas[13] && MembersOf(after, 11) == {L.KEPT}
            && MembersOf(after, 13) == {} && after.heads == map[Edge := 14] && after.packages == db.packages
  {
    hide Target, Diff, Apply, CarriedFrom, Live, CheckpointDue, Unchanged, Top;
    PlainIs();
  }

  lemma Misread(db: Db)
    requires 13 in db.rows && db.rows[13] == Row(Edge, 3, Some(11), false) && 11 in db.rows && db.rows[11].checkpoint
    requires 13 in db.deltas && db.deltas[13] == map[] && MembersOf(db, 11) == {L.KEPT} && L.KEPT in db.packages
    requires db.heads == map[Edge := 14] && MembersOf(db, 13) == {}
    ensures Checkpointed(db, 13).Ok? && MembersOf(Checkpointed(db, 13).value, 13) == {L.KEPT}
            && 13 in Checkpointed(db, 13).value.rows && Checkpointed(db, 13).value.rows[13].checkpoint
  {
  }

  lemma ReadAfter(y: World, id: nat)
    requires Checkpointed(y.db, id).Ok?
    ensures Next(y, Calm(R.Reading(id))) == y.(db := Checkpointed(y.db, id).value)
  {
    hide Checkpointed;
  }
}
