/**
 * The runs in which every release and every collection is one step, as runs of
 * the machine whose releases and collections interleave: with nothing in
 * between, a release's reads and batch are the release, and a collection's
 * statements are the collection. So what such a run reaches is where the
 * overlapping ones start.
 */
module ReleaseSerial {
  import opened Wrappers
  import opened ReleaseLog
  import opened ReleaseSafety
  import opened ReleaseRaces
  import opened ReleaseOutcomes
  import opened ReleaseRollbacks
  import R = ReleaseRuns

  const START := World(EMPTY, History(map[], map[], map[]), [], [])

  lemma StartSolid()
    ensures Solid(START)
  {
    forall ring
      ensures HeadOk(EMPTY, ring) && Top(EMPTY, ring) == 0
      ensures Live(EMPTY, ring) == {} && Sel(START.h, ring, 0) == {}
    {
    }
    assert ServedOk(START) && PlacesOk(START) && NumbersOk(START) && PlansOk(START);
  }

  lemma RunOne(steps: seq<Step>, w: World, s: Step)
    requires Run(steps, w).Some? && Allowed(Run(steps, w).value, s)
    ensures Run(steps + [s], w) == Some(Next(Run(steps, w).value, s))
  {
    hide Next, Allowed;
    assert (steps + [s])[..|steps + [s]| - 1] == steps;
  }

  lemma {:induction false} RunThen(first: seq<Step>, rest: seq<Step>, w: World)
    requires Run(first, w).Some? && Run(rest, Run(first, w).value).Some?
    ensures Run(first + rest, w) == Run(rest, Run(first, w).value)
    decreases |rest|
  {
    hide Next, Allowed;
    if rest == [] {
      assert first + rest == first;
    } else {
      var init := rest[..|rest| - 1];
      RunThen(first, init, w);
      RunOne(first + init, w, rest[|rest| - 1]);
      assert first + rest == first + init + [rest[|rest| - 1]];
    }
  }

  // ---------- a release ----------

  /** The base a release reads is the one of the release made at once. */
  lemma BaseAtOnce(w: World, q: Request)
    requires Solid(w) && SourceRefusal(w.db, q).None?
    ensures var plan := Plan(q, SourceOf(w.db, q), ParentOf(w.db, q.ring), None);
            match BaseOf(w.db, q)
            case Err(e) => StartOf(w.db, plan) == Err(e)
            case Ok((read, base)) =>
              StartOf(w.db, plan).Ok? && StartOf(w.db, plan).value.0 == read
              && SetOf(read, StartOf(w.db, plan).value.1) == base
  {
    hide Solid, Checkpointed, Top, Placed, AtPlace, Live;
    match q.base
    case Own => NoneServed(w, q.ring);
    case Promote(from) => HeadsAre(w, from); if q.ring in w.db.heads { HeadsAre(w, q.ring); }
    case Rollback(to) => RingsHead(w, to);
  }

  lemma NoneServed(w: World, ring: Ring)
    requires Solid(w)
    ensures ring !in w.db.heads ==> Live(w.db, ring) == {}
  {
    ServedIs(w, ring);
  }

  /** A head is of its own ring alone. */
  lemma HeadsAre(w: World, ring: Ring)
    requires Solid(w) && ring in w.db.heads
    ensures HeadRing(w.db, w.db.heads[ring]) == Some(ring)
  {
    forall r | r in w.db.heads ensures w.db.heads[r] in w.db.rows && w.db.rows[w.db.heads[r]].ring == r {
      assert HeadOk(w.db, r);
    }
  }

  lemma RingsHead(w: World, id: nat)
    requires Solid(w) && id in w.db.rows
    ensures match HeadRing(w.db, id)
            case Some(ring) => ring in w.db.heads && w.db.heads[ring] == id && w.db.rows[id].ring == ring
            case None => w.db.rows[id].ring in w.db.heads ==> w.db.heads[w.db.rows[id].ring] != id
  {
    forall r | r in w.db.heads ensures w.db.heads[r] in w.db.rows && w.db.rows[w.db.heads[r]].ring == r {
      assert HeadOk(w.db, r);
    }
  }

  /** The three steps of a release with nothing in between. */
  function Whole(q: Request, at: nat, id: nat): seq<Step> {
    [Opening(q)] + [Preparing(at)] + [Batching(at, id)]
  }

  lemma PlanOpened(w: World, q: Request)
    requires SourceRefusal(w.db, q).None?
    ensures var u := Next(w, Opening(q));
            && |w.plans| < |u.plans|
            && u.plans[|w.plans|] == Plan(q, SourceOf(w.db, q), ParentOf(w.db, q.ring), None)
  {
  }

  /** What a release reads with nothing in between is what the release made at once reads. */
  lemma PreparedAtOnce(w: World, q: Request)
    requires Solid(w) && SourceRefusal(w.db, q).None? && q.adds <= w.db.packages && BaseOf(w.db, q).Ok?
    ensures var plan := Plan(q, SourceOf(w.db, q), ParentOf(w.db, q.ring), None);
            var (read, base) := BaseOf(w.db, q).value;
            Prepared(w.db, plan).Ok? && Prepared(w.db, plan).value.0 == read && Stays(w.db, read)
            && var ready := Prepared(w.db, plan).value.1;
            && ready.q == q && ready.parent == ParentOf(w.db, q.ring) && ready.ready.Some?
            && SetOf(read, ready.ready.value.base) == base && ready.ready.value.seqNo == Top(w.db, q.ring) + 1
            && ready.ready.value.due == CheckpointDue(read, q.ring) && ready.ready.value.kept == Unchanged(w.db, q)
  {
    hide Solid, Checkpointed, Top, Placed, AtPlace, Live, StartOf, SetOf,
         CheckpointDue, UnchangedOver, Stays, FromParent, BaseOf;
    var plan := Plan(q, SourceOf(w.db, q), ParentOf(w.db, q.ring), None);
    BaseAtOnce(w, q);
    PreparedStays(w.db, plan);
    DueStays(w.db, Prepared(w.db, plan).value.0, q.ring);
    SameParent(w.db, q);
  }

  lemma DueStays(db: Db, read: Db, ring: Ring)
    requires Stays(db, read)
    ensures CheckpointDue(read, ring) <==> (ParentOf(db, ring).None? || CheckpointDue(read, ring))
  {
  }

  lemma SameParent(db: Db, q: Request)
    requires SourceRefusal(db, q).None?
    ensures UnchangedOver(q, ParentOf(db, q.ring).Some?,
                          SourceOf(db, q).None? || SourceOf(db, q) == ParentOf(db, q.ring))
            == Unchanged(db, q)
  {
  }

  /** With nothing in between, a release's reads and its batch are the release made at once. */
  lemma ReleaseAtOnce(w: World, id: nat, q: Request)
    requires Solid(w) && id !in w.db.rows && Scoped(q) && Release(w.db, id, q).Ok?
    ensures Run(Whole(q, |w.plans|, id), w).Some?
    ensures var v := Run(Whole(q, |w.plans|, id), w).value;
            && v.db == Release(w.db, id, q).value
            && v.h.sel == w.h.sel[(q.ring, Top(w.db, q.ring) + 1) := Asked(w.db, q)]
  {
    hide *;
    var at := |w.plans|;
    Released(w.db, id, q);
    OpeningIs(w, q);
    PlanOpened(w, q);
    OpeningSolid(w, q);
    PreparedAtOnce(w, q);
    PreparingIs(Next(w, Opening(q)), at);
    var b := Next(Next(w, Opening(q)), Preparing(at));
    PreparingKeeps(Next(w, Opening(q)), at);
    StaysHeads(w.db, b.db);
    BatchAtOnce(w, b, id, q);
    RunThree(w, q, at, id);
  }

  /** The two reads of a release at once, then its batch. */
  lemma Released(db: Db, id: nat, q: Request)
    requires Release(db, id, q).Ok?
    ensures SourceRefusal(db, q).None? && q.adds <= db.packages && BaseOf(db, q).Ok?
    ensures var (read, base) := BaseOf(db, q).value;
            Release(db, id, q).value == Publish(read, q.ring, id, Target(read, q, base), Unchanged(db, q))
            && Asked(db, q) == Target(read, q, base)
  {
    hide BaseOf, Publish, Target;
  }

  lemma PreparingIs(w: World, at: nat)
    requires at < |w.plans| && w.plans[at].ready.None? && Prepared(w.db, w.plans[at]).Ok?
    ensures var u := Next(w, Preparing(at));
            u.db == Prepared(w.db, w.plans[at]).value.0 && u.plans == w.plans[at := Prepared(w.db, w.plans[at]).value.1]
            && u.h == w.h
  {
    hide Prepared;
  }

  lemma BatchAtOnce(w: World, b: World, id: nat, q: Request)
    requires Solid(w) && Solid(b) && SourceRefusal(w.db, q).None? && BaseOf(w.db, q).Ok?
             && b.db == BaseOf(w.db, q).value.0
    requires Stays(w.db, b.db) && b.h == w.h && |w.plans| < |b.plans|
    requires var plan := b.plans[|w.plans|];
             && plan.q == q && plan.parent == ParentOf(w.db, q.ring) && plan.ready.Some?
             && SetOf(b.db, plan.ready.value.base) == BaseOf(w.db, q).value.1
             && plan.ready.value.seqNo == Top(w.db, q.ring) + 1
             && plan.ready.value.due == CheckpointDue(b.db, q.ring) && plan.ready.value.kept == Unchanged(w.db, q)
    ensures Lands(b, Batching(|w.plans|, id))
    ensures var (read, base) := BaseOf(w.db, q).value;
            var v := Next(b, Batching(|w.plans|, id));
            && v.db == Publish(read, q.ring, id, Target(read, q, base), Unchanged(w.db, q))
            && v.h.sel == w.h.sel[(q.ring, Top(w.db, q.ring) + 1) := Target(read, q, base)]
  {
    hide Solid, BaseOf, SetOf, Top, CheckpointDue, UnchangedOver, Stays, Landed, TargetOver, Unchanged;
    StaysTop(w.db, b.db, q.ring);
    NumberTaken(b, q.ring, Top(b.db, q.ring) + 1);
    StaysHeads(w.db, b.db);
  }

  lemma StaysHeads(db: Db, after: Db)
    requires Stays(db, after)
    ensures after.heads == db.heads && after.rows.Keys == db.rows.Keys
  {
  }

  lemma RunThree(w: World, q: Request, at: nat, id: nat)
    requires Scoped(q) && id !in Next(Next(w, Opening(q)), Preparing(at)).db.rows
    ensures Run(Whole(q, at, id), w) == Some(Next(Next(Next(w, Opening(q)), Preparing(at)), Batching(at, id)))
  {
    hide Next, Scoped, Outside;
    assert Run([], w) == Some(w);
    RunOne([], w, Opening(q));
    assert [] + [Opening(q)] == [Opening(q)];
    RunOne([Opening(q)], w, Preparing(at));
    RunOne([Opening(q)] + [Preparing(at)], w, Batching(at, id));
  }

  // ---------- a collection ----------

  lemma PrunedAtOnce(db: Db, keep: nat, victims: set<Package>)
    ensures var sweep := Listed(db, keep, victims);
            Trimmed(Unflagged(Pruned(db, sweep), sweep), sweep).(packages := db.packages - victims)
            == Collect(db, keep, victims)
  {
    hide IsKept, BaseSeq, Listed, Behind, DeltaPruned;
    RowsAtOnce(db, keep, victims);
    DeltasAtOnce(db, keep, victims);
  }

  lemma RowsAtOnce(db: Db, keep: nat, victims: set<Package>)
    ensures var sweep := Listed(db, keep, victims);
            && Pruned(db, sweep).members == Collect(db, keep, victims).members
            && Unflagged(db, sweep).rows == Collect(db, keep, victims).rows
  {
    hide IsKept, BaseSeq, Listed, DeltaPruned;
    ListedIs(db, keep, victims);
  }

  lemma DeltasAtOnce(db: Db, keep: nat, victims: set<Package>)
    ensures var sweep := Listed(db, keep, victims);
            Trimmed(Unflagged(Pruned(db, sweep), sweep), sweep).deltas == Collect(db, keep, victims).deltas
  {
    hide IsKept, BaseSeq, Listed, Behind, DeltaPruned;
    var sweep := Listed(db, keep, victims);
    var swept := Unflagged(Pruned(db, sweep), sweep);
    forall id ensures Behind(swept, sweep, id) <==> DeltaPruned(db, keep, id) {
      SweptPlaces(db, sweep, id);
      BehindIs(db, swept, keep, victims, id);
    }
  }

  lemma SweptPlaces(db: Db, sweep: Sweep, id: nat)
    ensures var after := Unflagged(Pruned(db, sweep), sweep);
            && (id in after.rows <==> id in db.rows)
            && (id in db.rows ==> after.rows[id].ring == db.rows[id].ring && after.rows[id].seqNo == db.rows[id].seqNo)
  {
  }

  lemma ListedIs(db: Db, keep: nat, victims: set<Package>)
    ensures forall id :: id in Listed(db, keep, victims).kept <==> IsKept(db, keep, id)
    ensures forall ring :: BasesAre(db, keep, Listed(db, keep, victims).base, ring)
  {
    hide IsProtected, BaseSeq;
    forall ring ensures BasesAre(db, keep, Listed(db, keep, victims).base, ring) {
      match ring case Edge => case Rc => case Stable => case Lab =>
    }
  }

  predicate BasesAre(db: Db, keep: nat, base: map<Ring, nat>, ring: Ring) {
    (if ring in base then Some(base[ring]) else None) == BaseSeq(db, ring, keep)
  }

  lemma BehindIs(db: Db, swept: Db, keep: nat, victims: set<Package>, id: nat)
    requires id in db.rows <==> id in swept.rows
    requires id in db.rows ==> swept.rows[id].ring == db.rows[id].ring && swept.rows[id].seqNo == db.rows[id].seqNo
    ensures Behind(swept, Listed(db, keep, victims), id) <==> DeltaPruned(db, keep, id)
  {
    hide IsKept, BaseSeq, Listed;
    ListedIs(db, keep, victims);
    if id in db.rows {
      assert BasesAre(db, keep, Listed(db, keep, victims).base, db.rows[id].ring);
    }
  }

  /** Deletes of victims no ring serves, one by one. */
  lemma {:induction false} DeletesAll(steps: seq<Step>, w: World, at: nat, left: set<Package>) returns (all: seq<Step>)
    requires Run(steps, w).Some?
    requires var v := Run(steps, w).value;
             at < |v.sweeps| && left <= v.sweeps[at].victims && forall p | p in left :: !R.IsServed(v.db, p)
    ensures var v := Run(steps, w).value;
            Run(all, w) == Some(v.(db := v.db.(packages := v.db.packages - left)))
    decreases left
  {
    hide R.IsServed, Run;
    if left == {} {
      all := steps;
      var v := Run(steps, w).value;
      assert v.db.packages - left == v.db.packages;
      assert v.(db := v.db.(packages := v.db.packages - left)) == v;
    } else {
      var p :| p in left;
      var v := Run(steps, w).value;
      RunOne(steps, w, Deleting(at, p));
      var after := v.db.(packages := v.db.packages - {p});
      assert Next(v, Deleting(at, p)) == v.(db := after);
      forall q | q in left - {p} ensures !R.IsServed(after, q) {
        SameServed(v.db, after, q);
      }
      assert after.packages - (left - {p}) == v.db.packages - left;
      all := DeletesAll(steps + [Deleting(at, p)], w, at, left - {p});
      assert v.(db := after.(packages := after.packages - (left - {p})))
             == v.(db := v.db.(packages := v.db.packages - left));
    }
  }

  lemma SameServed(db: Db, after: Db, p: Package)
    requires after.live == db.live
    ensures R.IsServed(after, p) == R.IsServed(db, p)
  {
  }

  /** With nothing in between, a collection's statements are the collection made at once. */
  lemma CollectAtOnce(steps: seq<Step>, w: World, keep: nat, victims: set<Package>) returns (all: seq<Step>, v: World)
    requires Run(steps, w).Some? && keep >= 1
    requires forall p | p in victims :: Outside(Run(steps, w).value.db, keep, p)
    ensures Run(all, w) == Some(v)
    ensures v.db == Collect(Run(steps, w).value.db, keep, victims) && v.h == Run(steps, w).value.h
  {
    hide Listed, Pruned, Unflagged, Trimmed, R.IsServed, Collect, Outside, Run;
    var u := Run(steps, w).value;
    var at, sweep := |u.sweeps|, Listed(u.db, keep, victims);
    RunOne(steps, w, Listing(keep, victims));
    RunOne(steps + [Listing(keep, victims)], w, Pruning(at));
    RunOne(steps + [Listing(keep, victims)] + [Pruning(at)], w, Unflagging(at));
    RunOne(steps + [Listing(keep, victims)] + [Pruning(at)] + [Unflagging(at)], w, Trimming(at));
    var swept := steps + [Listing(keep, victims)] + [Pruning(at)] + [Unflagging(at)] + [Trimming(at)];
    v := Run(swept, w).value;
    ListedVictims(u.db, keep, victims);
    SweptServes(u.db, sweep);
    forall p | p in victims ensures !R.IsServed(v.db, p) {
      OutsideUnserved(u.db, v.db, keep, p);
    }
    all := DeletesAll(swept, w, at, victims);
    v := Run(all, w).value;
    PrunedAtOnce(u.db, keep, victims);
  }

  lemma ListedVictims(db: Db, keep: nat, victims: set<Package>)
    ensures Listed(db, keep, victims).victims == victims
  {
  }

  lemma SweptServes(db: Db, sweep: Sweep)
    ensures var after := Trimmed(Unflagged(Pruned(db, sweep), sweep), sweep);
            after.live == db.live && after.packages == db.packages
  {
    hide Behind;
  }

  lemma OutsideUnserved(db: Db, after: Db, keep: nat, p: Package)
    requires Outside(db, keep, p) && after.live == db.live
    ensures !R.IsServed(after, p)
  {
  }

  // ---------- whole runs ----------

  /** Every run of releases and collections made at once is a run of this machine, to the same tables. */
  lemma {:induction false} SerialRun(steps: seq<R.Step>, keep: nat) returns (fine: seq<Step>, v: World)
    requires keep >= 1 && R.Run(steps, keep).Some?
    ensures Run(fine, START) == Some(v) && Solid(v)
    ensures v.db == R.Run(steps, keep).value.0 && v.h.sel == R.Run(steps, keep).value.1.sel
    decreases |steps|
  {
    hide Solid, Run, R.Next, R.NextHistory, R.Allowed;
    StartSolid();
    if steps == [] {
      fine := [];
      v := START;
      assert Run([], START) == Some(START) by { NoSteps(); }
    } else {
      var before, last := steps[..|steps| - 1], steps[|steps| - 1];
      var first, u := SerialRun(before, keep);
      var (db, h) := R.Run(before, keep).value;
      fine, v := StepAtOnce(first, u, h, last, keep);
      ReleaseRaces.RunKeeps(fine, START);
    }
  }

  lemma NoSteps()
    ensures Run([], START) == Some(START)
  {
  }

  lemma StepAtOnce(first: seq<Step>, u: World, h: History, s: R.Step, keep: nat) returns (fine: seq<Step>, v: World)
    requires keep >= 1 && Run(first, START) == Some(u) && Solid(u) && u.h.sel == h.sel && R.Allowed(u.db, s, keep)
    ensures Run(fine, START) == Some(v)
    ensures v.db == R.Next(u.db, s) && v.h.sel == R.NextHistory(u.db, h, s).sel
  {
    hide Solid, Run, Release, Collect, Checkpointed, Asked, Put, Finished, Outside, Top;
    match s
    case Publishing(id, q) =>
      if Release(u.db, id, q).Ok? {
        ReleaseAtOnce(u, id, q);
        RunThen(first, Whole(q, |u.plans|, id), START);
        fine := first + Whole(q, |u.plans|, id);
        v := Run(fine, START).value;
      } else {
        fine, v := first, u;
      }
    case Collecting(k, victims) => fine, v := CollectAtOnce(first, START, k, victims);
    case _ =>
      RunOne(first, START, Calm(s));
      fine := first + [Calm(s)];
      v := Run(fine, START).value;
  }

  // ---------- a rollback that others overlap ----------

  /** A rollback of its ring to a release. */
  function Back(db: Db, to: nat): Request
    requires to in db.rows
  {
    Request(db.rows[to].ring, Rollback(to), None, None, false, {}, {})
  }

  /** A rollback has read its source's rows, over what collections listed before. */
  function BackRead(db: Db, h: History, sweeps: seq<Sweep>, to: nat): World
    requires to in db.rows
  {
    Next(Next(World(db, h, [], sweeps), Opening(Back(db, to))), Preparing(0))
  }

  /**
   * After any run of releases and collections made at once, a rollback to a
   * protected release that is no head reads its source; then anything happens,
   * statements of collections listed before or after among it. Its batch goes
   * through exactly when no other release of the ring landed; then the ring
   * serves what that release selected if and only if no package of it was
   * deleted and no collection that did not keep it pruned in between.
   */
  lemma RollbackOverlapped(past: seq<R.Step>, keep: nat, to: nat, sweeps: seq<Sweep>, steps: seq<Step>, id: nat)
    requires keep >= 1 && R.Run(past, keep).Some? && R.Gapless(past, keep)
    requires var (db, h) := R.Run(past, keep).value;
             && IsProtected(db, keep, to) && db.rows[to].seqNo < Top(db, db.rows[to].ring)
             && Run(steps, BackRead(db, h, sweeps, to)).Some?
             && NeverRewritten(steps, BackRead(db, h, sweeps, to), to) && NoneUploaded(steps, SelOf(db, h, to))
             && id !in Run(steps, BackRead(db, h, sweeps, to)).value.db.rows
    ensures var (db, h) := R.Run(past, keep).value;
            var u, ring, sel := BackRead(db, h, sweeps, to), db.rows[to].ring, SelOf(db, h, to);
            var v := Run(steps, u).value;
            && (Lands(v, Batching(0, id)) <==> Landings(steps, u, ring) == 0)
            && (Lands(v, Batching(0, id)) ==>
                  (Live(Next(v, Batching(0, id)).db, ring) == sel
                   <==> !EverDeleted(steps, u, sel) && (sel == {} || !EverPruned(steps, u, to))))
  {
    hide *;
    var (db, h) := R.Run(past, keep).value;
    R.RunGuards(past, keep);
    ProtectedIn(db, keep, to);
    ReadWhole(db, h, keep, to);
    var fine, same := SerialRun(past, keep);
    var w := World(db, h, [], sweeps);
    SolidSame(same, w);
    BackSolid(w, to);
    BackReads(w, keep, to);
    var u := BackRead(db, h, sweeps, to);
    LandsExactly(steps, u, 0, id);
    BatchAllowed(Run(steps, u).value, 0, id);
    if Lands(Run(steps, u).value, Batching(0, id)) {
      RollbackExactly(u, 0, to, steps, id);
    }
  }

  lemma BatchAllowed(w: World, at: nat, id: nat)
    requires id !in w.db.rows
    ensures Allowed(w, Batching(at, id))
  {
  }

  lemma ReadWhole(db: Db, h: History, keep: nat, to: nat)
    requires Inv(db, h) && R.Guarded(db, h, keep) && IsProtected(db, keep, to)
    ensures SelOf(db, h, to) <= db.packages && Checkpointed(db, to).Ok?
            && MembersOf(Checkpointed(db, to).value, to) == SelOf(db, h, to)
            && Checkpointed(db, to).value.packages == db.packages
    ensures HeadRing(db, to).None? <==> db.rows[to].seqNo < Top(db, db.rows[to].ring)
  {
    hide Inv, Checkpointed, HeadRing, R.Guarded, IsProtected;
    R.ReadableWhole(db, h, keep, to);
    ReadStored(db, to);
    ProtectedIn(db, keep, to);
    HeadOf(db, h, to);
  }

  lemma ProtectedIn(db: Db, keep: nat, to: nat)
    requires IsProtected(db, keep, to)
    ensures to in db.rows
  {
  }

  lemma SolidSame(v: World, w: World)
    requires Solid(v) && v.db == w.db && v.h.sel == w.h.sel && w.plans == []
    ensures Solid(w)
  {
    hide Top, Live, Diff, HeadOk, Placed, PlanOk;
    forall ring, s: nat ensures Sel(v.h, ring, s) == Sel(w.h, ring, s) {
    }
    forall ring, s: nat | 1 <= s <= Top(w.db, ring) ensures AtPlace(w.db, w.h, ring, s) {
      assert AtPlace(v.db, v.h, ring, s);
    }
    forall ring ensures HeadOk(w.db, ring) {
      assert HeadOk(v.db, ring);
    }
    forall ring ensures Live(w.db, ring) == Sel(w.h, ring, Top(w.db, ring)) && Sel(w.h, ring, 0) == {} {
      assert Live(v.db, ring) == Sel(v.h, ring, Top(v.db, ring)) && Sel(v.h, ring, 0) == {};
    }
    assert HeadsOk(w);
    assert ServedOk(w);
    assert PlacesOk(w);
    assert NumbersOk(w);
    assert PlansOk(w);
  }

  lemma BackSolid(w: World, to: nat)
    requires Solid(w) && w.plans == [] && to in w.db.rows
    ensures Solid(BackRead(w.db, w.h, w.sweeps, to))
  {
    hide Solid, Next;
    assert World(w.db, w.h, [], w.sweeps) == w;
    OpeningSolid(w, Back(w.db, to));
    PreparingKeeps(Next(w, Opening(Back(w.db, to))), 0);
  }

  lemma BackReads(w: World, keep: nat, to: nat)
    requires w.plans == [] && to in w.db.rows && Checkpointed(w.db, to).Ok? && HeadRing(w.db, to).None?
    ensures var u := BackRead(w.db, w.h, w.sweeps, to);
            && |u.plans| == 1 && u.plans[0].q.ring == w.db.rows[to].ring
            && Plain(u.plans[0].q) && u.plans[0].ready.Some?
            && u.plans[0].ready.value.base == Rows(to) && u.db == Checkpointed(w.db, to).value && to in u.db.rows
            && u.plans[0].ready.value.seqNo == Top(u.db, w.db.rows[to].ring) + 1
  {
    hide Top, CheckpointDue, UnchangedOver, Checkpointed, Stays;
    var q := Back(w.db, to);
    var plan := Plan(q, SourceOf(w.db, q), ParentOf(w.db, q.ring), None);
    HeadNone(w.db, to);
    assert Next(w, Opening(q)).plans == [plan];
    PreparedStays(w.db, plan);
    ReadStays(w.db, to);
    StaysKeys(w.db, Checkpointed(w.db, to).value);
    StaysTop(w.db, Checkpointed(w.db, to).value, q.ring);
  }

  lemma HeadNone(db: Db, to: nat)
    requires HeadRing(db, to).None? && to in db.rows
    ensures ParentOf(db, db.rows[to].ring) != Some(to)
  {
    match db.rows[to].ring case Edge => case Rc => case Stable => case Lab =>
  }
}
