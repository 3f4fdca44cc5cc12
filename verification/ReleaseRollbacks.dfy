/**
 * What stands between a release's reads and its batch: the rows it starts
 * from, the packages it adds, and so whether a rollback serves what it went
 * back to and whether what a ring serves is stored.
 */
module ReleaseRollbacks {
  import opened Wrappers
  import opened ReleaseLog
  import opened ReleaseSafety
  import opened ReleaseRaces
  import opened ReleaseOutcomes
  import R = ReleaseRuns

  // ---------- a release's rows ----------

  /** A collection that did not keep a release prunes its rows. */
  predicate Prunes(w: World, s: Step, of: nat) {
    s.Pruning? && s.at < |w.sweeps| && of !in w.sweeps[s.at].kept
  }

  /** A read of a release, a rollback's among them, that finds it without its flag writes its rows again. */
  predicate Rewrites(w: World, s: Step, of: nat) {
    && of in w.db.rows && !w.db.rows[of].checkpoint
    && ((s.Calm? && s.step == R.Reading(of))
        || (s.Preparing? && s.at < |w.plans| && w.plans[s.at].source == Some(of)))
  }

  ghost predicate EverPruned(steps: seq<Step>, w: World, of: nat)
    decreases |steps|
  {
    steps != [] &&
    var before := steps[..|steps| - 1];
    EverPruned(before, w, of) || (Run(before, w).Some? && Prunes(Run(before, w).value, steps[|steps| - 1], of))
  }

  ghost predicate NeverRewritten(steps: seq<Step>, w: World, of: nat)
    decreases |steps|
  {
    steps == [] ||
    var before := steps[..|steps| - 1];
    NeverRewritten(before, w, of)
    && (Run(before, w).Some? ==> !Rewrites(Run(before, w).value, steps[|steps| - 1], of))
  }

  lemma StepRows(w: World, s: Step, of: nat)
    requires Allowed(w, s) && of in w.db.rows && !Rewrites(w, s, of)
    ensures of in Next(w, s).db.rows
    ensures MembersOf(Next(w, s).db, of) == if Prunes(w, s, of) then {} else MembersOf(w.db, of)
  {
    hide Prepared, R.Next, After, Aim, Outside, Pruned, Unflagged, Trimmed, R.Deleted, MembersOf, Lands;
    match s
    case Calm(step) => CalmRows(w.db, step, of);
    case Preparing(at) =>
      if at < |w.plans| && w.plans[at].ready.None? && Prepared(w.db, w.plans[at]).Ok? {
        PreparedRows(w.db, w.plans[at], of);
      }
    case Batching(at, id) => if Lands(w, s) { LandsReady(w, s); LandedRows(w.db, w.plans[at], id, of); }
    case Pruning(at) => if at < |w.sweeps| { SweptRows(w.db, w.sweeps[at], of); }
    case Unflagging(at) => if at < |w.sweeps| { SweptRows(w.db, w.sweeps[at], of); }
    case Trimming(at) => if at < |w.sweeps| { SweptRows(w.db, w.sweeps[at], of); }
    case Deleting(at, victim) => DeletedRows(w.db, victim, of);
    case _ =>
  }

  lemma StaysKeys(db: Db, after: Db)
    requires Stays(db, after)
    ensures after.rows.Keys == db.rows.Keys
  {
  }

  lemma LandsReady(w: World, s: Step)
    requires Lands(w, s)
    ensures s.Batching? && s.at < |w.plans| && w.plans[s.at].ready.Some?
  {
  }

  lemma CalmRows(db: Db, step: R.Step, of: nat)
    requires IsCalm(step) && of in db.rows && (step == R.Reading(of) ==> db.rows[of].checkpoint)
    ensures of in R.Next(db, step).rows && MembersOf(R.Next(db, step), of) == MembersOf(db, of)
  {
    hide Checkpointed, ShelvesOf, ShelfPut, ShelfFinished;
    CalmStays(db, step);
    StaysKeys(db, R.Next(db, step));
    if step.Reading? {
      ReadRows(db, step.id, of);
    }
  }

  lemma ReadRows(db: Db, id: nat, of: nat)
    requires of in db.rows && (id == of ==> db.rows[of].checkpoint)
    ensures Checkpointed(db, id).Ok? ==> MembersOf(Checkpointed(db, id).value, of) == MembersOf(db, of)
  {
    hide Selection;
  }

  lemma PreparedRows(db: Db, plan: Plan, of: nat)
    requires of in db.rows && (plan.source == Some(of) ==> db.rows[of].checkpoint) && Prepared(db, plan).Ok?
    ensures of in Prepared(db, plan).value.0.rows && MembersOf(Prepared(db, plan).value.0, of) == MembersOf(db, of)
  {
    hide Checkpointed, HeadRing, CheckpointDue, UnchangedOver, Top, Stays;
    PreparedStays(db, plan);
    StaysKeys(db, Prepared(db, plan).value.0);
    if plan.source.Some? {
      ReadRows(db, plan.source.value, of);
    }
  }

  lemma LandedRows(db: Db, plan: Plan, id: nat, of: nat)
    requires plan.ready.Some? && of in db.rows && id !in db.rows
    ensures of in After(db, plan, id).rows && MembersOf(After(db, plan, id), of) == MembersOf(db, of)
  {
    hide Aim, Diff, Apply, CarriedFrom, Live;
  }

  lemma SweptRows(db: Db, sweep: Sweep, of: nat)
    requires of in db.rows
    ensures of in Unflagged(db, sweep).rows && MembersOf(Unflagged(db, sweep), of) == MembersOf(db, of)
    ensures of in Trimmed(db, sweep).rows && MembersOf(Trimmed(db, sweep), of) == MembersOf(db, of)
    ensures of in Pruned(db, sweep).rows
            && MembersOf(Pruned(db, sweep), of) == if of in sweep.kept then MembersOf(db, of) else {}
  {
    hide Behind;
  }

  lemma DeletedRows(db: Db, p: Package, of: nat)
    requires of in db.rows
    ensures of in R.Deleted(db, p).rows && MembersOf(R.Deleted(db, p), of) == MembersOf(db, of)
  {
    hide R.IsServed;
  }

  /**
   * The rows a release was given stand as they were until a collection that did
   * not keep the release prunes: exactly so, while nobody writes them again.
   */
  lemma {:induction false} RowsStand(steps: seq<Step>, w: World, of: nat)
    requires Run(steps, w).Some? && of in w.db.rows && NeverRewritten(steps, w, of)
    ensures of in Run(steps, w).value.db.rows
    ensures MembersOf(Run(steps, w).value.db, of) == if EverPruned(steps, w, of) then {} else MembersOf(w.db, of)
    decreases |steps|
  {
    hide Next, Allowed, Prunes, Rewrites, MembersOf;
    if steps != [] {
      var before := steps[..|steps| - 1];
      RowsStand(before, w, of);
      StepRows(Run(before, w).value, steps[|steps| - 1], of);
    }
  }

  // ---------- the packages a release needs ----------

  /** A package of these is deleted, no ring serving it. */
  predicate Deletes(w: World, s: Step, sel: set<Package>) {
    s.Deleting? && s.victim in sel && !R.IsServed(w.db, s.victim)
  }

  ghost predicate EverDeleted(steps: seq<Step>, w: World, sel: set<Package>)
    decreases |steps|
  {
    steps != [] &&
    var before := steps[..|steps| - 1];
    EverDeleted(before, w, sel) || (Run(before, w).Some? && Deletes(Run(before, w).value, steps[|steps| - 1], sel))
  }

  /** No package of these is uploaded in a run. */
  predicate NoneUploaded(steps: seq<Step>, sel: set<Package>) {
    forall s | s in steps :: s.Calm? && s.step.Upload? ==> s.step.package !in sel
  }

  lemma StepStored(w: World, s: Step)
    requires Allowed(w, s)
    ensures Next(w, s).db.packages ==
              if s.Calm? && s.step.Upload? then w.db.packages + {s.step.package}
              else if s.Deleting? && !R.IsServed(w.db, s.victim) then w.db.packages - {s.victim}
              else w.db.packages
  {
    hide Prepared, After, Aim, Outside, R.IsServed, Lands, Checkpointed, ShelvesOf, ShelfPut, ShelfFinished;
    match s
    case Calm(step) => if step.Reading? { ReadStored(w.db, step.id); }
    case Preparing(at) => if at < |w.plans| { PreparedStored(w.db, w.plans[at]); }
    case Batching(at, id) => if Lands(w, s) { LandsReady(w, s); LandedStored(w.db, w.plans[at], id); }
    case _ =>
  }

  lemma ReadStored(db: Db, id: nat)
    ensures Checkpointed(db, id).Ok? ==> Checkpointed(db, id).value.packages == db.packages
  {
    hide Selection;
  }

  lemma PreparedStored(db: Db, plan: Plan)
    ensures Prepared(db, plan).Ok? ==> Prepared(db, plan).value.0.packages == db.packages
  {
    hide Checkpointed, HeadRing, CheckpointDue, UnchangedOver, Top;
    if plan.source.Some? {
      ReadStored(db, plan.source.value);
    }
  }

  lemma LandedStored(db: Db, plan: Plan, id: nat)
    requires plan.ready.Some?
    ensures After(db, plan, id).packages == db.packages
  {
    hide Aim, Diff, Apply, CarriedFrom, Live;
  }

  /** Packages stored stay stored exactly until one is deleted, while none is uploaded again. */
  lemma {:induction false} StoredStand(steps: seq<Step>, w: World, sel: set<Package>)
    requires Run(steps, w).Some? && NoneUploaded(steps, sel)
    ensures sel <= Run(steps, w).value.db.packages <==> sel <= w.db.packages && !EverDeleted(steps, w, sel)
    ensures sel * Run(steps, w).value.db.packages <= w.db.packages
    decreases |steps|
  {
    hide Next, Allowed, R.IsServed;
    if steps != [] {
      var before, last := steps[..|steps| - 1], steps[|steps| - 1];
      StoredStand(before, w, sel);
      StepStored(Run(before, w).value, last);
      assert last in steps;
    }
  }

  // ---------- a rollback ----------

  /** A rollback of both architectures that drops and adds nothing. */
  predicate Plain(q: Request) {
    q.base.Rollback? && q.onlyArch.None? && q.removeArch.None? && Untouched(q) && q.drop == {}
  }

  /** What the batch of a rollback leaves its ring serving: the rows it finds, as far as they are stored. */
  lemma RolledBack(v: World, at: nat, id: nat)
    requires Solid(v) && Allowed(v, Batching(at, id)) && Lands(v, Batching(at, id)) && Plain(v.plans[at].q)
    ensures Live(Next(v, Batching(at, id)).db, v.plans[at].q.ring)
            == SetOf(v.db, v.plans[at].ready.value.base) * v.db.packages
  {
    hide Solid, Next, Diff, Top, SetOf, Live;
    LandedIs(v, Batching(at, id));
  }

  /**
   * A rollback and what happened after it read its source's rows, at `u`: when
   * its batch goes through, the ring serves exactly those rows if and only if
   * every package of them was stored then, none was deleted since, and no
   * collection that did not keep the release pruned in between (or there was
   * nothing to prune).
   */
  lemma RollbackExactly(u: World, at: nat, of: nat, steps: seq<Step>, id: nat)
    requires Solid(u) && at < |u.plans| && Plain(u.plans[at].q) && of in u.db.rows
    requires u.plans[at].ready.Some? && u.plans[at].ready.value.base == Rows(of)
    requires Run(steps, u).Some? && NeverRewritten(steps, u, of) && NoneUploaded(steps, MembersOf(u.db, of))
    requires Allowed(Run(steps, u).value, Batching(at, id)) && Lands(Run(steps, u).value, Batching(at, id))
    ensures var rows := MembersOf(u.db, of);
            Live(Next(Run(steps, u).value, Batching(at, id)).db, u.plans[at].q.ring) == rows
            <==> && rows <= u.db.packages && !EverDeleted(steps, u, rows)
                 && (rows == {} || !EverPruned(steps, u, of))
  {
    hide *;
    ReleaseRaces.RunKeeps(steps, u);
    PlansStay(steps, u, at);
    RowsStand(steps, u, of);
    StoredStand(steps, u, MembersOf(u.db, of));
    RolledBack(Run(steps, u).value, at, id);
    RowsOf(Run(steps, u).value.db, of);
  }

  lemma RowsOf(db: Db, of: nat)
    ensures SetOf(db, Rows(of)) == MembersOf(db, of)
  {
  }

  /**
   * A rollback to the ring's own head serves what the ring serves when its batch
   * runs: the head's selection when no release of the ring landed since it was
   * read and every package of it is stored still.
   */
  lemma RollbackToHead(w: World, q: Request, steps: seq<Step>, id: nat)
    requires Solid(w) && Scoped(q) && Plain(q)
             && SourceRefusal(w.db, q).None? && Some(q.base.to) == ParentOf(w.db, q.ring)
    requires Run(steps, Next(w, Opening(q))).Some?
    requires var v := Run(steps, Next(w, Opening(q))).value;
             Allowed(v, Batching(|w.plans|, id)) && Lands(v, Batching(|w.plans|, id))
    ensures var v := Run(steps, Next(w, Opening(q))).value;
            var after := Next(v, Batching(|w.plans|, id));
            && Live(after.db, q.ring) == Live(v.db, q.ring) * v.db.packages
            && (Landings(steps, Next(w, Opening(q)), q.ring) == 0 ==>
                  (Live(after.db, q.ring) == Live(w.db, q.ring) <==> Live(w.db, q.ring) <= v.db.packages))
  {
    hide *;
    var u := Next(w, Opening(q));
    OpeningIs(w, q);
    OpeningSolid(w, q);
    ReleaseRaces.RunKeeps(steps, u);
    HeadAsked(w, q);
    PlansOwn(steps, u, |w.plans|);
    PlansStay(steps, u, |w.plans|);
    var v := Run(steps, u).value;
    LandsReady(v, Batching(|w.plans|, id));
    RolledBack(v, |w.plans|, id);
    OwnRows(v.plans[|w.plans|]);
    assert Live(Next(v, Batching(|w.plans|, id)).db, q.ring) == Live(v.db, q.ring) * v.db.packages;
    if Landings(steps, u, q.ring) == 0 {
      LandingsCount(steps, u, q.ring);
      HistoryKept(steps, u, q.ring, Top(w.db, q.ring));
      ServedIs(u, q.ring);
      ServedIs(v, q.ring);
      Part(Live(v.db, q.ring), v.db.packages);
    }
  }

  lemma Part(rows: set<Package>, stored: set<Package>)
    ensures rows * stored == rows <==> rows <= stored
  {
  }

  lemma HeadAsked(w: World, q: Request)
    requires Plain(q) && Some(q.base.to) == ParentOf(w.db, q.ring)
    ensures var plan := Plan(q, SourceOf(w.db, q), ParentOf(w.db, q.ring), None);
            FromOwn(plan) && plan.source == plan.parent && plan.parent.Some?
  {
  }

  lemma OwnRows(plan: Plan)
    requires FromOwn(plan) && plan.ready.Some? && plan.source == plan.parent && plan.parent.Some?
    ensures plan.ready.value.base == Served(plan.q.ring)
    ensures forall db :: SetOf(db, plan.ready.value.base) == Live(db, plan.q.ring)
  {
  }

  /** A release whose source is its parent, or that names none, starts from what its own ring serves at the batch. */
  predicate FromOwn(plan: Plan) {
    plan.ready.Some? && (plan.source.None? || plan.source == plan.parent) ==>
      plan.ready.value.base == if plan.parent.Some? then Served(plan.q.ring) else Nothing
  }

  lemma {:induction false} PlansOwn(steps: seq<Step>, w: World, at: nat)
    requires Run(steps, w).Some? && at < |w.plans| && FromOwn(w.plans[at])
    ensures at < |Run(steps, w).value.plans| && FromOwn(Run(steps, w).value.plans[at])
    decreases |steps|
  {
    hide Allowed, Next, FromOwn;
    if steps != [] {
      PlansOwn(steps[..|steps| - 1], w, at);
      PlanOwn(Run(steps[..|steps| - 1], w).value, steps[|steps| - 1], at);
    }
  }

  lemma PlanOwn(w: World, s: Step, at: nat)
    requires at < |w.plans| && FromOwn(w.plans[at])
    ensures at < |Next(w, s).plans| && FromOwn(Next(w, s).plans[at])
  {
    hide After, Aim, Lands, R.Next, CheckpointDue, Checkpointed, UnchangedOver, Top, HeadRing;
  }

  // ---------- what the rings serve is stored ----------

  ghost predicate AllStored(db: Db) {
    forall ring {:trigger Live(db, ring)} :: Live(db, ring) <= db.packages
  }

  /** A release lands whose adds are not all stored any more. */
  predicate LandsGone(w: World, s: Step) {
    Lands(w, s) && !(w.plans[s.at].q.adds <= w.db.packages)
  }

  ghost predicate NoneLandsGone(steps: seq<Step>, w: World)
    decreases |steps|
  {
    steps == [] ||
    var before := steps[..|steps| - 1];
    NoneLandsGone(before, w) && (Run(before, w).Some? ==> !LandsGone(Run(before, w).value, steps[|steps| - 1]))
  }

  /** Every ring serves stored packages only, after any step but the batch of a release that adds a deleted one. */
  lemma StepServes(w: World, s: Step)
    requires Solid(w) && Allowed(w, s) && AllStored(w.db)
    ensures AllStored(Next(w, s).db) <==> !LandsGone(w, s)
  {
    hide Solid, Next, Allowed, Live, Aim, R.IsServed;
    StepStored(w, s);
    if Lands(w, s) {
      LandsReady(w, s);
      LandedIs(w, s);
      AimIs(w.db, w.plans[s.at]);
      assert Live(Next(w, s).db, w.plans[s.at].q.ring) == Aim(w.db, w.plans[s.at]);
      LandedServes(w, Next(w, s), w.plans[s.at].q.ring, Aim(w.db, w.plans[s.at]));
    } else {
      QuietStays(w, s);
      QuietServes(w, Next(w, s), s);
    }
  }

  /** A release selects what it adds, and nothing else that is not stored. */
  lemma AimIs(db: Db, plan: Plan)
    requires plan.ready.Some?
    ensures plan.q.adds <= Aim(db, plan) <= db.packages + plan.q.adds
  {
  }

  lemma LandedServes(w: World, after: World, ring: Ring, target: set<Package>)
    requires AllStored(w.db) && after.db.packages == w.db.packages
    requires forall r {:trigger Live(after.db, r)} ::
               Live(after.db, r) == if r == ring then target else Live(w.db, r)
    ensures AllStored(after.db) <==> target <= w.db.packages
  {
    hide Live;
    assert Live(after.db, ring) == target;
    if target <= w.db.packages {
      forall r ensures Live(after.db, r) <= after.db.packages {
        assert Live(w.db, r) <= w.db.packages;
      }
    }
  }

  lemma QuietServes(w: World, after: World, s: Step)
    requires AllStored(w.db) && Stays(w.db, after.db)
    requires (s.Deleting? && !R.IsServed(w.db, s.victim) && after.db.packages == w.db.packages - {s.victim})
             || w.db.packages <= after.db.packages
    ensures AllStored(after.db)
  {
    forall ring ensures Live(after.db, ring) <= after.db.packages {
      assert Live(w.db, ring) <= w.db.packages;
      assert s.Deleting? && s.victim in Live(w.db, ring) ==> R.IsServed(w.db, s.victim);
    }
  }

  /** Whatever overlaps, what the rings serve is stored while no release lands with a deleted add. */
  lemma {:induction false} RunServes(steps: seq<Step>, w: World)
    requires Solid(w) && Run(steps, w).Some? && AllStored(w.db) && NoneLandsGone(steps, w)
    ensures AllStored(Run(steps, w).value.db)
    decreases |steps|
  {
    hide Solid, Next, Allowed, AllStored, LandsGone;
    if steps != [] {
      RunServes(steps[..|steps| - 1], w);
      ReleaseRaces.RunKeeps(steps[..|steps| - 1], w);
      StepServes(Run(steps[..|steps| - 1], w).value, steps[|steps| - 1]);
    }
  }

  /** And a release lands so exactly when one of its adds was deleted after it looked them up. */
  lemma AddsExactly(w: World, at: nat, steps: seq<Step>, id: nat)
    requires at < |w.plans| && w.plans[at].ready.None? && Prepared(w.db, w.plans[at]).Ok?
    requires Run(steps, Next(w, Preparing(at))).Some? && NoneUploaded(steps, w.plans[at].q.adds)
    requires Lands(Run(steps, Next(w, Preparing(at))).value, Batching(at, id))
    ensures LandsGone(Run(steps, Next(w, Preparing(at))).value, Batching(at, id))
            <==> EverDeleted(steps, Next(w, Preparing(at)), w.plans[at].q.adds)
  {
    hide *;
    var u := Next(w, Preparing(at));
    PlanStays(w, Preparing(at), at);
    PlansStay(steps, u, at);
    StoredStand(steps, u, w.plans[at].q.adds);
    AddsLooked(w, at);
    GoneIs(Run(steps, u).value, Batching(at, id));
  }

  lemma AddsLooked(w: World, at: nat)
    requires at < |w.plans| && w.plans[at].ready.None? && Prepared(w.db, w.plans[at]).Ok?
    ensures w.plans[at].q.adds <= Next(w, Preparing(at)).db.packages
  {
    hide Checkpointed, HeadRing, CheckpointDue, UnchangedOver, Top;
    PreparedStored(w.db, w.plans[at]);
  }

  lemma GoneIs(w: World, s: Step)
    requires Lands(w, s)
    ensures s.Batching? && s.at < |w.plans| && (LandsGone(w, s) <==> !(w.plans[s.at].q.adds <= w.db.packages))
  {
  }
}
