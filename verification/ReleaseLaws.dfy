/**
 * What a ring serves after a release (worker/src/routes/releases.ts), package by
 * package, from what its source selected, what the ring served and what the
 * request names: for releases made at once, and for one whose batch runs late.
 */
module ReleaseLaws {
  import opened Wrappers
  import opened ReleaseLog
  import opened ReleaseSafety
  import opened ReleaseRaces
  import opened ReleaseOutcomes
  import R = ReleaseRuns

  /** What a request's source selected when it was published: the ring's own head, another's, or an earlier release. */
  ghost predicate InSource(db: Db, h: History, q: Request, p: Package)
    requires SourceRefusal(db, q).None?
  {
    match q.base
    case Own => p in Sel(h, q.ring, Top(db, q.ring))
    case Promote(from) => p in Sel(h, from, Top(db, from))
    case Rollback(to) => p in SelOf(db, h, to)
  }

  /**
   * Where a package of the new selection comes from, before names are dropped and
   * added: the source; or, for the architecture a request leaves alone, the ring.
   */
  ghost predicate InStart(db: Db, h: History, q: Request, p: Package)
    requires SourceRefusal(db, q).None?
  {
    if q.onlyArch.Some? && q.ring in db.heads && p.arch != q.onlyArch.value then p in Live(db, q.ring)
    else InSource(db, h, q, p)
  }

  /**
   * Every release that goes through — a sync, a promotion or a rollback, of one
   * architecture or both: the ring then serves a package if and only if the
   * request adds it, or it is stored, not dropped, and was in the start. What the
   * other rings serve, and what is stored, stays.
   */
  lemma ServedAfter(db: Db, h: History, id: nat, q: Request, p: Package)
    requires Inv(db, h) && id !in db.rows && Release(db, id, q).Ok?
    ensures var after := Release(db, id, q).value;
            && SourceRefusal(db, q).None? && after.packages == db.packages
            && (p in Live(after, q.ring) <==>
                  p in q.adds || (p in db.packages && p !in q.drop && InStart(db, h, q, p)))
            && forall ring | ring != q.ring :: Live(after, ring) == Live(db, ring)
  {
    hide Inv, Members, Checkpointed, Publish, BaseOf, Target, Top, Sel;
    GoesThrough(db, id, q);
    BaseExact(db, h, q);
    var (read, base) := BaseOf(db, q).value;
    PublishServes(read, q.ring, id, Target(read, q, base), Unchanged(db, q));
    BaseTables(db, q);
    StartIs(db, h, q, read, base, p);
  }

  lemma PublishServes(db: Db, ring: Ring, id: nat, target: set<Package>, kept: set<Arch>)
    ensures var after := Publish(db, ring, id, target, kept);
            && after.packages == db.packages && Live(after, ring) == target
            && forall r | r != ring :: Live(after, r) == Live(db, r)
  {
    hide CheckpointDue, CarriedFrom, Diff, Apply;
    ApplyDiff(Live(db, ring), target);
  }

  /** Reading a base moves no head. */
  lemma BaseTables(db: Db, q: Request)
    requires SourceRefusal(db, q).None? && BaseOf(db, q).Ok?
    ensures BaseOf(db, q).value.0.heads == db.heads
  {
    hide Selection;
  }

  /** A package is of the selection asked for when it is added, or stored, kept and of the start. */
  lemma StartIs(db: Db, h: History, q: Request, read: Db, base: set<Package>, p: Package)
    requires SourceRefusal(db, q).None?
    requires read.packages == db.packages && read.heads == db.heads && forall r :: Live(read, r) == Live(db, r)
    requires p in base <==> InSource(db, h, q, p)
    ensures p in Target(read, q, base) <==>
              p in q.adds || (p in db.packages && p !in q.drop && InStart(db, h, q, p))
  {
    hide InSource, Live;
  }

  /**
   * A request goes through exactly when its adds are stored and it names a
   * source: its own ring for both architectures; another ring's head, the lab
   * neither side; or a release of its own ring, which can be read.
   */
  lemma GoesThrough(db: Db, id: nat, q: Request)
    ensures Release(db, id, q).Ok? <==>
              && q.adds <= db.packages
              && (match q.base
                  case Own => q.onlyArch.None?
                  case Promote(from) => from != Lab && q.ring != Lab && from in db.heads
                  case Rollback(to) => to in db.rows && db.rows[to].ring == q.ring && Members(db, to).Ok?)
    ensures Release(db, id, q).Ok? ==> SourceRefusal(db, q).None? && BaseOf(db, q).Ok?
  {
    hide Members, Publish, Target;
  }

  // ---------- a batch that runs late ----------

  /** What a release's start is when its batch runs: nothing, what a ring serves then, or a release's rows. */
  predicate InPart(db: Db, base: Source, p: Package) {
    match base
    case Nothing => false
    case Served(ring) => p in Live(db, ring)
    case Rows(of) => p in MembersOf(db, of)
  }

  /**
   * Whatever landed since a release read its parent, source and number: when its
   * batch goes through its ring serves a package if and only if the request adds
   * it, or it is stored then, not dropped, and in the start — for the
   * architecture left alone, what the ring serves then.
   */
  lemma ServedAtBatch(v: World, s: Step, p: Package)
    requires Solid(v) && Allowed(v, s) && Lands(v, s)
    ensures s.Batching? && s.at < |v.plans| && v.plans[s.at].ready.Some?
    ensures var plan, after := v.plans[s.at], Next(v, s).db;
            var q := plan.q;
            && after.packages == v.db.packages
            && (p in Live(after, q.ring) <==>
                  || p in q.adds
                  || (&& p in v.db.packages && p !in q.drop
                      && if q.onlyArch.Some? && plan.parent.Some? && p.arch != q.onlyArch.value
                         then p in Live(v.db, q.ring) else InPart(v.db, plan.ready.value.base, p)))
            && forall ring | ring != q.ring :: Live(after, ring) == Live(v.db, ring)
  {
    hide Solid, Next, Diff, Top, Live;
    LandedIs(v, s);
    AimHas(v.db, v.plans[s.at], p);
  }

  lemma AimHas(db: Db, plan: Plan, p: Package)
    requires plan.ready.Some?
    ensures var q := plan.q;
            p in Aim(db, plan) <==>
              || p in q.adds
              || (&& p in db.packages && p !in q.drop
                  && if q.onlyArch.Some? && plan.parent.Some? && p.arch != q.onlyArch.value
                     then p in Live(db, q.ring) else InPart(db, plan.ready.value.base, p))
  {
    hide Live;
  }

  /** The ring a request's source is of. */
  function SourcesRing(q: Request): Ring {
    if q.base.Promote? then q.base.from else q.ring
  }

  /** The start a release read: its own ring's, or its source's, as it is served or as its rows are kept. */
  predicate StartsFrom(plan: Plan) {
    plan.ready.Some? ==>
      match plan.ready.value.base
      case Nothing => plan.q.base.Own? && plan.parent.None?
      case Served(ring) => ring == SourcesRing(plan.q) && (plan.q.base.Own? ==> plan.parent.Some?)
      case Rows(of) => !plan.q.base.Own? && plan.source == Some(of)
  }

  predicate Sourced(db: Db, plan: Plan) {
    && (plan.q.base.Own? <==> plan.source.None?)
    && (plan.source.Some? ==> plan.source.value in db.rows && db.rows[plan.source.value].ring == SourcesRing(plan.q))
  }

  lemma OpenedSourced(w: World, q: Request)
    requires Solid(w) && SourceRefusal(w.db, q).None?
    ensures Sourced(w.db, Plan(q, SourceOf(w.db, q), ParentOf(w.db, q.ring), None))
  {
    if q.base.Promote? {
      assert HeadOk(w.db, q.base.from);
    }
  }

  /** A release that reads its start reads its own ring's or its source's. */
  lemma PreparedStarts(w: World, plan: Plan)
    requires Solid(w) && plan in w.plans && Sourced(w.db, plan) && plan.ready.None? && Prepared(w.db, plan).Ok?
    ensures StartsFrom(Prepared(w.db, plan).value.1)
  {
    hide Checkpointed, CheckpointDue, UnchangedOver, Top, Placed, AtPlace, Live;
    assert PlanOk(w.db, plan);
    forall ring | ring in w.db.heads ensures w.db.heads[ring] in w.db.rows && w.db.rows[w.db.heads[ring]].ring == ring {
      assert HeadOk(w.db, ring);
    }
  }

  lemma StepSourced(w: World, s: Step, at: nat)
    requires Solid(w) && Allowed(w, s) && at < |w.plans| && Sourced(w.db, w.plans[at]) && StartsFrom(w.plans[at])
    ensures var after := Next(w, s);
            at < |after.plans| && Sourced(after.db, after.plans[at]) && StartsFrom(after.plans[at])
  {
    hide Solid, Allowed, Prepared, After, Aim, Lands, R.Next, StartsFrom, LandsFor, Top, ParentOf;
    StepHead(w, s, w.plans[at].q.ring);
    PlanStays(w, s, at);
    if s.Preparing? && s.at == at && w.plans[at].ready.None? && Prepared(w.db, w.plans[at]).Ok? {
      PreparedStarts(w, w.plans[at]);
    } else {
      SamePlan(w, s, at);
    }
  }

  lemma SamePlan(w: World, s: Step, at: nat)
    requires at < |w.plans| && !(s == Preparing(at) && w.plans[at].ready.None? && Prepared(w.db, w.plans[at]).Ok?)
    ensures at < |Next(w, s).plans| && Next(w, s).plans[at] == w.plans[at]
  {
    hide Prepared, After, Aim, Lands, R.Next;
  }

  /** On every interleaving a release starts from its own ring, its source's ring, or its source's own rows. */
  lemma {:induction false} RunStarts(steps: seq<Step>, w: World, at: nat)
    requires Solid(w) && Run(steps, w).Some? && at < |w.plans| && Sourced(w.db, w.plans[at]) && StartsFrom(w.plans[at])
    ensures var v := Run(steps, w).value; at < |v.plans| && Sourced(v.db, v.plans[at]) && StartsFrom(v.plans[at])
    decreases |steps|
  {
    hide Solid, Next, Allowed, Sourced, StartsFrom;
    if steps != [] {
      var before := steps[..|steps| - 1];
      RunStarts(before, w, at);
      ReleaseRaces.RunKeeps(before, w);
      StepSourced(Run(before, w).value, steps[|steps| - 1], at);
    }
  }
}
