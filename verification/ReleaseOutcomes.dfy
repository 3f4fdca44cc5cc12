/**
 * What overlapping releases and collections decide: whether a release's
 * selection is its parent's with its delta applied, whether a rollback serves
 * what it went back to, and whether what a ring serves is stored.
 */
module ReleaseOutcomes {
  import opened Wrappers
  import opened ReleaseLog
  import opened ReleaseSafety
  import opened ReleaseRaces
  import R = ReleaseRuns

  // ---------- how often a ring moved ----------

  predicate LandsFor(w: World, s: Step, ring: Ring) {
    Lands(w, s) && w.plans[s.at].q.ring == ring
  }

  /** How many releases of a ring landed in a run. */
  ghost function Landings(steps: seq<Step>, w: World, ring: Ring): nat
    decreases |steps|
  {
    if steps == [] then 0
    else
      var before := steps[..|steps| - 1];
      Landings(before, w, ring)
      + if Run(before, w).Some? && LandsFor(Run(before, w).value, steps[|steps| - 1], ring) then 1 else 0
  }

  /** What one step does to a ring's head: nothing, or its next release. */
  lemma StepHead(w: World, s: Step, ring: Ring)
    requires Solid(w) && Allowed(w, s)
    ensures var after := Next(w, s);
            if LandsFor(w, s, ring)
            then Top(after.db, ring) == Top(w.db, ring) + 1 && ParentOf(after.db, ring) == Some(s.id)
            else Top(after.db, ring) == Top(w.db, ring) && ParentOf(after.db, ring) == ParentOf(w.db, ring)
    ensures forall id | id in w.db.rows ::
              id in Next(w, s).db.rows && Next(w, s).db.rows[id].ring == w.db.rows[id].ring
              && Next(w, s).db.rows[id].seqNo == w.db.rows[id].seqNo
  {
    hide Solid, After, Aim, Top, Extended, Next;
    if Lands(w, s) {
      BatchExtends(w, s);
      ExtendedHead(w, Next(w, s), w.plans[s.at], s.id, Aim(w.db, w.plans[s.at]), ring);
    } else {
      QuietStays(w, s);
      StaysTop(w.db, Next(w, s).db, ring);
    }
  }

  lemma ExtendedHead(w: World, after: World, plan: Plan, id: nat, target: set<Package>, ring: Ring)
    requires Extended(w, after, plan, id, target) && id !in w.db.rows
    ensures if plan.q.ring == ring
              then Top(after.db, ring) == Top(w.db, ring) + 1 && ParentOf(after.db, ring) == Some(id)
            else Top(after.db, ring) == Top(w.db, ring) && ParentOf(after.db, ring) == ParentOf(w.db, ring)
    ensures forall i | i in w.db.rows ::
              i in after.db.rows && after.db.rows[i].ring == w.db.rows[i].ring
              && after.db.rows[i].seqNo == w.db.rows[i].seqNo
  {
    hide Top, Diff, Sel, Live;
  }

  /** A step that lands nothing leaves every release's place. */
  lemma QuietStays(w: World, s: Step)
    requires Allowed(w, s) && !Lands(w, s)
    ensures Stays(w.db, Next(w, s).db)
  {
    hide Stays, Prepared, R.Next, Pruned, Unflagged, Trimmed, R.Deleted, Listed, Outside, Lands;
    SelfStays(w.db);
    match s
    case Calm(step) => CalmStays(w.db, step);
    case Preparing(at) =>
      if at < |w.plans| && w.plans[at].ready.None? && Prepared(w.db, w.plans[at]).Ok? {
        PreparedStays(w.db, w.plans[at]);
      }
    case Pruning(at) => if at < |w.sweeps| { PruneStays(w.db, w.sweeps[at]); }
    case Unflagging(at) => if at < |w.sweeps| { UnflagStays(w.db, w.sweeps[at]); }
    case Trimming(at) => if at < |w.sweeps| { PruneStays(w.db, w.sweeps[at]); }
    case Deleting(at, victim) => DeleteStays(w.db, victim);
    case _ =>
  }

  /** A ring's newest number counts the releases that landed; every release keeps its place. */
  lemma {:induction false} LandingsCount(steps: seq<Step>, w: World, ring: Ring)
    requires Solid(w) && Run(steps, w).Some?
    ensures var v := Run(steps, w).value;
            && Top(v.db, ring) == Top(w.db, ring) + Landings(steps, w, ring)
            && (Landings(steps, w, ring) == 0 ==> ParentOf(v.db, ring) == ParentOf(w.db, ring))
            && forall id | id in w.db.rows ::
                 id in v.db.rows && v.db.rows[id].ring == w.db.rows[id].ring
                 && v.db.rows[id].seqNo == w.db.rows[id].seqNo
    decreases |steps|
  {
    hide Solid, Next, Allowed, Top, ParentOf, LandsFor;
    if steps != [] {
      var before := steps[..|steps| - 1];
      LandingsCount(before, w, ring);
      ReleaseRaces.RunKeeps(before, w);
      StepHead(Run(before, w).value, steps[|steps| - 1], ring);
    }
  }

  /** A parent read is still the head exactly when no release of the ring landed since. */
  lemma ParentStill(steps: seq<Step>, w: World, ring: Ring)
    requires Solid(w) && Run(steps, w).Some?
    ensures ParentOf(Run(steps, w).value.db, ring) == ParentOf(w.db, ring) <==> Landings(steps, w, ring) == 0
  {
    hide Solid, Run, Landings, Top;
    LandingsCount(steps, w, ring);
    ReleaseRaces.RunKeeps(steps, w);
    HeadIsTop(w, ring);
    HeadIsTop(Run(steps, w).value, ring);
  }

  lemma HeadIsTop(w: World, ring: Ring)
    requires Solid(w)
    ensures match ParentOf(w.db, ring)
            case None => Top(w.db, ring) == 0
            case Some(head) =>
              head in w.db.rows && w.db.rows[head].ring == ring && w.db.rows[head].seqNo == Top(w.db, ring) >= 1
  {
    assert HeadOk(w.db, ring);
  }

  /** A prepared release goes through exactly when no other release of its ring landed since. */
  lemma LandsExactly(steps: seq<Step>, w: World, at: nat, id: nat)
    requires Solid(w) && Run(steps, w).Some? && at < |w.plans| && w.plans[at].ready.Some?
    requires w.plans[at].ready.value.seqNo == Top(w.db, w.plans[at].q.ring) + 1
    ensures var v := Run(steps, w).value; at < |v.plans| && v.plans[at] == w.plans[at]
    ensures Lands(Run(steps, w).value, Batching(at, id)) <==> Landings(steps, w, w.plans[at].q.ring) == 0
  {
    hide Solid, Run, Landings, Top;
    PlansStay(steps, w, at);
    LandingsCount(steps, w, w.plans[at].q.ring);
    ReleaseRaces.RunKeeps(steps, w);
    NumberTaken(Run(steps, w).value, w.plans[at].q.ring, w.plans[at].ready.value.seqNo);
  }

  lemma NumberTaken(w: World, ring: Ring, n: nat)
    requires Solid(w) && n >= 1
    ensures (ring, n) in w.db.bySeq <==> n <= Top(w.db, ring)
  {
    hide Top, Diff, Sel, Live;
    if n <= Top(w.db, ring) {
      PlaceTaken(w, ring, n);
    }
  }

  /** A release under way keeps what it read. */
  lemma {:induction false} PlansStay(steps: seq<Step>, w: World, at: nat)
    requires Run(steps, w).Some? && at < |w.plans|
    ensures var v := Run(steps, w).value;
            && at < |v.plans| && v.plans[at].q == w.plans[at].q && v.plans[at].source == w.plans[at].source
            && v.plans[at].parent == w.plans[at].parent && (w.plans[at].ready.Some? ==> v.plans[at] == w.plans[at])
    decreases |steps|
  {
    hide Allowed;
    if steps != [] {
      PlansStay(steps[..|steps| - 1], w, at);
      PlanStays(Run(steps[..|steps| - 1], w).value, steps[|steps| - 1], at);
    }
  }

  lemma PlanStays(w: World, s: Step, at: nat)
    requires at < |w.plans|
    ensures var after := Next(w, s);
            && at < |after.plans| && after.plans[at].q == w.plans[at].q && after.plans[at].source == w.plans[at].source
            && after.plans[at].parent == w.plans[at].parent
            && (w.plans[at].ready.Some? ==> after.plans[at] == w.plans[at])
  {
    hide Prepared, After, Aim, Lands, R.Next;
    if s.Preparing? && s.at < |w.plans| {
      PreparedStays(w.db, w.plans[s.at]);
    }
  }

  // ---------- a release and its parent ----------

  /** Every package that moved between `was` and `now` is moved back by a release that serves `target`. */
  predicate MovesBack(was: set<Package>, now: set<Package>, target: set<Package>) {
    (forall p | p in now - was :: p !in target) && (forall p | p in was - now :: p in target)
  }

  lemma DeltaOver(was: set<Package>, now: set<Package>, target: set<Package>)
    ensures Apply(was, Diff(now, target)) == target <==> MovesBack(was, now, target)
  {
    if MovesBack(was, now, target) {
      forall p ensures p in Apply(was, Diff(now, target)) <==> p in target {
      }
    } else if p :| p in now - was && p in target {
      assert p !in Apply(was, Diff(now, target));
    } else {
      var p :| p in was - now && p !in target;
      assert p in Apply(was, Diff(now, target));
    }
  }

  /** A delta against `now` is right over `was` for every selection exactly when they are the same. */
  lemma DeltaOverAll(was: set<Package>, now: set<Package>)
    ensures (forall target :: Apply(was, Diff(now, target)) == target) <==> was == now
  {
    if was == now {
      forall target ensures Apply(was, Diff(now, target)) == target {
        ApplyDiff(was, target);
      }
    } else {
      assert Apply(was, Diff(now, now)) == was;
    }
  }

  /** The selections published so far stay as they were published. */
  lemma {:induction false} HistoryKept(steps: seq<Step>, w: World, ring: Ring, t: nat)
    requires Solid(w) && Run(steps, w).Some? && t <= Top(w.db, ring)
    ensures Sel(Run(steps, w).value.h, ring, t) == Sel(w.h, ring, t) && t <= Top(Run(steps, w).value.db, ring)
    decreases |steps|
  {
    hide Solid, Next, Allowed, Top, Sel;
    if steps != [] {
      var before := steps[..|steps| - 1];
      HistoryKept(before, w, ring, t);
      ReleaseRaces.RunKeeps(before, w);
      StepHead(Run(before, w).value, steps[|steps| - 1], ring);
      StepHistory(Run(before, w).value, steps[|steps| - 1], ring, t);
    }
  }

  lemma StepHistory(w: World, s: Step, ring: Ring, t: nat)
    requires Solid(w) && Allowed(w, s) && t <= Top(w.db, ring)
    ensures Sel(Next(w, s).h, ring, t) == Sel(w.h, ring, t)
  {
    hide Solid, After, Aim, Top, Sel, Prepared, R.Next;
    if Lands(w, s) {
      BatchExtends(w, s);
    }
  }

  /** On every interleaving a delta kept is the release's own against the one numbered before it. */
  lemma OverPrevious(steps: seq<Step>, w: World, id: nat)
    requires Solid(w) && Run(steps, w).Some?
    requires var db := Run(steps, w).value.db; id in db.rows && id in db.deltas
    ensures var v := Run(steps, w).value;
            var ring, n := v.db.rows[id].ring, v.db.rows[id].seqNo;
            n >= 1 && Apply(Sel(v.h, ring, n - 1), v.db.deltas[id]) == Sel(v.h, ring, n)
  {
    hide Run, Diff, Apply, Top;
    ReleaseRaces.RunKeeps(steps, w);
    var v := Run(steps, w).value;
    assert Placed(v.db, id) && AtPlace(v.db, v.h, v.db.rows[id].ring, v.db.rows[id].seqNo);
    ApplyDiff(Sel(v.h, v.db.rows[id].ring, v.db.rows[id].seqNo - 1), Sel(v.h, v.db.rows[id].ring, v.db.rows[id].seqNo));
  }

  /**
   * A release and the parent it read. It reads its parent and source at `w`; any
   * steps follow, its own other reads among them; its batch goes through. Its
   * selection is its parent's with its delta applied if and only if it moves back
   * whatever the releases landed in between moved: always, when none did.
   */
  lemma ParentExact(w: World, q: Request, steps: seq<Step>, id: nat)
    requires Solid(w) && Scoped(q) && SourceRefusal(w.db, q).None? && q.ring in w.db.heads
    requires Run(steps, Next(w, Opening(q))).Some?
    requires var v := Run(steps, Next(w, Opening(q))).value;
             Allowed(v, Batching(|w.plans|, id)) && Lands(v, Batching(|w.plans|, id))
    ensures var u := Next(w, Opening(q));
            var v := Run(steps, u).value;
            var after, n := Next(v, Batching(|w.plans|, id)), Top(v.db, q.ring) + 1;
            && w.db.heads[q.ring] in w.db.rows && w.db.rows[w.db.heads[q.ring]].seqNo == Top(w.db, q.ring)
            && id in after.db.rows && id in after.db.deltas
            && after.db.rows[id] == Row(q.ring, n, Some(w.db.heads[q.ring]), after.db.rows[id].checkpoint)
            && var exact := Apply(Sel(after.h, q.ring, Top(w.db, q.ring)), after.db.deltas[id])
                            == Sel(after.h, q.ring, n);
            && (exact <==> MovesBack(Live(w.db, q.ring), Live(v.db, q.ring), Sel(after.h, q.ring, n)))
            && (Landings(steps, u, q.ring) == 0 ==> exact)
  {
    hide *;
    var u := Next(w, Opening(q));
    OpeningIs(w, q);
    OpeningSolid(w, q);
    ReleaseRaces.RunKeeps(steps, u);
    PlansStay(steps, u, |w.plans|);
    LandingsCount(steps, u, q.ring);
    HistoryKept(steps, u, q.ring, Top(w.db, q.ring));
    HeadIsTop(w, q.ring);
    HeadRead(w.db, q.ring);
    var v := Run(steps, u).value;
    ParentAt(w, v, q, id);
    if Landings(steps, u, q.ring) == 0 {
      ServedIs(w, q.ring);
      ServedIs(v, q.ring);
      SameMovesBack(Live(w.db, q.ring), Live(v.db, q.ring),
                    Sel(Next(v, Batching(|w.plans|, id)).h, q.ring, Top(v.db, q.ring) + 1));
    }
  }

  lemma HeadRead(db: Db, ring: Ring)
    requires ring in db.heads
    ensures ParentOf(db, ring) == Some(db.heads[ring])
  {
  }

  lemma OpeningSolid(w: World, q: Request)
    requires Solid(w) && Scoped(q)
    ensures Solid(Next(w, Opening(q)))
  {
    hide Solid, Next;
    StepKeeps(w, Opening(q));
  }

  /** What its batch leaves of a release, against the parent it read. */
  lemma ParentAt(w: World, v: World, q: Request, id: nat)
    requires Solid(w) && Solid(v) && Allowed(v, Batching(|w.plans|, id)) && Lands(v, Batching(|w.plans|, id))
    requires |w.plans| < |v.plans| && v.plans[|w.plans|].q == q && v.plans[|w.plans|].parent == ParentOf(w.db, q.ring)
    requires Top(w.db, q.ring) <= Top(v.db, q.ring)
             && Sel(v.h, q.ring, Top(w.db, q.ring)) == Sel(w.h, q.ring, Top(w.db, q.ring))
    ensures var after, n := Next(v, Batching(|w.plans|, id)), Top(v.db, q.ring) + 1;
            && id in after.db.deltas && id in after.db.rows
            && after.db.rows[id] == Row(q.ring, n, ParentOf(w.db, q.ring), after.db.rows[id].checkpoint)
            && (Apply(Sel(after.h, q.ring, Top(w.db, q.ring)), after.db.deltas[id]) == Sel(after.h, q.ring, n) <==>
                  MovesBack(Live(w.db, q.ring), Live(v.db, q.ring), Sel(after.h, q.ring, n)))
  {
    hide Solid, After, Aim, Top, Sel, Live, Apply, Diff, Next, MovesBack;
    var s := Batching(|w.plans|, id);
    var target := Aim(v.db, v.plans[|w.plans|]);
    LandedIs(v, s);
    BatchExtends(v, s);
    ServedIs(w, q.ring);
    DeltaOver(Live(w.db, q.ring), Live(v.db, q.ring), target);
  }

  lemma SameMovesBack(was: set<Package>, now: set<Package>, target: set<Package>)
    requires was == now
    ensures MovesBack(was, now, target)
  {
  }

  lemma ServedIs(w: World, ring: Ring)
    requires Solid(w)
    ensures Live(w.db, ring) == Sel(w.h, ring, Top(w.db, ring))
  {
  }

  lemma OpeningIs(w: World, q: Request)
    requires SourceRefusal(w.db, q).None?
    ensures var u := Next(w, Opening(q));
            && u.db == w.db && u.h == w.h
            && u.plans == w.plans + [Plan(q, SourceOf(w.db, q), ParentOf(w.db, q.ring), None)]
  {
  }
}
