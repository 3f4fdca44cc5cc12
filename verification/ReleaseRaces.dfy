/**
 * Releases and collections as they interleave: a release reads its source and
 * parent, then its adds, number and base, and only then runs its batch; a
 * collection lists, then prunes rows, clears flags, trims deltas and deletes, a
 * statement at a time (worker/src/routes/releases.ts, worker/src/routes/gc.ts).
 * What every interleaving keeps, and what two of them decide.
 */
module ReleaseRaces {
  import opened Wrappers
  import opened ReleaseLog
  import opened ReleaseSafety
  import R = ReleaseRuns

  /** Where a selection starts at the batch: nothing, what a ring serves then, or a release's rows. */
  datatype Source = Nothing | Served(ring: Ring) | Rows(of: nat)

  /** What a release read before its batch: its number, its base, whether it is a checkpoint, what it left alone. */
  datatype Ready = Ready(seqNo: nat, base: Source, due: bool, kept: set<Arch>)

  /** A release under way: the release it starts from and its parent, read first; then the rest. */
  datatype Plan = Plan(q: Request, source: Option<nat>, parent: Option<nat>, ready: Option<Ready>)

  /** A collection under way: what it listed. */
  datatype Sweep = Sweep(kept: set<nat>, base: map<Ring, nat>, victims: set<Package>)

  datatype World = World(db: Db, h: History, plans: seq<Plan>, sweeps: seq<Sweep>)

  datatype Step =
    | Calm(step: R.Step)                    // an upload, a read of a release, a render put or ended
    | Opening(q: Request)
    | Preparing(at: nat)
    | Batching(at: nat, id: nat)
    | Listing(keep: nat, victims: set<Package>)
    | Pruning(at: nat)
    | Unflagging(at: nat)
    | Trimming(at: nat)
    | Deleting(at: nat, victim: Package)

  // ---------- a release's reads ----------

  /** The release a request names to start from. */
  function SourceOf(db: Db, q: Request): Option<nat> {
    match q.base
    case Own => None
    case Promote(from) => ParentOf(db, from)
    case Rollback(to) => Some(to)
  }

  /** Its base, and the index after it was read: a release that is no head has its rows written first. */
  function StartOf(db: Db, plan: Plan): Result<(Db, Source), Refusal> {
    if plan.source.None? || plan.source == plan.parent then
      Ok((db, if plan.parent.Some? then Served(plan.q.ring) else Nothing))
    else match HeadRing(db, plan.source.value)
      case Some(ring) => Ok((db, Served(ring)))
      case None =>
        match Checkpointed(db, plan.source.value)
        case Err(e) => Err(Rebuilding(e))
        case Ok(after) => Ok((after, Rows(plan.source.value)))
  }

  /** The rest of what a release reads before its batch. */
  function Prepared(db: Db, plan: Plan): Result<(Db, Plan), Refusal> {
    if !(plan.q.adds <= db.packages) then Err(NotIndexed)
    else match StartOf(db, plan)
      case Err(e) => Err(e)
      case Ok((read, base)) =>
        var kept := UnchangedOver(plan.q, plan.parent.Some?, plan.source.None? || plan.source == plan.parent);
        var due := plan.parent.None? || CheckpointDue(read, plan.q.ring);
        Ok((read, plan.(ready := Some(Ready(Top(read, plan.q.ring) + 1, base, due, kept)))))
  }

  // ---------- the batch ----------

  function SetOf(db: Db, base: Source): set<Package> {
    match base
    case Nothing => {}
    case Served(ring) => Live(db, ring)
    case Rows(of) => MembersOf(db, of)
  }

  /** The selection a planned release publishes, over the tables its batch finds. */
  function Aim(db: Db, plan: Plan): set<Package>
    requires plan.ready.Some?
  {
    TargetOver(db, plan.q, SetOf(db, plan.ready.value.base), plan.parent.Some?)
  }

  /** The batch goes through unless another release of the ring took its number. */
  predicate Lands(w: World, s: Step) {
    && s.Batching? && s.at < |w.plans| && w.plans[s.at].ready.Some?
    && (w.plans[s.at].q.ring, w.plans[s.at].ready.value.seqNo) !in w.db.bySeq
  }

  function After(db: Db, plan: Plan, id: nat): Db
    requires plan.ready.Some?
  {
    var ready := plan.ready.value;
    Landed(db, plan.q.ring, ready.seqNo, plan.parent, id, Aim(db, plan), ready.due, ready.kept)
  }

  // ---------- a collection's statements ----------

  function Listed(db: Db, keep: nat, victims: set<Package>): Sweep {
    Sweep(set id | id in db.rows && IsKept(db, keep, id),
          map ring | ring in RINGS && BaseSeq(db, ring, keep).Some? :: BaseSeq(db, ring, keep).value, victims)
  }

  function Pruned(db: Db, sweep: Sweep): Db {
    db.(members := map id | id in db.members && id in sweep.kept :: db.members[id])
  }

  function Unflagged(db: Db, sweep: Sweep): Db {
    db.(rows := map id | id in db.rows ::
          if id in sweep.kept then db.rows[id] else db.rows[id].(checkpoint := false))
  }

  predicate Behind(db: Db, sweep: Sweep, id: nat) {
    id in db.rows && db.rows[id].ring in sweep.base && db.rows[id].seqNo <= sweep.base[db.rows[id].ring]
  }

  function Trimmed(db: Db, sweep: Sweep): Db {
    db.(deltas := map id | id in db.deltas && !Behind(db, sweep, id) :: db.deltas[id])
  }

  // ---------- steps and runs ----------

  predicate IsCalm(s: R.Step) {
    s.Upload? || s.Reading? || s.Putting? || s.Finishing?
  }

  ghost predicate Allowed(w: World, s: Step) {
    match s
    case Calm(step) => IsCalm(step)
    case Opening(q) => Scoped(q)
    case Batching(_, id) => id !in w.db.rows
    case Listing(keep, victims) => keep >= 1 && forall p | p in victims :: Outside(w.db, keep, p)
    case Deleting(at, victim) => at < |w.sweeps| && victim in w.sweeps[at].victims
    case _ => true
  }

  function Next(w: World, s: Step): World {
    match s
    case Calm(step) => w.(db := R.Next(w.db, step))
    case Opening(q) =>
      if SourceRefusal(w.db, q).Some? then w
      else w.(plans := w.plans + [Plan(q, SourceOf(w.db, q), ParentOf(w.db, q.ring), None)])
    case Preparing(at) =>
      if at >= |w.plans| || w.plans[at].ready.Some? then w
      else (match Prepared(w.db, w.plans[at])
            case Err(_) => w
            case Ok((read, plan)) => w.(db := read, plans := w.plans[at := plan]))
    case Batching(at, id) =>
      if !Lands(w, s) then w
      else
        var plan := w.plans[at];
        w.(db := After(w.db, plan, id),
           h := w.h.(sel := w.h.sel[(plan.q.ring, plan.ready.value.seqNo) := Aim(w.db, plan)]))
    case Listing(keep, victims) => w.(sweeps := w.sweeps + [Listed(w.db, keep, victims)])
    case Pruning(at) => if at < |w.sweeps| then w.(db := Pruned(w.db, w.sweeps[at])) else w
    case Unflagging(at) => if at < |w.sweeps| then w.(db := Unflagged(w.db, w.sweeps[at])) else w
    case Trimming(at) => if at < |w.sweeps| then w.(db := Trimmed(w.db, w.sweeps[at])) else w
    case Deleting(at, victim) => w.(db := R.Deleted(w.db, victim))
  }

  ghost function Run(steps: seq<Step>, w: World): Option<World>
    decreases |steps|
  {
    if steps == [] then Some(w)
    else match Run(steps[..|steps| - 1], w)
      case None => None
      case Some(v) => if Allowed(v, steps[|steps| - 1]) then Some(Next(v, steps[|steps| - 1])) else None
  }

  // ---------- what every interleaving keeps ----------

  predicate HeadOk(db: Db, ring: Ring) {
    ring in db.heads ==> db.heads[ring] in db.rows && db.rows[db.heads[ring]].ring == ring
                         && db.rows[db.heads[ring]].seqNo >= 1
  }

  /** The nth release of a ring stands at its place, and its delta, while kept, is against the release before it. */
  predicate AtPlace(db: Db, h: History, ring: Ring, s: nat) {
    && s >= 1 && (ring, s) in db.bySeq
    && var id := db.bySeq[(ring, s)];
    && id in db.rows && db.rows[id].ring == ring && db.rows[id].seqNo == s
    && (id in db.deltas ==> db.deltas[id] == Diff(Sel(h, ring, s - 1), Sel(h, ring, s)))
  }

  /** A release under way: its parent is one of the ring's, and its number is at most the next. */
  predicate PlanOk(db: Db, plan: Plan) {
    && (plan.parent.Some? ==> plan.parent.value in db.rows && db.rows[plan.parent.value].ring == plan.q.ring)
    && (plan.ready.Some? ==> 1 <= plan.ready.value.seqNo <= Top(db, plan.q.ring) + 1)
  }

  ghost predicate HeadsOk(w: World) {
    forall ring {:trigger HeadOk(w.db, ring)} :: HeadOk(w.db, ring)
  }

  /** Each ring serves its newest release's selection. */
  ghost predicate ServedOk(w: World) {
    forall ring {:trigger Live(w.db, ring)} ::
      Live(w.db, ring) == Sel(w.h, ring, Top(w.db, ring)) && Sel(w.h, ring, 0) == {}
  }

  ghost predicate PlacesOk(w: World) {
    && (forall ring, s: nat {:trigger AtPlace(w.db, w.h, ring, s)} | 1 <= s <= Top(w.db, ring) ::
          AtPlace(w.db, w.h, ring, s))
    && (forall id {:trigger Placed(w.db, id)} | id in w.db.rows :: Placed(w.db, id))
  }

  /** No number past a ring's newest is taken. */
  ghost predicate NumbersOk(w: World) {
    forall ring, s: nat {:trigger (ring, s) in w.db.bySeq} | (ring, s) in w.db.bySeq :: 1 <= s <= Top(w.db, ring)
  }

  ghost predicate PlansOk(w: World) {
    forall plan {:trigger PlanOk(w.db, plan)} | plan in w.plans :: PlanOk(w.db, plan)
  }

  ghost predicate Solid(w: World) {
    HeadsOk(w) && ServedOk(w) && PlacesOk(w) && NumbersOk(w) && PlansOk(w)
  }

  /** A step that lands no release: the releases keep their places, the rings what they serve, and no delta changes. */
  ghost predicate Stays(db: Db, after: Db) {
    && after.heads == db.heads && after.live == db.live && after.bySeq == db.bySeq && after.rows.Keys == db.rows.Keys
    && (forall id | id in db.rows :: after.rows[id].ring == db.rows[id].ring
          && after.rows[id].seqNo == db.rows[id].seqNo)
    && (forall id | id in after.deltas :: id in db.deltas && after.deltas[id] == db.deltas[id])
  }

  lemma StaysTop(db: Db, after: Db, ring: Ring)
    requires Stays(db, after)
    ensures Top(after, ring) == Top(db, ring) && Live(after, ring) == Live(db, ring)
  {
  }

  lemma StaysPlace(w: World, after: Db, ring: Ring, s: nat)
    requires Solid(w) && Stays(w.db, after) && 1 <= s <= Top(w.db, ring)
    ensures AtPlace(after, w.h, ring, s)
  {
    hide Top, Live, Diff, Sel, Solid;
    PlaceTaken(w, ring, s);
  }

  lemma StaysRows(w: World, after: Db)
    requires Solid(w) && Stays(w.db, after)
    ensures forall ring {:trigger HeadOk(after, ring)} :: HeadOk(after, ring)
    ensures forall id {:trigger Placed(after, id)} | id in after.rows :: Placed(after, id)
  {
    hide Top, Live, Diff, Sel, AtPlace;
    forall ring ensures Top(after, ring) == Top(w.db, ring) {
      StaysTop(w.db, after, ring);
    }
    forall ring ensures HeadOk(after, ring) {
      assert HeadOk(w.db, ring);
    }
    forall id | id in after.rows ensures Placed(after, id) {
      assert Placed(w.db, id);
    }
  }

  lemma StaysPlan(db: Db, after: Db, plan: Plan)
    requires Stays(db, after) && PlanOk(db, plan)
    ensures PlanOk(after, plan)
  {
    hide Top, Live;
    StaysTop(db, after, plan.q.ring);
  }

  lemma StaysServed(w: World, after: World)
    requires ServedOk(w) && Stays(w.db, after.db) && after.h == w.h
    ensures ServedOk(after)
  {
    hide Top, Live, Sel;
    forall ring
      ensures Live(after.db, ring) == Sel(after.h, ring, Top(after.db, ring)) && Sel(after.h, ring, 0) == {}
    {
      StaysTop(w.db, after.db, ring);
      assert Live(w.db, ring) == Sel(w.h, ring, Top(w.db, ring));
    }
  }

  lemma StaysSolid(w: World, after: World)
    requires Solid(w) && Stays(w.db, after.db) && after.h == w.h
    requires forall plan | plan in after.plans :: plan in w.plans || PlanOk(w.db, plan)
    ensures Solid(after)
  {
    hide Top, Live, Diff, Sel, AtPlace, HeadOk, Placed, PlanOk, ServedOk;
    StaysRows(w, after.db);
    forall ring ensures Top(after.db, ring) == Top(w.db, ring) {
      StaysTop(w.db, after.db, ring);
    }
    StaysServed(w, after);
    forall ring, s: nat | 1 <= s <= Top(after.db, ring) ensures AtPlace(after.db, after.h, ring, s) {
      StaysPlace(w, after.db, ring, s);
    }
    forall plan | plan in after.plans ensures PlanOk(after.db, plan) {
      assert plan in w.plans ==> PlanOk(w.db, plan);
      StaysPlan(w.db, after.db, plan);
    }
  }

  /** Reading a release writes its rows and its flag at most. */
  lemma ReadStays(db: Db, id: nat)
    requires Checkpointed(db, id).Ok?
    ensures R.OnlyFlags(db, Checkpointed(db, id).value) && Stays(db, Checkpointed(db, id).value)
  {
    hide Checkpointed, Stays;
    ReadFlags(db, id);
    FlagsStay(db, Checkpointed(db, id).value);
  }

  lemma ReadFlags(db: Db, id: nat)
    requires Checkpointed(db, id).Ok?
    ensures R.OnlyFlags(db, Checkpointed(db, id).value)
  {
    hide Selection;
  }

  lemma FlagsStay(db: Db, after: Db)
    requires R.OnlyFlags(db, after)
    ensures Stays(db, after)
  {
  }

  /** What moves neither the releases nor what the rings serve. */
  lemma BesideStays(db: Db, after: Db)
    requires after == db.(members := after.members, packages := after.packages, shelves := after.shelves,
                          bytes := after.bytes)
    ensures Stays(db, after)
  {
  }

  lemma CalmStays(db: Db, s: R.Step)
    requires IsCalm(s)
    ensures Stays(db, R.Next(db, s))
  {
    hide Stays, Checkpointed, ShelvesOf, ShelfPut, ShelfFinished;
    if s.Reading? && Checkpointed(db, s.id).Ok? {
      ReadStays(db, s.id);
    } else {
      BesideStays(db, R.Next(db, s));
    }
  }

  lemma PruneStays(db: Db, sweep: Sweep)
    ensures Stays(db, Pruned(db, sweep)) && Stays(db, Trimmed(db, sweep))
  {
    hide Behind;
  }

  lemma UnflagStays(db: Db, sweep: Sweep)
    ensures Stays(db, Unflagged(db, sweep))
  {
  }

  lemma DeleteStays(db: Db, p: Package)
    ensures Stays(db, R.Deleted(db, p))
  {
    hide R.IsServed, Stays;
    BesideStays(db, R.Deleted(db, p));
  }

  lemma PreparedStays(db: Db, plan: Plan)
    ensures Prepared(db, plan).Ok? ==>
              && Stays(db, Prepared(db, plan).value.0)
              && Prepared(db, plan).value.1.(ready := plan.ready) == plan
              && Prepared(db, plan).value.1.ready.Some?
              && Prepared(db, plan).value.1.ready.value.seqNo == Top(db, plan.q.ring) + 1
  {
    hide Checkpointed, HeadRing, CheckpointDue, UnchangedOver, Top;
    if plan.source.Some? && Checkpointed(db, plan.source.value).Ok? {
      ReadStays(db, plan.source.value);
    }
    if Prepared(db, plan).Ok? {
      StaysTop(db, Prepared(db, plan).value.0, plan.q.ring);
    }
  }

  // ---------- a batch ----------

  /** What a batch that goes through leaves: its release, the ring's next, and every other's tables. */
  lemma LandedIs(w: World, s: Step)
    requires Solid(w) && Allowed(w, s) && Lands(w, s)
    ensures var plan, after := w.plans[s.at], Next(w, s);
            var ring, n := plan.q.ring, plan.ready.value.seqNo;
            && n == Top(w.db, ring) + 1
            && after.db.rows == w.db.rows[s.id := Row(ring, n, plan.parent, plan.ready.value.due)]
            && after.db.bySeq == w.db.bySeq[(ring, n) := s.id] && after.db.heads == w.db.heads[ring := s.id]
            && after.db.deltas == w.db.deltas[s.id := Diff(Live(w.db, ring), Aim(w.db, plan))]
            && (forall r {:trigger Live(after.db, r)} ::
                  Live(after.db, r) == if r == ring then Aim(w.db, plan) else Live(w.db, r))
            && after.db.packages == w.db.packages && after.plans == w.plans && after.sweeps == w.sweeps
            && after.h == w.h.(sel := w.h.sel[(ring, n) := Aim(w.db, plan)])
  {
    hide Top, Diff, Apply, Aim, CarriedFrom;
    var plan := w.plans[s.at];
    assert PlanOk(w.db, plan);
    ApplyDiff(Live(w.db, plan.q.ring), Aim(w.db, plan));
    NumberFree(w, plan);
  }

  /** A number not taken is the next. */
  lemma NumberFree(w: World, plan: Plan)
    requires Solid(w) && plan in w.plans && plan.ready.Some? && (plan.q.ring, plan.ready.value.seqNo) !in w.db.bySeq
    ensures plan.ready.value.seqNo == Top(w.db, plan.q.ring) + 1
  {
    hide Solid, Top;
    PlanHas(w, plan);
    if plan.ready.value.seqNo <= Top(w.db, plan.q.ring) {
      PlaceTaken(w, plan.q.ring, plan.ready.value.seqNo);
    }
  }

  lemma PlaceTaken(w: World, ring: Ring, n: nat)
    requires Solid(w) && 1 <= n <= Top(w.db, ring)
    ensures AtPlace(w.db, w.h, ring, n)
  {
  }

  lemma LandedTop(w: World, s: Step, ring: Ring)
    requires Solid(w) && Allowed(w, s) && Lands(w, s)
    ensures Top(Next(w, s).db, ring) == if ring == w.plans[s.at].q.ring then Top(w.db, ring) + 1 else Top(w.db, ring)
  {
    hide Solid, After, Aim, Lands, Live, Diff, Next, Top;
    LandedIs(w, s);
    TopOf(w, s, ring);
  }

  lemma TopOf(w: World, s: Step, ring: Ring)
    requires Solid(w) && Allowed(w, s) && Lands(w, s)
    requires var plan, after := w.plans[s.at], Next(w, s).db;
             && after.heads == w.db.heads[plan.q.ring := s.id]
             && after.rows == w.db.rows[s.id := Row(plan.q.ring, Top(w.db, plan.q.ring) + 1,
                                                    plan.parent, plan.ready.value.due)]
    ensures Top(Next(w, s).db, ring) == if ring == w.plans[s.at].q.ring then Top(w.db, ring) + 1 else Top(w.db, ring)
  {
    hide After, Aim, Live, Diff, Next;
    assert HeadOk(w.db, ring);
  }

  /** A release landed as the next of its ring, and nothing else moved. */
  ghost predicate Extended(w: World, after: World, plan: Plan, id: nat, target: set<Package>) {
    var ring, n := plan.q.ring, Top(w.db, plan.q.ring) + 1;
    && (forall r {:trigger Top(after.db, r)} :: Top(after.db, r) == if r == ring then n else Top(w.db, r))
    && (forall r, t: nat {:trigger Sel(after.h, r, t)} ::
          Sel(after.h, r, t) == if r == ring && t == n then target else Sel(w.h, r, t))
    && (forall r {:trigger Live(after.db, r)} :: Live(after.db, r) == if r == ring then target else Live(w.db, r))
    && (exists due :: after.db.rows == w.db.rows[id := Row(ring, n, plan.parent, due)])
    && after.db.bySeq == w.db.bySeq[(ring, n) := id] && after.db.heads == w.db.heads[ring := id]
    && after.db.deltas == w.db.deltas[id := Diff(Live(w.db, ring), target)] && after.plans == w.plans
  }

  lemma BatchExtends(w: World, s: Step)
    requires Solid(w) && Allowed(w, s) && Lands(w, s)
    ensures Extended(w, Next(w, s), w.plans[s.at], s.id, Aim(w.db, w.plans[s.at]))
  {
    hide After, Aim, Live, Diff, Next, Top, Solid, Sel;
    var after, plan := Next(w, s), w.plans[s.at];
    LandedIs(w, s);
    forall r ensures Top(after.db, r) == if r == plan.q.ring then Top(w.db, plan.q.ring) + 1 else Top(w.db, r) {
      LandedTop(w, s, r);
    }
    forall r, t: nat
      ensures Sel(after.h, r, t) ==
                if r == plan.q.ring && t == Top(w.db, plan.q.ring) + 1 then Aim(w.db, plan) else Sel(w.h, r, t)
    {
      SelSet(w.h, plan.q.ring, plan.ready.value.seqNo, Aim(w.db, plan), r, t);
    }
  }

  lemma ExtendedPlaces(w: World, after: World, plan: Plan, id: nat, target: set<Package>, r: Ring, t: nat)
    requires Solid(w) && id !in w.db.rows && Extended(w, after, plan, id, target) && 1 <= t <= Top(after.db, r)
    ensures AtPlace(after.db, after.h, r, t)
  {
    hide Top, Sel, Live, Diff;
    var ring := plan.q.ring;
    if r != ring || t <= Top(w.db, ring) {
      assert AtPlace(w.db, w.h, r, t);
      assert t >= 1 && (t - 1 != Top(w.db, ring) + 1 || r != ring);
    } else {
      assert Live(w.db, ring) == Sel(w.h, ring, Top(w.db, ring));
    }
  }

  lemma ExtendedRows(w: World, after: World, plan: Plan, id: nat, target: set<Package>)
    requires Solid(w) && id !in w.db.rows && plan in w.plans && Extended(w, after, plan, id, target)
    ensures forall i | i in after.db.rows :: Placed(after.db, i)
    ensures forall r {:trigger HeadOk(after.db, r)} :: HeadOk(after.db, r)
  {
    hide Top, Sel, Live, Diff;
    forall i | i in after.db.rows ensures Placed(after.db, i) {
      assert i != id ==> Placed(w.db, i);
    }
    forall r ensures HeadOk(after.db, r) {
      assert HeadOk(w.db, r);
    }
  }

  lemma ExtendedServed(w: World, after: World, plan: Plan, id: nat, target: set<Package>)
    requires Solid(w) && id !in w.db.rows && plan in w.plans && Extended(w, after, plan, id, target)
    ensures ServedOk(after)
    ensures forall p {:trigger PlanOk(after.db, p)} | p in after.plans :: PlanOk(after.db, p)
    ensures forall r, t: nat {:trigger (r, t) in after.db.bySeq} | (r, t) in after.db.bySeq ::
              1 <= t <= Top(after.db, r)
  {
    hide Top, Sel, Live, Diff;
    forall r ensures Live(after.db, r) == Sel(after.h, r, Top(after.db, r)) && Sel(after.h, r, 0) == {} {
      assert Live(w.db, r) == Sel(w.h, r, Top(w.db, r));
    }
    forall p | p in after.plans ensures PlanOk(after.db, p) {
      assert PlanOk(w.db, p);
    }
  }

  lemma BatchSolid(w: World, s: Step)
    requires Solid(w) && Allowed(w, s) && Lands(w, s)
    ensures Solid(Next(w, s))
  {
    hide After, Aim, Live, Diff, Next, Top, Sel, Extended, AtPlace, HeadOk, Placed, PlanOk, ServedOk;
    var after, plan, target := Next(w, s), w.plans[s.at], Aim(w.db, w.plans[s.at]);
    BatchExtends(w, s);
    ExtendedRows(w, after, plan, s.id, target);
    ExtendedServed(w, after, plan, s.id, target);
    forall r, t: nat | 1 <= t <= Top(after.db, r) ensures AtPlace(after.db, after.h, r, t) {
      ExtendedPlaces(w, after, plan, s.id, target, r, t);
    }
  }

  lemma SelSet(h: History, ring: Ring, n: nat, target: set<Package>, r: Ring, t: nat)
    ensures Sel(h.(sel := h.sel[(ring, n) := target]), r, t) == if r == ring && t == n then target else Sel(h, r, t)
  {
  }

  /**
   * Whatever lands in between, every step of every release and every collection
   * keeps this: the releases of a ring are numbered without a gap, each ring
   * serves its newest release's selection, and each delta still kept is against
   * the release before.
   */
  lemma StepKeeps(w: World, s: Step)
    requires Solid(w) && Allowed(w, s)
    ensures Solid(Next(w, s))
  {
    hide Solid, After, Aim, Stays, Prepared, Lands, R.Next, Pruned, Unflagged, Trimmed, R.Deleted, Listed, Outside;
    match s
    case Calm(step) => CalmStays(w.db, step); StaysSolid(w, Next(w, s));
    case Opening(q) => OpenedOk(w, q); SelfStays(w.db); StaysSolid(w, Next(w, s));
    case Preparing(at) => PreparingKeeps(w, at);
    case Batching(at, id) => if Lands(w, s) { BatchSolid(w, s); }
    case Listing(_, _) => SelfStays(w.db); StaysSolid(w, Next(w, s));
    case Pruning(at) => SweepingKeeps(w, s);
    case Unflagging(at) => SweepingKeeps(w, s);
    case Trimming(at) => SweepingKeeps(w, s);
    case Deleting(at, victim) => SweepingKeeps(w, s);
  }

  lemma SelfStays(db: Db)
    ensures Stays(db, db)
  {
  }

  lemma OpenedOk(w: World, q: Request)
    requires Solid(w)
    ensures PlanOk(w.db, Plan(q, SourceOf(w.db, q), ParentOf(w.db, q.ring), None))
  {
    hide Top, Diff;
    assert HeadOk(w.db, q.ring);
  }

  lemma PreparingKeeps(w: World, at: nat)
    requires Solid(w)
    ensures Solid(Next(w, Preparing(at)))
  {
    hide Solid, Stays, Prepared, Top;
    if at < |w.plans| && w.plans[at].ready.None? && Prepared(w.db, w.plans[at]).Ok? {
      PreparedStays(w.db, w.plans[at]);
      PlanHas(w, w.plans[at]);
      StaysSolid(w, Next(w, Preparing(at)));
    }
  }

  lemma PlanHas(w: World, plan: Plan)
    requires Solid(w) && plan in w.plans
    ensures PlanOk(w.db, plan)
  {
  }

  lemma SweepingKeeps(w: World, s: Step)
    requires Solid(w) && (s.Pruning? || s.Unflagging? || s.Trimming? || s.Deleting?)
    ensures Solid(Next(w, s))
  {
    hide Solid, Stays, Pruned, Unflagged, Trimmed, R.Deleted;
    SelfStays(w.db);
    if s.Deleting? {
      DeleteStays(w.db, s.victim);
    } else if s.at < |w.sweeps| {
      PruneStays(w.db, w.sweeps[s.at]);
      UnflagStays(w.db, w.sweeps[s.at]);
    }
    StaysSolid(w, Next(w, s));
  }

  lemma {:induction false} RunKeeps(steps: seq<Step>, w: World)
    requires Solid(w) && Run(steps, w).Some?
    ensures Solid(Run(steps, w).value)
    decreases |steps|
  {
    hide Solid, Next, Allowed;
    if steps != [] {
      RunKeeps(steps[..|steps| - 1], w);
      StepKeeps(Run(steps[..|steps| - 1], w).value, steps[|steps| - 1]);
    }
  }
}
