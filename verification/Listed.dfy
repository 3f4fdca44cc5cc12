/**
 * What a claim lists (worker/src/selection.ts `select`), in the terms of the
 * rows alone: a task if and only if the claimer takes its kind, has a lane and
 * room for it, and nobody else is to have it first.
 */
module Listed {
  import opened Wrappers
  import opened Sums
  import opened Fleet
  import opened Select
  import opened SelectOrder
  import opened SelectStable
  import opened Listing

  // ---------- the size a build runs at ----------

  /** The size asked for, from one to what its trust allows. */
  function Asked(c: Candidate, r: Rules): nat {
    var most := if c.trust == ByCommunity then r.communityMaxSize else r.maxSize;
    if c.size.None? || c.size.value < 1 then 1 else if c.size.value > most then most else c.size.value
  }

  /** Some registration counted now runs a build of this size: it has the units of so many builds. */
  predicate RunsSize(members: seq<Member>, n: nat, now: int, r: Rules) {
    n <= 1 || (n <= r.maxSize && exists m | m in members :: Builds(now, r)(m) >= n)
  }

  /** The largest size up to `n` that the fleet runs. */
  function LargestUpTo(members: seq<Member>, n: nat, now: int, r: Rules): nat {
    if n <= 1 then 1 else if RunsSize(members, n, now, r) then n else LargestUpTo(members, n - 1, now, r)
  }

  function RunAt(members: seq<Member>, c: Candidate, now: int, r: Rules): nat {
    LargestUpTo(members, Asked(c, r), now, r)
  }

  function Units(members: seq<Member>, c: Candidate, now: int, r: Rules): nat {
    match c.kind
    case Build => r.buildPerSize * RunAt(members, c, now, r)
    case Trial => r.trial
    case Audit => r.audit
    case _ => r.job
  }

  /** The disk a build is given: its own, or so much for each size. */
  function Gb(members: seq<Member>, c: Candidate, now: int, r: Rules): nat {
    if c.diskGb.Some? then c.diskGb.value else r.gbPerSize * RunAt(members, c, now, r)
  }

  // ---------- one registration, one task ----------

  /** The registration takes the task: its kind, its pin, its agent, its owner's choice of whose work. */
  predicate Wants(m: Member, c: Candidate) {
    && c.kind in m.kinds && c.pinnedTo in {None, Some(m.id)} && (m.probeOk || !c.model)
    && (match m.scope
        case HostScope => true
        case ProjectScope => c.kind != Build || c.trust == ByProject
        case CommunityScope => c.trust == ByCommunity)
  }

  /** The project's copy of a recipe a requester would build on their own machine. */
  predicate OwnRequest(m: Member, c: Candidate) {
    && c.kind == Build && c.publishBound && !c.anyHost
    && exists who | who in c.requesters :: m.owner == Some(who) && c.solo != Some(who)
  }

  /** An architecture a registration has a lane for; a native one. */
  predicate Runs(m: Member, arch: Arch) { arch in (set l | l in m.lanes :: l.arch) }
  predicate RunsNatively(m: Member, arch: Arch) { arch in (set l | l in m.lanes && l.mode == Native :: l.arch) }

  /** What is no contributor's code: the project's own build. */
  predicate ProjectsOwn(c: Candidate) { c.kind == Build && c.trust == ByProject && !c.publishBound }

  /** The registration has the lanes the task needs. */
  predicate HasLanes(m: Member, c: Candidate, r: Rules) {
    if c.kind in {Build, Trial} then RunsNatively(m, c.arch) || (Runs(m, c.arch) && (ProjectsOwn(c) || !m.sandbox))
    else if m.legacy then Runs(m, c.arch) || c.kind in r.legacyAnyArch
    else if c.kind == Health then Runs(m, c.arch)
    else if c.kind == Security || (c.kind == Promote && c.jobArch.None?) then Runs(m, X86_64) && Runs(m, Aarch64)
    else if c.kind == Promote then Runs(m, c.jobArch.value)
    else true
  }

  /** How many leases that hold a model a registration has. */
  function Models(leases: seq<Held>, id: nat): nat {
    Sum(leases, (l: Held) => if l.host == id && l.model then 1 else 0)
  }

  /** The disk its builds were given. */
  function GbHeld(leases: seq<Held>, id: nat): nat {
    Sum(leases, (l: Held) => if l.host == id && l.kind == Build then l.diskGb else 0)
  }

  /** The task fits the registration's room now; a legacy one has room for one build. */
  predicate HasRoom(leases: seq<Held>, m: Member, c: Candidate, units: nat, gb: nat, r: Rules) {
    if m.legacy then units <= r.buildPerSize
    else
      && (if c.kind in {Build, Trial, Audit} then units <= Room(leases, m, r)
          else units + UnitsHeld(leases, m.id, true) + UnitsHeld(leases, m.id, false) <= m.units)
      && (m.offer.None? || units <= m.offer.value)
      && (c.model ==> Models(leases, m.id) < m.agentSlots)
      && (c.kind == Build ==>
            && m.disk.Some?
            && gb + r.floorGb + GbHeld(leases, m.id) <= m.disk.value.work
            && gb + r.floorGb + GbHeld(leases, m.id) <= m.disk.value.engine)
  }

  // ---------- the same, filter by filter ----------

  lemma {:induction false} LargestUpToIs(members: seq<Member>, n: nat, now: int, r: Rules)
    requires n >= 1
    ensures LargestUpTo(members, n, now, r) == Min(n, Largest(members, now, r))
  {
    hide Largest;
    LargestIs(members, now, r);
    RunsIs(members, n, now, r);
    if n > 1 && !RunsSize(members, n, now, r) {
      LargestUpToIs(members, n - 1, now, r);
    }
  }

  lemma RunsIs(members: seq<Member>, n: nat, now: int, r: Rules)
    requires n >= 1
    ensures RunsSize(members, n, now, r) <==> n <= Largest(members, now, r)
  {
    hide Largest;
    LargestIs(members, now, r);
    BuildsIs(now, r);
    forall m: Member ensures SizeRun(m, now, r) == Min(r.maxSize, Builds(now, r)(m)) {
      CountedAlike(m, now);
    }
  }

  lemma CountedAlike(m: Member, now: int)
    ensures Counted(m, now) == Counts(m, now) && Handed(m, now) == Claiming(m, now)
  {
  }

  lemma UnitsAre(members: seq<Member>, c: Candidate, now: int, r: Rules)
    ensures var size := Size(c, Largest(members, now, r), r);
            && Units(members, c, now, r) == UnitsOf(c.kind, size, r)
            && (c.kind == Build ==> DiskOf(c, size, r) == Some(Gb(members, c, now, r)))
  {
    hide Largest, LargestUpTo;
    LargestUpToIs(members, Asked(c, r), now, r);
  }

  lemma WantsIs(m: Member, c: Candidate)
    ensures Wants(m, c) == Takes(m, c) && OwnRequest(m, c) == RequesterHost(m, c)
  {
    assert OwnRequest(m, c) ==> RequesterHost(m, c);
    if RequesterHost(m, c) {
      assert m.owner == Some(m.owner.value) && c.solo != Some(m.owner.value);
    }
  }

  lemma LanesAre(m: Member, c: Candidate, r: Rules)
    ensures HasLanes(m, c, r) <==> LaneFor(m, c, r).Some?
    ensures RunsNatively(m, c.arch) == HasNative(m, c.arch)
  {
    FirstLane(m.lanes, c.arch);
    forall arch ensures Runs(m, arch) == HasLane(m, arch) && RunsNatively(m, arch) == HasNative(m, arch) {
      LaneAlike(m, arch);
    }
  }

  lemma LaneAlike(m: Member, arch: Arch)
    ensures Runs(m, arch) == HasLane(m, arch) && RunsNatively(m, arch) == HasNative(m, arch)
  {
  }

  lemma {:induction false} FirstLane(lanes: seq<Lane>, arch: Arch)
    ensures FirstMode(lanes, arch).Some? <==> exists l | l in lanes :: l.arch == arch
  {
    if lanes != [] {
      FirstLane(lanes[1..], arch);
      assert lanes == [lanes[0]] + lanes[1..];
    }
  }

  lemma {:induction false} HeldOther(s: seq<Held>, id: nat)
    ensures Models(s, id) == Sum(Filter(s, Mine(id)), ModelCount)
            && GbHeld(s, id) == Sum(Filter(s, Mine(id)), DiskBudget)
  {
    if s != [] {
      HeldOther(s[1..], id);
      var mine := if s[0].host == id then [s[0]] else [];
      SumAppend(mine, Filter(s[1..], Mine(id)), ModelCount);
      SumAppend(mine, Filter(s[1..], Mine(id)), DiskBudget);
    }
  }

  lemma RoomAlike(leases: seq<Held>, m: Member, c: Candidate, units: nat, disk: Option<nat>, gb: nat, r: Rules)
    requires c.kind == Build ==> disk == Some(gb)
    ensures HasRoom(leases, m, c, units, gb, r) <==> Fits(m, HeldBy(leases, m), c, units, disk, r)
  {
    HeldUnits(leases, m.id);
    HeldOther(leases, m.id);
  }

  // ---------- who is to have it first ----------

  /** The registration keeps its units for no other task. */
  predicate Free(m: Member, c: Candidate, now: int) {
    m.reserving.None? || m.reserving.value.since <= now - 7200000 || m.reserving.value.task == c.id
  }

  /** A legacy registration with a task in hand. */
  predicate Occupied(leases: seq<Held>, m: Member) {
    m.legacy && (m.busy || m.id in (set l | l in leases :: l.host))
  }

  /** Another registration would be handed it now, on a native lane. */
  predicate NativeElsewhere(x: Claim, c: Candidate) {
    exists m | m in x.fleet.members :: TakesNatively(x, m, c)
  }

  predicate TakesNatively(x: Claim, m: Member, c: Candidate) {
    && m.id != x.me.id && Handed(m, x.now) && RunsNatively(m, c.arch) && Wants(m, c) && !OwnRequest(m, c)
    && Free(m, c, x.now) && !Occupied(x.fleet.leases, m)
    && HasRoom(x.fleet.leases, m, c, Units(x.fleet.members, c, x.now, x.r), Gb(x.fleet.members, c, x.now, x.r), x.r)
  }

  /** The machine that built what is audited, or one no known owner tells from it. */
  predicate Beside(m: Member, c: Candidate) {
    c.builtBy.Some? && (c.builtBy == Some(m.id) || m.owner.None? || c.builtOn.None? || m.owner == c.builtOn)
  }

  /** An audit of what is published needs another model than the build's, where the fleet had one in the last day. */
  predicate ModelAllows(fleet: Fleet, m: Member, c: Candidate, now: int) {
    (c.publishBound && c.builtWith.Some? &&
     exists s | s in fleet.models :: s.at > now - 86400000 && Some(s.model) != c.builtWith)
    ==> m.model.Some? && m.model != c.builtWith
  }

  predicate TakesAudit(x: Claim, m: Member, c: Candidate) {
    && m.id != x.me.id && !Beside(m, c) && Handed(m, x.now) && Wants(m, c) && HasLanes(m, c, x.r)
    && ModelAllows(x.fleet, m, c, x.now) && Free(m, c, x.now) && !Occupied(x.fleet.leases, m)
    && HasRoom(x.fleet.leases, m, c, x.r.audit, 0, x.r)
  }

  /** Within its first three minutes an audit is left to a machine apart from the builder's. */
  predicate LeftElsewhere(x: Claim, c: Candidate) {
    Beside(x.me, c) && x.now - c.queuedAt < 180000 && exists m | m in x.fleet.members :: TakesAudit(x, m, c)
  }

  // ---------- the emulated lanes ----------

  /** Whether a task's own marks allow an emulated lane: one of 4k pages where it needs native. */
  predicate MayEmulate(m: Member, c: Candidate) {
    !c.refused4k && (c.needsNative ==> Lane(c.arch, Emulated, Some(false)) in m.lanes)
  }

  function EmulatedUnits(leases: seq<Held>, id: nat): nat {
    Sum(leases, (l: Held) => if l.host == id && l.lane == Some(Emulated) && l.kind in {Build, Trial}
                            then l.units else 0)
  }

  /** A build or a trial read that the claimer would run natively. */
  predicate NativeWork(x: Claim, c: Candidate) {
    c in x.queue && ToChoose(x, c) && Wants(x.me, c) && c.kind in {Build, Trial} && RunsNatively(x.me, c.arch)
  }

  /** How many builds the claimer's emulated lanes may hold: their share while native work waits, else all but one. */
  function EmulatedBuilds(x: Claim): int {
    var builds: nat := if x.me.legacy then (if Build in x.me.kinds then 1 else 0)
                       else if x.me.units < x.r.jobReserved then 0
                        else (x.me.units - x.r.jobReserved) / x.r.buildPerSize;
    if exists c | c in x.queue :: NativeWork(x, c) then (builds * x.r.shareNum + x.r.shareDen - 1) / x.r.shareDen
    else builds - 1
  }

  /** One emulated lease always; more only within their share of builds, one at least. */
  predicate ShareAllows(x: Claim, units: nat) {
    var held := EmulatedUnits(x.fleet.leases, x.me.id);
    || x.me.legacy || held == 0
    || held + units <= x.r.buildPerSize
    || held + units <= EmulatedBuilds(x) * x.r.buildPerSize
  }

  // ---------- what it keeps its units for ----------

  /**
   * What a claim chooses from: while it waits for room for the task it keeps its
   * units for, that one and the pool's jobs.
   */
  predicate ToChoose(x: Claim, c: Candidate) {
    forall k | k in x.queue && KeptFor(x, k)
             && Room(x.fleet.leases, x.me, x.r) < Units(x.fleet.members, k, x.now, x.r) ::
      c.id == k.id || c.kind !in {Build, Trial, Audit}
  }

  /** The claimer may take the task now, and leaves it to nobody. */
  predicate Suits(x: Claim, c: Candidate) {
    var units := Units(x.fleet.members, c, x.now, x.r);
    && Wants(x.me, c) && !OwnRequest(x.me, c)
    && (c.kind == Audit ==> ModelAllows(x.fleet, x.me, c, x.now) && !LeftElsewhere(x, c))
    && HasLanes(x.me, c, x.r) && HasRoom(x.fleet.leases, x.me, c, units, Gb(x.fleet.members, c, x.now, x.r), x.r)
    && (Slower(x.me, c) ==>
          && MayEmulate(x.me, c) && ShareAllows(x, units)
          && !(x.now - c.queuedAt < Penalty(x.me, c) && NativeElsewhere(x, c)))
    && UnderCap(x.fleet, c, x.now, x.r)
  }

  // ---------- the same, again filter by filter ----------

  lemma FreeIs(leases: seq<Held>, m: Member, c: Candidate, now: int)
    ensures Free(m, c, now) == Unmarked(m, c.id, now) && Occupied(leases, m) == LegacyBusy(m, leases)
  {
  }

  lemma NativeIs(x: Claim, m: Member, c: Candidate)
    ensures TakesNatively(x, m, c)
         == IsNativeRoom(x.fleet, c, x.now, x.r, x.me.id, Largest(x.fleet.members, x.now, x.r), m)
  {
    hide HasRoom, Fits, Wants, Takes, OwnRequest, RequesterHost, RunsNatively, HasNative, Free, Unmarked, Occupied,
         LegacyBusy, Handed, Claiming, Largest, Units, Gb;
    CountedAlike(m, x.now);
    LanesAre(m, c, x.r);
    WantsIs(m, c);
    FreeIs(x.fleet.leases, m, c, x.now);
    UnitsAre(x.fleet.members, c, x.now, x.r);
    RoomAlike(x.fleet.leases, m, c, Units(x.fleet.members, c, x.now, x.r),
              DiskOf(c, Size(c, Largest(x.fleet.members, x.now, x.r), x.r), x.r),
              Gb(x.fleet.members, c, x.now, x.r), x.r);
  }

  lemma ModelIs(fleet: Fleet, m: Member, c: Candidate, now: int)
    requires c.kind == Audit
    ensures ModelAllows(fleet, m, c, now) <==> (NeedsOtherModel(fleet, c, now) ==> AnotherModel(m, c))
  {
  }

  lemma BesideIs(m: Member, c: Candidate)
    ensures Beside(m, c) == BesideBuilder(m, c)
  {
  }

  lemma AuditIs(x: Claim, m: Member, c: Candidate)
    requires c.kind == Audit
    ensures TakesAudit(x, m, c) == IsElsewhere(x.fleet, c, x.now, x.r, x.me.id, m)
  {
    hide HasRoom, Fits, Wants, Takes, OwnRequest, RequesterHost, HasLanes, LaneFor, Free, Unmarked, Occupied,
         LegacyBusy, Handed, Claiming, ModelAllows, NeedsOtherModel, AnotherModel, Beside, BesideBuilder;
    CountedAlike(m, x.now);
    LanesAre(m, c, x.r);
    WantsIs(m, c);
    FreeIs(x.fleet.leases, m, c, x.now);
    ModelIs(x.fleet, m, c, x.now);
    BesideIs(m, c);
    RoomAlike(x.fleet.leases, m, c, x.r.audit, None, 0, x.r);
  }

  lemma LeftIs(x: Claim, c: Candidate)
    requires c.kind == Audit
    ensures LeftElsewhere(x, c) == x.Leaves(c)
  {
    hide TakesAudit, IsElsewhere, Beside, BesideBuilder;
    BesideIs(x.me, c);
    forall m ensures TakesAudit(x, m, c) == IsElsewhere(x.fleet, c, x.now, x.r, x.me.id, m) {
      AuditIs(x, m, c);
    }
  }

  lemma WaitsIs(x: Claim, c: Candidate)
    requires Slower(x.me, c)
    ensures x.now - c.queuedAt < Penalty(x.me, c) && NativeElsewhere(x, c) <==> x.Waits(c)
  {
    hide TakesNatively, IsNativeRoom, Largest;
    forall m ensures TakesNatively(x, m, c)
         == IsNativeRoom(x.fleet, c, x.now, x.r, x.me.id, Largest(x.fleet.members, x.now, x.r), m)
    {
      NativeIs(x, m, c);
    }
  }

  lemma {:induction false} EmulatedIs(s: seq<Held>, id: nat)
    ensures EmulatedUnits(s, id) == Sum(Filter(s, Mine(id)), OnEmulated)
  {
    if s != [] {
      EmulatedIs(s[1..], id);
      SumAppend(if s[0].host == id then [s[0]] else [], Filter(s[1..], Mine(id)), OnEmulated);
    }
  }

  lemma ToChooseIs(x: Claim, c: Candidate)
    requires Distinct(x.queue)
    ensures ToChoose(x, c) == x.InPool(c)
  {
    hide Largest, KeptFor, TaskRoom, Room, Units, Claim.UnitsFor, HeldBy;
    MarkedIn(x);
    forall k | k in x.queue
      ensures KeptFor(x, k) <==> x.Marked() == Some(k)
      ensures Units(x.fleet.members, k, x.now, x.r) == x.UnitsFor(k)
    {
      KeptForIs(x, k);
      UnitsForIs(x, k);
    }
    if !x.me.legacy {
      TaskRoomIs(x.fleet.leases, x.me, x.r);
    }
    MarkNotLegacy(x);
  }

  lemma MarkNotLegacy(x: Claim)
    ensures x.Mark().Some? ==> !x.me.legacy
  {
  }

  lemma UnitsForIs(x: Claim, c: Candidate)
    ensures Units(x.fleet.members, c, x.now, x.r) == x.UnitsFor(c)
    ensures c.kind == Build ==> x.DiskFor(c) == Some(Gb(x.fleet.members, c, x.now, x.r))
  {
    hide Units, Largest, Gb;
    UnitsAre(x.fleet.members, c, x.now, x.r);
  }

  lemma TaskRoomIs(leases: seq<Held>, m: Member, r: Rules)
    requires !m.legacy
    ensures Room(leases, m, r) == TaskRoom(m.units, HeldBy(leases, m), r)
  {
    HeldUnits(leases, m.id);
  }

  lemma NativeWorkIs(x: Claim)
    requires Distinct(x.queue)
    ensures (exists c | c in x.queue :: NativeWork(x, c)) <==> x.NativeQueued()
  {
    hide ToChoose, Wants, Takes, Claim.InPool, RunsNatively;
    forall c | c in x.queue ensures NativeWork(x, c) <==> x.InPool(c) && x.IsNativeWork(c) {
      ToChooseIs(x, c);
      WantsIs(x.me, c);
      LanesAre(x.me, c, x.r);
    }
  }

  lemma BuildsOfIs(m: Member, r: Rules)
    ensures BuildsOf(m, r) == if m.legacy then (if Build in m.kinds then 1 else 0)
                              else if m.units < r.jobReserved then 0 else (m.units - r.jobReserved) / r.buildPerSize
  {
    if m.units < r.jobReserved {
      NegativeQuotient(m.units - r.jobReserved, r.buildPerSize);
    }
  }

  lemma ShareIs(x: Claim, c: Candidate)
    requires Distinct(x.queue)
    ensures ShareAllows(x, Units(x.fleet.members, c, x.now, x.r)) <==> !x.EmulatedFull(c)
  {
    hide NativeWork, Claim.NativeQueued, Units, Claim.UnitsFor, EmulatedUnits, OnEmulated, BuildsOf;
    NativeWorkIs(x);
    BuildsOfIs(x.me, x.r);
    UnitsForIs(x, c);
    EmulatedIs(x.fleet.leases, x.me.id);
    var n := EmulatedBuilds(x);
    AtLeastOne(n, x.r.buildPerSize);
    assert x.EmulatedCap() == Max(1, n) * x.r.buildPerSize;
  }

  lemma AtLeastOne(n: int, per: nat)
    ensures Max(1, n) * per == Max(per, n * per)
  {
    if n < 1 {
      assert n * per <= per;
    } else {
      assert n * per >= per;
    }
  }

  lemma EmulateIs(m: Member, c: Candidate)
    ensures MayEmulate(m, c) == !EmulationRefuses(m, c)
  {
    assert forall l: Lane :: l == Lane(l.arch, l.mode, l.page16k);
  }

  lemma SlowerIs(x: Claim, c: Candidate)
    requires HasLanes(x.me, c, x.r)
    ensures Slower(x.me, c) == x.OnEmulatedLane(c)
  {
    hide HasLanes;
    LanesAre(x.me, c, x.r);
  }

  lemma SuitsIs(x: Claim, c: Candidate)
    requires Distinct(x.queue)
    ensures Suits(x, c) <==> x.Passes(c)
  {
    hide HasLanes, LaneFor, Wants, Takes, OwnRequest, RequesterHost, ModelAllows, NeedsOtherModel, AnotherModel,
         LeftElsewhere, Claim.Leaves, HasRoom, Fits, Slower, Claim.OnEmulatedLane, MayEmulate, EmulationRefuses,
         ShareAllows, Claim.EmulatedFull, NativeElsewhere, Claim.Waits, UnderCap, OwnerCapped, Units, Gb, Penalty,
         Claim.UnitsFor, Claim.DiskFor;
    WantsIs(x.me, c);
    LanesAre(x.me, c, x.r);
    if c.kind == Audit {
      ModelIs(x.fleet, x.me, c, x.now);
      LeftIs(x, c);
    }
    UnitsForIs(x, c);
    RoomAlike(x.fleet.leases, x.me, c, x.UnitsFor(c), x.DiskFor(c), Gb(x.fleet.members, c, x.now, x.r), x.r);
    if HasLanes(x.me, c, x.r) {
      SlowerIs(x, c);
    }
    if Slower(x.me, c) {
      WaitsIs(x, c);
    }
    EmulateIs(x.me, c);
    ShareIs(x, c);
    UnderCapIs(x.fleet, c, x.now, x.r);
  }

  /**
   * A claim of a host that is awake lists a task it read if and only if the task
   * is one to choose from now, and the claimer may take it: its kind and whose
   * it is, its lanes, its room, and nobody it is to be left to — an audit to
   * another machine, a build or a trial to native lanes or within the emulated
   * share, a community build past its owner's cap to nobody.
   */
  lemma ListedExactly(x: Claim, c: Candidate)
    requires Distinct(x.queue)
    ensures c in Ranked(x) <==> !x.me.asleep && c in x.queue && ToChoose(x, c) && Suits(x, c)
  {
    hide Ranked, ToChoose, Suits, Claim.Passes, Claim.InPool;
    if x.me.asleep {
      Asleep(x);
    } else {
      RankedExactly(x);
    }
    ToChooseIs(x, c);
    SuitsIs(x, c);
  }

  lemma Asleep(x: Claim)
    requires x.me.asleep
    ensures Ranked(x) == []
  {
  }

  // ---------- what is written of a choice ----------

  /** The lane a task is leased on: native where the claimer has it; a legacy claimer's other work on its first lane. */
  ghost predicate OnLane(m: Member, c: Candidate, lane: Option<Mode>) {
    if c.kind in {Build, Trial} || (c.kind == Health && !m.legacy) then
      lane == Some(if RunsNatively(m, c.arch) then Native else Emulated)
    else if m.legacy && Runs(m, c.arch) then
      exists i | 0 <= i < |m.lanes| :: m.lanes[i].arch == c.arch && lane == Some(m.lanes[i].mode)
                                       && forall j | 0 <= j < i :: m.lanes[j].arch != c.arch
    else lane.None?
  }

  /** How far an audit is from the build: another model, or another owner's machine where nothing is published. */
  function Independent(m: Member, c: Candidate): Option<Independence> {
    if c.kind != Audit then None
    else if m.model.Some? && c.builtWith.Some? && m.model != c.builtWith then Some(ByModel)
    else if !c.publishBound && c.builtBy.Some? && !Beside(m, c) then Some(ByHost)
    else Some(Neither)
  }

  lemma {:induction false} FirstModeIs(lanes: seq<Lane>, arch: Arch)
    ensures match FirstMode(lanes, arch)
            case Some(mode) => exists i | 0 <= i < |lanes| :: lanes[i].arch == arch && lanes[i].mode == mode
                                                             && forall j | 0 <= j < i :: lanes[j].arch != arch
            case None => forall l | l in lanes :: l.arch != arch
  {
    if lanes != [] && lanes[0].arch != arch {
      FirstModeIs(lanes[1..], arch);
      if FirstMode(lanes, arch).Some? {
        var i :| 0 <= i < |lanes[1..]| && lanes[1..][i].arch == arch &&
                 lanes[1..][i].mode == FirstMode(lanes, arch).value
                 && forall j | 0 <= j < i :: lanes[1..][j].arch != arch;
        assert lanes[i + 1] == lanes[1..][i];
        forall j | 0 <= j < i + 1 ensures lanes[j].arch != arch {
          if j > 0 { assert lanes[j] == lanes[1..][j - 1]; }
        }
      } else {
        assert lanes == [lanes[0]] + lanes[1..];
      }
    }
  }

  lemma LaneIs(m: Member, c: Candidate, r: Rules)
    requires HasLanes(m, c, r)
    ensures LaneFor(m, c, r).Some? && OnLane(m, c, LaneFor(m, c, r).value.mode)
  {
    hide HasLanes, FirstMode;
    LanesAre(m, c, r);
    LaneAlike(m, c.arch);
    FirstModeIs(m.lanes, c.arch);
  }

  lemma FarIs(m: Member, c: Candidate)
    ensures IndependenceOf(m, c) == Independent(m, c)
  {
    BesideIs(m, c);
  }

  /**
   * A choice names what the list has at its place, as its lease is written: the
   * units and the disk of the size it runs at, the size asked for when that is
   * more, its lane, whether it is the turn its architecture was owed, and how far
   * an audit is from the build.
   */
  lemma ChosenExactly(x: Claim, i: nat)
    requires Distinct(x.queue) && i < |Choices(x)|
    ensures i < |Ranked(x)|
    ensures var ch, c := Choices(x)[i], Ranked(x)[i];
            var runs, asked := RunAt(x.fleet.members, c, x.now, x.r), Asked(c, x.r);
            && ch.id == c.id && ch.units == Units(x.fleet.members, c, x.now, x.r) && OnLane(x.me, c, ch.lane)
            && (if c.kind == Build then
                  ch.size == Some(runs) && ch.asked == (if runs < asked then Some(asked) else None)
                  && ch.diskGb == Some(Gb(x.fleet.members, c, x.now, x.r))
                else ch.size.None? && ch.asked.None? && ch.diskGb.None?)
            && (ch.share <==> FirstOwed(x, c)) && ch.independent == Independent(x.me, c)
  {
    hide Ranked, RunAt, Asked, Units, Gb, OnLane, FirstOwed, IndependenceOf, Independent, ShareOf, LaneFor, HasLanes,
         Claim.UnitsFor, Claim.DiskFor;
    var c := Ranked(x)[i];
    ListedExactly(x, c);
    LaneIs(x.me, c, x.r);
    FarIs(x.me, c);
    UnitsForIs(x, c);
    SizeIs(x, c);
    FirstOwedIs(x, c);
  }

  lemma SizeIs(x: Claim, c: Candidate)
    ensures if c.kind == Build then
              SizeOf(c, x.Biggest(), x.r) == Some((RunAt(x.fleet.members, c, x.now, x.r), Asked(c, x.r)))
            else SizeOf(c, x.Biggest(), x.r) == None && x.DiskFor(c) == None
  {
    hide Largest, LargestUpTo;
    LargestUpToIs(x.fleet.members, Asked(c, x.r), x.now, x.r);
  }
}
