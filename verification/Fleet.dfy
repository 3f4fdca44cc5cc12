/**
 * The fleet as selection sees it (worker/src/selection.ts): registrations,
 * leases and candidates, and every filter a claim's candidates pass. Times are
 * milliseconds, disk is GB, and a name (a login, a model) is a number.
 */
module Fleet {
  import opened Wrappers
  import opened Sums

  type Name = nat

  datatype Mode = Native | Emulated
  datatype Arch = X86_64 | Aarch64
  datatype Trust = ByProject | ByCommunity
  datatype Scope = HostScope | ProjectScope | CommunityScope
  datatype Kind =
    | Build | Trial | Audit | Health | Promote | Security | Sync | Rollback
    | Render | Metrics | Gc | Enqueue | Verify | Relayout | PublishJob

  /** `page16k` is None when the lane does not say. */
  datatype Lane = Lane(arch: Arch, mode: Mode, page16k: Option<bool>)

  /** A lease the pool holds. */
  datatype Held = Held(task: nat, host: nat, kind: Kind, arch: Arch, lane: Option<Mode>, units: nat, model: bool,
                       trust: Trust, owner: Option<Name>, diskGb: nat)

  datatype Disk = Disk(work: int, engine: int)
  datatype Mark = Mark(task: nat, since: int)

  /** A registration of the fleet. */
  datatype Member = Member(
    id: nat, legacy: bool, lanes: seq<Lane>, sandbox: bool, units: nat, agentSlots: nat, disk: Option<Disk>,
    kinds: set<Kind>, probeOk: bool, drained: bool, belowMinimum: bool, mayClaim: bool, behind: bool,
    seenAt: int, aliveMs: int, reserving: Option<Mark>, scope: Scope, busy: bool, asleep: bool,
    offer: Option<nat>, owner: Option<Name>, model: Option<Name>)

  /** A queued task a claim read. */
  datatype Candidate = Candidate(
    id: nat, kind: Kind, arch: Arch, trust: Trust, owner: Option<Name>, priority: int, queuedAt: int,
    pinnedTo: Option<nat>, needsNative: bool, refused4k: bool, model: bool, size: Option<int>, diskGb: Option<nat>,
    nativeMs: Option<int>, reservedAt: Option<int>, jobArch: Option<Arch>, publishBound: bool, requesters: set<Name>,
    anyHost: bool, solo: Option<Name>, builtBy: Option<nat>, builtWith: Option<Name>, builtOn: Option<Name>)

  datatype Constants = Constants(
    buildPerSize: nat, trial: nat, audit: nat, job: nat, jobReserved: nat, maxSize: nat, communityMaxSize: nat,
    gbPerSize: nat, floorGb: nat, shareNum: nat, shareDen: nat, ownerDivisor: nat, legacyAnyArch: set<Kind>)

  /** The signed constants, as factory/bundle/manifest.toml bounds them. */
  type Rules = r: Constants |
    r.buildPerSize >= 1 && r.trial >= 1 && r.audit >= 1 && r.shareDen >= 1 && r.maxSize >= 1 && r.communityMaxSize >= 1
    witness Constants(2, 2, 1, 1, 1, 4, 2, 20, 10, 1, 2, 4, {})

  datatype Seen = Seen(id: nat, model: Name, at: int)
  datatype Fleet = Fleet(members: seq<Member>, leases: seq<Held>, models: seq<Seen>)

  datatype Independence = ByModel | ByHost | Neither

  /** A candidate a host may take, as its lease is written. */
  datatype Choice = Choice(id: nat, lane: Option<Mode>, size: Option<nat>, asked: Option<nat>, units: nat,
                           diskGb: Option<nat>, share: bool, independent: Option<Independence>)

  const MIN: int := 60000
  const T_MIN_MS: int := 3 * MIN
  const T_MAX_MS: int := 60 * MIN
  const RESERVE_AFTER_MS: int := 30 * MIN
  const RESERVE_FOR_MS: int := 120 * MIN
  const MODEL_WINDOW_MS: int := 24 * 60 * MIN
  const ELSEWHERE_MS: int := T_MIN_MS

  function Max(a: int, b: int): int { if a >= b then a else b }
  function Min(a: int, b: int): int { if a <= b then a else b }

  predicate IsLaneKind(k: Kind) { k == Build || k == Trial }
  predicate IsTaskKind(k: Kind) { k == Build || k == Trial || k == Audit }

  /** The architectures a job's helper containers run. */
  function HelperArches(c: Candidate): Option<set<Arch>> {
    match c.kind
    case Health => Some({c.arch})
    case Promote => Some(if c.jobArch.Some? then {c.jobArch.value} else {X86_64, Aarch64})
    case Security => Some({X86_64, Aarch64})
    case _ => None
  }

  predicate Cooling(reservedAt: Option<int>, now: int) {
    reservedAt.Some? && now - RESERVE_FOR_MS - RESERVE_AFTER_MS < reservedAt.value <= now - RESERVE_FOR_MS
  }

  predicate Alive(m: Member, now: int) { m.seenAt > now - m.aliveMs }

  /** The threshold an emulated candidate waits for native capacity. */
  function ThresholdMs(nativeMs: Option<int>): int {
    if nativeMs.None? || nativeMs.value <= 0 then T_MIN_MS else Min(T_MAX_MS, Max(T_MIN_MS, 2 * nativeMs.value))
  }

  function BuildsOf(m: Member, r: Rules): nat {
    if m.legacy then (if Build in m.kinds then 1 else 0) else Max(0, (m.units - r.jobReserved) / r.buildPerSize)
  }

  predicate Counts(m: Member, now: int) { Alive(m, now) && m.mayClaim && !m.belowMinimum && !m.asleep }

  /** What a registration adds to the largest size alive. */
  function SizeRun(m: Member, now: int, r: Rules): nat {
    if Counts(m, now) then Min(r.maxSize, BuildsOf(m, r)) else 0
  }

  function Largest(members: seq<Member>, now: int, r: Rules): nat {
    if members == [] then 1 else Max(Largest(members[..|members| - 1], now, r), SizeRun(members[|members| - 1], now, r))
  }

  function SizeOf(c: Candidate, largest: nat, r: Rules): Option<(nat, nat)> {
    if c.kind != Build then None
    else
      var max := if c.trust == ByCommunity then r.communityMaxSize else r.maxSize;
      var asked := Min(Max(if c.size.Some? then c.size.value else 1, 1), max);
      Some((Min(asked, largest), asked))
  }

  function Size(c: Candidate, largest: nat, r: Rules): Option<nat> {
    match SizeOf(c, largest, r) case Some((size, _)) => Some(size) case None => None
  }

  function UnitsOf(kind: Kind, size: Option<nat>, r: Rules): nat {
    match kind
    case Build => r.buildPerSize * (if size.Some? then size.value else 1)
    case Trial => r.trial
    case Audit => r.audit
    case _ => r.job
  }

  function DiskOf(c: Candidate, size: Option<nat>, r: Rules): Option<nat> {
    if c.kind != Build then None
    else if c.diskGb.Some? then c.diskGb
    else Some(r.gbPerSize * (if size.Some? then size.value else 1))
  }

  predicate ContributorsCode(c: Candidate) { !(c.kind == Build && c.trust == ByProject && !c.publishBound) }

  predicate HasLane(m: Member, arch: Arch) { exists l | l in m.lanes :: l.arch == arch }
  predicate HasNative(m: Member, arch: Arch) { exists l | l in m.lanes :: l.arch == arch && l.mode == Native }

  /** The mode of a registration's first lane of an architecture. */
  function FirstMode(lanes: seq<Lane>, arch: Arch): Option<Mode> {
    if lanes == [] then None else if lanes[0].arch == arch then Some(lanes[0].mode) else FirstMode(lanes[1..], arch)
  }

  /** The lane a registration would run a candidate on, and whether native is preferred there. */
  datatype Way = Way(mode: Option<Mode>, byLane: bool)

  function LaneFor(m: Member, c: Candidate, r: Rules): Option<Way> {
    if IsLaneKind(c.kind) then
      if HasNative(m, c.arch) then Some(Way(Some(Native), true))
      else if m.sandbox && ContributorsCode(c) then None
      else if HasLane(m, c.arch) then Some(Way(Some(Emulated), true)) else None
    else if m.legacy then
      if FirstMode(m.lanes, c.arch).Some? then Some(Way(FirstMode(m.lanes, c.arch), false))
      else if c.kind in r.legacyAnyArch then Some(Way(None, false)) else None
    else if c.kind == Health then
      if HasLane(m, c.arch) then Some(Way(Some(if HasNative(m, c.arch) then Native else Emulated), false)) else None
    else match HelperArches(c)
      case Some(arches) => if forall a | a in arches :: HasLane(m, a) then Some(Way(None, false)) else None
      case None => Some(Way(None, false))
  }

  /** Whether a task's marks keep it off a registration's emulated lane of its architecture. */
  predicate EmulationRefuses(m: Member, c: Candidate) {
    c.refused4k || (c.needsNative && !exists l | l in m.lanes ::
                      l.arch == c.arch && l.mode == Emulated && l.page16k == Some(false))
  }

  predicate Takes(m: Member, c: Candidate) {
    && c.kind in m.kinds
    && (c.pinnedTo.Some? ==> c.pinnedTo.value == m.id)
    && (c.model ==> m.probeOk)
    && !(m.scope == ProjectScope && c.kind == Build && c.trust == ByCommunity)
    && (m.scope == CommunityScope ==> c.trust == ByCommunity)
  }

  function Mine(id: nat): Held -> bool { (l: Held) => l.host == id }
  function Others(id: nat): Held -> bool { (l: Held) => l.host != id }

  /** The leases a registration's own count reads: a legacy one's never. */
  function HeldBy(leases: seq<Held>, m: Member): seq<Held> {
    if m.legacy then [] else Filter(leases, Mine(m.id))
  }

  function TaskUnits(l: Held): nat { if IsTaskKind(l.kind) then l.units else 0 }
  function JobUnits(l: Held): nat { if IsTaskKind(l.kind) then 0 else l.units }
  function ModelCount(l: Held): nat { if l.model then 1 else 0 }
  function DiskBudget(l: Held): nat { if l.kind == Build then l.diskGb else 0 }
  function OnEmulated(l: Held): nat { if l.lane == Some(Emulated) && IsLaneKind(l.kind) then l.units else 0 }

  /** A host's free units for a task: one unit is the pool jobs' own, or as many as they hold when they hold more. */
  function TaskRoom(units: nat, held: seq<Held>, r: Rules): int {
    units - Max(r.jobReserved, Sum(held, JobUnits)) - Sum(held, TaskUnits)
  }

  function JobRoom(units: nat, held: seq<Held>): int {
    units - Sum(held, TaskUnits) - Sum(held, JobUnits)
  }

  /** Whether a candidate fits a registration's free capacity now: units, the memory it offers, agent slots, disk. */
  predicate Fits(m: Member, held: seq<Held>, c: Candidate, units: nat, disk: Option<nat>, r: Rules) {
    if m.legacy then units <= r.buildPerSize
    else
      && units <= (if IsTaskKind(c.kind) then TaskRoom(m.units, held, r) else JobRoom(m.units, held))
      && (m.offer.Some? ==> units <= m.offer.value)
      && (c.model ==> Sum(held, ModelCount) < m.agentSlots)
      && (c.kind == Build ==>
            && m.disk.Some?
            && (if disk.Some? then disk.value else 0)
                 + r.floorGb <= Min(m.disk.value.work, m.disk.value.engine) - Sum(held, DiskBudget))
  }

  function ReservingNow(m: Member, now: int): Option<Mark> {
    if m.reserving.Some? && m.reserving.value.since > now - RESERVE_FOR_MS then m.reserving else None
  }

  /** The registration could be handed work at all: it claims, and holds no mark for another task. */
  predicate Claiming(m: Member, now: int) { Counts(m, now) && !m.drained && !m.behind }
  predicate Unmarked(m: Member, task: nat, now: int) {
    ReservingNow(m, now).Some? ==> ReservingNow(m, now).value.task == task
  }
  predicate LegacyBusy(m: Member, leases: seq<Held>) {
    m.legacy && (m.busy || exists l | l in leases :: l.host == m.id)
  }

  /** A registration that is native capacity for a candidate: its claim would pass every filter now. */
  predicate IsNativeRoom(fleet: Fleet, c: Candidate, now: int, r: Rules, except: nat, largest: nat, x: Member) {
    && x.id != except && Claiming(x, now)
    && HasNative(x, c.arch)
    && Takes(x, c) && !RequesterHost(x, c)
    && Unmarked(x, c.id, now)
    && !LegacyBusy(x, fleet.leases)
    && Fits(x, HeldBy(fleet.leases, x), c, UnitsOf(c.kind, Size(c, largest, r), r), DiskOf(c, Size(c, largest, r), r),
            r)
  }

  predicate NativeCapacity(fleet: Fleet, c: Candidate, now: int, r: Rules, except: nat) {
    exists x | x in fleet.members :: IsNativeRoom(fleet, c, now, r, except, Largest(fleet.members, now, r), x)
  }

  // ---------- placement ----------

  predicate ProjectCopy(c: Candidate) { c.kind == Build && c.publishBound }

  predicate RequesterHost(m: Member, c: Candidate) {
    ProjectCopy(c) && !c.anyHost && m.owner.Some? && m.owner != c.solo && m.owner.value in c.requesters
  }

  predicate OtherModelSeen(fleet: Fleet, c: Candidate, now: int) {
    c.builtWith.Some? && exists s | s in fleet.models :: s.at > now - MODEL_WINDOW_MS && s.model != c.builtWith.value
  }

  predicate NeedsOtherModel(fleet: Fleet, c: Candidate, now: int) {
    c.kind == Audit && c.publishBound && OtherModelSeen(fleet, c, now)
  }

  predicate AnotherModel(m: Member, c: Candidate) { m.model.Some? && c.builtWith.Some? && m.model != c.builtWith }

  predicate Apart(a: Option<Name>, b: Option<Name>) { a.Some? && b.Some? && a != b }

  predicate BesideBuilder(m: Member, c: Candidate) {
    c.builtBy.Some? && (m.id == c.builtBy.value || !Apart(m.owner, c.builtOn))
  }

  predicate IsElsewhere(fleet: Fleet, c: Candidate, now: int, r: Rules, except: nat, x: Member) {
    && x.id != except && !BesideBuilder(x, c) && Claiming(x, now)
    && Takes(x, c) && LaneFor(x, c, r).Some? && (NeedsOtherModel(fleet, c, now) ==> AnotherModel(x, c))
    && Unmarked(x, c.id, now)
    && !LegacyBusy(x, fleet.leases)
    && Fits(x, HeldBy(fleet.leases, x), c, UnitsOf(c.kind, None, r), None, r)
  }

  predicate AuditElsewhere(fleet: Fleet, c: Candidate, now: int, r: Rules, except: nat) {
    exists x | x in fleet.members :: IsElsewhere(fleet, c, now, r, except, x)
  }

  function IndependenceOf(m: Member, c: Candidate): Option<Independence> {
    if c.kind != Audit then None
    else if AnotherModel(m, c) then Some(ByModel)
    else if !c.publishBound && c.builtBy.Some? && !BesideBuilder(m, c) then Some(ByHost)
    else Some(Neither)
  }

  // ---------- the per-owner cap ----------

  function BuildsCounted(now: int, r: Rules): Member -> nat {
    (m: Member) => if Counts(m, now) then BuildsOf(m, r) else 0
  }

  function CeilDiv(a: nat, b: nat): nat
    requires b > 0
  {
    (a + b - 1) / b
  }

  /** None when the divisor is 0: no cap. */
  function OwnerCap(members: seq<Member>, now: int, r: Rules): Option<nat> {
    if r.ownerDivisor == 0 then None
    else Some(Max(1, CeilDiv(Sum(members, BuildsCounted(now, r)), r.ownerDivisor)))
  }

  function OwnerWeight(owner: Name): Held -> nat {
    (l: Held) => if l.kind == Build && l.trust == ByCommunity && l.owner == Some(owner) then 1 else 0
  }

  predicate CommunityBuild(c: Candidate) { c.kind == Build && c.trust == ByCommunity }

  /** How many community builds a candidate's owner holds leased across the fleet; 0 for any other candidate. */
  function OwnerLeased(leases: seq<Held>, c: Candidate): nat {
    if CommunityBuild(c) && c.owner.Some? then Sum(leases, OwnerWeight(c.owner.value)) else 0
  }

  predicate OwnerCapped(fleet: Fleet, c: Candidate, now: int, r: Rules) {
    && CommunityBuild(c) && c.owner.Some?
    && OwnerCap(fleet.members, now, r).Some?
    && OwnerLeased(fleet.leases, c) >= OwnerCap(fleet.members, now, r).value
  }
}
