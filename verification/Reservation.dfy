/**
 * Reservation for large builds (worker/src/selection.ts `reserve`): one mark at
 * a time, on a host that could lease the build once idle; while the host keeps
 * its units it takes nothing else but pool jobs, and once its own tasks are
 * gone the build fits and goes first.
 */
module Reservation {
  import opened Wrappers
  import opened Sums
  import opened Fleet
  import opened Select
  import opened SelectOrder
  import opened Deferral

  /** A mark that ends: its window is over, its task left the queue, or its host left or sleeps. */
  predicate Ends(m: Member, queued: set<nat>, now: int) {
    m.reserving.Some? && (ReservingNow(m, now).None? || m.reserving.value.task !in queued || !Alive(m, now) || m.asleep)
  }

  predicate Stands(m: Member, queued: set<nat>, now: int) {
    m.reserving.Some? && !Ends(m, queued, now)
  }

  function Unreserved(m: Member): Member {
    m.(reserving := None, offer := None)
  }

  /** One registration's claim of one candidate, weighed as not reserving and without a claim's memory offer. */
  function Alone(m: Member, members: seq<Member>, leases: seq<Held>, c: Candidate, now: int, r: Rules): Claim {
    Claim(Unreserved(m), Fleet(members, leases, []), [c], now, r)
  }

  /** A host that could lease the candidate if it held nothing. */
  predicate CouldIdle(fleet: Fleet, m: Member, c: Candidate, now: int, r: Rules) {
    Claiming(m, now) && !m.legacy
    && Ranked(Alone(m, fleet.members, Filter(fleet.leases, Others(m.id)), c, now, r)) != []
  }

  /** A registration that could lease the candidate now. */
  predicate CouldNow(fleet: Fleet, m: Member, c: Candidate, now: int, r: Rules) {
    Claiming(m, now) && Ranked(Claim(Unreserved(m), fleet, [c], now, r)) != []
  }

  /**
   * A build a host could be kept for: it waited long enough, larger than one
   * build, not just marked, its owner under the cap.
   */
  predicate Wanted(fleet: Fleet, c: Candidate, now: int, r: Rules) {
    && c.kind == Build
    && now - c.queuedAt > RESERVE_AFTER_MS
    && !Cooling(c.reservedAt, now)
    && !OwnerCapped(fleet, c, now, r)
    && UnitsOf(c.kind, Size(c, Largest(fleet.members, now, r), r), r) > r.buildPerSize
  }

  function Free(fleet: Fleet, m: Member, r: Rules): int {
    TaskRoom(m.units, HeldBy(fleet.leases, m), r)
  }

  /** The host with the most free units, the lowest id among equals. */
  predicate Better(fleet: Fleet, a: Member, b: Member, r: Rules) {
    Free(fleet, a, r) > Free(fleet, b, r) || (Free(fleet, a, r) == Free(fleet, b, r) && a.id < b.id)
  }

  function Best(fleet: Fleet, members: seq<Member>, c: Candidate, now: int, r: Rules): Option<Member> {
    if members == [] then None
    else match Best(fleet, members[..|members| - 1], c, now, r)
      case None => if CouldIdle(fleet, members[|members| - 1], c, now, r) then Some(members[|members| - 1]) else None
      case Some(b) =>
        var last := members[|members| - 1];
        if CouldIdle(fleet, last, c, now, r) && Better(fleet, last, b, r) then Some(last) else Some(b)
  }

  /** The mark to write for the oldest build some host could be kept for: none when a registration fits it now. */
  function Weigh(fleet: Fleet, oldest: seq<Candidate>, now: int, r: Rules): Option<(Member, Candidate)> {
    if oldest == [] then None
    else
      var c := oldest[0];
      if !Wanted(fleet, c, now, r) || Best(fleet, fleet.members, c, now, r).None? then Weigh(fleet, oldest[1..], now, r)
      else if exists m | m in fleet.members :: CouldNow(fleet, m, c, now, r) then None
      else Some((Best(fleet, fleet.members, c, now, r).value, c))
  }

  function Reserve(fleet: Fleet, oldest: seq<Candidate>, queued: set<nat>, now: int, r: Rules)
    : Option<(Member, Candidate)>
  {
    if exists m | m in fleet.members :: Stands(m, queued, now) then None else Weigh(fleet, oldest, now, r)
  }

  /** A registration after the marks are written: an ended one cleared, the new one set. */
  function Marked(m: Member, set': Option<(Member, Candidate)>, queued: set<nat>, now: int): Member {
    if set'.Some? && m.id == set'.value.0.id then m.(reserving := Some(Mark(set'.value.1.id, now)))
    else if Ends(m, queued, now) then m.(reserving := None)
    else m
  }

  // ---------- one mark, on a host that can use it ----------

  ghost predicate OneEach(members: seq<Member>) {
    forall i, j | 0 <= i < j < |members| :: members[i].id != members[j].id
  }

  ghost predicate OneMark(members: seq<Member>, queued: set<nat>, now: int) {
    forall i, j | 0 <= i < |members| && 0 <= j < |members| && Stands(members[i], queued, now)
           && Stands(members[j], queued, now) :: i == j
  }

  /** At most one registration carries a mark, standing or not. */
  ghost predicate OneCarried(members: seq<Member>) {
    forall i, j | 0 <= i < |members| && 0 <= j < |members| && members[i].reserving.Some?
           && members[j].reserving.Some? :: i == j
  }

  function AfterMarks(members: seq<Member>, set': Option<(Member, Candidate)>, queued: set<nat>,
                      now: int): seq<Member> {
    seq(|members|, i requires 0 <= i < |members| => Marked(members[i], set', queued, now))
  }

  lemma {:induction false} BestIs(fleet: Fleet, members: seq<Member>, c: Candidate, now: int, r: Rules)
    ensures match Best(fleet, members, c, now, r)
            case Some(b) =>
              && b in members && CouldIdle(fleet, b, c, now, r)
              && forall m | m in members && CouldIdle(fleet, m, c, now, r) :: m == b || !Better(fleet, m, b, r)
            case None => forall m | m in members :: !CouldIdle(fleet, m, c, now, r)
    decreases |members|
  {
    hide CouldIdle, Free;
    if members != [] {
      var rest, last := members[..|members| - 1], members[|members| - 1];
      BestIs(fleet, rest, c, now, r);
      assert members == rest + [last];
    }
  }

  lemma {:induction false} WeighIs(fleet: Fleet, oldest: seq<Candidate>, now: int, r: Rules)
    ensures match Weigh(fleet, oldest, now, r)
            case Some((h, c)) =>
              && h in fleet.members && c in oldest && Wanted(fleet, c, now, r) && CouldIdle(fleet, h, c, now, r)
              && forall m | m in fleet.members :: !CouldNow(fleet, m, c, now, r)
            case None => true
  {
    hide CouldIdle, CouldNow, Wanted, Best;
    if oldest != [] {
      BestIs(fleet, fleet.members, oldest[0], now, r);
      WeighIs(fleet, oldest[1..], now, r);
      assert oldest == [oldest[0]] + oldest[1..];
    }
  }

  /**
   * After a reservation pass at most one mark stands, if at most one stood
   * before, and at most one registration carries one, if at most one did: so
   * every next pass, at whatever time and queue, finds the same. A mark it sets
   * is on a host alive and claiming that could lease the build were it idle, for
   * a build of the queue that fits nobody now.
   */
  lemma OneStandingMark(fleet: Fleet, oldest: seq<Candidate>, queued: set<nat>, now: int, r: Rules)
    requires OneEach(fleet.members) && OneMark(fleet.members, queued, now)
    ensures var set' := Reserve(fleet, oldest, queued, now, r);
            && OneMark(AfterMarks(fleet.members, set', queued, now), queued, now)
            && (OneCarried(fleet.members) ==> OneCarried(AfterMarks(fleet.members, set', queued, now)))
            && (set'.Some? ==>
                  && set'.value.0 in fleet.members && set'.value.1 in oldest
                  && CouldIdle(fleet, set'.value.0, set'.value.1, now, r)
                  && forall m | m in fleet.members :: !CouldNow(fleet, m, set'.value.1, now, r))
  {
    hide CouldIdle, CouldNow, Weigh, OneCarried;
    WeighIs(fleet, oldest, now, r);
    var set' := Reserve(fleet, oldest, queued, now, r);
    var after := AfterMarks(fleet.members, set', queued, now);
    forall i, j | 0 <= i < |after| && 0 <= j < |after| && Stands(after[i], queued, now) && Stands(after[j], queued, now)
      ensures i == j
    {
      MarkOrigin(fleet.members[i], set', queued, now);
      MarkOrigin(fleet.members[j], set', queued, now);
    }
    if OneCarried(fleet.members) {
      OneCarriedAfter(fleet.members, set', queued, now);
    }
  }

  lemma OneCarriedAfter(members: seq<Member>, set': Option<(Member, Candidate)>, queued: set<nat>, now: int)
    requires OneEach(members) && OneCarried(members)
             && (set'.Some? ==> forall m | m in members :: !Stands(m, queued, now))
    ensures OneCarried(AfterMarks(members, set', queued, now))
  {
    hide Ends;
    var after := AfterMarks(members, set', queued, now);
    forall i, j | 0 <= i < |after| && 0 <= j < |after| && after[i].reserving.Some? && after[j].reserving.Some?
      ensures i == j
    {
      assert members[i] in members && members[j] in members;
      MarkCarried(members[i], set', queued, now);
      MarkCarried(members[j], set', queued, now);
    }
  }

  /** A mark carried after the pass is the one it set, or one that stood. */
  lemma MarkCarried(m: Member, set': Option<(Member, Candidate)>, queued: set<nat>, now: int)
    ensures Marked(m, set', queued, now).reserving.Some? ==>
              (set'.Some? && m.id == set'.value.0.id) || (m.reserving.Some? && Stands(m, queued, now))
  {
  }

  /** A standing mark after the pass stood before it, or is the one it set. */
  lemma MarkOrigin(m: Member, set': Option<(Member, Candidate)>, queued: set<nat>, now: int)
    ensures Stands(Marked(m, set', queued, now), queued, now) ==>
              Stands(m, queued, now) || (set'.Some? && m.id == set'.value.0.id)
  {
  }

  // ---------- the hold ----------

  /** While a host holds for its marked task, it takes pool jobs only: that task does not fit it yet. */
  lemma HoldTakesOnlyJobs(x: Claim, c: Candidate)
    requires Distinct(x.queue) && x.Holding() && c in Ranked(x)
    ensures !IsTaskKind(c.kind)
  {
    hide Claim.UnitsFor, Ranked, Takes, RequesterHost, LaneFor, OwnerCapped, Sum, Claim.Waits, Claim.Leaves,
         Claim.EmulatedFull, Claim.DiskFor;
    RankedExactly(x);
    FindIs(x.queue, c.id);
  }

  // ---------- the delivery ----------

  /**
   * The same registration at a later claim: its mark, its last claim and its
   * memory offer may have moved, and it counts still.
   */
  predicate SameHost(m: Member, m': Member, now: int, later: int) {
    m' == m.(reserving := m'.reserving, seenAt := m'.seenAt, offer := m'.offer) && Counts(m', later) == Counts(m, now)
  }

  ghost predicate SameFleet(members: seq<Member>, members': seq<Member>, now: int, later: int) {
    |members'| == |members| && forall i | 0 <= i < |members| :: SameHost(members[i], members'[i], now, later)
  }

  lemma {:induction false} LargestStays(members: seq<Member>, members': seq<Member>, now: int, later: int, r: Rules)
    requires SameFleet(members, members', now, later)
    ensures Largest(members', later, r) == Largest(members, now, r)
    decreases |members|
  {
    if members != [] {
      LargestStays(members[..|members| - 1], members'[..|members| - 1], now, later, r);
      assert SameHost(members[|members| - 1], members'[|members| - 1], now, later);
    }
  }

  lemma {:induction false} CapStays(members: seq<Member>, members': seq<Member>, now: int, later: int, r: Rules)
    requires SameFleet(members, members', now, later)
    ensures Sum(members', BuildsCounted(later, r)) == Sum(members, BuildsCounted(now, r))
    decreases |members|
  {
    if members != [] {
      assert SameHost(members[0], members'[0], now, later);
      CapStays(members[1..], members'[1..], now, later, r);
    }
  }

  /** What a marked host claims later: its own tasks gone, everyone else's leases as they were. */
  ghost predicate TasksGone(leases: seq<Held>, leases': seq<Held>, h: nat, r: Rules) {
    && multiset(Filter(leases', Others(h))) == multiset(Filter(leases, Others(h)))
    && (forall l | l in leases' && l.host == h :: !IsTaskKind(l.kind) && !l.model)
    && Sum(Filter(leases', Mine(h)), JobUnits) <= r.jobReserved
  }

  lemma {:induction false} MineOrOthers(leases: seq<Held>, h: nat, w: Held -> nat)
    ensures Sum(leases, w) == Sum(Filter(leases, Mine(h)), w) + Sum(Filter(leases, Others(h)), w)
  {
    if leases != [] {
      MineOrOthers(leases[1..], h, w);
      SumAppend(if leases[0].host == h then [leases[0]] else [], Filter(leases[1..], Mine(h)), w);
      SumAppend(if leases[0].host != h then [leases[0]] else [], Filter(leases[1..], Others(h)), w);
    }
  }

  lemma {:induction false} SumZero(s: seq<Held>, w: Held -> nat)
    requires forall l | l in s :: w(l) == 0
    ensures Sum(s, w) == 0
  {
    if s != [] {
      SumZero(s[1..], w);
    }
  }

  /** Once its tasks are gone, what a host still holds weighs nothing against a task. */
  lemma IdleButJobs(leases: seq<Held>, leases': seq<Held>, h: nat, r: Rules)
    requires TasksGone(leases, leases', h, r)
    ensures var mine := Filter(leases', Mine(h));
            Sum(mine, TaskUnits) == 0 && Sum(mine, ModelCount) == 0 && Sum(mine, DiskBudget) == 0
            && Sum(mine, OnEmulated) == 0
  {
    InFilter(leases', Mine(h));
    var mine := Filter(leases', Mine(h));
    SumZero(mine, TaskUnits);
    SumZero(mine, ModelCount);
    SumZero(mine, DiskBudget);
    SumZero(mine, OnEmulated);
  }

  lemma OwnerStays(leases: seq<Held>, leases': seq<Held>, h: nat, c: Candidate, r: Rules)
    requires TasksGone(leases, leases', h, r)
    ensures OwnerLeased(leases', c) <= OwnerLeased(leases, c)
  {
    if c.owner.Some? {
      var w := OwnerWeight(c.owner.value);
      MineOrOthers(leases, h, w);
      MineOrOthers(leases', h, w);
      SumPermuted(Filter(leases', Others(h)), Filter(leases, Others(h)), w);
      InFilter(leases', Mine(h));
      SumZero(Filter(leases', Mine(h)), w);
    }
  }

  /** Another registration's own leases are everyone else's. */
  lemma OtherHeld(leases: seq<Held>, leases': seq<Held>, h: nat, m: Member, r: Rules)
    requires TasksGone(leases, leases', h, r) && m.id != h
    ensures multiset(HeldBy(leases', m)) == multiset(HeldBy(leases, m))
    ensures LegacyBusy(m, leases') == LegacyBusy(m, leases)
  {
    FilterTwice(leases, m.id, h);
    FilterTwice(leases', m.id, h);
    FilterPermuted(Filter(leases', Others(h)), Filter(leases, Others(h)), Mine(m.id), Mine(m.id));
    InFilter(leases, Others(h));
    InFilter(leases', Others(h));
    SameElements(Filter(leases', Others(h)), Filter(leases, Others(h)));
  }

  lemma {:induction false} FilterTwice(leases: seq<Held>, id: nat, h: nat)
    requires id != h
    ensures Filter(Filter(leases, Others(h)), Mine(id)) == Filter(leases, Mine(id))
  {
    if leases != [] {
      FilterTwice(leases[1..], id, h);
      FilterAppend(if leases[0].host != h then [leases[0]] else [], Filter(leases[1..], Others(h)), Mine(id));
      FilterOne(leases[0], Mine(id));
    }
  }

  /** A native registration with room later had it at the pass, marks aside: it would have taken the build then. */
  lemma RoomWasThere(fleet: Fleet, fleet': Fleet, h: nat, m: Member, m': Member, c: Candidate, now: int, later: int,
                     r: Rules)
    requires SameHost(m, m', now, later) && c.kind == Build && !OwnerCapped(fleet, c, now, r)
    requires TasksGone(fleet.leases, fleet'.leases, h, r)
    requires Largest(fleet'.members, later, r) == Largest(fleet.members, now, r)
    requires IsNativeRoom(fleet', c, later, r, h, Largest(fleet'.members, later, r), m')
    ensures CouldNow(fleet, m, c, now, r)
  {
    hide OwnerCapped, Ranked, Largest, TasksGone, HeldBy, WouldTake, Takes, RequesterHost, Sum, LegacyBusy;
    var n, u := Largest(fleet.members, now, r), Unreserved(m);
    OtherHeld(fleet.leases, fleet'.leases, h, m, r);
    HeldAlike(fleet.leases, m, u);
    HeldAlike(fleet'.leases, m, m');
    TakesAlike(m, m', c);
    TakesAlike(m, u, c);
    var a, b := HeldBy(fleet.leases, u), HeldBy(fleet'.leases, m');
    SumPermuted(a, b, JobUnits);
    SumPermuted(a, b, TaskUnits);
    SumPermuted(a, b, ModelCount);
    SumPermuted(a, b, DiskBudget);
    assert IsNativeRoom(fleet, c, now, r, h, n, u);
    NativeRoomTakes(fleet, c, now, r, h, u);
    TakesOne(fleet, u, c, now, r);
  }

  lemma HeldAlike(leases: seq<Held>, m: Member, m': Member)
    requires m' == m.(reserving := m'.reserving, seenAt := m'.seenAt, offer := m'.offer)
    ensures HeldBy(leases, m') == HeldBy(leases, m) && LegacyBusy(m', leases) == LegacyBusy(m, leases)
  {
  }

  lemma TakesAlike(m: Member, m': Member, c: Candidate)
    requires m' == m.(reserving := m'.reserving, seenAt := m'.seenAt, offer := m'.offer)
    ensures Takes(m', c) == Takes(m, c) && RequesterHost(m', c) == RequesterHost(m, c)
            && EmulationRefuses(m', c) == EmulationRefuses(m, c)
    ensures forall r: Rules :: LaneFor(m', c, r) == LaneFor(m, c, r)
    ensures HasNative(m', c.arch) == HasNative(m, c.arch)
  {
  }

  lemma TakesOne(fleet: Fleet, m: Member, c: Candidate, now: int, r: Rules)
    requires WouldTake(fleet, m, c, now, r)
    ensures Ranked(Claim(m, fleet, [c], now, r)) != []
  {
    hide Ranked;
    OneIsDistinct(c);
    assert c in [c];
    assert c in Ranked(Claim(m, fleet, [c], now, r));
  }

  /** Nobody has native room for the build while the fleet stands as it was. */
  lemma NobodyNative(fleet: Fleet, fleet': Fleet, h: nat, c: Candidate, now: int, later: int, r: Rules)
    requires c.kind == Build && !OwnerCapped(fleet, c, now, r)
    requires forall m | m in fleet.members :: !CouldNow(fleet, m, c, now, r)
    requires SameFleet(fleet.members, fleet'.members, now, later) && TasksGone(fleet.leases, fleet'.leases, h, r)
    ensures !NativeCapacity(fleet', c, later, r, h)
  {
    hide CouldNow, IsNativeRoom, Largest, TasksGone, OwnerCapped, SameHost;
    LargestStays(fleet.members, fleet'.members, now, later, r);
    var n := Largest(fleet'.members, later, r);
    forall m' | m' in fleet'.members ensures !IsNativeRoom(fleet', c, later, r, h, n, m') {
      var i :| 0 <= i < |fleet'.members| && fleet'.members[i] == m';
      if IsNativeRoom(fleet', c, later, r, h, n, m') {
        RoomWasThere(fleet, fleet', h, fleet.members[i], m', c, now, later, r);
      }
    }
  }

  /**
   * What the pass weighed of the host as if idle: it takes the build, on a lane
   * that allows it, within its own capacity.
   */
  lemma IdlePasses(fleet: Fleet, m: Member, c: Candidate, now: int, r: Rules)
    requires CouldIdle(fleet, m, c, now, r) && c.kind == Build
    ensures var n := Largest(fleet.members, now, r);
            && Takes(m, c) && !RequesterHost(m, c) && LaneFor(m, c, r).Some?
            && (LaneFor(m, c, r) == Some(Way(Some(Emulated), true)) ==> !EmulationRefuses(m, c))
            && Fits(Unreserved(m), [], c, UnitsOf(c.kind, Size(c, n, r), r), DiskOf(c, Size(c, n, r), r), r)
  {
    hide Ranked, Takes, RequesterHost, LaneFor, EmulationRefuses, Largest, Fits, OwnerCapped, Claim.Waits,
         Claim.EmulatedFull, Claim.InPool, Sum;
    var x := Alone(m, fleet.members, Filter(fleet.leases, Others(m.id)), c, now, r);
    OneIsDistinct(c);
    RankedExactly(x);
    assert Ranked(x)[0] in Ranked(x);
    TakesAlike(m, x.me, c);
    NoneOfMine(fleet.leases, m.id);
  }

  lemma {:induction false} NoneOfMine(leases: seq<Held>, id: nat)
    ensures Filter(Filter(leases, Others(id)), Mine(id)) == []
  {
    if leases != [] {
      NoneOfMine(leases[1..], id);
      FilterAppend(if leases[0].host != id then [leases[0]] else [], Filter(leases[1..], Others(id)), Mine(id));
      FilterOne(leases[0], Mine(id));
    }
  }

  // The mark's time on a task's own row: nothing but the reservation reads it.

  predicate Again(c: Candidate, c': Candidate) {
    c' == c.(reservedAt := c'.reservedAt)
  }

  lemma PassesAgain(x: Claim, c: Candidate, c': Candidate)
    requires Again(c, c') && x.Passes(c)
    ensures x.Passes(c') && x.UnitsFor(c') == x.UnitsFor(c)
  {
    hide Largest, HeldBy, Fits, LaneFor, Takes, RequesterHost, EmulationRefuses, BesideBuilder, AnotherModel,
         OtherModelSeen, OwnerCapped, Claim.EmulatedCap;
    ReadsAgain(x.fleet, x.me, c, c', x.now, x.r);
    FitsAgain(x.me, x.Mine(), c, c', x.UnitsFor(c), x.DiskFor(c), x.r);
    WaitsAgain(x, c, c');
    LeavesAgain(x, c, c');
  }

  lemma ReadsAgain(fleet: Fleet, m: Member, c: Candidate, c': Candidate, now: int, r: Rules)
    requires Again(c, c')
    ensures Takes(m, c') == Takes(m, c) && RequesterHost(m, c') == RequesterHost(m, c)
            && EmulationRefuses(m, c') == EmulationRefuses(m, c)
    ensures BesideBuilder(m, c') == BesideBuilder(m, c) && AnotherModel(m, c') == AnotherModel(m, c)
    ensures OtherModelSeen(fleet, c', now) == OtherModelSeen(fleet, c, now)
            && OwnerCapped(fleet, c', now, r) == OwnerCapped(fleet, c, now, r)
    ensures LaneFor(m, c', r) == LaneFor(m, c, r)
  {
  }

  lemma FitsAgain(m: Member, held: seq<Held>, c: Candidate, c': Candidate, units: nat, disk: Option<nat>, r: Rules)
    requires Again(c, c')
    ensures Fits(m, held, c', units, disk, r) == Fits(m, held, c, units, disk, r)
  {
  }

  lemma WaitsAgain(x: Claim, c: Candidate, c': Candidate)
    requires Again(c, c')
    ensures x.Waits(c') == x.Waits(c)
  {
    hide HeldBy, Fits, Takes, RequesterHost, Largest, LegacyBusy;
    var n := Largest(x.fleet.members, x.now, x.r);
    forall m
      ensures IsNativeRoom(x.fleet, c', x.now, x.r, x.me.id, n, m)
                == IsNativeRoom(x.fleet, c, x.now, x.r, x.me.id, n, m)
    {
      ReadsAgain(x.fleet, m, c, c', x.now, x.r);
      FitsAgain(m, HeldBy(x.fleet.leases, m), c, c', UnitsOf(c.kind, Size(c, n, x.r), x.r),
                DiskOf(c, Size(c, n, x.r), x.r), x.r);
    }
  }

  lemma LeavesAgain(x: Claim, c: Candidate, c': Candidate)
    requires Again(c, c')
    ensures x.Leaves(c') == x.Leaves(c)
  {
    hide HeldBy, Fits, Takes, LegacyBusy, LaneFor, BesideBuilder, AnotherModel, OtherModelSeen;
    ReadsAgain(x.fleet, x.me, c, c', x.now, x.r);
    forall m
      ensures IsElsewhere(x.fleet, c', x.now, x.r, x.me.id, m) == IsElsewhere(x.fleet, c, x.now, x.r, x.me.id, m)
    {
      ReadsAgain(x.fleet, m, c, c', x.now, x.r);
      FitsAgain(m, HeldBy(x.fleet.leases, m), c, c', UnitsOf(c.kind, None, x.r), None, x.r);
    }
  }

  /**
   * A reservation delivers: from the pass that marked a host for a build, while
   * the mark's window lasts and the rest of the fleet stands as it was, the
   * host's claim that still lists the build takes it first once its own tasks
   * are gone — its pool jobs within the unit kept for them.
   */
  lemma Delivers(fleet: Fleet, oldest: seq<Candidate>, queued: set<nat>, now: int, r: Rules, x: Claim, c: Candidate)
    requires Reserve(fleet, oldest, queued, now, r).Some? && Distinct(x.queue)
    requires var (h, weighed) := Reserve(fleet, oldest, queued, now, r).value;
             && Again(weighed, c) && c in x.queue && x.r == r
             && SameHost(h, x.me, now, x.now) && x.me.offer.None?
             && x.me.reserving == Some(Mark(c.id, now)) && now <= x.now < now + RESERVE_FOR_MS
             && SameFleet(fleet.members, x.fleet.members, now, x.now)
                && TasksGone(fleet.leases, x.fleet.leases, h.id, r)
    ensures Ranked(x) != [] && Ranked(x)[0] == c && !x.Holding()
  {
    hide Weigh, CouldIdle, CouldNow, Largest, TasksGone, OwnerCapped, Takes, RequesterHost, LaneFor, EmulationRefuses,
         Ranked, SameFleet, NativeCapacity, Claim.Holding, Claim.InPool,
         Fits, Claim.UnitsFor, Claim.DiskFor, HeldBy, TaskRoom, Claim.Passes;
    WeighIs(fleet, oldest, now, r);
    var (h, weighed) := Reserve(fleet, oldest, queued, now, r).value;
    LargestStays(fleet.members, x.fleet.members, now, x.now, r);
    PassesLater(fleet, h, weighed, now, x);
    PassesAgain(x, weighed, c);
    HoldsNoMore(x, c);
    RankedOrder(x);
    assert Ranked(x)[0] == Hoisted(x)[0];
  }

  /** The reserved build fits again once the host's tasks are gone. */
  lemma FitsLater(fleet: Fleet, h: Member, c: Candidate, now: int, x: Claim)
    requires c.kind == Build && CouldIdle(fleet, h, c, now, x.r) && SameHost(h, x.me, now, x.now) && x.me.offer.None?
    requires Largest(x.fleet.members, x.now, x.r) == Largest(fleet.members, now, x.r)
    requires TasksGone(fleet.leases, x.fleet.leases, h.id, x.r)
    ensures Fits(x.me, x.Mine(), c, x.UnitsFor(c), x.DiskFor(c), x.r)
    ensures Sum(x.Mine(), OnEmulated) == 0
    ensures x.UnitsFor(c) <= TaskRoom(x.me.units, x.Mine(), x.r)
  {
    hide CouldIdle, Largest, Takes, RequesterHost, LaneFor, EmulationRefuses, Size, UnitsOf, DiskOf;
    IdlePasses(fleet, h, c, now, x.r);
    IdleButJobs(fleet.leases, x.fleet.leases, h.id, x.r);
    IdleHost(fleet, h, c, now, x.r);
  }

  lemma IdleHost(fleet: Fleet, h: Member, c: Candidate, now: int, r: Rules)
    requires CouldIdle(fleet, h, c, now, r)
    ensures !h.legacy && Claiming(h, now)
  {
    hide Ranked;
  }

  lemma PassesLater(fleet: Fleet, h: Member, c: Candidate, now: int, x: Claim)
    requires Wanted(fleet, c, now, x.r) && CouldIdle(fleet, h, c, now, x.r)
             && (forall m | m in fleet.members :: !CouldNow(fleet, m, c, now, x.r))
    requires SameHost(h, x.me, now, x.now) && x.me.offer.None?
    requires Largest(x.fleet.members, x.now, x.r) == Largest(fleet.members, now, x.r)
    requires SameFleet(fleet.members, x.fleet.members, now, x.now) && TasksGone(fleet.leases, x.fleet.leases, h.id, x.r)
    ensures x.Passes(c) && !x.me.legacy && !x.me.asleep && x.UnitsFor(c) <= TaskRoom(x.me.units, x.Mine(), x.r)
  {
    hide CouldIdle, CouldNow, Largest, TasksGone, Takes, RequesterHost, LaneFor, EmulationRefuses, SameFleet,
         NativeCapacity, Fits, Claim.UnitsFor, Claim.DiskFor, HeldBy, TaskRoom, Sum;
    IdleHost(fleet, h, c, now, x.r);
    IdlePasses(fleet, h, c, now, x.r);
    TakesAlike(h, x.me, c);
    FitsLater(fleet, h, c, now, x);
    NobodyNative(fleet, x.fleet, h.id, c, now, x.now, x.r);
    OwnerStays(fleet.leases, x.fleet.leases, h.id, c, x.r);
    CapStays(fleet.members, x.fleet.members, now, x.now, x.r);
  }

  lemma HoldsNoMore(x: Claim, c: Candidate)
    requires Distinct(x.queue) && c in x.queue && !x.me.legacy && !x.me.asleep
    requires ReservingNow(x.me, x.now).Some? && ReservingNow(x.me, x.now).value.task == c.id
    requires x.Passes(c) && x.UnitsFor(c) <= TaskRoom(x.me.units, x.Mine(), x.r)
    ensures x.Marked() == Some(c) && !x.Holding() && x.Eligible(c)
  {
    hide Claim.Passes, Claim.UnitsFor, TaskRoom;
    FindIs(x.queue, c.id);
  }
}
