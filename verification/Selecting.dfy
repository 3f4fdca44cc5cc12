/** The loops of worker/src/selection.ts, each against the function it computes. */
module Selecting {
  import opened Wrappers
  import opened Sums
  import opened Fleet
  import opened Select
  import opened SelectOrder
  import opened Reservation

  method LargestSize(fleet: Fleet, now: int, r: Rules) returns (best: nat)
    ensures best == Largest(fleet.members, now, r)
  {
    best := 1;
    for i := 0 to |fleet.members|
      invariant best == Largest(fleet.members[..i], now, r)
    {
      var m := fleet.members[i];
      assert fleet.members[..i + 1][..i] == fleet.members[..i] && fleet.members[..i + 1][i] == m;
      if Counts(m, now) {
        best := Max(best, Min(r.maxSize, BuildsOf(m, r)));
      }
    }
    assert fleet.members[..|fleet.members|] == fleet.members;
  }

  method RoomOf(units: nat, held: seq<Held>, r: Rules) returns (task: int, job: int)
    ensures task == TaskRoom(units, held, r) && job == JobRoom(units, held)
  {
    var tasks, jobs := 0, 0;
    for i := 0 to |held|
      invariant tasks == Sum(held[..i], TaskUnits) && jobs == Sum(held[..i], JobUnits)
    {
      assert held[..i + 1] == held[..i] + [held[i]];
      SumOne(held[..i], held[i], TaskUnits);
      SumOne(held[..i], held[i], JobUnits);
      if IsTaskKind(held[i].kind) {
        tasks := tasks + held[i].units;
      } else {
        jobs := jobs + held[i].units;
      }
    }
    assert held[..|held|] == held;
    task, job := units - Max(r.jobReserved, jobs) - tasks, units - tasks - jobs;
  }

  function Count(n: map<Name, nat>, owner: Name): nat {
    if owner in n then n[owner] else 0
  }

  /** Each owner's community builds leased across the fleet. */
  method OwnersLeased(leases: seq<Held>) returns (n: map<Name, nat>)
    ensures forall o :: Count(n, o) == Sum(leases, OwnerWeight(o))
  {
    n := map[];
    for i := 0 to |leases|
      invariant forall o :: Count(n, o) == Sum(leases[..i], OwnerWeight(o))
    {
      var l := leases[i];
      assert leases[..i + 1] == leases[..i] + [l];
      forall o ensures Sum(leases[..i + 1], OwnerWeight(o)) == Sum(leases[..i], OwnerWeight(o)) + OwnerWeight(o)(l) {
        SumOne(leases[..i], l, OwnerWeight(o));
      }
      if l.kind == Build && l.trust == ByCommunity && l.owner.Some? {
        n := n[l.owner.value := Count(n, l.owner.value) + 1];
      }
    }
    assert leases[..|leases|] == leases;
  }

  method EmulatedHeld(held: seq<Held>) returns (n: nat)
    ensures n == Sum(held, OnEmulated)
  {
    n := 0;
    for i := 0 to |held|
      invariant n == Sum(held[..i], OnEmulated)
    {
      assert held[..i + 1] == held[..i] + [held[i]];
      SumOne(held[..i], held[i], OnEmulated);
      n := n + OnEmulated(held[i]);
    }
    assert held[..|held|] == held;
  }

  /** Whether one candidate passes every filter of a claim. */
  method Passes(x: Claim, c: Candidate, leased: map<Name, nat>, emulatedHeld: nat) returns (yes: bool)
    requires (forall o :: Count(leased, o) == Sum(x.fleet.leases, OwnerWeight(o)))
             && emulatedHeld == Sum(x.Mine(), OnEmulated)
    ensures yes == x.Eligible(c)
  {
    hide Claim.InPool, Fits, LaneFor, Takes, RequesterHost, EmulationRefuses, NeedsOtherModel, AnotherModel,
         NativeCapacity, AuditElsewhere, BesideBuilder, Claim.NativeQueued,
         Largest, HeldBy, OwnerCap, ThresholdMs;
    if !x.InPool(c) || !Takes(x.me, c) || RequesterHost(x.me, c) {
      return false;
    }
    if c.kind == Audit {
      if NeedsOtherModel(x.fleet, c, x.now) && !AnotherModel(x.me, c) {
        return false;
      }
      if BesideBuilder(x.me, c) && x.now - c.queuedAt < ELSEWHERE_MS
         && AuditElsewhere(x.fleet, c, x.now, x.r, x.me.id) {
        return false;
      }
    }
    var lane := LaneFor(x.me, c, x.r);
    if lane.None? {
      return false;
    }
    var units := x.UnitsFor(c);
    if !Fits(x.me, x.Mine(), c, units, x.DiskFor(c), x.r) {
      return false;
    }
    if lane.value.byLane && lane.value.mode == Some(Emulated) {
      if EmulationRefuses(x.me, c) {
        return false;
      }
      if x.now - c.queuedAt < ThresholdMs(c.nativeMs) && NativeCapacity(x.fleet, c, x.now, x.r, x.me.id) {
        return false;
      }
      if !x.me.legacy && emulatedHeld > 0 && emulatedHeld + units > x.EmulatedCap() {
        return false;
      }
    }
    var cap := OwnerCap(x.fleet.members, x.now, x.r);
    yes := !(CommunityBuild(c) && c.owner.Some? && cap.Some? && Count(leased, c.owner.value) >= cap.value);
  }

  /** The candidates that pass every filter of a claim, in the order they were read. */
  method Passing(x: Claim) returns (ok: seq<Candidate>)
    ensures ok == Filter(x.queue, IsEligible(x))
  {
    hide Claim.Eligible;
    var leased := OwnersLeased(x.fleet.leases);
    var emulatedHeld := EmulatedHeld(x.Mine());
    ok := [];
    for i := 0 to |x.queue|
      invariant ok == Filter(x.queue[..i], IsEligible(x))
    {
      var c := x.queue[i];
      assert x.queue[..i + 1] == x.queue[..i] + [c];
      FilterAppend(x.queue[..i], [c], IsEligible(x));
      FilterOne(c, IsEligible(x));
      var yes := Passes(x, c, leased, emulatedHeld);
      if yes {
        ok := ok + [c];
      }
    }
    assert x.queue[..|x.queue|] == x.queue;
  }

  /** The candidates sorted by their keys. */
  method SortByKeys(x: Claim, ok: seq<Candidate>) returns (order: seq<Candidate>)
    ensures order == Sorted(x, ok)
  {
    order := [];
    var i := |ok|;
    while i > 0
      invariant 0 <= i <= |ok|
      invariant order == Sorted(x, ok[i..])
    {
      i := i - 1;
      assert ok[i..][0] == ok[i] && ok[i..][1..] == ok[i + 1..];
      order := Insert(x, ok[i], order);
    }
  }

  /** The oldest candidate of a starved emulated lane. */
  method Guaranteed(x: Claim, ok: seq<Candidate>) returns (share: Option<Candidate>)
    ensures share == Oldest(x, ok)
  {
    hide Claim.Shared;
    share := None;
    var i := |ok|;
    while i > 0
      invariant 0 <= i <= |ok|
      invariant share == Oldest(x, ok[i..])
    {
      i := i - 1;
      assert ok[i..][0] == ok[i] && ok[i..][1..] == ok[i + 1..];
      var c := ok[i];
      if x.Shared(c) && (share.None? || c.queuedAt < share.value.queuedAt
                         || (c.queuedAt == share.value.queuedAt && c.id < share.value.id)) {
        share := Some(c);
      }
    }
  }

  /** The candidates a host may take now, in the order it takes them, as their leases are written. */
  method SelectFor(x: Claim) returns (choices: seq<Choice>)
    ensures choices == Choices(x)
  {
    hide Claim.Eligible, Claim.Marked, Claim.ChoiceOf, Filter, Sorted, Oldest;
    if x.me.asleep {
      return [];
    }
    var ok := Passing(x);
    ok := SortByKeys(x, ok);
    var share := Guaranteed(x, ok);
    var order := First(ok, share);
    order := First(order, x.Marked());
    choices := [];
    for i := 0 to |order|
      invariant choices == Choices(x)[..i] && order == Ranked(x)
    {
      choices := choices + [x.ChoiceOf(order[i], share == Some(order[i]))];
      assert Choices(x)[..i + 1] == Choices(x)[..i] + [Choices(x)[i]];
    }
    assert Choices(x)[..|order|] == Choices(x);
  }

  /** The mark to write, and the registrations whose mark ends. */
  method ReservePass(fleet: Fleet, oldest: seq<Candidate>, queued: set<nat>, now: int, r: Rules)
    returns (mark: Option<(Member, Candidate)>, clear: seq<Member>)
    ensures mark == Reserve(fleet, oldest, queued, now, r)
    ensures forall m :: m in clear <==> m in fleet.members && Ends(m, queued, now)
  {
    hide Ends, Weigh;
    clear := [];
    var kept := false;
    for i := 0 to |fleet.members|
      invariant forall m :: m in clear <==> m in fleet.members[..i] && Ends(m, queued, now)
      invariant kept <==> exists m | m in fleet.members[..i] :: Stands(m, queued, now)
    {
      var m := fleet.members[i];
      assert fleet.members[..i + 1] == fleet.members[..i] + [m];
      assert forall e :: e in fleet.members[..i + 1] <==> e in fleet.members[..i] || e == m;
      assert Stands(m, queued, now) <==> m.reserving.Some? && !Ends(m, queued, now);
      EndsMarked(m, queued, now);
      if m.reserving.Some? {
        if Ends(m, queued, now) {
          clear := clear + [m];
        } else {
          kept := true;
        }
      }
    }
    assert fleet.members[..|fleet.members|] == fleet.members;
    if kept {
      return None, clear;
    }
    mark := WeighOldest(fleet, oldest, now, r);
  }

  lemma EndsMarked(m: Member, queued: set<nat>, now: int)
    ensures Ends(m, queued, now) ==> m.reserving.Some?
  {
  }

  method WeighOldest(fleet: Fleet, oldest: seq<Candidate>, now: int, r: Rules)
    returns (mark: Option<(Member, Candidate)>)
    ensures mark == Weigh(fleet, oldest, now, r)
  {
    hide CouldIdle, CouldNow, Wanted, Best;
    for i := 0 to |oldest|
      invariant Weigh(fleet, oldest, now, r) == Weigh(fleet, oldest[i..], now, r)
    {
      var c := oldest[i];
      assert oldest[i..][0] == c && oldest[i..][1..] == oldest[i + 1..];
      if !Wanted(fleet, c, now, r) {
        continue;
      }
      var best := BestHost(fleet, c, now, r);
      if best.None? {
        continue;
      }
      if exists m | m in fleet.members :: CouldNow(fleet, m, c, now, r) {
        return None;
      }
      return Some((best.value, c));
    }
    return None;
  }

  /** The host with the most free units of those that could lease the build once idle. */
  method BestHost(fleet: Fleet, c: Candidate, now: int, r: Rules) returns (best: Option<Member>)
    ensures best == Best(fleet, fleet.members, c, now, r)
  {
    hide CouldIdle, Better;
    best := None;
    for i := 0 to |fleet.members|
      invariant best == Best(fleet, fleet.members[..i], c, now, r)
    {
      var m := fleet.members[i];
      assert fleet.members[..i + 1][..i] == fleet.members[..i] && fleet.members[..i + 1][i] == m;
      if CouldIdle(fleet, m, c, now, r) && (best.None? || Better(fleet, m, best.value, r)) {
        best := Some(m);
      }
    }
    assert fleet.members[..|fleet.members|] == fleet.members;
  }
}
