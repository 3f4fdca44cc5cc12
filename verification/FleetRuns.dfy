/**
 * Whole runs of claims and lease ends: a host's units, agent slots and disk are
 * never oversubscribed, its emulated lanes keep to their share, and no owner's
 * community builds pass the cap.
 */
module FleetRuns {
  import opened Wrappers
  import opened Sums
  import opened Fleet
  import opened Select
  import opened SelectOrder

  /** What a host declares, fixed over a run. */
  datatype Host = Host(legacy: bool, units: nat, agentSlots: nat, disk: Option<Disk>, buildsTaken: bool)

  /** A claim leases one of its choices — the first, or the next when another host took it — or a lease ends. */
  datatype Event = Leased(claim: Claim, at: nat) | Ended(at: nat)

  /** A lease as a choice writes it. */
  function Written(x: Claim, c: Candidate): Held {
    var way := LaneFor(x.me, c, x.r);
    Held(c.id, x.me.id, c.kind, c.arch, if way.Some? then way.value.mode else None, x.UnitsFor(c), c.model,
         c.trust, c.owner, if x.DiskFor(c).Some? then x.DiskFor(c).value else 0)
  }

  /** A choice is what its lease is written from. */
  lemma WrittenAsChosen(x: Claim, i: nat)
    requires i < |Ranked(x)|
    ensures var c, l := Choices(x)[i], Written(x, Ranked(x)[i]);
            l.task == c.id && l.host == x.me.id && l.lane == c.lane && l.units == c.units && l.diskGb ==
              if c.diskGb.Some? then c.diskGb.value else 0
  {
  }

  predicate OfHost(m: Member, h: Host) {
    m.legacy == h.legacy && m.units == h.units && m.agentSlots == h.agentSlots && m.disk == h.disk
    && (Build in m.kinds <==> h.buildsTaken)
  }

  ghost predicate Allowed(leases: seq<Held>, e: Event, hosts: nat -> Host, r: Rules) {
    match e
    case Leased(x, at) =>
      && x.fleet.leases == leases && x.r == r && Distinct(x.queue)
      && OfHost(x.me, hosts(x.me.id))
      && at < |Ranked(x)|
    case Ended(at) => at < |leases|
  }

  function Next(leases: seq<Held>, e: Event): seq<Held>
    requires match e case Leased(x, at) => at < |Ranked(x)| case Ended(at) => at < |leases|
  {
    match e
    case Leased(x, at) => leases + [Written(x, Ranked(x)[at])]
    case Ended(at) => leases[..at] + leases[at + 1..]
  }

  /** The leases after a run from none; nothing when a step is not allowed. */
  ghost function Run(events: seq<Event>, hosts: nat -> Host, r: Rules): Option<seq<Held>> {
    if events == [] then Some([])
    else match Run(events[..|events| - 1], hosts, r)
      case None => None
      case Some(leases) =>
        var e := events[|events| - 1];
        if Allowed(leases, e, hosts, r) then Some(Next(leases, e)) else None
  }

  // ---------- one host's part ----------

  function Of(leases: seq<Held>, id: nat): seq<Held> {
    Filter(leases, Mine(id))
  }

  lemma OfLeased(leases: seq<Held>, l: Held, id: nat)
    ensures Of(leases + [l], id) == if l.host == id then Of(leases, id) + [l] else Of(leases, id)
  {
    FilterAppend(leases, [l], Mine(id));
    FilterOne(l, Mine(id));
  }

  lemma OfEnded(leases: seq<Held>, at: nat, id: nat, w: Held -> nat)
    requires at < |leases|
    ensures Sum(Of(leases, id), w) ==
              Sum(Of(leases[..at] + leases[at + 1..], id), w) + if leases[at].host == id then w(leases[at]) else 0
  {
    var rest := leases[..at] + leases[at + 1..];
    FilterWithout(leases, at, Mine(id));
    if leases[at].host == id {
      SumPermuted(Of(leases, id), Of(rest, id) + [leases[at]], w);
      SumOne(Of(rest, id), leases[at], w);
    } else {
      SumPermuted(Of(leases, id), Of(rest, id), w);
    }
  }

  // ---------- resources ----------

  function Builds(l: Held): nat { if l.kind == Build then 1 else 0 }

  /** A host's leases stay within what it declares: the unit kept for pool jobs is kept whenever a task runs. */
  predicate Within(leases: seq<Held>, id: nat, h: Host, r: Rules) {
    var mine := Of(leases, id);
    var tasks, jobs := Sum(mine, TaskUnits), Sum(mine, JobUnits);
    && tasks + jobs <= h.units
    && (tasks > 0 ==> tasks + Max(r.jobReserved, jobs) <= h.units)
    && Sum(mine, ModelCount) <= h.agentSlots
    && (Sum(mine, Builds) > 0 ==>
          h.disk.Some? && Sum(mine, DiskBudget) + r.floorGb <= Min(h.disk.value.work, h.disk.value.engine))
    && (Sum(mine, Builds) == 0 ==> Sum(mine, DiskBudget) == 0)
  }

  lemma EndedWithin(leases: seq<Held>, at: nat, id: nat, h: Host, r: Rules)
    requires at < |leases| && Within(leases, id, h, r)
    ensures Within(leases[..at] + leases[at + 1..], id, h, r)
  {
    hide Of;
    OfEnded(leases, at, id, TaskUnits);
    OfEnded(leases, at, id, JobUnits);
    OfEnded(leases, at, id, ModelCount);
    OfEnded(leases, at, id, Builds);
    OfEnded(leases, at, id, DiskBudget);
    NoBuildsNoDisk(Of(leases[..at] + leases[at + 1..], id));
  }

  lemma {:induction false} NoBuildsNoDisk(s: seq<Held>)
    ensures Sum(s, Builds) == 0 ==> Sum(s, DiskBudget) == 0
  {
    if s != [] {
      NoBuildsNoDisk(s[1..]);
    }
  }

  /** A listed candidate fits, by the claim's own filters. */
  lemma RankedFits(x: Claim, at: nat)
    requires Distinct(x.queue) && at < |Ranked(x)|
    ensures var c := Ranked(x)[at];
            && c in x.queue && x.Eligible(c)
            && Fits(x.me, x.Mine(), c, x.UnitsFor(c), x.DiskFor(c), x.r)
  {
    hide Ranked, Fits, Claim.InPool, OwnerCapped, RequesterHost, Takes, LaneFor, Claim.UnitsFor, Claim.DiskFor;
    RankedExactly(x);
    assert Ranked(x)[at] in Ranked(x);
  }

  lemma LeasedWithin(x: Claim, at: nat, h: Host)
    requires Distinct(x.queue) && at < |Ranked(x)| && OfHost(x.me, h) && !h.legacy
    requires Within(x.fleet.leases, x.me.id, h, x.r)
    ensures Within(x.fleet.leases + [Written(x, Ranked(x)[at])], x.me.id, h, x.r)
  {
    hide Ranked, LaneFor, Claim.Eligible, Sum, Claim.UnitsFor, SizeOf;
    RankedFits(x, at);
    var c := Ranked(x)[at];
    var l, mine := Written(x, c), Of(x.fleet.leases, x.me.id);
    OfLeased(x.fleet.leases, l, x.me.id);
    assert x.Mine() == mine;
    SumOne(mine, l, TaskUnits);
    SumOne(mine, l, JobUnits);
    SumOne(mine, l, ModelCount);
    SumOne(mine, l, Builds);
    SumOne(mine, l, DiskBudget);
  }

  lemma ElsewhereWithin(leases: seq<Held>, l: Held, id: nat, h: Host, r: Rules)
    requires l.host != id && Within(leases, id, h, r)
    ensures Within(leases + [l], id, h, r)
  {
    OfLeased(leases, l, id);
  }

  /** A host's resources are never oversubscribed, on any run of claims and lease ends. */
  lemma {:induction false} RunWithin(events: seq<Event>, hosts: nat -> Host, r: Rules, id: nat)
    requires Run(events, hosts, r).Some? && !hosts(id).legacy
    ensures Within(Run(events, hosts, r).value, id, hosts(id), r)
    decreases |events|
  {
    hide Within, Ranked;
    if events == [] {
      NothingWithin(id, hosts(id), r);
    } else {
      var leases := Run(events[..|events| - 1], hosts, r).value;
      RunWithin(events[..|events| - 1], hosts, r, id);
      match events[|events| - 1]
      case Leased(x, at) =>
        if x.me.id == id {
          LeasedWithin(x, at, hosts(id));
        } else {
          ElsewhereWithin(leases, Written(x, Ranked(x)[at]), id, hosts(id), r);
        }
      case Ended(at) => EndedWithin(leases, at, id, hosts(id), r);
    }
  }

  lemma NothingWithin(id: nat, h: Host, r: Rules)
    ensures Within([], id, h, r)
  {
  }

  /**
   * Hence a pool job within the unit kept for them fits a host running none
   * exactly when a task runs there or the host's units hold it at all.
   */
  lemma KeptUnitServesAJob(m: Member, leases: seq<Held>, h: Host, c: Candidate, units: nat, r: Rules)
    requires OfHost(m, h) && !h.legacy && Within(leases, m.id, h, r)
    requires !IsTaskKind(c.kind) && !c.model && m.offer.None? && units <= r.jobReserved
    requires Sum(HeldBy(leases, m), JobUnits) == 0
    ensures Fits(m, HeldBy(leases, m), c, units, None, r) <==> Sum(HeldBy(leases, m), TaskUnits) > 0 || units <= m.units
  {
    assert HeldBy(leases, m) == Of(leases, m.id);
  }

  // ---------- the emulated share ----------

  function EmulatedCount(l: Held): nat { if l.lane == Some(Emulated) && IsLaneKind(l.kind) then 1 else 0 }

  /** The builds a host's emulated lanes may hold, whatever waits: one, all but one, or their share. */
  function ShareBound(h: Host, r: Rules): nat {
    var builds: int := if h.legacy then (if h.buildsTaken then 1 else 0)
    else Max(0, (h.units - r.jobReserved) / r.buildPerSize);
    Max(1, Max(builds - 1, CeilDiv(builds * r.shareNum, r.shareDen))) * r.buildPerSize
  }

  /** At most one build or trial on its emulated lanes, or no more units than the share. */
  predicate Shares(leases: seq<Held>, id: nat, h: Host, r: Rules) {
    var mine := Of(leases, id);
    && (Sum(mine, EmulatedCount) <= 1 || Sum(mine, OnEmulated) <= ShareBound(h, r))
    && (Sum(mine, EmulatedCount) > 0 ==> Sum(mine, OnEmulated) > 0)
  }

  lemma {:induction false} UnitsByCount(s: seq<Held>)
    requires forall l | l in s :: EmulatedCount(l) > 0 ==> l.units > 0
    ensures Sum(s, EmulatedCount) > 0 <==> Sum(s, OnEmulated) > 0
  {
    if s != [] {
      UnitsByCount(s[1..]);
    }
  }

  ghost predicate Positive(leases: seq<Held>) {
    forall l | l in leases :: IsTaskKind(l.kind) ==> l.units > 0
  }

  lemma {:induction false} LargestPositive(members: seq<Member>, now: int, r: Rules)
    ensures Largest(members, now, r) >= 1
  {
    if members != [] { LargestPositive(members[..|members| - 1], now, r); }
  }

  lemma UnitsPositive(x: Claim, c: Candidate)
    requires IsTaskKind(c.kind)
    ensures x.UnitsFor(c) > 0
  {
    hide Largest;
    LargestPositive(x.fleet.members, x.now, x.r);
    if c.kind == Build {
      var n := Size(c, x.Biggest(), x.r).value;
      assert n >= 1;
      assert x.r.buildPerSize * n >= 1;
    }
  }

  lemma CapWithinBound(x: Claim, h: Host)
    requires OfHost(x.me, h)
    ensures x.EmulatedCap() <= ShareBound(h, x.r)
  {
    hide Claim.NativeQueued;
    var b := BuildsOf(x.me, x.r);
    var asked := Max(1, if x.NativeQueued() then CeilDiv(b * x.r.shareNum, x.r.shareDen) else b - 1);
    var most := Max(1, Max(b - 1, CeilDiv(b * x.r.shareNum, x.r.shareDen)));
    assert asked <= most;
    Scaled(asked, most, x.r.buildPerSize);
  }

  lemma Scaled(a: int, b: int, k: nat)
    requires a <= b
    ensures a * k <= b * k
  {
  }

  lemma LeasedShares(x: Claim, at: nat, h: Host)
    requires Distinct(x.queue) && at < |Ranked(x)| && OfHost(x.me, h) && !h.legacy
    ensures Shares(x.fleet.leases, x.me.id, h, x.r) ==>
              Shares(x.fleet.leases + [Written(x, Ranked(x)[at])], x.me.id, h, x.r)
  {
    hide Ranked, Sum, Claim.UnitsFor, Claim.EmulatedCap, ShareBound, Fits, Takes, RequesterHost, Claim.InPool,
         OwnerCapped;
    RankedFits(x, at);
    var c := Ranked(x)[at];
    var l, mine := Written(x, c), Of(x.fleet.leases, x.me.id);
    OfLeased(x.fleet.leases, l, x.me.id);
    assert x.Mine() == mine;
    SumOne(mine, l, EmulatedCount);
    SumOne(mine, l, OnEmulated);
    CapWithinBound(x, h);
    if EmulatedCount(l) > 0 {
      UnitsPositive(x, c);
      assert x.OnEmulatedLane(c);
    }
  }

  lemma EndedShares(leases: seq<Held>, at: nat, id: nat, h: Host, r: Rules)
    requires at < |leases| && Shares(leases, id, h, r) && Positive(leases)
    ensures Shares(leases[..at] + leases[at + 1..], id, h, r)
  {
    hide Of, ShareBound;
    var rest := leases[..at] + leases[at + 1..];
    OfEnded(leases, at, id, EmulatedCount);
    OfEnded(leases, at, id, OnEmulated);
    MineOnly(rest, id);
    UnitsByCount(Of(rest, id));
  }

  lemma MineOnly(leases: seq<Held>, id: nat)
    ensures forall l | l in Of(leases, id) :: l in leases
  {
    InFilter(leases, Mine(id));
  }

  /** A host's emulated lanes keep to their share, on any run of claims and lease ends. */
  lemma {:induction false} RunShares(events: seq<Event>, hosts: nat -> Host, r: Rules, id: nat)
    requires Run(events, hosts, r).Some? && !hosts(id).legacy
    ensures Shares(Run(events, hosts, r).value, id, hosts(id), r) && Positive(Run(events, hosts, r).value)
    decreases |events|
  {
    hide Shares, Ranked, Written;
    if events == [] {
      NothingShares(id, hosts(id), r);
    } else {
      var leases := Run(events[..|events| - 1], hosts, r).value;
      RunShares(events[..|events| - 1], hosts, r, id);
      match events[|events| - 1]
      case Leased(x, at) =>
        var l := Written(x, Ranked(x)[at]);
        WrittenPositive(x, Ranked(x)[at]);
        if x.me.id == id {
          LeasedShares(x, at, hosts(id));
        } else {
          ElsewhereShares(leases, l, id, hosts(id), r);
        }
      case Ended(at) => EndedShares(leases, at, id, hosts(id), r);
    }
  }

  lemma WrittenPositive(x: Claim, c: Candidate)
    ensures Written(x, c).host == x.me.id && (IsTaskKind(Written(x, c).kind) ==> Written(x, c).units > 0)
  {
    if IsTaskKind(c.kind) {
      UnitsPositive(x, c);
    }
  }

  lemma ElsewhereShares(leases: seq<Held>, l: Held, id: nat, h: Host, r: Rules)
    requires l.host != id && Shares(leases, id, h, r)
    ensures Shares(leases + [l], id, h, r)
  {
    OfLeased(leases, l, id);
  }

  lemma NothingShares(id: nat, h: Host, r: Rules)
    ensures Shares([], id, h, r) && Positive([])
  {
  }

  // ---------- the per-owner cap ----------

  /** Every claim of the run reads a fleet whose per-owner cap is at most `cap`. */
  ghost predicate Capped(events: seq<Event>, cap: nat) {
    forall i | 0 <= i < |events| && events[i].Leased? ::
      var x := events[i].claim;
      OwnerCap(x.fleet.members, x.now, x.r).Some? && OwnerCap(x.fleet.members, x.now, x.r).value <= cap
  }

  /** No owner's community builds pass the cap, on any run of claims and lease ends over a fleet whose cap stands. */
  lemma {:induction false} RunOwners(events: seq<Event>, hosts: nat -> Host, r: Rules, owner: Name, cap: nat)
    requires Run(events, hosts, r).Some? && Capped(events, cap)
    ensures Sum(Run(events, hosts, r).value, OwnerWeight(owner)) <= cap
    decreases |events|
  {
    hide Ranked, Written, OwnerCap, OwnerWeight;
    if events != [] {
      var before, e := events[..|events| - 1], events[|events| - 1];
      var leases := Run(before, hosts, r).value;
      assert Capped(before, cap);
      RunOwners(before, hosts, r, owner, cap);
      match e
      case Leased(x, at) =>
        assert events[|events| - 1].Leased?;
        LeasedOwners(x, at, owner, cap);
      case Ended(at) => SumWithout(leases, at, OwnerWeight(owner));
    }
  }

  lemma LeasedOwners(x: Claim, at: nat, owner: Name, cap: nat)
    requires Distinct(x.queue) && at < |Ranked(x)|
    requires OwnerCap(x.fleet.members, x.now, x.r).Some? && OwnerCap(x.fleet.members, x.now, x.r).value <= cap
    requires Sum(x.fleet.leases, OwnerWeight(owner)) <= cap
    ensures Sum(x.fleet.leases + [Written(x, Ranked(x)[at])], OwnerWeight(owner)) <= cap
  {
    hide Ranked, Sum, OwnerCap, Fits, Takes, RequesterHost, Claim.InPool, LaneFor, Claim.UnitsFor, Claim.DiskFor;
    RankedFits(x, at);
    SumOne(x.fleet.leases, Written(x, Ranked(x)[at]), OwnerWeight(owner));
  }
}
