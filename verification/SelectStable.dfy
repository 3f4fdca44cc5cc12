/** A claim's result does not depend on the order the pool's rows were read in. */
module SelectStable {
  import opened Wrappers
  import opened Sums
  import opened Fleet
  import opened Select
  import opened SelectOrder

  /** Two readings of the same rows, in any order. */
  ghost predicate SameRows(f: Fleet, g: Fleet) {
    && multiset(f.members) == multiset(g.members)
    && multiset(f.leases) == multiset(g.leases)
    && multiset(f.models) == multiset(g.models)
  }

  ghost predicate SameClaim(x: Claim, y: Claim) {
    x.me == y.me && x.now == y.now && x.r == y.r && SameRows(x.fleet, y.fleet) && multiset(x.queue) == multiset(y.queue)
  }

  lemma HeldSame(f: Fleet, g: Fleet, m: Member)
    requires SameRows(f, g)
    ensures multiset(HeldBy(f.leases, m)) == multiset(HeldBy(g.leases, m))
  {
    if !m.legacy {
      FilterPermuted(f.leases, g.leases, Mine(m.id), Mine(m.id));
    }
  }

  /** The largest size alive is the least bound of what each registration runs, at least 1. */
  lemma {:induction false} LargestIs(members: seq<Member>, now: int, r: Rules)
    ensures var n := Largest(members, now, r);
            && 1 <= n && (forall m | m in members :: SizeRun(m, now, r) <= n)
            && (n == 1 || exists m :: m in members && SizeRun(m, now, r) == n)
  {
    hide SizeRun;
    if members != [] {
      var rest, last := members[..|members| - 1], members[|members| - 1];
      LargestIs(rest, now, r);
      assert members == rest + [last];
    }
  }

  lemma LargestSame(f: Fleet, g: Fleet, now: int, r: Rules)
    requires SameRows(f, g)
    ensures Largest(f.members, now, r) == Largest(g.members, now, r)
  {
    LargestIs(f.members, now, r);
    LargestIs(g.members, now, r);
    SameElements(f.members, g.members);
  }

  lemma CapSame(f: Fleet, g: Fleet, c: Candidate, now: int, r: Rules)
    requires SameRows(f, g)
    ensures OwnerLeased(f.leases, c) == OwnerLeased(g.leases, c)
    ensures OwnerCapped(f, c, now, r) == OwnerCapped(g, c, now, r)
  {
    SumPermuted(f.members, g.members, BuildsCounted(now, r));
    if c.owner.Some? {
      SumPermuted(f.leases, g.leases, OwnerWeight(c.owner.value));
    }
  }

  lemma FitsSame(f: Fleet, g: Fleet, m: Member, c: Candidate, units: nat, disk: Option<nat>, r: Rules)
    requires SameRows(f, g)
    ensures Fits(m, HeldBy(f.leases, m), c, units, disk, r) == Fits(m, HeldBy(g.leases, m), c, units, disk, r)
  {
    HeldSame(f, g, m);
    var a, b := HeldBy(f.leases, m), HeldBy(g.leases, m);
    SumPermuted(a, b, JobUnits);
    SumPermuted(a, b, TaskUnits);
    SumPermuted(a, b, ModelCount);
    SumPermuted(a, b, DiskBudget);
  }

  lemma OtherModelSame(f: Fleet, g: Fleet, c: Candidate, now: int)
    requires SameRows(f, g)
    ensures NeedsOtherModel(f, c, now) == NeedsOtherModel(g, c, now)
  {
    SameElements(f.models, g.models);
  }

  lemma BusySame(f: Fleet, g: Fleet, m: Member)
    requires SameRows(f, g)
    ensures LegacyBusy(m, f.leases) == LegacyBusy(m, g.leases)
  {
    SameElements(f.leases, g.leases);
  }

  lemma NativeSame(f: Fleet, g: Fleet, c: Candidate, now: int, r: Rules, except: nat)
    requires SameRows(f, g)
    ensures NativeCapacity(f, c, now, r, except) == NativeCapacity(g, c, now, r, except)
  {
    LargestSame(f, g, now, r);
    SameElements(f.members, g.members);
    var n := Largest(f.members, now, r);
    forall x | x in f.members
      ensures IsNativeRoom(f, c, now, r, except, n, x) == IsNativeRoom(g, c, now, r, except, n, x)
    {
      hide Fits, HeldBy, LegacyBusy;
      FitsSame(f, g, x, c, UnitsOf(c.kind, Size(c, n, r), r), DiskOf(c, Size(c, n, r), r), r);
      BusySame(f, g, x);
    }
  }

  lemma ElsewhereSame(f: Fleet, g: Fleet, c: Candidate, now: int, r: Rules, except: nat)
    requires SameRows(f, g)
    ensures AuditElsewhere(f, c, now, r, except) == AuditElsewhere(g, c, now, r, except)
  {
    SameElements(f.members, g.members);
    OtherModelSame(f, g, c, now);
    forall x | x in f.members ensures IsElsewhere(f, c, now, r, except, x) == IsElsewhere(g, c, now, r, except, x) {
      hide Fits, HeldBy, LegacyBusy, NeedsOtherModel, LaneFor;
      FitsSame(f, g, x, c, UnitsOf(c.kind, None, r), None, r);
      BusySame(f, g, x);
    }
  }

  lemma MarkedSame(x: Claim, y: Claim)
    requires SameClaim(x, y) && Distinct(x.queue)
    ensures x.Marked() == y.Marked() && x.Mark() == y.Mark()
  {
    SameElements(x.queue, y.queue);
    if x.Mark().Some? {
      FindIs(x.queue, x.Mark().value);
      FindIs(y.queue, x.Mark().value);
    }
  }

  lemma PoolSame(x: Claim, y: Claim, c: Candidate)
    requires SameClaim(x, y) && Distinct(x.queue)
    ensures x.Holding() == y.Holding() && x.InPool(c) == y.InPool(c)
    ensures x.UnitsFor(c) == y.UnitsFor(c) && x.DiskFor(c) == y.DiskFor(c) && x.Biggest() == y.Biggest()
  {
    hide Claim.Marked, Claim.Mark, Largest, HeldBy, Size, UnitsOf, DiskOf;
    LargestSame(x.fleet, y.fleet, x.now, x.r);
    MarkedSame(x, y);
    HeldSame(x.fleet, y.fleet, x.me);
    SumPermuted(x.Mine(), y.Mine(), JobUnits);
    SumPermuted(x.Mine(), y.Mine(), TaskUnits);
  }

  lemma EmulatedSame(x: Claim, y: Claim, c: Candidate)
    requires SameClaim(x, y) && Distinct(x.queue)
    ensures x.EmulatedFull(c) == y.EmulatedFull(c)
  {
    hide Claim.InPool, Claim.IsNativeWork, Claim.UnitsFor, BuildsOf, HeldBy, Claim.Holding, Largest;
    HeldSame(x.fleet, y.fleet, x.me);
    SumPermuted(x.Mine(), y.Mine(), OnEmulated);
    SameElements(x.queue, y.queue);
    forall d | d in x.queue ensures x.InPool(d) == y.InPool(d) && x.IsNativeWork(d) == y.IsNativeWork(d) {
      PoolSame(x, y, d);
      WorkSame(x, y, d);
    }
    PoolSame(x, y, c);
  }

  lemma WorkSame(x: Claim, y: Claim, c: Candidate)
    requires x.me == y.me && x.r == y.r
    ensures x.IsNativeWork(c) == y.IsNativeWork(c) && x.OnEmulatedLane(c) == y.OnEmulatedLane(c)
  {
  }

  lemma EligibleSame(x: Claim, y: Claim, c: Candidate)
    requires SameClaim(x, y) && Distinct(x.queue)
    ensures x.Eligible(c) == y.Eligible(c)
  {
    hide Claim.InPool, Claim.EmulatedFull, Claim.UnitsFor, Claim.DiskFor, Fits, HeldBy, NativeCapacity, AuditElsewhere,
         OwnerCapped, NeedsOtherModel, LaneFor,
         Claim.OnEmulatedLane, BesideBuilder, RequesterHost, AnotherModel, EmulationRefuses, Takes, ThresholdMs;
    PoolSame(x, y, c);
    WorkSame(x, y, c);
    FitsSame(x.fleet, y.fleet, x.me, c, x.UnitsFor(c), x.DiskFor(c), x.r);
    OtherModelSame(x.fleet, y.fleet, c, x.now);
    ElsewhereSame(x.fleet, y.fleet, c, x.now, x.r, x.me.id);
    NativeSame(x.fleet, y.fleet, c, x.now, x.r, x.me.id);
    EmulatedSame(x, y, c);
    CapSame(x.fleet, y.fleet, c, x.now, x.r);
  }

  lemma BeforeSame(x: Claim, y: Claim, a: Candidate, b: Candidate)
    requires SameClaim(x, y)
    ensures x.Before(a, b) == y.Before(a, b)
  {
    hide OwnerLeased, LaneFor, ThresholdMs;
    CapSame(x.fleet, y.fleet, a, x.now, x.r);
    CapSame(x.fleet, y.fleet, b, x.now, x.r);
    WorkSame(x, y, a);
    WorkSame(x, y, b);
  }

  lemma SharedSame(x: Claim, y: Claim, c: Candidate)
    requires SameClaim(x, y)
    ensures x.Shared(c) == y.Shared(c)
  {
    hide LaneFor, HeldBy, HasNative;
    HeldSame(x.fleet, y.fleet, x.me);
    SameElements(x.Mine(), y.Mine());
    SameElements(x.fleet.members, y.fleet.members);
  }

  lemma {:induction false} OldestSame(x: Claim, y: Claim, s: seq<Candidate>)
    requires SameClaim(x, y)
    ensures Oldest(x, s) == Oldest(y, s)
  {
    hide Claim.Shared;
    if s != [] {
      OldestSame(x, y, s[1..]);
      SharedSame(x, y, s[0]);
    }
  }

  /** The eligible candidates sort to the same list whatever order they were read in. */
  lemma KeyedSame(x: Claim, y: Claim)
    requires SameClaim(x, y) && Distinct(x.queue)
    ensures Keyed(x) == Keyed(y)
  {
    hide Claim.Eligible, Claim.Before, Keyed;
    PermutedDistinct(x.queue, y.queue);
    forall c | c in x.queue ensures IsEligible(x)(c) == IsEligible(y)(c) {
      EligibleSame(x, y, c);
    }
    FilterPermuted(x.queue, y.queue, IsEligible(x), IsEligible(y));
    KeyedFacts(x);
    KeyedFacts(y);
    forall i, j | 0 <= i < j < |Keyed(y)| ensures x.Before(Keyed(y)[i], Keyed(y)[j]) {
      BeforeSame(x, y, Keyed(y)[i], Keyed(y)[j]);
    }
    OrderUnique(x, Keyed(x), Keyed(y));
  }

  /**
   * The claim's result is one list, whatever order the candidates, the members,
   * the leases and the models were read in — the choices as their leases would
   * be written included.
   */
  lemma ChoicesSame(x: Claim, y: Claim)
    requires SameClaim(x, y) && Distinct(x.queue)
    ensures Ranked(x) == Ranked(y) && Choices(x) == Choices(y)
  {
    hide Claim.Eligible, Claim.Before, Claim.Marked, Filter, Sorted, Oldest, First, Claim.ChoiceOf;
    KeyedSame(x, y);
    OldestSame(x, y, Keyed(x));
    MarkedSame(x, y);
    forall c, share ensures x.ChoiceOf(c, share) == y.ChoiceOf(c, share) {
      ChoiceSame(x, y, c, share);
    }
  }

  lemma ChoiceSame(x: Claim, y: Claim, c: Candidate, share: bool)
    requires SameClaim(x, y) && Distinct(x.queue)
    ensures x.ChoiceOf(c, share) == y.ChoiceOf(c, share)
  {
    hide LaneFor, SizeOf, IndependenceOf, Largest, Claim.UnitsFor, Claim.DiskFor;
    PoolSame(x, y, c);
  }
}
