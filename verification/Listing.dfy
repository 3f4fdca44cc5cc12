/**
 * The list a claim is handed (worker/src/selection.ts `select`), in the terms of
 * the rows alone: who comes before whom, and who is put ahead.
 */
module Listing {
  import opened Wrappers
  import opened Sums
  import opened Fleet
  import opened Select
  import opened SelectOrder

  /** The leases that count against an owner: its community builds. */
  function OwnersBuilds(leases: seq<Held>, owner: Name): set<nat> {
    set i | 0 <= i < |leases| && leases[i].kind == Build && leases[i].trust == ByCommunity
            && leases[i].owner == Some(owner)
  }

  /** How many community builds a community build's owner holds; none counts for anything else. */
  function Holds(leases: seq<Held>, c: Candidate): nat {
    if c.kind == Build && c.trust == ByCommunity && c.owner.Some? then |OwnersBuilds(leases, c.owner.value)| else 0
  }

  /** A build or a trial the claimer has no native lane for. */
  predicate Slower(m: Member, c: Candidate) {
    c.kind in {Build, Trial} && forall l | l in m.lanes :: !(l.arch == c.arch && l.mode == Native)
  }

  /** What an emulated lane adds to a candidate's place: twice its native time, three minutes to an hour. */
  function Penalty(m: Member, c: Candidate): int {
    if !Slower(m, c) then 0
    else if c.nativeMs.None? || c.nativeMs.value * 2 < 180000 then 180000
    else if c.nativeMs.value * 2 > 3600000 then 3600000
    else c.nativeMs.value * 2
  }

  /** When a candidate was queued, as its place counts it. */
  function Since(m: Member, c: Candidate): int { c.queuedAt + Penalty(m, c) }

  lemma {:induction false} SumIsCount(leases: seq<Held>, owner: Name)
    ensures Sum(leases, OwnerWeight(owner)) == |OwnersBuilds(leases, owner)|
    decreases |leases|
  {
    if leases != [] {
      var rest, l := leases[..|leases| - 1], leases[|leases| - 1];
      assert leases == rest + [l];
      SumOne(rest, l, OwnerWeight(owner));
      SumIsCount(rest, owner);
      var before := OwnersBuilds(rest, owner);
      assert OwnersBuilds(leases, owner) == if OwnerWeight(owner)(l) == 1 then before + {|rest|} else before;
    }
  }

  lemma HoldsIs(leases: seq<Held>, c: Candidate)
    ensures OwnerLeased(leases, c) == Holds(leases, c)
  {
    if c.owner.Some? {
      SumIsCount(leases, c.owner.value);
    }
  }

  lemma SinceIs(x: Claim, c: Candidate)
    requires x.Passes(c)
    ensures x.Age(c) == x.now - Since(x.me, c)
  {
    hide Fits, Takes, RequesterHost, OwnerCapped, EmulationRefuses, Claim.Waits, Claim.EmulatedFull, Claim.Leaves;
  }

  // ---------- the rows' terms ----------

  /** A registration counted now: alive, taking work, of a release that may, awake. */
  predicate Counted(m: Member, now: int) {
    m.seenAt > now - m.aliveMs && m.mayClaim && !m.belowMinimum && !m.asleep
  }

  /** How many builds a registration counted runs at once. */
  function Builds(now: int, r: Rules): Member -> nat {
    (m: Member) =>
      if !Counted(m, now) then 0
      else if m.legacy then (if Build in m.kinds then 1 else 0)
      else if m.units < r.jobReserved then 0
      else (m.units - r.jobReserved) / r.buildPerSize
  }

  /** A registration that may be handed work. */
  predicate Handed(m: Member, now: int) { Counted(m, now) && !m.drained && !m.behind }

  /** Its owner holds none of the community's builds, or fewer than the owner's part of what the fleet runs. */
  predicate UnderCap(fleet: Fleet, c: Candidate, now: int, r: Rules) {
    c.kind == Build && c.trust == ByCommunity && c.owner.Some? && r.ownerDivisor > 0 ==>
      var held := |OwnersBuilds(fleet.leases, c.owner.value)|;
      held == 0 || held * r.ownerDivisor < Sum(fleet.members, Builds(now, r))
  }

  /** The units a host holds for its own tasks, or for the pool's jobs. */
  function UnitsHeld(leases: seq<Held>, id: nat, tasks: bool): nat {
    Sum(leases, (l: Held) => if l.host == id && (l.kind in {Build, Trial, Audit}) == tasks then l.units else 0)
  }

  /** A host's room for tasks: what its tasks leave, less the unit kept for jobs, or what they hold. */
  function Room(leases: seq<Held>, m: Member, r: Rules): int {
    var jobs := UnitsHeld(leases, m.id, false);
    m.units - UnitsHeld(leases, m.id, true) - (if jobs > r.jobReserved then jobs else r.jobReserved)
  }

  // ---------- the same as counted row by row ----------

  lemma BuildsIs(now: int, r: Rules)
    ensures forall m :: Builds(now, r)(m) == BuildsCounted(now, r)(m)
  {
    forall m: Member ensures Builds(now, r)(m) == BuildsCounted(now, r)(m) {
      if !m.legacy && m.units < r.jobReserved {
        NegativeQuotient(m.units - r.jobReserved, r.buildPerSize);
      }
    }
  }

  lemma NegativeQuotient(a: int, b: nat)
    requires a < 0 && b > 0
    ensures a / b < 0
  {
  }

  lemma {:induction false} SumSame(s: seq<Member>, v: Member -> nat, w: Member -> nat)
    requires forall m :: v(m) == w(m)
    ensures Sum(s, v) == Sum(s, w)
  {
    if s != [] { SumSame(s[1..], v, w); }
  }

  lemma UnderCapIs(fleet: Fleet, c: Candidate, now: int, r: Rules)
    ensures UnderCap(fleet, c, now, r) <==> !OwnerCapped(fleet, c, now, r)
  {
    BuildsIs(now, r);
    SumSame(fleet.members, Builds(now, r), BuildsCounted(now, r));
    if c.owner.Some? {
      SumIsCount(fleet.leases, c.owner.value);
      if r.ownerDivisor > 0 {
        CeilUnder(|OwnersBuilds(fleet.leases, c.owner.value)|, Sum(fleet.members, BuildsCounted(now, r)),
                  r.ownerDivisor);
      }
    }
  }

  lemma CeilUnder(held: nat, total: nat, part: nat)
    requires part > 0
    ensures held < Max(1, CeilDiv(total, part)) <==> held == 0 || held * part < total
  {
    var n := total + part - 1;
    var q := n / part;
    Quotient(n, part);
    if held < q {
      Product(held, q - 1, part);
    } else {
      Product(q, held, part);
    }
    assert (q - 1) * part == q * part - part;
  }

  lemma Quotient(n: nat, part: nat)
    requires part > 0
    ensures n / part * part <= n < n / part * part + part
  {
  }

  lemma Product(a: int, b: int, part: nat)
    requires a <= b
    ensures a * part <= b * part
  {
  }

  lemma {:induction false} HeldUnits(s: seq<Held>, id: nat)
    ensures UnitsHeld(s, id, true) == Sum(Filter(s, Mine(id)), TaskUnits)
    ensures UnitsHeld(s, id, false) == Sum(Filter(s, Mine(id)), JobUnits)
  {
    if s != [] {
      HeldUnits(s[1..], id);
      var mine := if s[0].host == id then [s[0]] else [];
      SumAppend(mine, Filter(s[1..], Mine(id)), TaskUnits);
      SumAppend(mine, Filter(s[1..], Mine(id)), JobUnits);
    }
  }

  // ---------- the order ----------

  /**
   * After the entries put ahead, no entry has a higher priority number than one
   * that follows; at the same priority none has an owner who holds more; at the
   * same holding none was queued later, as its place counts; at the same time
   * the ids rise.
   */
  lemma OrderedByRows(x: Claim, i: nat, j: nat)
    requires Distinct(x.queue) && !x.me.asleep && |Hoisted(x)| <= i < j < |Ranked(x)|
    ensures var a, b := Ranked(x)[i], Ranked(x)[j];
            var ka, kb := Holds(x.fleet.leases, a), Holds(x.fleet.leases, b);
            && a.priority <= b.priority
            && (a.priority == b.priority ==> ka <= kb)
            && (a.priority == b.priority && ka == kb ==> Since(x.me, a) <= Since(x.me, b))
            && (a.priority == b.priority && ka == kb && Since(x.me, a) == Since(x.me, b) ==> a.id < b.id)
  {
    hide Ranked, Hoisted, Rest, Claim.Passes, Claim.Age, OwnerLeased, Holds, Since, Claim.InPool;
    var s, h := Ranked(x), |Hoisted(x)|;
    RankedOrder(x);
    RankedExactly(x);
    assert s[i] == Rest(x)[i - h] && s[j] == Rest(x)[j - h];
    assert x.Before(s[i], s[j]);
    assert s[i] in s && s[j] in s;
    HoldsIs(x.fleet.leases, s[i]);
    HoldsIs(x.fleet.leases, s[j]);
    SinceIs(x, s[i]);
    SinceIs(x, s[j]);
  }

  // ---------- who is put ahead ----------

  /** The claimer keeps its units for the task: a mark set less than two hours ago. */
  predicate KeptFor(x: Claim, c: Candidate) {
    !x.me.legacy && x.me.reserving.Some? && x.me.reserving.value.task == c.id
    && x.me.reserving.value.since > x.now - 7200000
  }

  /**
   * A task of an architecture nobody alive runs natively, whose emulated lane the
   * claimer holds no lease of.
   */
  predicate Owed(x: Claim, c: Candidate) {
    && Slower(x.me, c)
    && (x.me.legacy || forall l | l in x.fleet.leases ::
          !(l.host == x.me.id && l.lane == Some(Emulated) && l.arch == c.arch))
    && forall m | m in x.fleet.members && m.seenAt > x.now - m.aliveMs && m.mayClaim && !m.asleep ::
         forall l | l in m.lanes :: !(l.arch == c.arch && l.mode == Native)
  }

  /** The one of those listed that was queued first. */
  ghost predicate FirstOwed(x: Claim, c: Candidate) {
    && c in Ranked(x) && Owed(x, c)
    && forall d | d in Ranked(x) && Owed(x, d) ::
         d == c || c.queuedAt < d.queuedAt || (c.queuedAt == d.queuedAt && c.id < d.id)
  }

  lemma KeptForIs(x: Claim, c: Candidate)
    requires Distinct(x.queue) && c in x.queue
    ensures KeptFor(x, c) <==> x.Marked() == Some(c)
  {
    hide Claim.Holding;
    MarkedIn(x);
    if x.Mark().Some? {
      FindIs(x.queue, x.Mark().value);
    }
  }

  lemma OwedIs(x: Claim, c: Candidate)
    requires x.Passes(c)
    ensures Owed(x, c) <==> x.Shared(c)
  {
    hide Fits, Takes, RequesterHost, OwnerCapped, EmulationRefuses, Claim.Waits, Claim.EmulatedFull, Claim.Leaves;
    InFilter(x.fleet.leases, Mine(x.me.id));
  }

  /** The guaranteed share is the first of those owed. */
  lemma FirstOwedIs(x: Claim, c: Candidate)
    requires Distinct(x.queue) && !x.me.asleep
    ensures FirstOwed(x, c) <==> ShareOf(x) == Some(c)
  {
    hide Claim.Passes, Claim.InPool, Owed, Claim.Shared, Filter, Sorted, Oldest, Ranked;
    RankedExactly(x);
    KeyedFacts(x);
    OldestIn(x, Keyed(x));
    forall d | d in Ranked(x) ensures Owed(x, d) <==> x.Shared(d) {
      OwedIs(x, d);
    }
    assert forall d :: d in Ranked(x) <==> d in Keyed(x);
  }

  /**
   * Ahead of that order stand at most two: the task the claimer keeps its units
   * for, when it is listed; then, of the tasks owed a turn on the claimer's
   * emulated lane, the one queued first.
   */
  lemma AheadByRows(x: Claim)
    requires Distinct(x.queue) && !x.me.asleep
    ensures |Hoisted(x)| <= 2 && Hoisted(x) <= Ranked(x)
    ensures forall c :: c in Hoisted(x) <==> c in Ranked(x) && (KeptFor(x, c) || FirstOwed(x, c))
    ensures forall c | c in Ranked(x) && KeptFor(x, c) :: Ranked(x)[0] == c
  {
    hide Claim.Passes, Claim.InPool, KeptFor, FirstOwed, Ranked, Rest, Claim.Marked, ShareOf;
    RankedOrder(x);
    RankedExactly(x);
    MarkedIn(x);
    forall c ensures FirstOwed(x, c) <==> ShareOf(x) == Some(c) {
      FirstOwedIs(x, c);
    }
    forall c | c in Ranked(x) ensures KeptFor(x, c) <==> x.Marked() == Some(c) {
      KeptForIs(x, c);
    }
    FirstListed(x);
  }

  lemma FirstListed(x: Claim)
    ensures forall c :: FirstOwed(x, c) ==> c in Ranked(x)
  {
    hide Ranked, Owed;
  }
}
