/**
 * Two runs of claims after which two hosts are kept for the same build: one
 * where two claims read before either wrote, one where the marked host was not
 * among the registrations read.
 */
module MarkRaces {
  import opened Wrappers
  import opened Sums
  import opened Fleet
  import opened Select
  import opened SelectOrder
  import opened Deferral
  import opened Reservation
  import opened Marks

  const R: Rules := Constants(2, 2, 1, 1, 1, 4, 2, 20, 10, 1, 2, 4, {})

  /** A build of size 2, four units, queued at 0 and last marked at `at`. */
  function C(at: Option<int>): Candidate {
    Candidate(9, Build, X86_64, ByProject, None, 0, 0, None, false, false, false, Some(2), None,
              None, at, None, false, {}, false, None, None, None, None)
  }

  const NOW := 31 * MIN
  const AWAY := 36 * MIN

  /** A host of five units, last seen at `now`: it could lease the build were it idle. */
  function Machine(id: nat, now: int): Member {
    Member(id, false, [Lane(X86_64, Native, None)], false, 5, 1, Some(Disk(1000, 1000)), {Build}, true,
           false, false, true, false, now, 2 * MIN, None, HostScope, false, false, None, None, None)
  }

  function Lease(host: nat, units: nat): Held {
    Held(100 + host, host, Build, X86_64, Some(Native), units, false, ByProject, None, 0)
  }

  /** Two hosts, the first holding `a` units and the second two. */
  function Both(a: nat, now: int): Fleet {
    Fleet([Machine(1, now), Machine(2, now)], [Lease(1, a), Lease(2, 2)], [])
  }

  function Second(now: int): Fleet {
    Fleet([Machine(2, now)], [Lease(1, 1), Lease(2, 2)], [])
  }

  lemma Sizes(now: int, at: Option<int>)
    ensures Largest([Machine(1, now), Machine(2, now)], now, R) == 2 && Largest([Machine(2, now)], now, R) == 2
    ensures UnitsOf(Build, Size(C(at), 2, R), R) == 4 && DiskOf(C(at), Size(C(at), 2, R), R) == Some(40)
  {
    var two := [Machine(1, now), Machine(2, now)];
    assert two[..1] == [Machine(1, now)] && [Machine(1, now)][..0] == [] && [Machine(2, now)][..0] == [];
    assert SizeRun(Machine(1, now), now, R) == 2 && SizeRun(Machine(2, now), now, R) == 2;
    assert Largest([Machine(1, now)], now, R) == 2 && Largest([Machine(2, now)], now, R) == 2;
    assert SizeOf(C(at), 2, R) == Some((2, 2));
  }

  lemma HeldIs(a: nat, id: nat)
    requires id == 1 || id == 2
    ensures Filter([Lease(1, a), Lease(2, 2)], Mine(id)) == [Lease(id, if id == 1 then a else 2)]
  {
    assert [Lease(1, a), Lease(2, 2)][1..] == [Lease(2, 2)];
    assert [Lease(2, 2)][1..] == [];
  }

  /** What a host has free for a task. */
  lemma RoomIs(fleet: Fleet, a: nat, m: Member, now: int)
    requires fleet.leases == [Lease(1, a), Lease(2, 2)] && (m == Machine(1, now) || m == Machine(2, now))
    ensures Free(fleet, m, R) == 4 - (if m.id == 1 then a else 2)
  {
    HeldIs(a, m.id);
    var l := Lease(m.id, if m.id == 1 then a else 2);
    assert [l][1..] == [];
    assert Sum([l], JobUnits) == 0 && Sum([l], TaskUnits) == l.units;
  }

  /** Holding something, the host does not fit the build now. */
  lemma RefusedNow(fleet: Fleet, a: nat, m: Member, now: int, at: Option<int>)
    requires a > 0 && fleet.leases == [Lease(1, a), Lease(2, 2)] && (m == Machine(1, now) || m == Machine(2, now))
    requires Largest(fleet.members, now, R) == 2
    ensures !CouldNow(fleet, m, C(at), now, R)
  {
    hide Ranked, Takes, RequesterHost, LaneFor, EmulationRefuses, Largest, OwnerCapped, Claim.Waits,
         Claim.EmulatedFull, Claim.InPool;
    var x := Claim(Unreserved(m), fleet, [C(at)], now, R);
    if Ranked(x) != [] {
      assert Ranked(x)[0] in Ranked(x);
    }
    OneIsDistinct(C(at));
    RankedExactly(x);
    Sizes(now, at);
    RoomIs(fleet, a, m, now);
    assert !x.Passes(C(at));
  }

  /** Idle, it could lease it. */
  lemma TakenIdle(fleet: Fleet, m: Member, now: int, at: Option<int>)
    requires m == Machine(1, now) || m == Machine(2, now)
    requires Largest(fleet.members, now, R) == 2
    ensures CouldIdle(fleet, m, C(at), now, R)
  {
    hide Ranked, Largest, OwnerCapped, Filter;
    var rest := Filter(fleet.leases, Others(m.id));
    var alone := Fleet(fleet.members, rest, []);
    var u := Unreserved(m);
    Sizes(now, at);
    NoneOfMine(fleet.leases, m.id);
    NotCapped(alone, now, at);
    assert u.lanes[0] in u.lanes;
    assert IsNativeRoom(alone, C(at), now, R, 0, 2, u);
    NativeRoomTakes(alone, C(at), now, R, 0, u);
    TakesOne(alone, u, C(at), now, R);
  }

  lemma NotCapped(fleet: Fleet, now: int, at: Option<int>)
    ensures !OwnerCapped(fleet, C(at), now, R)
  {
  }

  lemma WantedThen(fleet: Fleet, now: int, at: Option<int>)
    requires !Cooling(at, now) && now > RESERVE_AFTER_MS && Largest(fleet.members, now, R) == 2
    ensures Wanted(fleet, C(at), now, R)
  {
    hide Largest, OwnerCapped;
    NotCapped(fleet, now, at);
    Sizes(now, at);
  }

  /** With both hosts read, the one with more free units is marked. */
  lemma BothDecide(a: nat, now: int, at: Option<int>)
    requires !Cooling(at, now) && (a == 1 || a == 3) && now > RESERVE_AFTER_MS
    ensures var m := Machine(if a == 1 then 1 else 2, now);
            Reserve(Both(a, now), [C(at)], {9}, now, R) == Some((m, C(at)))
  {
    hide CouldIdle, CouldNow, Wanted, Free, Largest;
    var fleet := Both(a, now);
    var one, two := Machine(1, now), Machine(2, now);
    Sizes(now, at);
    WantedThen(fleet, now, at);
    TakenIdle(fleet, one, now, at);
    TakenIdle(fleet, two, now, at);
    RefusedNow(fleet, a, one, now, at);
    RefusedNow(fleet, a, two, now, at);
    RoomIs(fleet, a, one, now);
    RoomIs(fleet, a, two, now);
    assert [one, two][..1] == [one] && [one][..0] == [];
    assert Best(fleet, [one], C(at), now, R) == Some(one);
    assert Best(fleet, [one, two], C(at), now, R) == Some(Machine(if a == 1 then 1 else 2, now));
  }

  lemma SecondDecides(now: int, at: Option<int>)
    requires !Cooling(at, now) && now > RESERVE_AFTER_MS
    ensures Reserve(Second(now), [C(at)], {9}, now, R) == Some((Machine(2, now), C(at)))
  {
    hide CouldIdle, CouldNow, Wanted, Free, Largest;
    var fleet := Second(now);
    var two := Machine(2, now);
    Sizes(now, at);
    WantedThen(fleet, now, at);
    TakenIdle(fleet, two, now, at);
    RefusedNow(fleet, 1, two, now, at);
    assert [two][..0] == [];
    assert Best(fleet, [two], C(at), now, R) == Some(two);
  }

  // ---------- the runs ----------

  lemma Took(steps: seq<Step>, w: World, step: Step)
    requires Run(steps) == Some(w) && Allowed(w, step)
    ensures Run(steps + [step]) == Some(Next(w, step))
    ensures Unraced(steps) && Lands(w, step) ==> Unraced(steps + [step])
    ensures !Lands(w, step) ==> !Unraced(steps + [step])
  {
    hide Next, Allowed, Lands;
    assert (steps + [step])[..|steps + [step]| - 1] == steps;
  }

  /** What a pass that clears nothing decides. */
  lemma DecidedIs(step: Step, sets: nat, m: Member, seen: set<nat>)
    requires step.Reading? && |step.oldest| == 1
             && Reserve(step.fleet, step.oldest, step.queued, step.now, step.r) == Some((m, step.oldest[0]))
    requires forall x | x in step.fleet.members :: x.reserving.None?
    requires seen == set x | x in step.fleet.members :: x.id
    ensures Decided(step, sets) == Pass(map[], Some((m.id, Mark(step.oldest[0].id, step.now))), seen, sets)
  {
    hide Reserve;
    NoneEnded(step.fleet.members, step.queued, step.now);
  }

  lemma {:induction false} NoneEnded(members: seq<Member>, queued: set<nat>, now: int)
    requires forall x | x in members :: x.reserving.None?
    ensures Ended(members, queued, now) == map[]
    decreases |members|
  {
    if members != [] {
      NoneEnded(members[..|members| - 1], queued, now);
    }
  }

  function FirstRead(): Step { Reading(Both(1, NOW), [C(None)], {9}, NOW, R) }
  function SecondRead(): Step { Reading(Both(3, NOW + 1), [C(None)], {9}, NOW + 1, R) }
  function LaterRead(): Step { Reading(Second(AWAY), [C(Some(NOW))], {9}, AWAY, R) }

  const ON_ONE := Pass(map[], Some((1, Mark(9, NOW))), {1, 2}, 0)
  const ON_TWO := Pass(map[], Some((2, Mark(9, NOW + 1))), {1, 2}, 0)
  const ON_TWO_LATER := Pass(map[], Some((2, Mark(9, AWAY))), {2}, 1)

  lemma Reads()
    ensures Decided(FirstRead(), 0) == ON_ONE && Decided(SecondRead(), 0) == ON_TWO
            && Decided(LaterRead(), 1) == ON_TWO_LATER
  {
    hide Reserve, Decided;
    BothDecide(1, NOW, None);
    BothDecide(3, NOW + 1, None);
    SecondDecides(AWAY, Some(NOW));
    SeenBy(NOW);
    SeenBy(NOW + 1);
    SeenBy(AWAY);
    DecidedIs(FirstRead(), 0, Machine(1, NOW), {1, 2});
    DecidedIs(SecondRead(), 0, Machine(2, NOW + 1), {1, 2});
    DecidedIs(LaterRead(), 1, Machine(2, AWAY), {2});
  }

  lemma SeenBy(now: int)
    ensures forall a: nat :: (set x | x in Both(a, now).members :: x.id) == {1, 2}
    ensures (set x | x in Second(now).members :: x.id) == {2}
  {
    forall a: nat ensures (set x | x in Both(a, now).members :: x.id) == {1, 2} {
      assert Machine(1, now) in Both(a, now).members && Machine(2, now) in Both(a, now).members;
    }
    assert Machine(2, now) in Second(now).members;
  }

  /**
   * Two claims read before either wrote: the first keeps one host for the
   * build, the second, by the fleet a moment later, the other. Both marks
   * stand.
   */
  lemma StaleReadsMarkTwo()
    ensures var steps := [] + [FirstRead()] + [SecondRead()] + [Writing(0)] + [Writing(1)];
            && Run(steps).Some? && !Unraced(steps)
            && Run(steps).value.marks == map[1 := Mark(9, NOW), 2 := Mark(9, NOW + 1)]
            && forall h | h in {1, 2} ::
                 Stands(Machine(h, NOW + 2).(reserving := Some(Run(steps).value.marks[h])), {9}, NOW + 2)
  {
    hide Decided, Run, Unraced;
    Reads();
    var none: map<nat, Mark> := map[];
    var w0 := World(none, 0, []);
    assert Run([]) == Some(w0) by { StartIs(); }
    Took([], w0, FirstRead());
    var w1 := World(none, 0, [ON_ONE]);
    assert Next(w0, FirstRead()) == w1;
    Took([] + [FirstRead()], w1, SecondRead());
    var w2 := World(none, 0, [ON_ONE, ON_TWO]);
    assert Next(w1, SecondRead()) == w2;
    Took([] + [FirstRead()] + [SecondRead()], w2, Writing(0));
    var w3 := World(map[1 := Mark(9, NOW)], 1, [ON_ONE, ON_TWO]);
    assert Next(w2, Writing(0)) == w3;
    Took([] + [FirstRead()] + [SecondRead()] + [Writing(0)], w3, Writing(1));
    assert Cleared(w3.marks, ON_TWO) == w3.marks;
  }

  lemma StartIs()
    ensures Run([]) == Some(World(map[], 0, []))
    ensures Unraced([])
  {
  }

  /**
   * The marked host is away for five minutes, so a claim does not read it: it
   * keeps the second host for the same build. The first host's mark is still
   * its own when it comes back.
   */
  lemma UnreadHostMarkTwo()
    ensures var steps := [] + [FirstRead()] + [Writing(0)] + [LaterRead()] + [Writing(1)];
            && Run(steps).Some? && !Unraced(steps)
            && Run(steps).value.marks == map[1 := Mark(9, NOW), 2 := Mark(9, AWAY)]
            && forall h | h in {1, 2} ::
                 Stands(Machine(h, AWAY + 1).(reserving := Some(Run(steps).value.marks[h])), {9}, AWAY + 1)
  {
    hide Decided, Run, Unraced;
    Reads();
    var none: map<nat, Mark> := map[];
    var w0 := World(none, 0, []);
    assert Run([]) == Some(w0) by { StartIs(); }
    Took([], w0, FirstRead());
    var w1 := World(none, 0, [ON_ONE]);
    assert Next(w0, FirstRead()) == w1;
    Took([] + [FirstRead()], w1, Writing(0));
    var w2 := World(map[1 := Mark(9, NOW)], 1, [ON_ONE]);
    assert Next(w1, Writing(0)) == w2;
    Took([] + [FirstRead()] + [Writing(0)], w2, LaterRead());
    var w3 := World(map[1 := Mark(9, NOW)], 1, [ON_ONE, ON_TWO_LATER]);
    assert Next(w2, LaterRead()) == w3;
    Took([] + [FirstRead()] + [Writing(0)] + [LaterRead()], w3, Writing(1));
    assert Cleared(w3.marks, ON_TWO_LATER) == w3.marks;
  }
}
