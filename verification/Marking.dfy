/**
 * When a pass keeps a host for a build (worker/src/selection.ts `reserve`), in
 * the terms of the rows alone: if and only if, which build, and on which host.
 */
module Marking {
  import opened Wrappers
  import opened Sums
  import opened Fleet
  import opened Select
  import opened SelectOrder
  import opened SelectStable
  import opened Listing
  import opened Reservation

  /** A mark that keeps its host: set less than two hours ago, its task queued, its host alive and awake. */
  predicate Keeps(m: Member, queued: set<nat>, now: int) {
    && m.reserving.Some? && m.reserving.value.since > now - 7200000 && m.reserving.value.task in queued
    && m.seenAt > now - m.aliveMs && !m.asleep
  }

  /** A build queued for over half an hour, unless a mark for it ran out within the last. */
  predicate Waiting(c: Candidate, now: int) {
    && c.kind == Build && now - c.queuedAt > 1800000
    && (c.reservedAt.Some? ==> !(now - 9000000 < c.reservedAt.value <= now - 7200000))
  }

  /** It takes the units of two builds or more, on a fleet with a registration that runs two. */
  predicate Large(fleet: Fleet, c: Candidate, now: int, r: Rules) {
    && c.size.Some? && c.size.value >= 2 && r.maxSize >= 2 && (c.trust == ByCommunity ==> r.communityMaxSize >= 2)
    && exists m | m in fleet.members :: Builds(now, r)(m) >= 2
  }

  /** Its own claim of this task alone, with its own mark and its offer of memory aside, lists it. */
  predicate Lists(fleet: Fleet, m: Member, c: Candidate, now: int, r: Rules) {
    Ranked(Claim(m.(reserving := None, offer := None), fleet, [c], now, r)) != []
  }

  predicate FitsNow(fleet: Fleet, m: Member, c: Candidate, now: int, r: Rules) {
    Handed(m, now) && Lists(fleet, m, c, now, r)
  }

  /** A host that would list it if it held nothing itself. */
  predicate FitsIdle(fleet: Fleet, m: Member, c: Candidate, now: int, r: Rules) {
    && Handed(m, now) && !m.legacy
    && Lists(Fleet(fleet.members, Filter(fleet.leases, (l: Held) => l.host != m.id), []), m, c, now, r)
  }

  /** A build a host could be kept for. */
  predicate Keepable(fleet: Fleet, c: Candidate, now: int, r: Rules) {
    && Waiting(c, now) && Large(fleet, c, now, r) && UnderCap(fleet, c, now, r)
    && exists m | m in fleet.members :: FitsIdle(fleet, m, c, now, r)
  }

  /** The host with the most room of those that would list it idle; the lowest id among equals. */
  ghost predicate Roomiest(fleet: Fleet, h: Member, c: Candidate, now: int, r: Rules) {
    && h in fleet.members && FitsIdle(fleet, h, c, now, r)
    && forall m | m in fleet.members && FitsIdle(fleet, m, c, now, r) ::
         Room(fleet.leases, h, r) > Room(fleet.leases, m, r)
         || (Room(fleet.leases, h, r) == Room(fleet.leases, m, r) && h.id <= m.id)
  }

  // ---------- what the pass weighs ----------

  lemma LargeIs(fleet: Fleet, c: Candidate, now: int, r: Rules)
    requires c.kind == Build
    ensures Large(fleet, c, now, r) <==>
              UnitsOf(c.kind, Size(c, Largest(fleet.members, now, r), r), r) > r.buildPerSize
  {
    hide Largest;
    LargestIs(fleet.members, now, r);
    BuildsIs(now, r);
    var n := Largest(fleet.members, now, r);
    if r.maxSize >= 2 {
      assert n >= 2 <==> exists m | m in fleet.members :: Builds(now, r)(m) >= 2;
    }
    var size := Size(c, n, r).value;
    Times(r.buildPerSize, size);
  }

  lemma Times(a: nat, n: nat)
    requires a >= 1
    ensures a * n > a <==> n >= 2
  {
  }

  lemma {:induction false} FilterSame(s: seq<Held>, keep: Held -> bool, keep': Held -> bool)
    requires forall l :: keep(l) == keep'(l)
    ensures Filter(s, keep) == Filter(s, keep')
  {
    if s != [] { FilterSame(s[1..], keep, keep'); }
  }

  lemma FitsIs(fleet: Fleet, m: Member, c: Candidate, now: int, r: Rules)
    ensures FitsNow(fleet, m, c, now, r) == CouldNow(fleet, m, c, now, r)
    ensures FitsIdle(fleet, m, c, now, r) == CouldIdle(fleet, m, c, now, r)
  {
    hide Ranked;
    FilterSame(fleet.leases, (l: Held) => l.host != m.id, Others(m.id));
  }

  lemma RoomIs(fleet: Fleet, m: Member, r: Rules)
    requires !m.legacy
    ensures Room(fleet.leases, m, r) == Free(fleet, m, r)
  {
    HeldUnits(fleet.leases, m.id);
  }

  lemma WaitingIs(fleet: Fleet, c: Candidate, now: int, r: Rules)
    ensures Waiting(c, now) && Large(fleet, c, now, r) && UnderCap(fleet, c, now, r) <==> Wanted(fleet, c, now, r)
  {
    hide Large, UnderCap, OwnerCapped, UnitsOf, Size;
    if c.kind == Build {
      LargeIs(fleet, c, now, r);
    }
    UnderCapIs(fleet, c, now, r);
  }

  lemma KeepableIs(fleet: Fleet, c: Candidate, now: int, r: Rules)
    ensures Keepable(fleet, c, now, r) <==>
              Wanted(fleet, c, now, r) && Best(fleet, fleet.members, c, now, r).Some?
  {
    hide Waiting, Large, UnderCap, Wanted, FitsIdle, CouldIdle, Best;
    WaitingIs(fleet, c, now, r);
    BestIs(fleet, fleet.members, c, now, r);
    forall m ensures FitsIdle(fleet, m, c, now, r) == CouldIdle(fleet, m, c, now, r) {
      FitsIs(fleet, m, c, now, r);
    }
  }

  lemma RoomiestIs(fleet: Fleet, h: Member, c: Candidate, now: int, r: Rules)
    requires OneEach(fleet.members)
    ensures Roomiest(fleet, h, c, now, r) <==> Best(fleet, fleet.members, c, now, r) == Some(h)
  {
    hide FitsIdle, CouldIdle, Best, Room, Free;
    BestIs(fleet, fleet.members, c, now, r);
    forall m ensures FitsIdle(fleet, m, c, now, r) == CouldIdle(fleet, m, c, now, r) {
      FitsIs(fleet, m, c, now, r);
    }
    forall m | CouldIdle(fleet, m, c, now, r) ensures Room(fleet.leases, m, r) == Free(fleet, m, r) {
      IdleNotLegacy(fleet, m, c, now, r);
      RoomIs(fleet, m, r);
    }
  }

  lemma IdleNotLegacy(fleet: Fleet, m: Member, c: Candidate, now: int, r: Rules)
    requires CouldIdle(fleet, m, c, now, r)
    ensures !m.legacy
  {
  }

  /** The build weighed: the first of the list a host could be kept for. */
  ghost predicate FirstKeepable(fleet: Fleet, oldest: seq<Candidate>, i: nat, now: int, r: Rules) {
    && i < |oldest| && Keepable(fleet, oldest[i], now, r)
    && forall j | 0 <= j < i :: !Keepable(fleet, oldest[j], now, r)
  }

  lemma FirstLater(fleet: Fleet, oldest: seq<Candidate>, i: nat, now: int, r: Rules)
    requires oldest != [] && !Keepable(fleet, oldest[0], now, r)
    ensures FirstKeepable(fleet, oldest, i + 1, now, r) <==> FirstKeepable(fleet, oldest[1..], i, now, r)
  {
    hide Keepable;
    if FirstKeepable(fleet, oldest[1..], i, now, r) {
      forall j | 0 <= j < i + 1 ensures !Keepable(fleet, oldest[j], now, r) {
        if j > 0 { assert oldest[j] == oldest[1..][j - 1]; }
      }
    } else if FirstKeepable(fleet, oldest, i + 1, now, r) {
      forall j | 0 <= j < i ensures !Keepable(fleet, oldest[1..][j], now, r) {
        assert oldest[1..][j] == oldest[j + 1];
      }
    }
  }

  /** A host kept for the first build of a list one could be kept for: it fits nobody now. */
  ghost predicate KeptFirst(fleet: Fleet, oldest: seq<Candidate>, now: int, r: Rules, h: Member, c: Candidate) {
    && (exists i: nat :: FirstKeepable(fleet, oldest, i, now, r) && oldest[i] == c)
    && (forall m | m in fleet.members :: !FitsNow(fleet, m, c, now, r)) && Roomiest(fleet, h, c, now, r)
  }

  lemma {:induction false} WeighExactly(fleet: Fleet, oldest: seq<Candidate>, now: int, r: Rules,
                                      h: Member, c: Candidate)
    requires OneEach(fleet.members)
    ensures Weigh(fleet, oldest, now, r) == Some((h, c)) <==> KeptFirst(fleet, oldest, now, r, h, c)
  {
    hide Keepable, FitsNow, Roomiest, Wanted, Best, CouldNow, FirstKeepable, OneEach;
    if oldest == [] {
      NoneKeepable(fleet, oldest, now, r);
    } else {
      KeepableIs(fleet, oldest[0], now, r);
      if Keepable(fleet, oldest[0], now, r) {
        OnlyFirst(fleet, oldest, now, r);
        RoomiestIs(fleet, h, oldest[0], now, r);
        forall m ensures FitsNow(fleet, m, oldest[0], now, r) == CouldNow(fleet, m, oldest[0], now, r) {
          FitsIs(fleet, m, oldest[0], now, r);
        }
      } else {
        WeighExactly(fleet, oldest[1..], now, r, h, c);
        LaterKeepable(fleet, oldest, now, r, c);
      }
    }
  }

  lemma NoneKeepable(fleet: Fleet, oldest: seq<Candidate>, now: int, r: Rules)
    requires oldest == []
    ensures forall i: nat :: !FirstKeepable(fleet, oldest, i, now, r)
  {
  }

  lemma OnlyFirst(fleet: Fleet, oldest: seq<Candidate>, now: int, r: Rules)
    requires oldest != [] && Keepable(fleet, oldest[0], now, r)
    ensures forall i: nat :: FirstKeepable(fleet, oldest, i, now, r) <==> i == 0
  {
    hide Keepable;
  }

  lemma LaterKeepable(fleet: Fleet, oldest: seq<Candidate>, now: int, r: Rules, c: Candidate)
    requires oldest != [] && !Keepable(fleet, oldest[0], now, r)
    ensures (exists i: nat :: FirstKeepable(fleet, oldest, i, now, r) && oldest[i] == c)
            <==> exists i: nat :: FirstKeepable(fleet, oldest[1..], i, now, r) && oldest[1..][i] == c
  {
    hide Keepable;
    forall i: nat ensures FirstKeepable(fleet, oldest, i + 1, now, r)
              <==> FirstKeepable(fleet, oldest[1..], i, now, r) {
      FirstLater(fleet, oldest, i, now, r);
    }
    if i: nat :| FirstKeepable(fleet, oldest, i, now, r) && oldest[i] == c {
      assert FirstKeepable(fleet, oldest[1..], i - 1, now, r) && oldest[1..][i - 1] == c;
    }
    if i: nat :| FirstKeepable(fleet, oldest[1..], i, now, r) && oldest[1..][i] == c {
      assert FirstKeepable(fleet, oldest, i + 1, now, r) && oldest[i + 1] == c;
    }
  }

  /**
   * A pass sets a mark if and only if none keeps a host yet and the first build
   * of the list a host could be kept for fits nobody now; and it is that build's,
   * on the host with the most room for it, the lowest id among equals.
   */
  lemma MarkExactly(fleet: Fleet, oldest: seq<Candidate>, queued: set<nat>, now: int, r: Rules, h: Member, c: Candidate)
    requires OneEach(fleet.members)
    ensures Reserve(fleet, oldest, queued, now, r) == Some((h, c)) <==>
              && (forall m | m in fleet.members :: !Keeps(m, queued, now))
              && KeptFirst(fleet, oldest, now, r, h, c)
  {
    hide KeptFirst, Weigh;
    WeighExactly(fleet, oldest, now, r, h, c);
    assert forall m :: Keeps(m, queued, now) == Stands(m, queued, now);
  }
}
