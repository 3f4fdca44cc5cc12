/**
 * Deferral is never to nobody: when a claim leaves a candidate to another
 * registration, that registration's own claim over the same fleet lists it.
 */
module Deferral {
  import opened Wrappers
  import opened Sums
  import opened Fleet
  import opened Select
  import opened SelectOrder

  /** A registration's own claim lists a candidate, whatever else it reads of the queue. */
  ghost predicate WouldTake(fleet: Fleet, m: Member, c: Candidate, now: int, r: Rules) {
    forall queue: seq<Candidate> | Distinct(queue) && c in queue :: c in Ranked(Claim(m, fleet, queue, now, r))
  }

  /** Another registration, alive and claiming, would take the candidate now. */
  ghost predicate TakenElsewhere(fleet: Fleet, except: nat, c: Candidate, now: int, r: Rules) {
    exists m :: m in fleet.members && m.id != except && Claiming(m, now) && WouldTake(fleet, m, c, now, r)
  }

  /** A registration that reserves for nothing else has every candidate it reads in its pool. */
  lemma UnmarkedPool(x: Claim, c: Candidate)
    requires Unmarked(x.me, c.id, x.now)
    ensures x.InPool(c)
  {
    hide Claim.UnitsFor, HeldBy;
  }

  lemma NativeRoomTakes(fleet: Fleet, c: Candidate, now: int, r: Rules, except: nat, m: Member)
    requires IsLaneKind(c.kind) && IsNativeRoom(fleet, c, now, r, except, Largest(fleet.members, now, r), m)
    requires !OwnerCapped(fleet, c, now, r)
    ensures WouldTake(fleet, m, c, now, r)
  {
    hide Fits, HeldBy, Takes, RequesterHost, OwnerCapped, Largest, Claim.EmulatedFull, Claim.Waits, EmulationRefuses,
         Claim.Holding;
    forall queue: seq<Candidate> | Distinct(queue) && c in queue ensures c in Ranked(Claim(m, fleet, queue, now, r)) {
      var x := Claim(m, fleet, queue, now, r);
      UnmarkedPool(x, c);
      RankedExactly(x);
    }
  }

  lemma AuditLane(x: Claim, c: Candidate)
    requires c.kind == Audit
    ensures !x.OnEmulatedLane(c) && x.UnitsFor(c) == UnitsOf(Audit, None, x.r) && x.DiskFor(c) == None
            && !OwnerCapped(x.fleet, c, x.now, x.r)
  {
  }

  lemma ElsewhereTakes(fleet: Fleet, c: Candidate, now: int, r: Rules, except: nat, m: Member)
    requires c.kind == Audit && IsElsewhere(fleet, c, now, r, except, m)
    ensures WouldTake(fleet, m, c, now, r)
  {
    hide Fits, HeldBy, Takes, Largest, Claim.EmulatedFull, Claim.Waits, EmulationRefuses, Claim.InPool,
         NeedsOtherModel, AnotherModel, BesideBuilder, LaneFor,
         Claim.OnEmulatedLane, Claim.UnitsFor, Claim.DiskFor, OwnerCapped, UnitsOf, Ranked, Unmarked, LegacyBusy;
    forall queue: seq<Candidate> | Distinct(queue) && c in queue ensures c in Ranked(Claim(m, fleet, queue, now, r)) {
      var x := Claim(m, fleet, queue, now, r);
      UnmarkedPool(x, c);
      AuditLane(x, c);
      RankedExactly(x);
    }
  }

  /** A candidate whose owner is at their cap is on no claim's list. */
  lemma CappedNowhere(fleet: Fleet, m: Member, c: Candidate, now: int, r: Rules, queue: seq<Candidate>)
    requires OwnerCapped(fleet, c, now, r) && Distinct(queue)
    ensures c !in Ranked(Claim(m, fleet, queue, now, r))
  {
    hide OwnerCapped, Fits, Takes, Claim.InPool;
    RankedExactly(Claim(m, fleet, queue, now, r));
  }

  lemma OneIsDistinct(c: Candidate)
    ensures Distinct([c])
  {
    assert multiset([c])[c] == 1;
  }

  /**
   * An emulated lane that waits for native capacity leaves the candidate to a
   * native registration whose own claim lists it — unless the owner is at
   * their cap, and then no claim of the fleet lists it.
   */
  lemma WaitNotForNobody(x: Claim, c: Candidate)
    requires x.OnEmulatedLane(c) && x.Waits(c)
    ensures TakenElsewhere(x.fleet, x.me.id, c, x.now, x.r) <==> !OwnerCapped(x.fleet, c, x.now, x.r)
  {
    hide WouldTake, Claiming, OwnerCapped, Ranked;
    var n := Largest(x.fleet.members, x.now, x.r);
    if OwnerCapped(x.fleet, c, x.now, x.r) {
      forall m ensures !WouldTake(x.fleet, m, c, x.now, x.r) {
        CappedRefuses(x.fleet, m, c, x.now, x.r);
      }
    } else {
      var m :| m in x.fleet.members && IsNativeRoom(x.fleet, c, x.now, x.r, x.me.id, n, m);
      NativeRoomTakes(x.fleet, c, x.now, x.r, x.me.id, m);
    }
  }

  lemma CappedRefuses(fleet: Fleet, m: Member, c: Candidate, now: int, r: Rules)
    requires OwnerCapped(fleet, c, now, r)
    ensures !WouldTake(fleet, m, c, now, r)
  {
    hide OwnerCapped, Ranked;
    OneIsDistinct(c);
    CappedNowhere(fleet, m, c, now, r, [c]);
    assert c in [c];
  }

  /** The builder's machine leaves an audit only to a registration whose own claim lists it. */
  lemma AuditNotForNobody(x: Claim, c: Candidate)
    requires c.kind == Audit && x.Leaves(c)
    ensures TakenElsewhere(x.fleet, x.me.id, c, x.now, x.r)
  {
    hide WouldTake, Claiming;
    var m :| m in x.fleet.members && IsElsewhere(x.fleet, c, x.now, x.r, x.me.id, m);
    ElsewhereTakes(x.fleet, c, x.now, x.r, x.me.id, m);
  }
}
