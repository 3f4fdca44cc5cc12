/** While a host holds for its marked task, its own tasks only drain away, on any run of claims and lease ends. */
module HoldRuns {
  import opened Sums
  import opened Fleet
  import opened Select
  import opened SelectOrder
  import opened FleetRuns
  import Reservation

  /** From event `k` on, the host's claims hold for their mark. */
  ghost predicate HoldsFrom(events: seq<Event>, id: nat, k: nat) {
    forall i {:trigger events[i]} | k <= i < |events| && events[i].Leased? && events[i].claim.me.id == id ::
      events[i].claim.Holding()
  }

  lemma HeldTakesNoTask(x: Claim, at: nat, id: nat)
    requires Distinct(x.queue) && at < |Ranked(x)| && x.Holding()
    ensures Sum(Of(x.fleet.leases + [Written(x, Ranked(x)[at])], id), TaskUnits)
              == Sum(Of(x.fleet.leases, id), TaskUnits)
  {
    hide Ranked, Sum, Of, Claim.Holding, LaneFor, Claim.UnitsFor, Claim.DiskFor;
    var l := Written(x, Ranked(x)[at]);
    assert Ranked(x)[at] in Ranked(x);
    Reservation.HoldTakesOnlyJobs(x, Ranked(x)[at]);
    OfLeased(x.fleet.leases, l, id);
    SumOne(Of(x.fleet.leases, id), l, TaskUnits);
  }

  /** Its task units only shrink. */
  lemma {:induction false} HoldShrinks(events: seq<Event>, hosts: nat -> Host, r: Rules, id: nat, k: nat)
    requires k <= |events| && Run(events, hosts, r).Some? && HoldsFrom(events, id, k)
    ensures Run(events[..k], hosts, r).Some?
    ensures Sum(Of(Run(events, hosts, r).value, id), TaskUnits)
            <= Sum(Of(Run(events[..k], hosts, r).value, id), TaskUnits)
    decreases |events|
  {
    hide Ranked, Written, Sum, Of;
    if k == |events| {
      assert events[..k] == events;
    } else {
      var before, e := events[..|events| - 1], events[|events| - 1];
      assert before[..k] == events[..k];
      HoldShrinks(before, hosts, r, id, k);
      var leases := Run(before, hosts, r).value;
      match e
      case Leased(x, at) =>
        if x.me.id == id {
          assert events[|events| - 1].Leased?;
          HeldTakesNoTask(x, at, id);
        } else {
          WrittenPositive(x, Ranked(x)[at]);
          OfLeased(leases, Written(x, Ranked(x)[at]), id);
        }
      case Ended(at) => OfEnded(leases, at, id, TaskUnits);
    }
  }
}
