/**
 * Selection: which queued tasks a claiming host may take now, in the order it
 * takes them (worker/src/selection.ts `select`). Functions on values; the loops
 * that compute them are in Selecting.dfy.
 */
module Select {
  import opened Wrappers
  import opened Sums
  import opened Fleet

  /** One claim: who claims, what the pool knows, what it read of the queue, and the pool's time. */
  datatype Claim = Claim(me: Member, fleet: Fleet, queue: seq<Candidate>, now: int, r: Rules) {
    function Mine(): seq<Held> { HeldBy(fleet.leases, me) }
    function Biggest(): nat { Largest(fleet.members, now, r) }
    function Mark(): Option<nat> {
      if me.legacy || ReservingNow(me, now).None? then None else Some(ReservingNow(me, now).value.task)
    }
    /** The task the claimer reserves for, when this claim read it. */
    function Marked(): Option<Candidate> {
      if Mark().None? then None else Find(queue, Mark().value)
    }
    function UnitsFor(c: Candidate): nat { UnitsOf(c.kind, Size(c, Biggest(), r), r) }
    function DiskFor(c: Candidate): Option<nat> { DiskOf(c, Size(c, Biggest(), r), r) }

    /** The claimer keeps its units for the task it reserves for: they do not hold it yet. */
    predicate Holding() {
      Marked().Some? && TaskRoom(me.units, Mine(), r) < UnitsFor(Marked().value)
    }

    /** What the claim may choose from: while it holds, the marked task and pool jobs. */
    predicate InPool(c: Candidate) {
      Holding() ==> c.id == Mark().value || !IsTaskKind(c.kind)
    }

    predicate NativeQueued() {
      exists c | c in queue :: InPool(c) && IsNativeWork(c)
    }
    predicate IsNativeWork(c: Candidate) {
      Takes(me, c) && IsLaneKind(c.kind) && LaneFor(me, c, r).Some? && LaneFor(me, c, r).value.mode == Some(Native)
    }

    /** The units the claimer's emulated lanes hold at most, but for the first. */
    function EmulatedCap(): nat {
      var builds := BuildsOf(me, r);
      Max(1, if NativeQueued() then CeilDiv(builds * r.shareNum, r.shareDen) else builds - 1) * r.buildPerSize
    }

    /** The candidate would run on an emulated lane of the claimer, native preferred. */
    predicate OnEmulatedLane(c: Candidate) {
      LaneFor(me, c, r) == Some(Way(Some(Emulated), true))
    }

    /** An emulated candidate waits for a native lane that could take it now. */
    predicate Waits(c: Candidate) {
      now - c.queuedAt < ThresholdMs(c.nativeMs) && NativeCapacity(fleet, c, now, r, me.id)
    }

    /** An audit leaves the machine that built what it audits to another that could take it now. */
    predicate Leaves(c: Candidate) {
      BesideBuilder(me, c) && now - c.queuedAt < ELSEWHERE_MS && AuditElsewhere(fleet, c, now, r, me.id)
    }

    predicate EmulatedFull(c: Candidate) {
      !me.legacy && Sum(Mine(), OnEmulated) > 0 && Sum(Mine(), OnEmulated) + UnitsFor(c) > EmulatedCap()
    }

    /** Every filter of the claim but the pool's. */
    predicate Passes(c: Candidate) {
      && Takes(me, c) && !RequesterHost(me, c)
      && (c.kind == Audit ==> (NeedsOtherModel(fleet, c, now) ==> AnotherModel(me, c)) && !Leaves(c))
      && LaneFor(me, c, r).Some?
      && Fits(me, Mine(), c, UnitsFor(c), DiskFor(c), r)
      && (OnEmulatedLane(c) ==> !EmulationRefuses(me, c) && !Waits(c) && !EmulatedFull(c))
      && !OwnerCapped(fleet, c, now, r)
    }

    predicate Eligible(c: Candidate) { InPool(c) && Passes(c) }

    /** How long a candidate waited, less its lane's penalty. */
    function Age(c: Candidate): int {
      now - c.queuedAt - (if OnEmulatedLane(c) then ThresholdMs(c.nativeMs) else 0)
    }

    /** Priority, then how many builds the owner holds, then age, then id. */
    predicate Before(a: Candidate, b: Candidate) {
      var ka, kb := OwnerLeased(fleet.leases, a), OwnerLeased(fleet.leases, b);
      if a.priority != b.priority then a.priority < b.priority
      else if ka != kb then ka < kb
      else if Age(a) != Age(b) then Age(a) > Age(b)
      else a.id < b.id
    }

    /** An emulated lane the claimer holds no lease of, whose architecture nobody alive runs natively. */
    predicate Starved(arch: Arch) {
      && (me.legacy || forall l | l in Mine() :: !(l.lane == Some(Emulated) && l.arch == arch))
      && forall m | m in fleet.members :: !(Alive(m, now) && m.mayClaim && !m.asleep && HasNative(m, arch))
    }

    predicate Shared(c: Candidate) {
      LaneFor(me, c, r).Some? && LaneFor(me, c, r).value.mode == Some(Emulated) && IsLaneKind(c.kind) && Starved(c.arch)
    }

    function ChoiceOf(c: Candidate, share: bool): Choice {
      var s, way := SizeOf(c, Biggest(), r), LaneFor(me, c, r);
      Choice(c.id, if way.Some? then way.value.mode else None,
             if s.Some? then Some(s.value.0) else None,
             if s.Some? && s.value.0 < s.value.1 then Some(s.value.1) else None,
             UnitsFor(c), DiskFor(c), share, IndependenceOf(me, c))
    }
  }

  function Find(queue: seq<Candidate>, id: nat): Option<Candidate> {
    if queue == [] then None else if queue[0].id == id then Some(queue[0]) else Find(queue[1..], id)
  }

  function IsEligible(x: Claim): Candidate -> bool { (c: Candidate) => x.Eligible(c) }

  /** A candidate put in its place among sorted ones. */
  function Insert(x: Claim, c: Candidate, s: seq<Candidate>): seq<Candidate> {
    if s == [] || x.Before(c, s[0]) then [c] + s else [s[0]] + Insert(x, c, s[1..])
  }

  function Sorted(x: Claim, s: seq<Candidate>): seq<Candidate> {
    if s == [] then [] else Insert(x, s[0], Sorted(x, s[1..]))
  }

  /** The candidate queued longest of those the guaranteed emulated share puts ahead. */
  function Oldest(x: Claim, s: seq<Candidate>): Option<Candidate> {
    if s == [] then None
    else match Oldest(x, s[1..])
      case None => if x.Shared(s[0]) then Some(s[0]) else None
      case Some(o) => if x.Shared(s[0])
                      && (s[0].queuedAt < o.queuedAt || (s[0].queuedAt == o.queuedAt && s[0].id < o.id)) then Some(s[0])
                         else Some(o)
  }

  function Without(s: seq<Candidate>, id: nat): seq<Candidate> {
    if s == [] then [] else (if s[0].id == id then [] else [s[0]]) + Without(s[1..], id)
  }

  /** A candidate moved to the front, when it is there. */
  function First(s: seq<Candidate>, c: Option<Candidate>): seq<Candidate> {
    if c.Some? && c.value in s then [c.value] + Without(s, c.value.id) else s
  }

  /** The candidates a claim may take, in order: the starved emulated lane's oldest and the reserved task ahead. */
  function Ranked(x: Claim): seq<Candidate> {
    if x.me.asleep then []
    else
      var ok := Sorted(x, Filter(x.queue, IsEligible(x)));
      First(First(ok, Oldest(x, ok)), x.Marked())
  }

  function ShareOf(x: Claim): Option<Candidate> {
    Oldest(x, Sorted(x, Filter(x.queue, IsEligible(x))))
  }

  /** The choices of a claim, as its leases would be written. */
  function Choices(x: Claim): seq<Choice> {
    var order, share := Ranked(x), ShareOf(x);
    seq(|order|, i requires 0 <= i < |order| => x.ChoiceOf(order[i], share == Some(order[i])))
  }
}
