/**
 * A package's learned size (worker/src/sizing.ts `afterOom`, `afterBuild`,
 * `peakBelowMb`, `learnCap`): one report, and whole histories of reports.
 */
module Sizing {
  import opened Wrappers

  const MAX_SIZE: nat := 4
  const COMMUNITY_MAX_SIZE: nat := 2
  const DECAY_AFTER: nat := 5
  const BUILD_PER_SIZE: nat := 2
  const UNIT_MEM_GB: nat := 2
  const EGRESS_MB: nat := 64
  const AGENT_MB: nat := 256

  datatype Why = Oom | Decay

  /**
   * The remembered size; None is nothing learned, size 1. `task`, `why` and `at`
   * name the report that last changed it.
   */
  datatype Learned = Learned(size: Option<nat>, lower: nat, task: Option<nat>, why: Option<Why>, at: Option<int>)

  const FRESH := Learned(None, 0, None, None, None)

  function PeakBelow(size: nat): int {
    (size - 1) * BUILD_PER_SIZE * UNIT_MEM_GB * 1024 - EGRESS_MB - AGENT_MB
  }

  function LearnCap(community: bool, review: bool): nat {
    if community || review then COMMUNITY_MAX_SIZE else MAX_SIZE
  }

  function SizeOf(l: Learned): nat {
    if l.size.Some? then l.size.value else 1
  }

  function Max(a: int, b: int): int { if a > b then a else b }

  function Min(a: int, b: int): int { if a < b then a else b }

  /** After an out-of-memory kill at size `ran`; None when nothing changes. */
  function AfterOom(cur: Learned, ran: nat, cap: nat, task: nat, at: int): Option<Learned> {
    var was := SizeOf(cur);
    var size: nat := Max(was, Min(cap, Max(1, ran) + 1));
    if size == was then if cur.lower > 0 then Some(cur.(lower := 0)) else None
    else Some(Learned(Some(size), 0, Some(task), Some(Oom), Some(at)))
  }

  /** After a build that completed with this peak; None when nothing changes. */
  function AfterBuild(cur: Learned, peak: int, task: nat, at: int): Option<Learned> {
    if cur.size.None? then None
    else if peak >= PeakBelow(cur.size.value) then if cur.lower > 0 then Some(cur.(lower := 0)) else None
    else
      var lower := cur.lower + 1;
      if lower < DECAY_AFTER then Some(cur.(lower := lower))
      else Some(Learned(if cur.size.value > 2 then Some(cur.size.value - 1)
                        else None, 0, Some(task), Some(Decay), Some(at)))
  }

  // ---------- histories ----------

  /** A report: a build killed at its memory limit, or one that completed with its peak. */
  datatype Report =
    | Killed(ran: nat, community: bool, review: bool, task: nat, at: int)
    | Built(peak: int, task: nat, at: int)

  function Next(cur: Learned, r: Report): Learned {
    var next := match r
      case Killed(ran, community, review, task, at) => AfterOom(cur, ran, LearnCap(community, review), task, at)
      case Built(peak, task, at) => AfterBuild(cur, peak, task, at);
    if next.Some? then next.value else cur
  }

  function Run(start: Learned, rs: seq<Report>): Learned {
    if rs == [] then start else Next(Run(start, rs[..|rs| - 1]), rs[|rs| - 1])
  }

  /** Nothing, or a size from 2 to the largest; fewer than five lower peaks counted, and none for nothing. */
  predicate Valid(l: Learned) {
    (l.size.Some? ==> 2 <= l.size.value <= MAX_SIZE) && l.lower < DECAY_AFTER && (l.size.None? ==> l.lower == 0)
  }

  lemma {:induction false} RunValid(rs: seq<Report>)
    ensures Valid(Run(FRESH, rs))
    ensures var l := Run(FRESH, rs); (l.size.Some? ==> 2 <= l.size.value <= 4) && l.lower <= 4
  {
    if rs != [] { RunValid(rs[..|rs| - 1]); }
  }

  /**
   * A peak that would have fitted the size below: with its two sidecars, 64 and
   * 256 MB, within two units of two GB for each step of that size.
   */
  predicate FitsBelow(peak: int, size: nat) {
    peak + 64 + 256 < (size - 1) * 4096
  }

  /**
   * The last `n` reports were builds that each would have fitted the size below
   * the one remembered, which did not change meanwhile.
   */
  ghost predicate LowerStreak(start: Learned, rs: seq<Report>, n: nat) {
    var size := Run(start, rs).size;
    && n <= |rs| && size.Some?
    && forall i {:trigger rs[i]} | |rs| - n <= i < |rs| ::
         rs[i].Built? && FitsBelow(rs[i].peak, size.value) && Run(start, rs[..i]).size == size
  }

  /** The count is the streak's length. */
  lemma {:induction false} LowerCounts(rs: seq<Report>)
    ensures var l := Run(FRESH, rs); l.lower > 0 ==> LowerStreak(FRESH, rs, l.lower)
    decreases |rs|
  {
    if rs != [] {
      var before := rs[..|rs| - 1];
      LowerCounts(before);
      var l := Run(FRESH, rs);
      if l.lower > 0 {
        StreakGrows(rs, l.lower);
      }
    }
  }

  lemma {:induction false} StreakGrows(rs: seq<Report>, n: nat)
    requires rs != [] && n > 0 && Run(FRESH, rs).lower == n && Run(FRESH, rs[..|rs| - 1]).lower == n - 1
    requires n > 1 ==> LowerStreak(FRESH, rs[..|rs| - 1], n - 1)
    ensures LowerStreak(FRESH, rs, n)
  {
    var before := rs[..|rs| - 1];
    forall i | |rs| - n <= i < |rs|
      ensures rs[i].Built? && FitsBelow(rs[i].peak, Run(FRESH, rs).size.value)
              && Run(FRESH, rs[..i]).size == Run(FRESH, rs).size
    {
      if i < |rs| - 1 {
        assert before[i] == rs[i] && before[..i] == rs[..i];
      }
    }
  }

  /** No streak is longer than the count. */
  lemma {:induction false} StreakCounts(rs: seq<Report>, n: nat)
    requires LowerStreak(FRESH, rs, n) && n > 0
    ensures Run(FRESH, rs).lower >= n
    decreases |rs|
  {
    var before := rs[..|rs| - 1];
    assert rs[|rs| - 1].Built? && Run(FRESH, rs[..|rs| - 1]).size == Run(FRESH, rs).size;
    if n > 1 {
      forall i | |before| - (n - 1) <= i < |before|
        ensures before[i].Built? && FitsBelow(before[i].peak, Run(FRESH, before).size.value)
                && Run(FRESH, before[..i]).size == Run(FRESH, before).size
      {
        assert before[i] == rs[i] && before[..i] == rs[..i];
      }
      StreakCounts(before, n - 1);
    }
  }

  /**
   * A size decays, by one, exactly at the fifth build in a row at that size that
   * would each have fitted the size below; a size of two is then forgotten.
   */
  lemma {:induction false} DecaysAfterFive(rs: seq<Report>, r: Report)
    ensures var was, now := Run(FRESH, rs), Next(Run(FRESH, rs), r);
            && (SizeOf(now) < SizeOf(was) <==>
                  r.Built? && was.size.Some? && FitsBelow(r.peak, was.size.value) && LowerStreak(FRESH, rs, 4))
            && (SizeOf(now) < SizeOf(was) ==>
                  SizeOf(now) == SizeOf(was) - 1 && (now.size.None? <==> was.size == Some(2)) && now.lower == 0
                  && now.why == Some(Decay) && now.task == Some(r.task))
  {
    LowerCounts(rs);
    RunValid(rs);
    if LowerStreak(FRESH, rs, 4) {
      StreakCounts(rs, 4);
    }
  }

  /**
   * A kill makes the size one past the size that ran out, as far as the cap — two
   * for a contributor's build or the project's copy of one, else four — and never
   * less than it was; the builds counted start again.
   */
  lemma OomRaises(cur: Learned, ran: nat, community: bool, review: bool, task: nat, at: int)
    ensures var l, cap := Next(cur, Killed(ran, community, review, task, at)), if community || review then 2 else 4;
            && SizeOf(l) == Max(SizeOf(cur), if ran >= cap then cap else if ran == 0 then 2 else ran + 1)
            && l.lower == 0
            && (SizeOf(l) > SizeOf(cur) ==> l.why == Some(Oom) && l.task == Some(task))
  {
  }

  // ---------- steady peaks ----------

  /** The size steady peaks leave: the largest at or below `size` that its builds need, or 1. */
  function Rest(size: nat, peak: int): (r: nat)
    ensures size >= 1 ==> 1 <= r <= size
  {
    if size <= 1 || peak >= PeakBelow(size) then size else Rest(size - 1, peak)
  }

  /** The builds still to come before steady peaks settle the size. */
  function ToGo(l: Learned, peak: int): nat
    requires Valid(l)
  {
    var steps := SizeOf(l) - Rest(SizeOf(l), peak);
    if steps == 0 then 0 else steps * DECAY_AFTER - l.lower
  }

  ghost predicate Steady(rs: seq<Report>, peak: int) {
    forall i {:trigger rs[i]} | 0 <= i < |rs| :: rs[i].Built? && rs[i].peak == peak
  }

  lemma SteadyStep(l: Learned, r: Report)
    requires Valid(l) && r.Built?
    ensures Valid(Next(l, r)) && Rest(SizeOf(Next(l, r)), r.peak) == Rest(SizeOf(l), r.peak)
    ensures ToGo(Next(l, r), r.peak) == if ToGo(l, r.peak) == 0 then 0 else ToGo(l, r.peak) - 1
  {
  }

  lemma {:induction false} SteadyRun(start: Learned, rs: seq<Report>, peak: int)
    requires Valid(start) && Steady(rs, peak)
    ensures var l := Run(start, rs);
            && Valid(l) && Rest(SizeOf(l), peak) == Rest(SizeOf(start), peak)
               && ToGo(l, peak) == Max(0, ToGo(start, peak) - |rs|)
    decreases |rs|
  {
    if rs != [] {
      SteadyRun(start, rs[..|rs| - 1], peak);
      SteadyStep(Run(start, rs[..|rs| - 1]), rs[|rs| - 1]);
    }
  }

  /**
   * With steady peaks and no kills the size comes to rest within five builds a
   * step, and stays: at the largest size its builds need.
   */
  lemma {:induction false} Settles(start: Learned, rs: seq<Report>, peak: int)
    requires Valid(start) && Steady(rs, peak) && |rs| >= 5 * (SizeOf(start) - 1)
    ensures SizeOf(Run(start, rs)) == Rest(SizeOf(start), peak)
  {
    SteadyRun(start, rs, peak);
  }

  /** The size at rest is one its builds need, unless it is 1; the next one down would be too small. */
  lemma {:induction false} RestNeeded(size: nat, peak: int)
    requires size >= 1
    ensures Rest(size, peak) > 1 ==> !FitsBelow(peak, Rest(size, peak))
    ensures forall s | Rest(size, peak) < s <= size :: FitsBelow(peak, s)
  {
    if size > 1 && peak < PeakBelow(size) { RestNeeded(size - 1, peak); }
  }

  /** A history whose kills all have cap `cap` never takes a size past the larger of it and where it began. */
  lemma {:induction false} CapKept(start: Learned, rs: seq<Report>, cap: nat)
    requires cap >= 1 && forall r <- rs :: r.Killed? ==> LearnCap(r.community, r.review) <= cap
    ensures SizeOf(Run(start, rs)) <= Max(cap, SizeOf(start))
    decreases |rs|
  {
    if rs != [] {
      CapKept(start, rs[..|rs| - 1], cap);
      assert rs[|rs| - 1] in rs;
    }
  }

  /** Requester's builds alone never take a package past the community's size, if it begins no larger. */
  lemma {:induction false} RequesterKept(start: Learned, rs: seq<Report>)
    requires SizeOf(start) <= 2 && forall r <- rs :: r.Killed? ==> r.community || r.review
    ensures SizeOf(Run(start, rs)) <= 2
  {
    CapKept(start, rs, COMMUNITY_MAX_SIZE);
  }
}
