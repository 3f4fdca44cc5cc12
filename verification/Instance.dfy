/**
 * Two processes on one token (worker/src/orders.ts `instanceStep`): what a
 * claim says of the process behind it, against the worker's row. Times are
 * milliseconds on the pool's clock.
 */
module Instance {
  import opened Wrappers

  const MIN: int := 60000
  const TOUCH: int := 3 * MIN
  const CONFLICT_WINDOW: int := 10 * MIN
  const CHURN_WINDOW: int := 10 * MIN
  const CHURN_CLEAR: int := 30 * MIN
  const WATCHDOG_RESET: int := 24 * 60 * MIN
  const CRASH_LOOP_AT: nat := 3

  datatype Exits = Exits(n: nat, since: int)

  /** The worker's row; `kinds` and `declared` stand for what a process declares once. */
  datatype Row = Row(instance: Option<nat>, prev: Option<nat>, since: Option<int>, conflictAt: Option<int>,
                     otherAt: Option<int>, churn: nat, finished: Option<nat>, crashLoop: Option<int>,
                     exits: Option<Exits>, kinds: nat, declared: nat)

  datatype Exit = NotSaid | Watchdog | OtherExit

  /**
   * What a claim says: its process, what ended the one before, and whether an
   * order, a stop or a new version explains a new one.
   */
  datatype Claim = Claim(instance: Option<nat>, kinds: nat, declared: nat, exit: Exit, explained: bool)

  datatype Line = OneAgain | StaysUp | TwoProcesses | WatchdogExit(n: nat) | WorksAgain | CrashLooping

  datatype Outcome = Outcome(row: Row, journal: seq<Line>)

  predicate Within(since: Option<int>, now: int, window: int) {
    since.Some? && now - since.value < window
  }

  /** The row once a conflict's end, if this claim shows one, is written. */
  predicate Clears(row: Row, c: Claim, now: int) {
    row.conflictAt.Some? && c.instance == row.instance && !Within(row.otherAt, now, CONFLICT_WINDOW + TOUCH)
  }

  function Recorded(row: Row, c: Claim, now: int): Row {
    row.(prev := row.instance, instance := c.instance, otherAt := Some(now), kinds := c.kinds)
  }

  /** A claim while two processes share the token, not ending it. */
  function InConflict(row: Row, c: Claim, now: int): Row {
    if c.instance != row.instance && !Within(row.otherAt, now, TOUCH) then Recorded(row, c, now) else row
  }

  predicate Returns(row: Row, c: Claim, now: int) {
    c.instance.Some? && row.prev.Some? && c.instance == row.prev && Within(row.since, now, CONFLICT_WINDOW)
  }

  /** The process the row names goes on. */
  function GoesOn(row: Row, c: Claim, now: int): Outcome {
    var up := row.crashLoop.Some? && row.since.Some? && now - row.since.value >= CHURN_CLEAR;
    var r := if up then row.(crashLoop := None, churn := 0) else row;
    Outcome(r.(kinds := c.kinds), if up then [StaysUp] else [])
  }

  function ExitsAfter(row: Row, now: int): Exits {
    if row.exits.Some? && now - row.exits.value.since < WATCHDOG_RESET
       then Exits(row.exits.value.n + 1, row.exits.value.since) else Exits(1, now)
  }

  /**
   * The churn a new process shows: one more when the one before lived short,
   * finished nothing and nothing explains its end.
   */
  function ChurnAfter(row: Row, c: Claim, now: int): nat {
    if c.exit == Watchdog || row.instance.None? then 0
    else if Within(row.since, now, CHURN_WINDOW) && row.finished != row.instance && c.exit == NotSaid && !c.explained
            then row.churn + 1
    else 0
  }

  function NewProcess(row: Row, c: Claim, now: int): Outcome {
    var churn := ChurnAfter(row, c, now);
    var exits := if c.exit == Watchdog then Some(ExitsAfter(row, now)) else row.exits;
    var said := if c.exit == Watchdog && (exits.value.n == 1 || exits.value.n == 3) then [WatchdogExit(exits.value.n)]
                else [];
    var works := row.crashLoop.Some? && row.instance.Some? && row.finished == row.instance;
    var loops := !works && churn >= CRASH_LOOP_AT && row.crashLoop.None?;
    Outcome(row.(prev := row.instance, instance := c.instance, since := Some(now), kinds := c.kinds,
                 declared := c.declared, exits := exits,
                 crashLoop := if works then None else if loops then Some(now) else row.crashLoop,
                 churn := if works then 0 else churn),
            said + (if works then [WorksAgain] else if loops then [CrashLooping] else []))
  }

  function Step(row: Row, c: Claim, now: int): Outcome {
    if row.conflictAt.Some? && !Clears(row, c, now) then Outcome(InConflict(row, c, now), [])
    else if Clears(row, c, now) then
      var on := GoesOn(row.(conflictAt := None, otherAt := None), c, now);
      Outcome(on.row, [OneAgain] + on.journal)
    else if c.instance == row.instance then GoesOn(row, c, now)
    else if Returns(row, c, now) then Outcome(Recorded(row, c, now).(conflictAt := Some(now)), [TwoProcesses])
    else NewProcess(row, c, now)
  }

  /** The step as the claim takes it, column by column. */
  method InstanceStep(old': Row, c: Claim, now: int) returns (row: Row, journal: seq<Line>)
    ensures Outcome(row, journal) == Step(old', c, now)
  {
    row, journal := old', [];
    if old'.conflictAt.Some? {
      if c.instance != old'.instance {
        if !Within(old'.otherAt, now, TOUCH) {
          row := row.(prev := old'.instance);
          row := row.(instance := c.instance);
          row := row.(otherAt := Some(now));
          row := row.(kinds := c.kinds);
        }
        return;
      }
      if Within(old'.otherAt, now, CONFLICT_WINDOW + TOUCH) {
        return;
      }
      row := row.(conflictAt := None);
      row := row.(otherAt := None);
      journal := journal + [OneAgain];
    }
    if c.instance == old'.instance {
      if old'.crashLoop.Some? && old'.since.Some? && now - old'.since.value >= CHURN_CLEAR {
        row := row.(crashLoop := None);
        row := row.(churn := 0);
        journal := journal + [StaysUp];
      }
      row := row.(kinds := c.kinds);
      return;
    }
    if Returns(old', c, now) {
      row := row.(conflictAt := Some(now), prev := old'.instance, instance := c.instance, otherAt := Some(now),
                  kinds := c.kinds);
      journal := journal + [TwoProcesses];
      return;
    }
    row := row.(prev := old'.instance, instance := c.instance, since := Some(now), kinds := c.kinds,
                declared := c.declared);
    var churn: nat := 0;
    if old'.instance.Some? && Within(old'.since, now, CHURN_WINDOW) && old'.finished != old'.instance
       && c.exit == NotSaid && !c.explained {
      churn := old'.churn + 1;
    }
    if c.exit == Watchdog {
      churn := 0;
      var next := ExitsAfter(old', now);
      row := row.(exits := Some(next));
      if next.n == 1 || next.n == 3 {
        journal := journal + [WatchdogExit(next.n)];
      }
    }
    if old'.crashLoop.Some? && old'.instance.Some? && old'.finished == old'.instance {
      row := row.(crashLoop := None);
      churn := 0;
      journal := journal + [WorksAgain];
    } else if churn >= CRASH_LOOP_AT && old'.crashLoop.None? {
      row := row.(crashLoop := Some(now));
      journal := journal + [CrashLooping];
    }
    row := row.(churn := churn);
  }

  // ---------- runs of claims ----------

  datatype Made = Made(claim: Claim, at: int)

  function Run(row: Row, claims: seq<Made>): Row {
    if claims == [] then row
    else
      var last := claims[|claims| - 1];
      Step(Run(row, claims[..|claims| - 1]), last.claim, last.at).row
  }

  predicate InTime(claims: seq<Made>) {
    forall i, j | 0 <= i < j < |claims| :: claims[i].at <= claims[j].at
  }

  const NEW := Row(None, None, None, None, None, 0, None, None, None, 0, 0)

  /**
   * While a conflict stands, every claim TOUCH or more after the other process was
   * last recorded came from the process the row names.
   */
  ghost predicate Named(row: Row, claims: seq<Made>) {
    row.conflictAt.Some? ==>
      row.otherAt.Some? && forall i {:trigger claims[i]} | 0 <= i < |claims|
      && claims[i].at >= row.otherAt.value + TOUCH :: claims[i].claim.instance == row.instance
  }

  lemma {:induction false} NamedStep(row: Row, claims: seq<Made>, m: Made)
    requires Named(row, claims) && InTime(claims + [m])
    ensures Named(Step(row, m.claim, m.at).row, claims + [m])
  {
    var all := claims + [m];
    assert all[|claims|] == m;
    assert forall i | 0 <= i < |claims| :: all[i] == claims[i] && claims[i].at <= m.at;
  }

  lemma {:induction false} RunNamed(claims: seq<Made>)
    requires InTime(claims)
    ensures Named(Run(NEW, claims), claims)
    decreases |claims|
  {
    if claims != [] {
      var before, last := claims[..|claims| - 1], claims[|claims| - 1];
      assert before + [last] == claims;
      RunNamed(before);
      NamedStep(Run(NEW, before), before, last);
    }
  }

  /**
   * A conflict ends only when every claim of the last CONFLICT_WINDOW, this one
   * included, came from one process — although the other's claims are recorded
   * at most every TOUCH.
   */
  lemma {:induction false} EndsOnlyAlone(claims: seq<Made>, m: Made, i: nat)
    requires InTime(claims + [m]) && Run(NEW, claims).conflictAt.Some?
    requires Step(Run(NEW, claims), m.claim, m.at).row.conflictAt.None?
    requires i < |claims| && claims[i].at >= m.at - CONFLICT_WINDOW
    ensures claims[i].claim.instance == m.claim.instance
  {
    assert InTime(claims) by {
      forall a, b | 0 <= a < b < |claims| ensures claims[a].at <= claims[b].at {
        assert (claims + [m])[a] == claims[a] && (claims + [m])[b] == claims[b];
      }
    }
    RunNamed(claims);
  }

  /** A process alone on the token: from its claim TOUCH after the other was last recorded on, the row names it. */
  ghost predicate Alone(row: Row, p: Option<nat>, from: int) {
    row.instance == p && (row.conflictAt.Some? ==> row.otherAt.Some? && row.otherAt.value <= from)
  }

  ghost predicate AllFrom(claims: seq<Made>, p: Option<nat>) {
    forall i {:trigger claims[i]} | 0 <= i < |claims| :: claims[i].claim.instance == p
  }

  lemma {:induction false} StaysAlone(row: Row, claims: seq<Made>, p: Option<nat>, from: int)
    requires Alone(row, p, from) && AllFrom(claims, p)
    ensures Alone(Run(row, claims), p, from)
    decreases |claims|
  {
    if claims != [] {
      StaysAlone(row, claims[..|claims| - 1], p, from);
    }
  }

  /**
   * And it does end: a process that claims alone — a first time TOUCH or more
   * after the other was last recorded, and again CONFLICT_WINDOW + TOUCH after
   * that — is one process again.
   */
  lemma {:induction false} EndsAlone(row: Row, first: Made, claims: seq<Made>, last: Made)
    requires row.conflictAt.Some? && row.otherAt.Some? && first.at >= row.otherAt.value + TOUCH
    requires last.at >= first.at + CONFLICT_WINDOW + TOUCH
    requires last.claim.instance == first.claim.instance && AllFrom(claims, first.claim.instance)
    ensures Step(Run(Step(row, first.claim, first.at).row, claims), last.claim, last.at).row.conflictAt.None?
    ensures Step(Run(Step(row, first.claim, first.at).row, claims), last.claim, last.at).row.instance
              == first.claim.instance
  {
    var started := Step(row, first.claim, first.at).row;
    StaysAlone(started, claims, first.claim.instance, first.at);
    EndsFrom(Run(started, claims), last, first.at);
  }

  lemma {:induction false} EndsFrom(row: Row, last: Made, from: int)
    requires Alone(row, last.claim.instance, from) && last.at >= from + CONFLICT_WINDOW + TOUCH
    ensures Step(row, last.claim, last.at).row.conflictAt.None?
    ensures Step(row, last.claim, last.at).row.instance == last.claim.instance
  {
  }

  /** A process back soon after another's first claim is seen: the two share the token from then on. */
  lemma {:induction false} ReturnSeen(row: Row, a: Made, b: Made, again: Made)
    requires row.conflictAt.None? && a.at <= b.at <= again.at < b.at + CONFLICT_WINDOW
    requires a.claim.instance.Some? && b.claim.instance != a.claim.instance && again.claim.instance == a.claim.instance
    ensures Step(Step(Step(row, a.claim, a.at).row, b.claim, b.at).row, again.claim, again.at).row.conflictAt.Some?
  {
    var r1 := Step(row, a.claim, a.at).row;
    assert r1.instance == a.claim.instance;
    var r2 := Step(r1, b.claim, b.at).row;
    if r1.conflictAt.None? && r2.conflictAt.None? {
      assert r2.prev == a.claim.instance && r2.since == Some(b.at);
    }
  }
}
