/**
 * The bounded rules over whole runs of claims of one worker
 * (worker/src/routes/factory.ts `spellAfter`, `autoOrder`), against a log that
 * is never pruned.
 */
module RulesRuns {
  import opened Wrappers
  import opened Rules

  /** One line of the full log, never pruned; `kind` the order it issued, `facts` what the claim that wrote it saw. */
  datatype Event = Event(mark: Mark, spell: int, at: int, kind: Option<Order>, facts: Seen)

  /**
   * What becomes of a proposal: accepted, dropped (a cap, the breaker, the site's
   * pacing, a race lost), or the site ends the spell's restarts.
   */
  datatype Fate = Accepted | Dropped | SiteGivesUp

  /** The row: since when the agent does not answer and its status; the rules' state; the log; the last claim's time. */
  datatype State = State(since: Option<int>, status: Status, auto: Option<Auto>, log: seq<Event>, last: int)

  /** A claim; `forgotten` when the cron cleared the spell of a worker long unseen before it. */
  datatype Claim = Claim(probe: Option<Status>, facts: Seen, now: int, fate: Fate, forgotten: bool)

  function SpellAfter(since: Option<int>, probe: Option<Status>, now: int): Option<int> {
    if probe.None? || probe.value == NotSaid then since
    else if probe.value == Answers then None
    else if since.Some? then since
    else Some(now)
  }

  function Since(s: State, c: Claim): Option<int> {
    if c.forgotten then None else s.since
  }

  /** What the rules see: the claim's facts, with the status and the spell this claim leaves. */
  function Sees(s: State, c: Claim): Seen {
    c.facts.(status := if c.probe.Some? then c.probe.value
             else s.status, spell := SpellAfter(Since(s, c), c.probe, c.now))
  }

  /** The rules' state and the log after the decision's fate. */
  function Writes(s: State, c: Claim, scale: int): (Option<Auto>, seq<Event>) {
    var x := Sees(s, c);
    match Decide(s.auto, x, c.now, scale)
    case Nothing => (s.auto, s.log)
    case StopRestarting(next) => if c.fate == Dropped then (s.auto, s.log)
                                 else (Some(next), s.log + [Event(GaveUp, x.spell.value, c.now, None, x)])
    case Issue(kind, _, next) =>
      if c.fate == Accepted then (Some(next), s.log + [Event(MarkOf(kind), x.spell.value, c.now, Some(kind), x)])
      else if c.fate == SiteGivesUp && kind == RestartAgent then
        (Some(AutoOf(s.auto, x.spell, c.now).(gaveUp := Some(c.now))), s.log
           + [Event(GaveUp, x.spell.value, c.now, None, x)])
      else (s.auto, s.log)
  }

  function Step(s: State, c: Claim, scale: int): State {
    var w := Writes(s, c, scale);
    State(SpellAfter(Since(s, c), c.probe, c.now), Sees(s, c).status, w.0, w.1, c.now)
  }

  const START := State(None, NotSaid, None, [], 0)

  function Run(claims: seq<Claim>, scale: int): State {
    if claims == [] then START else Step(Run(claims[..|claims| - 1], scale), claims[|claims| - 1], scale)
  }

  /** The claims follow the pool's clock. */
  predicate InTime(claims: seq<Claim>) {
    forall i, j | 0 <= i <= j < |claims| :: 0 <= claims[i].now <= claims[j].now
  }

  // ---------- the full log ----------

  /** How often a mark stands in a spell's log. */
  function InSpell(log: seq<Event>, mark: Mark, spell: int): nat {
    if log == [] then 0
    else
      var e := log[|log| - 1];
      InSpell(log[..|log| - 1], mark, spell) + (if e.mark == mark && e.spell == spell then 1 else 0)
  }

  /** A day of the log, in milliseconds. */
  const LOG_DAY: int := 86400000

  /** How often a mark stands in the log from `from` on, for a day. */
  function InDay(log: seq<Event>, mark: Mark, from: int): nat {
    if log == [] then 0
    else
      var e := log[|log| - 1];
      InDay(log[..|log| - 1], mark, from) + (if e.mark == mark && from <= e.at < from + LOG_DAY then 1 else 0)
  }

  /** How often a mark stands in the log, less than a day before `now`. */
  function Within(log: seq<Event>, mark: Mark, now: int): nat {
    if log == [] then 0
    else
      var e := log[|log| - 1];
      Within(log[..|log| - 1], mark, now) + (if e.mark == mark && now - e.at < LOG_DAY then 1 else 0)
  }

  ghost predicate SameSpell(log: seq<Event>, i: nat, j: nat, before: Mark, after: Mark) {
    i < j < |log| && log[i].mark == before && log[j].mark == after && log[i].spell == log[j].spell
  }

  // ---------- the pruned day against the full log ----------

  lemma RecentLast(day: seq<Entry>, e: Entry, now: int)
    ensures Recent(day + [e], now) == if now - e.at < DAY then Recent(day, now) + [e] else Recent(day, now)
  {
    assert (day + [e])[..|day|] == day;
  }

  /** Pruning earlier loses nothing a later pruning keeps. */
  lemma {:induction false} RecentTwice(day: seq<Entry>, then': int, now: int)
    requires then' <= now
    ensures Recent(Recent(day, then'), now) == Recent(day, now)
    decreases |day|
  {
    if day != [] {
      var front, e := day[..|day| - 1], day[|day| - 1];
      RecentTwice(front, then', now);
      RecentLast(Recent(front, then'), e, now);
    }
  }

  /** The day beside the row, pruned whenever it was written, says what the full log says: at `now`, and later. */
  ghost predicate Agrees(stored: Option<Auto>, log: seq<Event>, now: int) {
    forall mark, t {:trigger Within(log, mark, t)} | t >= now && mark != GaveUp ::
      Count(Recent(DayOf(stored), t), mark) == Within(log, mark, t)
  }

  function DayOf(stored: Option<Auto>): seq<Entry> {
    if stored.Some? then stored.value.day else []
  }

  lemma WithinLast(log: seq<Event>, e: Event, mark: Mark, now: int)
    ensures Within(log + [e], mark, now) == Within(log, mark, now)
              + (if e.mark == mark && now - e.at < DAY then 1 else 0)
  {
    assert (log + [e])[..|log|] == log;
  }

  lemma AgreesAt(day: seq<Entry>, log: seq<Event>, next: seq<Entry>, e: Event, mark: Mark, t: int)
    requires e.at <= t && mark != GaveUp && Count(Recent(day, t), mark) == Within(log, mark, t)
    requires next == if e.mark == GaveUp then Recent(day, e.at) else Recent(day, e.at) + [Entry(e.mark, e.at)]
    ensures Count(Recent(next, t), mark) == Within(log + [e], mark, t)
  {
    hide Recent, Count, Within;
    WithinLast(log, e, mark, t);
    RecentTwice(day, e.at, t);
    if e.mark != GaveUp {
      RecentLast(Recent(day, e.at), Entry(e.mark, e.at), t);
      CountLast(Recent(day, t), Entry(e.mark, e.at), mark);
    }
  }

  lemma AgreesAfter(stored: Option<Auto>, log: seq<Event>, next: Auto, e: Event)
    requires Agrees(stored, log, e.at)
    requires next.day == if e.mark == GaveUp then Recent(DayOf(stored), e.at)
             else Recent(DayOf(stored), e.at) + [Entry(e.mark, e.at)]
    ensures Agrees(Some(next), log + [e], e.at)
  {
    forall mark, t | t >= e.at && mark != GaveUp
      ensures Count(Recent(next.day, t), mark) == Within(log + [e], mark, t)
    {
      assert Within(log, mark, t) == Count(Recent(DayOf(stored), t), mark);
      AgreesAt(DayOf(stored), log, next.day, e, mark, t);
    }
  }

  // ---------- what every run keeps ----------

  /** The counts beside the row are the log's, for the spell they name, which is the log's last. */
  ghost predicate Counted(s: State) {
    && (s.auto.None? ==> s.log == [])
    && (s.auto.Some? ==>
          var a := s.auto.value;
          && a.spell.Some? && a.spell.value <= s.last && (s.since.Some? ==> a.spell.value <= s.since.value)
          && InSpell(s.log, Recheck, a.spell.value) == a.rechecks
             && InSpell(s.log, Restart, a.spell.value) == a.restarts)
    && (s.since.Some? ==> s.since.value <= s.last)
    && (forall e <- s.log :: e.at <= s.last && s.auto.Some? && e.spell <= s.auto.value.spell.value)
  }

  /** A line of the log. */
  ghost predicate Logged(log: seq<Event>, mark: Mark, spell: Option<int>, at: Option<int>) {
    exists e <- log :: e.mark == mark && Some(e.spell) == spell && Some(e.at) == at
  }

  /** The times beside the row bound the log's, in the spell they name, and each is a line's. */
  ghost predicate Timed(s: State) {
    s.auto.Some? ==>
      var a := s.auto.value;
      && (forall e <- s.log | a.spell == Some(e.spell) ::
            && (e.mark == Restart ==> a.lastRestart.Some? && e.at <= a.lastRestart.value && a.restarts > 0)
            && (e.mark == Recheck ==> a.lastRecheck.Some? && e.at <= a.lastRecheck.value)
            && (e.mark == GaveUp ==> a.gaveUp.Some?))
      && Backed(a, s.log)
  }

  ghost predicate Backed(a: Auto, log: seq<Event>) {
    && (a.restarts > 0 ==> a.lastRestart.Some?)
    && (a.lastRestart.Some? ==> Logged(log, Restart, a.spell, a.lastRestart))
    && (a.lastRecheck.Some? ==> Logged(log, Recheck, a.spell, a.lastRecheck))
    && (a.gaveUp.Some? ==> Logged(log, GaveUp, a.spell, a.gaveUp))
  }

  ghost predicate Bounded(log: seq<Event>) {
    && (forall p {:trigger InSpell(log, Recheck, p)} :: InSpell(log, Recheck, p) <= RECHECKS_PER_SPELL)
    && (forall p {:trigger InSpell(log, Restart, p)} :: InSpell(log, Restart, p) <= RESTARTS_PER_SPELL)
    && (forall t {:trigger InDay(log, Recheck, t)} :: InDay(log, Recheck, t) <= RECHECKS_PER_DAY)
    && (forall t {:trigger InDay(log, Restart, t)} :: InDay(log, Restart, t) <= RESTARTS_PER_DAY)
  }

  /**
   * Restarts of a spell stand apart, only the first of the shared agent
   * service; no re-check follows one, and nothing follows the end of a spell's
   * restarts.
   */
  ghost predicate Spaced(log: seq<Event>, scale: int) {
    forall i, j {:trigger log[i], log[j]} | 0 <= i < j < |log| && log[i].spell == log[j].spell ::
      && (log[i].mark == Restart && log[j].mark == Restart ==>
            Past(log[j].at - log[i].at, RESTART_SPACING, scale) && log[j].kind != Some(RestartAgent))
      && !(log[i].mark == Restart && log[j].mark == Recheck)
      && log[i].mark != GaveUp
  }

  ghost predicate Inv(s: State, scale: int) {
    Counted(s) && Timed(s) && Agrees(s.auto, s.log, s.last) && Bounded(s.log) && Spaced(s.log, scale)
  }

  /** A write the rules may make from the state `a` a decision starts from. */
  ghost predicate Proposes(a: Auto, e: Event, next: Auto, scale: int) {
    && a.spell == Some(e.spell) && a.gaveUp.None?
    && match e.mark
       case Recheck => a.restarts == 0 && a.rechecks < RECHECKS_PER_SPELL && Count(a.day, Recheck) < RECHECKS_PER_DAY
                       && next == a.(rechecks := a.rechecks + 1, lastRecheck := Some(e.at), day := a.day
                                       + [Entry(Recheck, e.at)])
       case Restart => a.restarts < RESTARTS_PER_SPELL && Count(a.day, Restart) < RESTARTS_PER_DAY
                       && (a.restarts > 0 ==>
                             PastSince(a.lastRestart, e.at, RESTART_SPACING, scale) && e.kind != Some(RestartAgent))
                       && next == a.(restarts := a.restarts + 1, lastRestart := Some(e.at), day := a.day
                                       + [Entry(Restart, e.at)])
       case GaveUp => next == a.(gaveUp := Some(e.at))
  }

  /** The row once the claim's own words are on it, before what the rules write. */
  function Claimed(s: State, c: Claim): State {
    s.(since := SpellAfter(Since(s, c), c.probe, c.now), status := Sees(s, c).status, last := c.now)
  }

  /** The claim wrote `e` and `next`, as the rules may. */
  ghost predicate Wrote(base: State, after: State, e: Event, next: Auto, scale: int) {
    && base.since == Some(e.spell) && base.last == e.at
    && Proposes(AutoOf(base.auto, base.since, base.last), e, next, scale)
    && after == base.(log := base.log + [e], auto := Some(next))
  }

  lemma WritesSo(s: State, c: Claim, scale: int)
    ensures Step(s, c, scale) == Claimed(s, c)
         || exists e, next :: Wrote(Claimed(s, c), Step(s, c, scale), e, next, scale)
  {
    var after := Step(s, c, scale);
    if after.log != s.log {
      assert Wrote(Claimed(s, c), after, after.log[|after.log| - 1], after.auto.value, scale);
    }
  }

  lemma ClaimedKeeps(s: State, c: Claim, scale: int)
    requires Inv(s, scale) && s.last <= c.now
    ensures Inv(Claimed(s, c), scale)
  {
  }

  /** A spell the log does not name has no mark in it. */
  lemma {:induction false} NewSpell(log: seq<Event>, mark: Mark, spell: int)
    requires forall e <- log :: e.spell < spell
    ensures InSpell(log, mark, spell) == 0
  {
    if log != [] { NewSpell(log[..|log| - 1], mark, spell); }
  }

  /** What stands in a day ending after `now` is less than a day old at `now`. */
  lemma {:induction false} DayWithin(log: seq<Event>, mark: Mark, from: int, now: int)
    requires from <= now < from + DAY
    ensures InDay(log, mark, from) <= Within(log, mark, now)
  {
    if log != [] { DayWithin(log[..|log| - 1], mark, from, now); }
  }

  /** The counts a decision starts from are the log's. */
  lemma StartsFrom(s: State, spell: int, scale: int)
    requires Inv(s, scale) && s.since == Some(spell)
    ensures var a := AutoOf(s.auto, Some(spell), s.last);
            && InSpell(s.log, Recheck, spell) == a.rechecks && InSpell(s.log, Restart, spell) == a.restarts
            && Count(a.day, Recheck) == Within(s.log, Recheck, s.last)
               && Count(a.day, Restart) == Within(s.log, Restart, s.last)
  {
    assert Within(s.log, Recheck, s.last) == Within(s.log, Recheck, s.last)
           && Within(s.log, Restart, s.last) == Within(s.log, Restart, s.last);
    if s.auto.Some? && s.auto.value.spell != Some(spell) {
      NewSpell(s.log, Recheck, spell);
      NewSpell(s.log, Restart, spell);
    }
  }

  lemma BoundedAfter(s: State, e: Event, next: Auto, scale: int)
    requires Inv(s, scale) && s.since == Some(e.spell) && s.last == e.at
    requires Proposes(AutoOf(s.auto, s.since, s.last), e, next, scale)
    ensures Bounded(s.log + [e])
  {
    var log := s.log + [e];
    assert log[..|s.log|] == s.log;
    StartsFrom(s, e.spell, scale);
    forall t ensures InDay(log, Recheck, t) <= RECHECKS_PER_DAY && InDay(log, Restart, t) <= RESTARTS_PER_DAY {
      if t <= e.at < t + DAY {
        DayWithin(s.log, Recheck, t, e.at);
        DayWithin(s.log, Restart, t, e.at);
      }
      assert InDay(s.log, Recheck, t) <= RECHECKS_PER_DAY && InDay(s.log, Restart, t) <= RESTARTS_PER_DAY;
    }
    forall p ensures InSpell(log, Recheck, p) <= RECHECKS_PER_SPELL && InSpell(log, Restart, p) <= RESTARTS_PER_SPELL {
      assert InSpell(s.log, Recheck, p) <= RECHECKS_PER_SPELL && InSpell(s.log, Restart, p) <= RESTARTS_PER_SPELL;
    }
  }

  /** One earlier line of the spell against the one written now. */
  lemma SpacedLine(s: State, e: Event, next: Auto, scale: int, f: Event)
    requires Inv(s, scale) && s.since == Some(e.spell) && s.last == e.at && scale > 0 && f in s.log
             && f.spell == e.spell
    requires Proposes(AutoOf(s.auto, s.since, s.last), e, next, scale)
    ensures f.mark == Restart && e.mark == Restart ==>
              Past(e.at - f.at, RESTART_SPACING, scale) && e.kind != Some(RestartAgent)
    ensures !(f.mark == Restart && e.mark == Recheck) && f.mark != GaveUp
  {
    hide Agrees, Bounded, Spaced, Backed, Count, Recent;
    assert s.auto.value.spell == Some(e.spell);
  }

  lemma SpacedAfter(s: State, e: Event, next: Auto, scale: int)
    requires Inv(s, scale) && s.since == Some(e.spell) && s.last == e.at && scale > 0
    requires Proposes(AutoOf(s.auto, s.since, s.last), e, next, scale)
    ensures Spaced(s.log + [e], scale)
  {
    hide Counted, Timed, Agrees, Bounded, Proposes, Past;
    var log := s.log + [e];
    forall i | 0 <= i < |s.log| && log[i].spell == e.spell
      ensures log[i].mark == Restart && e.mark == Restart ==>
                Past(e.at - log[i].at, RESTART_SPACING, scale) && e.kind != Some(RestartAgent)
      ensures !(log[i].mark == Restart && e.mark == Recheck) && log[i].mark != GaveUp
    {
      SpacedLine(s, e, next, scale, s.log[i]);
    }
  }

  lemma CountedAfter(s: State, e: Event, next: Auto, scale: int)
    requires Inv(s, scale) && s.since == Some(e.spell) && s.last == e.at
    requires Proposes(AutoOf(s.auto, s.since, s.last), e, next, scale)
    ensures Counted(s.(log := s.log + [e], auto := Some(next)))
  {
    hide Timed, Agrees, Bounded, Spaced, Count, Recent;
    assert (s.log + [e])[..|s.log|] == s.log;
    StartsFrom(s, e.spell, scale);
  }

  lemma TimedAfter(s: State, e: Event, next: Auto, scale: int)
    requires Inv(s, scale) && s.since == Some(e.spell) && s.last == e.at
    requires Proposes(AutoOf(s.auto, s.since, s.last), e, next, scale)
    ensures Timed(s.(log := s.log + [e], auto := Some(next)))
  {
    hide Logged, Agrees, Bounded, Spaced, Backed, Count, Recent, InSpell;
    BackedAfter(AutoOf(s.auto, s.since, s.last), s.log, e, next, scale) by { AutoBacked(s, scale); }
  }

  lemma AutoBacked(s: State, scale: int)
    requires Inv(s, scale)
    ensures Backed(AutoOf(s.auto, s.since, s.last), s.log)
  {
    hide Logged, Agrees, Bounded, Spaced;
  }

  lemma BackedAfter(a: Auto, log: seq<Event>, e: Event, next: Auto, scale: int)
    requires Backed(a, log) && Proposes(a, e, next, scale)
    ensures Backed(next, log + [e])
  {
    assert e in log + [e];
    assert forall x <- log :: x in log + [e];
  }

  lemma NextDay(s: State, e: Event, next: Auto, scale: int)
    requires s.last == e.at && Proposes(AutoOf(s.auto, s.since, s.last), e, next, scale)
    ensures next.day == if e.mark == GaveUp then Recent(DayOf(s.auto), e.at)
            else Recent(DayOf(s.auto), e.at) + [Entry(e.mark, e.at)]
  {
  }

  lemma WroteKeeps(base: State, after: State, e: Event, next: Auto, scale: int)
    requires Inv(base, scale) && Wrote(base, after, e, next, scale) && scale > 0
    ensures Inv(after, scale)
  {
    hide Counted, Timed, Agrees, Bounded, Spaced, Proposes, AutoOf, Count, Recent;
    BoundedAfter(base, e, next, scale);
    SpacedAfter(base, e, next, scale);
    CountedAfter(base, e, next, scale);
    TimedAfter(base, e, next, scale);
    NextDay(base, e, next, scale);
    AgreesAfter(base.auto, base.log, next, e);
  }

  lemma StepKeeps(s: State, c: Claim, scale: int)
    requires Inv(s, scale) && s.last <= c.now && scale > 0
    ensures Inv(Step(s, c, scale), scale)
  {
    hide Inv, Step, Claimed, Wrote;
    ClaimedKeeps(s, c, scale);
    WritesSo(s, c, scale);
    if Step(s, c, scale) != Claimed(s, c) {
      var e, next :| Wrote(Claimed(s, c), Step(s, c, scale), e, next, scale);
      WroteKeeps(Claimed(s, c), Step(s, c, scale), e, next, scale);
    }
  }

  /** Every run of claims, at any scale: per spell, per day, apart, and the pruned day as the full log says. */
  lemma {:induction false} RunKeeps(claims: seq<Claim>, scale: int)
    requires InTime(claims) && scale > 0
    ensures Inv(Run(claims, scale), scale)
    ensures claims != [] ==> Run(claims, scale).last == claims[|claims| - 1].now
    decreases |claims|
  {
    if claims != [] {
      var before, last := claims[..|claims| - 1], claims[|claims| - 1];
      RunKeeps(before, scale);
      StepKeeps(Run(before, scale), last, scale);
    }
  }

  /** At every decision of every run, what the pruned day counts is what the full log says of the last 24 hours. */
  lemma DayAgrees(claims: seq<Claim>, scale: int, spell: Option<int>, mark: Mark, now: int)
    requires InTime(claims) && scale > 0 && mark != GaveUp
    requires claims == [] || claims[|claims| - 1].now <= now
    ensures Count(AutoOf(Run(claims, scale).auto, spell, now).day, mark) == Within(Run(claims, scale).log, mark, now)
  {
    RunKeeps(claims, scale);
    assert Within(Run(claims, scale).log, mark, now) == Count(Recent(DayOf(Run(claims, scale).auto), now), mark);
  }

  /**
   * At most one re-check, two restarts and one end in a spell; at most three of
   * each order in any 24 hours, across spells.
   */
  lemma RunBounded(claims: seq<Claim>, scale: int, spell: int, from: int)
    requires InTime(claims) && scale > 0
    ensures var log := Run(claims, scale).log;
            && InSpell(log, Recheck, spell) <= 1 && InSpell(log, Restart, spell) <= 2
               && InSpell(log, GaveUp, spell) <= 1
            && InDay(log, Recheck, from) <= 3 && InDay(log, Restart, from) <= 3
  {
    RunKeeps(claims, scale);
    EndsOnce(Run(claims, scale).log, scale, spell);
    var log := Run(claims, scale).log;
    assert InSpell(log, Recheck, spell) <= 1 && InSpell(log, Restart, spell) <= 2 && InDay(log, Recheck, from) <= 3
           && InDay(log, Restart, from) <= 3;
  }

  lemma {:induction false} EndsOnce(log: seq<Event>, scale: int, spell: int)
    requires Spaced(log, scale)
    ensures InSpell(log, GaveUp, spell) <= 1
    ensures InSpell(log, GaveUp, spell) > 0 ==> exists e <- log :: e.mark == GaveUp && e.spell == spell
  {
    if log != [] {
      EndsOnce(log[..|log| - 1], scale, spell);
    }
  }

  /**
   * Restarts of one spell stand the spacing apart, only the first through the
   * shared agent service, no re-check comes after one, and nothing after the
   * spell's end.
   */
  lemma RunApart(claims: seq<Claim>, scale: int, i: nat, j: nat)
    requires InTime(claims) && scale > 0
    ensures var log := Run(claims, scale).log; i < j < |log| && log[i].spell == log[j].spell ==>
            && log[i].mark != GaveUp && !(log[i].mark == Restart && log[j].mark == Recheck)
            && (log[i].mark == Restart && log[j].mark == Restart ==>
                  Past(log[j].at - log[i].at, RESTART_SPACING, scale) && log[j].kind != Some(RestartAgent))
  {
    hide Counted, Timed, Agrees, Bounded, Run, Past;
    RunKeeps(claims, scale);
  }

  /**
   * A restart its worker takes and survives: the shared agent service only while
   * it answers no sibling, a broker only in a pair.
   */
  predicate Survives(x: Seen, kind: Option<Order>) {
    && kind.Some? && x.takes.Some? && kind.value in x.takes.value && kind.value != RecheckAgent
    && (kind.value == RestartAgent ==> x.via == Sibling && !x.siblingAnswers)
    && (x.via == Broker ==> x.pairRestart)
  }

  /**
   * Why a line is written, from what its claim saw, how many restarts its spell
   * had and whether the last was long ago: the end comes after both restarts, or
   * where the site refuses the first.
   */
  predicate Warrants(e: Event, restarts: nat, longAgo: bool, scale: int) {
    var x := e.facts;
    && x.status == Fails && x.spell == Some(e.spell) && !x.conflict && !x.drained && x.needsAgent
    && x.takes.Some? && x.open == 0 && x.cls !in {Auth, Credit, Rate, Remote}
    && match e.mark
       case Recheck =>
         && e.kind == Some(RecheckAgent) && RecheckAgent in x.takes.value && restarts == 0
         && Past(e.at - e.spell, RECHECK_AFTER, scale)
         && (x.probeAge.None? || Past(x.probeAge.value, RECHECK_AFTER, scale))
       case Restart =>
         && Worth(e) && Survives(x, e.kind) && x.instanceSince.Some? && e.at - x.instanceSince.value >= MIN_UPTIME
         && (restarts == 0 ==> Past(e.at - e.spell, RESTART_AFTER, scale))
       case GaveUp =>
         && Worth(e) && e.kind.None?
         && (if restarts == 0 then x.via == Sibling && !x.siblingAnswers && Past(e.at - e.spell, RESTART_AFTER, scale)
             else restarts >= RESTARTS_PER_SPELL && longAgo)
  }

  /** A line of the log was warranted, by the lines before it. */
  ghost predicate Warranted(log: seq<Event>, i: nat, scale: int)
    requires i < |log|
  {
    Warrants(log[i], InSpell(log[..i], Restart, log[i].spell), RestartsPast(log[..i], log[i], scale), scale)
  }

  /** Every restart of a line's spell is the time to give up old by then. */
  ghost predicate RestartsPast(before: seq<Event>, e: Event, scale: int) {
    forall f <- before | f.spell == e.spell && f.mark == Restart :: Past(e.at - f.at, GIVE_UP_AFTER, scale)
  }

  /** A line of a worker the rules may restart: no host, its error known. */
  predicate Worth(e: Event) {
    !e.facts.host && e.facts.cls != Unknown
  }

  /** The same from the counts and the times a decision starts from. */
  predicate Grounded(a: Auto, e: Event, scale: int) {
    Warrants(e, a.restarts, PastSince(a.lastRestart, e.at, GIVE_UP_AFTER, scale), scale)
  }

  lemma StepGrounded(s: State, c: Claim, scale: int)
    ensures var log, base := Step(s, c, scale).log, Claimed(s, c);
            log == s.log ||
            (|log| == |s.log| + 1 && log[..|s.log|] == s.log && log[|s.log|].at == c.now
             && base.since == Some(log[|s.log|].spell)
             && Grounded(AutoOf(base.auto, base.since, base.last), log[|s.log|], scale))
  {
    hide Recent, Count;
  }

  lemma GroundedWarrants(base: State, e: Event, scale: int)
    requires Inv(base, scale) && base.since == Some(e.spell) && base.last == e.at && scale > 0
    requires Grounded(AutoOf(base.auto, base.since, base.last), e, scale)
    ensures Warranted(base.log + [e], |base.log|, scale)
  {
    hide Agrees, Spaced, Recent, Count, InDay, Survives, Past, Worth;
    assert (base.log + [e])[..|base.log|] == base.log;
    StartsFrom(base, e.spell, scale);
    EndsLate(base, e, scale);
    assert InSpell(base.log, Restart, e.spell) <= RESTARTS_PER_SPELL;
  }

  lemma StepWarranted(s: State, c: Claim, scale: int)
    requires Inv(s, scale) && s.last <= c.now && scale > 0
    ensures var log := Step(s, c, scale).log;
            log == s.log || (|log| == |s.log| + 1 && log[..|s.log|] == s.log && Warranted(log, |s.log|, scale))
  {
    hide Inv, Step, Grounded, Warranted;
    var log := Step(s, c, scale).log;
    StepGrounded(s, c, scale);
    if log != s.log {
      ClaimedKeeps(s, c, scale);
      GroundedWarrants(Claimed(s, c), log[|s.log|], scale);
      assert s.log + [log[|s.log|]] == log;
    }
  }

  /** The restarts of a spell are no later than the last one beside the row. */
  lemma EndsLate(s: State, e: Event, scale: int)
    requires Inv(s, scale) && s.since == Some(e.spell)
    ensures var a := AutoOf(s.auto, s.since, s.last);
            PastSince(a.lastRestart, e.at, GIVE_UP_AFTER, scale) && scale > 0 ==> RestartsPast(s.log, e, scale)
  {
  }

  /**
   * When the rules write at all, on any run: every line of the full log was
   * warranted by what its claim saw and by the lines before it.
   */
  lemma {:induction false} RunWarranted(claims: seq<Claim>, scale: int, i: nat)
    requires InTime(claims) && scale > 0 && i < |Run(claims, scale).log|
    ensures Warranted(Run(claims, scale).log, i, scale)
    decreases |claims|
  {
    hide Warranted, Inv, Step;
    if claims != [] {
      var before, c := claims[..|claims| - 1], claims[|claims| - 1];
      var s := Run(before, scale);
      RunKeeps(before, scale);
      assert claims[0].now <= c.now && before == [] ==> s == START;
      StepWarranted(s, c, scale);
      if i < |s.log| {
        RunWarranted(before, scale, i);
        SameWarrant(s.log, Run(claims, scale).log, i, scale);
      }
    }
  }

  lemma SameWarrant(log: seq<Event>, after: seq<Event>, i: nat, scale: int)
    requires i < |log| <= |after| && after[..|log|] == log && Warranted(log, i, scale)
    ensures Warranted(after, i, scale)
  {
    assert after[..i] == log[..i] && after[i] == log[i];
  }

  // ---------- progress ----------

  /**
   * Nothing is in the way of the rules at this claim: the agent fails, for a
   * reason a restart may help, on a worker that takes one.
   */
  predicate Helpful(c: Claim) {
    var x := c.facts;
    && c.probe == Some(Fails) && !c.forgotten && c.fate == Accepted
    && x.takes.Some? && RestartWorker in x.takes.value && !x.conflict && !x.drained && x.needsAgent && x.open == 0
    && x.cls in {Refused, Dns, Install, SiblingFails} && !x.host && (x.via == Broker ==> x.pairRestart)
    && x.instanceSince.Some? && c.now - x.instanceSince.value >= MIN_UPTIME
  }

  /** Every order of the spell is at least the longest spacing old. */
  ghost predicate Quiet(log: seq<Event>, spell: int, now: int, scale: int) {
    forall e <- log | e.spell == spell :: Past(now - e.at, GIVE_UP_AFTER, scale)
  }

  ghost predicate HasEnded(log: seq<Event>, spell: int) {
    exists e <- log :: e.mark == GaveUp && e.spell == spell
  }

  /** The day's restarts are spent. */
  predicate Spent(log: seq<Event>, now: int) {
    Within(log, Restart, now) >= RESTARTS_PER_DAY
  }

  /** What a claim the rules may help finds: the counts and times they decide from, each what the log says. */
  lemma Finds(s: State, now: int, scale: int)
    requires Inv(s, scale) && s.since.Some? && s.last <= now && scale > 0
    requires !HasEnded(s.log, s.since.value) && !Spent(s.log, now) && Quiet(s.log, s.since.value, now, scale)
    ensures var a := AutoOf(s.auto, s.since, now);
            && a.gaveUp.None? && Count(a.day, Restart) < RESTARTS_PER_DAY
            && (a.lastRecheck.Some? ==> PastSince(a.lastRecheck, now, GIVE_UP_AFTER, scale))
            && (a.restarts > 0 ==> PastSince(a.lastRestart, now, GIVE_UP_AFTER, scale))
  {
    hide Bounded, Spaced, Within;
    assert Within(s.log, Restart, now) == Count(Recent(DayOf(s.auto), now), Restart);
  }

  /**
   * The rules never stall. On any run, at a claim they may help, ten minutes
   * or more into its spell and thirty or more after the spell's last order, an
   * order goes out or the spell's restarts end, unless they ended before or
   * three restarts stand in the last 24 hours.
   */
  lemma Progress(claims: seq<Claim>, c: Claim, scale: int)
    requires InTime(claims + [c]) && scale > 0 && Helpful(c)
    requires var s := Run(claims, scale);
             s.since.Some? && Past(c.now - s.since.value, RESTART_AFTER, scale)
             && Quiet(s.log, s.since.value, c.now, scale)
    ensures var s, after := Run(claims, scale), Run(claims + [c], scale);
            && after.since == s.since
            && (HasEnded(s.log, s.since.value) || Spent(s.log, c.now) ||
                exists e :: after.log == s.log + [e] && e.spell == s.since.value && e.at == c.now)
  {
    hide Inv, HasEnded, Spent, Quiet, Recent, Count, Decide, Past;
    assert (claims + [c])[..|claims|] == claims;
    LastIs(claims, c);
    RunKeeps(claims, scale);
    var s := Run(claims, scale);
    if !HasEnded(s.log, s.since.value) && !Spent(s.log, c.now) {
      Finds(s, c.now, scale);
      WritesOne(s, c, scale);
    }
  }

  lemma LastIs(claims: seq<Claim>, c: Claim)
    requires InTime(claims + [c])
    ensures InTime(claims) && (claims != [] ==> claims[|claims| - 1].now <= c.now) && 0 <= c.now
  {
    var all := claims + [c];
    assert all[|claims|] == c;
    assert forall i | 0 <= i < |claims| :: all[i] == claims[i];
  }

  /** How many lines a spell has. */
  function Lines(log: seq<Event>, spell: int): nat {
    if log == [] then 0 else Lines(log[..|log| - 1], spell) + (if log[|log| - 1].spell == spell then 1 else 0)
  }

  lemma {:induction false} LinesAre(log: seq<Event>, spell: int)
    ensures Lines(log, spell) == InSpell(log, Recheck, spell) + InSpell(log, Restart, spell)
              + InSpell(log, GaveUp, spell)
    ensures InSpell(log, GaveUp, spell) > 0 ==> HasEnded(log, spell)
  {
    if log != [] {
      LinesAre(log[..|log| - 1], spell);
    }
  }

  /** Claims the rules may help, each the longest spacing after the one before. */
  ghost predicate Pressed(claims: seq<Claim>, scale: int) {
    && (forall c <- claims :: Helpful(c))
    && forall i | 0 < i < |claims| :: Past(claims[i].now - claims[i - 1].now, GIVE_UP_AFTER, scale)
  }

  /** At some claim of these the day's restarts were spent. */
  ghost predicate SpentAt(before: seq<Claim>, claims: seq<Claim>, scale: int) {
    exists i: nat | i < |claims| :: Spent(Run(before + claims[..i], scale).log, claims[i].now)
  }

  /** Each such claim writes one line more, until the spell's restarts end or the day's are spent. */
  lemma {:induction false} PressedWrites(before: seq<Claim>, claims: seq<Claim>, spell: int, scale: int)
    requires InTime(before + claims) && scale > 0 && Pressed(claims, scale) && Run(before, scale).since == Some(spell)
    requires claims != [] ==>
               Past(claims[0].now - spell, RESTART_AFTER, scale)
               && Quiet(Run(before, scale).log, spell, claims[0].now, scale)
    ensures var log := Run(before + claims, scale).log;
            HasEnded(log, spell) || SpentAt(before, claims, scale) || Lines(log, spell) >= |claims|
    ensures Run(before + claims, scale).since == Some(spell)
    decreases |claims|
  {
    hide *;
    if claims == [] {
      assert before + claims == before;
    } else {
      var front, c := claims[..|claims| - 1], claims[|claims| - 1];
      assert front + [c] == claims && before + claims == before + front + [c];
      PressedFront(before, claims, spell, scale);
      PressedWrites(before, front, spell, scale);
      PressedStep(before, front, c, spell, scale);
    }
  }

  /** All of them but the last, and what the last finds. */
  lemma PressedFront(before: seq<Claim>, claims: seq<Claim>, spell: int, scale: int)
    requires InTime(before + claims) && scale > 0 && Pressed(claims, scale) && claims != []
    requires Past(claims[0].now - spell, RESTART_AFTER, scale)
             && Quiet(Run(before, scale).log, spell, claims[0].now, scale)
    ensures var front, c := claims[..|claims| - 1], claims[|claims| - 1];
            && InTime(before + front) && Pressed(front, scale)
            && Helpful(c) && Past(c.now - spell, RESTART_AFTER, scale)
               && Quiet(Run(before + front, scale).log, spell, c.now, scale)
  {
    hide Past, Helpful, Quiet, Run;
    var front, c := claims[..|claims| - 1], claims[|claims| - 1];
    PressedLast(before, claims, spell, scale);
    assert before + claims == before + front + [c];
    LastIs(before + front, c);
    assert forall x <- front :: x in claims;
    if front == [] {
      assert before + front == before;
    } else {
      assert (before + front)[|before + front| - 1] == claims[|claims| - 2];
      QuietAfter(before + front, spell, c.now, scale);
    }
  }

  /** The last of them comes late enough in the spell, and late enough after the one before it. */
  lemma PressedLast(before: seq<Claim>, claims: seq<Claim>, spell: int, scale: int)
    requires InTime(before + claims) && scale > 0 && Pressed(claims, scale) && claims != []
             && Past(claims[0].now - spell, RESTART_AFTER, scale)
    ensures var c := claims[|claims| - 1]; Helpful(c) && Past(c.now - spell, RESTART_AFTER, scale)
    ensures |claims| > 1 ==> Past(claims[|claims| - 1].now - claims[|claims| - 2].now, GIVE_UP_AFTER, scale)
  {
    hide Past, Helpful;
    var all, c := before + claims, claims[|claims| - 1];
    assert all[|before|] == claims[0] && all[|all| - 1] == c && c in claims;
    PastMore(c.now - spell, claims[0].now - spell, RESTART_AFTER, scale);
  }

  lemma PastMore(a: int, b: int, m: int, scale: int)
    requires a >= b && scale > 0 && Past(b, m, scale)
    ensures Past(a, m, scale)
  {
    assert a * scale >= b * scale;
  }

  /** No line of a run is later than its last claim. */
  lemma QuietAfter(claims: seq<Claim>, spell: int, now: int, scale: int)
    requires claims != [] && InTime(claims) && scale > 0 && Past(now - claims[|claims| - 1].now, GIVE_UP_AFTER, scale)
    ensures Quiet(Run(claims, scale).log, spell, now, scale)
  {
    hide Past, Run, Agrees, Bounded, Spaced, Timed;
    RunKeeps(claims, scale);
    var last := claims[|claims| - 1].now;
    forall e <- Run(claims, scale).log ensures Past(now - e.at, GIVE_UP_AFTER, scale) {
      assert e.at <= last;
      PastMore(now - e.at, now - last, GIVE_UP_AFTER, scale);
    }
  }

  lemma PressedStep(before: seq<Claim>, front: seq<Claim>, c: Claim, spell: int, scale: int)
    requires InTime(before + front + [c]) && scale > 0 && Helpful(c) && Run(before + front, scale).since == Some(spell)
    requires Past(c.now - spell, RESTART_AFTER, scale) && Quiet(Run(before + front, scale).log, spell, c.now, scale)
    requires var log := Run(before + front, scale).log;
    HasEnded(log, spell) || SpentAt(before, front, scale) || Lines(log, spell) >= |front|
    ensures var log := Run(before + front + [c], scale).log;
            HasEnded(log, spell) || SpentAt(before, front + [c], scale) || Lines(log, spell) >= |front| + 1
    ensures Run(before + front + [c], scale).since == Some(spell)
  {
    hide Quiet, Run, Helpful, Past, Spent, HasEnded, InTime, Lines;
    var done := before + front;
    var log, after := Run(done, scale).log, Run(done + [c], scale).log;
    Progress(done, c, scale);
    LogGrows(done, c, scale);
    if HasEnded(log, spell) {
      EndedStays(log, after, spell);
    } else if SpentAt(before, front, scale) {
      var i: nat :| i < |front| && Spent(Run(before + front[..i], scale).log, front[i].now);
      assert (front + [c])[..i] == front[..i] && (front + [c])[i] == front[i];
    } else if Spent(log, c.now) {
      assert (front + [c])[..|front|] == front && (front + [c])[|front|] == c;
    } else {
      var e :| after == log + [e] && e.spell == spell && e.at == c.now;
      LinesLast(log, e, spell);
    }
  }

  lemma LinesLast(log: seq<Event>, e: Event, spell: int)
    ensures Lines(log + [e], spell) == Lines(log, spell) + (if e.spell == spell then 1 else 0)
  {
    assert (log + [e])[..|log|] == log;
  }

  lemma EndedStays(log: seq<Event>, after: seq<Event>, spell: int)
    requires HasEnded(log, spell) && log <= after
    ensures HasEnded(after, spell)
  {
    var e :| e in log && e.mark == GaveUp && e.spell == spell;
    assert e in after;
  }

  lemma LogGrows(claims: seq<Claim>, c: Claim, scale: int)
    ensures Run(claims, scale).log <= Run(claims + [c], scale).log
  {
    hide Decide;
    assert (claims + [c])[..|claims|] == claims;
  }

  /**
   * Four claims end a spell. From any run on, four claims the rules may help,
   * each thirty minutes or more after the one before, the first as long after
   * the spell's last order, leave its restarts ended for the site to see,
   * unless at one of them three restarts stood in the last 24 hours.
   */
  lemma EndsInFour(before: seq<Claim>, claims: seq<Claim>, spell: int, scale: int)
    requires InTime(before + claims) && scale > 0 && |claims| == 4 && Pressed(claims, scale)
             && Run(before, scale).since == Some(spell)
    requires Past(claims[0].now - spell, RESTART_AFTER, scale)
             && Quiet(Run(before, scale).log, spell, claims[0].now, scale)
    ensures HasEnded(Run(before + claims, scale).log, spell) || SpentAt(before, claims, scale)
  {
    hide HasEnded, SpentAt, Pressed, Quiet, Run, Lines, InSpell;
    PressedWrites(before, claims, spell, scale);
    var log := Run(before + claims, scale).log;
    RunBounded(before + claims, scale, spell, 0);
    LinesAre(log, spell);
  }

  lemma InTimeFront(claims: seq<Claim>, c: Claim)
    requires InTime(claims + [c])
    ensures InTime(claims)
  {
    LastIs(claims, c);
  }

  lemma WritesOne(s: State, c: Claim, scale: int)
    requires Helpful(c) && s.since.Some? && scale > 0 && Past(c.now - s.since.value, RESTART_AFTER, scale)
    requires var a := AutoOf(s.auto, s.since, c.now);
             && a.gaveUp.None? && Count(a.day, Restart) < RESTARTS_PER_DAY
             && (a.lastRecheck.Some? ==> PastSince(a.lastRecheck, c.now, GIVE_UP_AFTER, scale))
             && (a.restarts > 0 ==> PastSince(a.lastRestart, c.now, GIVE_UP_AFTER, scale))
    ensures exists e :: Step(s, c, scale).log == s.log + [e] && e.spell == s.since.value && e.at == c.now
  {
    hide Count, Recent;
    var after := Step(s, c, scale).log;
    assert !Decide(s.auto, Sees(s, c), c.now, scale).Nothing?;
    assert after == s.log + [after[|s.log|]];
  }
}
