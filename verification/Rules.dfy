/**
 * The pool's bounded rules for a worker whose agent does not answer
 * (worker/src/orders.ts `autoOf`, `decideAuto`): one decision. Times are
 * milliseconds on the pool's clock.
 */
module Rules {
  import opened Wrappers

  const MIN: int := 60000
  const DAY: int := 24 * 60 * MIN
  const RECHECK_AFTER: int := 5
  const RESTART_AFTER: int := 10
  const RESTART_SPACING: int := 30
  const GIVE_UP_AFTER: int := 30
  const MIN_UPTIME: int := 2 * MIN
  const RESTARTS_PER_SPELL: nat := 2
  const RESTARTS_PER_DAY: nat := 3
  const RECHECKS_PER_SPELL: nat := 1
  const RECHECKS_PER_DAY: nat := 3

  datatype Mark = Recheck | Restart | GaveUp

  datatype Entry = Entry(mark: Mark, at: int)

  /** The rules' state beside the worker's row. */
  datatype Auto = Auto(spell: Option<int>, rechecks: nat, restarts: nat, lastRecheck: Option<int>,
                       lastRestart: Option<int>,
                       gaveUp: Option<int>, day: seq<Entry>)

  datatype Order = RecheckAgent | RestartWorker | RestartAgent

  datatype Status = Answers | Fails | NotSaid

  datatype ErrorClass = Auth | Credit | Rate | Remote | Refused | Dns | Install | SiblingFails | Unknown

  datatype Via = Sibling | Broker | Otherwise

  /** What the rules read of one claim; `probeAge` None is a probe the pool never saw. */
  datatype Seen = Seen(takes: Option<set<Order>>, conflict: bool, drained: bool, needsAgent: bool, status: Status,
                       spell: Option<int>,
                       open: nat, cls: ErrorClass, via: Via, host: bool, siblingAnswers: bool, pairRestart: bool,
                       instanceSince: Option<int>, probeAge: Option<int>)

  datatype Decision = Nothing | Issue(kind: Order, unless: bool, next: Auto) | StopRestarting(next: Auto)

  /** The entries less than a day old. */
  function Recent(day: seq<Entry>, now: int): seq<Entry> {
    if day == [] then []
    else
      var e := day[|day| - 1];
      if now - e.at < DAY then Recent(day[..|day| - 1], now) + [e] else Recent(day[..|day| - 1], now)
  }

  function Count(day: seq<Entry>, mark: Mark): nat {
    if day == [] then 0 else Count(day[..|day| - 1], mark) + (if day[|day| - 1].mark == mark then 1 else 0)
  }

  function MarkOf(kind: Order): Mark {
    if kind == RecheckAgent then Recheck else Restart
  }

  lemma CountLast(day: seq<Entry>, e: Entry, mark: Mark)
    ensures Count(day + [e], mark) == Count(day, mark) + (if e.mark == mark then 1 else 0)
  {
    assert (day + [e])[..|day|] == day;
  }

  /** The state a decision starts from: the day pruned, and the counts afresh in a new spell. */
  function AutoOf(stored: Option<Auto>, spell: Option<int>, now: int): Auto {
    var day := if stored.Some? then Recent(stored.value.day, now) else [];
    if stored.Some? && stored.value.spell == spell then stored.value.(day := day)
       else Auto(spell, 0, 0, None, None, None, day)
  }

  /** `ms` milliseconds are at least `m` minutes of the step machine, `scale` times as fast in development. */
  predicate Past(ms: int, m: int, scale: int) {
    ms * scale >= m * MIN
  }

  predicate PastSince(since: Option<int>, now: int, m: int, scale: int) {
    since.Some? && Past(now - since.value, m, scale)
  }

  /** The order that helps, by where the agent is; none for a broker older than pair restart. */
  function Helps(x: Seen, auto: Auto): Option<Order>
    requires x.takes.Some?
  {
    match x.via
    case Sibling => Some(if RestartAgent in x.takes.value && !x.siblingAnswers && auto.restarts == 0 then RestartAgent
                         else RestartWorker)
    case Broker => if x.pairRestart then Some(RestartWorker) else None
    case Otherwise => Some(RestartWorker)
  }

  predicate RecheckDue(x: Seen, auto: Auto, now: int, scale: int)
    requires x.takes.Some? && x.spell.Some?
  {
    && Past(now - x.spell.value, RECHECK_AFTER, scale) && auto.restarts == 0 && auto.rechecks < RECHECKS_PER_SPELL
    && RecheckAgent in x.takes.value && Count(auto.day, Recheck) < RECHECKS_PER_DAY
    && (x.probeAge.None? || Past(x.probeAge.value, RECHECK_AFTER, scale))
  }

  predicate RestartTimed(spell: int, auto: Auto, now: int, scale: int) {
    if auto.restarts == 0 then
      Past(now - spell, RESTART_AFTER, scale)
      && (auto.lastRecheck.None? || PastSince(auto.lastRecheck, now, RECHECK_AFTER, scale))
    else PastSince(auto.lastRestart, now, RESTART_SPACING, scale)
  }

  function Decide(stored: Option<Auto>, x: Seen, now: int, scale: int): Decision {
    if x.takes.None? || x.conflict || x.drained || !x.needsAgent then Nothing
    else if x.status != Fails || x.spell.None? || x.open > 0 then Nothing
    else if x.cls in {Auth, Credit, Rate, Remote} then Nothing
    else
      var auto := AutoOf(stored, x.spell, now);
      if auto.gaveUp.Some? then Nothing
      else if RecheckDue(x, auto, now, scale) then
        Issue(RecheckAgent, false,
              auto.(rechecks := auto.rechecks + 1, lastRecheck := Some(now), day := auto.day + [Entry(Recheck, now)]))
      else if x.host || x.cls == Unknown then Nothing
      else if auto.restarts >= RESTARTS_PER_SPELL then
        if PastSince(auto.lastRestart, now, GIVE_UP_AFTER, scale) then StopRestarting(auto.(gaveUp := Some(now)))
           else Nothing
      else
        var kind := Helps(x, auto);
        if kind.None? || kind.value !in x.takes.value then Nothing
        else if !RestartTimed(x.spell.value, auto, now, scale) then Nothing
        else if x.instanceSince.None? || now - x.instanceSince.value < MIN_UPTIME then Nothing
        else if Count(auto.day, Restart) >= RESTARTS_PER_DAY then Nothing
        else Issue(kind.value, true,
                   auto.(restarts := auto.restarts + 1, lastRestart := Some(now), day := auto.day
                           + [Entry(Restart, now)]))
  }
}
