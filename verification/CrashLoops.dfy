/**
 * What the journal of one token's processes says (worker/src/orders.ts
 * `instanceStep`), from the list of claims and finished tasks: when a crash loop
 * is declared and when it ends, which watchdog exits are told, when two
 * processes are seen and when it is one again.
 */
module CrashLoops {
  import opened Wrappers
  import opened Instance

  /** A claim, or a task finished by the process that claimed last. */
  datatype Event = Claims(claim: Claim, at: int) | Finishes

  function After(row: Row, e: Event): Row {
    match e
    case Claims(c, at) => Step(row, c, at).row
    case Finishes => row.(finished := row.instance)
  }

  function State(es: seq<Event>): Row {
    if es == [] then NEW else After(State(es[..|es| - 1]), es[|es| - 1])
  }

  function Says(es: seq<Event>, i: nat): seq<Line>
    requires i < |es|
  {
    if es[i].Claims? then Step(State(es[..i]), es[i].claim, es[i].at).journal else []
  }

  /** The claims follow the pool's clock. */
  predicate OnClock(es: seq<Event>) {
    forall i, j | 0 <= i < j < |es| && es[i].Claims? && es[j].Claims? :: es[i].at <= es[j].at
  }

  // ---------- what happened before ----------

  /** The process the row names moved at an event. */
  predicate Moves(es: seq<Event>, i: nat) {
    i < |es| && es[i].Claims? && State(es[..i]).instance != State(es[..i + 1]).instance
  }

  /** A new process took the token: the row's moved, and no conflict stood before or stands after. */
  predicate Changes(es: seq<Event>, i: nat) {
    Moves(es, i) && State(es[..i]).conflictAt.None? && State(es[..i + 1]).conflictAt.None?
  }

  /** A change of process whose claim says that the watchdog ended the one before. */
  predicate Watches(es: seq<Event>, i: nat) {
    Changes(es, i) && es[i].claim.exit == Watchdog
  }

  datatype What = AMove | AChange | AWatch | AFinish

  predicate Is(es: seq<Event>, i: nat, what: What)
    requires i < |es|
  {
    match what
    case AMove => Moves(es, i)
    case AChange => Changes(es, i)
    case AWatch => Watches(es, i)
    case AFinish => es[i].Finishes?
  }

  /** The last such event before the nth. */
  function Last(es: seq<Event>, n: nat, what: What): (i: Option<nat>)
    requires n <= |es|
    ensures i.Some? ==> i.value < n && Is(es, i.value, what)
    ensures forall k | (if i.Some? then i.value + 1 else 0) <= k < n :: !Is(es, k, what)
  {
    if n == 0 then None else if Is(es, n - 1, what) then Some(n - 1) else Last(es, n - 1, what)
  }

  function Time(es: seq<Event>, i: nat): int
    requires i < |es|
  {
    if es[i].Claims? then es[i].at else 0
  }

  /** How long before a claim the last such event was; None when there was none. */
  function Ago(es: seq<Event>, i: nat, what: What): Option<int>
    requires i < |es|
  {
    match Last(es, i, what)
    case None => None
    case Some(j) => Some(Time(es, i) - Time(es, j))
  }

  /** The process the row names before an event finished the last task. */
  predicate HadFinished(es: seq<Event>, i: nat)
    requires i <= |es|
  {
    && State(es[..i]).instance.Some? && Last(es, i, AFinish).Some?
    && State(es[..Last(es, i, AFinish).value]).instance == State(es[..i]).instance
  }

  /**
   * A change of process that counts: the one before lived under ten minutes,
   * finished nothing, and nothing explains its end.
   */
  predicate Counted(es: seq<Event>, i: nat)
    requires i < |es|
  {
    && Changes(es, i) && State(es[..i]).instance.Some? && !HadFinished(es, i)
    && Ago(es, i, AChange).Some? && Ago(es, i, AChange).value < 10 * 60000
    && es[i].claim.exit == NotSaid && !es[i].claim.explained
  }

  /** How many changes in a row, this one the last, count. */
  function Streak(es: seq<Event>, i: nat): nat
    requires i < |es|
    decreases i
  {
    if !Counted(es, i) then 0 else 1 + Streak(es, Last(es, i, AChange).value)
  }

  /** The watchdog's exit that opened the 24 hours this one is told in. */
  function Opens(es: seq<Event>, i: nat): (o: nat)
    requires i < |es| && Watches(es, i)
    ensures o <= i && Watches(es, o)
    decreases i
  {
    match Last(es, i, AWatch)
    case None => i
    case Some(j) => if Time(es, i) - Time(es, Opens(es, j)) < 24 * 3600000 then Opens(es, j) else i
  }

  /** How many watchdog exits since. */
  function Exited(es: seq<Event>, i: nat): (n: nat)
    requires i < |es| && Watches(es, i)
    ensures n >= 1
    decreases i
  {
    if Opens(es, i) == i then 1 else 1 + Exited(es, Last(es, i, AWatch).value)
  }

  // ---------- the columns say what happened ----------

  ghost predicate MovesTold(row: Row, es: seq<Event>, n: nat)
    requires n <= |es|
  {
    match Last(es, n, AMove)
    case None => row.instance.None? && row.prev.None? && row.conflictAt.None?
    case Some(m) => row.prev == State(es[..m]).instance && row.prev != row.instance
                    && (row.conflictAt.Some? ==> row.otherAt == Some(Time(es, m)))
  }

  ghost predicate ChangesTold(row: Row, es: seq<Event>, n: nat)
    requires n <= |es|
  {
    match Last(es, n, AChange)
    case None => row.since.None? && row.churn == 0
    case Some(j) => row.since == Some(Time(es, j))
                    && (row.churn == Streak(es, j)
                        || (row.churn == 0 &&
                               exists k | j < k < n :: es[k].Claims? && es[k].at >= Time(es, j) + CHURN_CLEAR))
  }

  ghost predicate FinishTold(row: Row, es: seq<Event>, n: nat)
    requires n <= |es|
  {
    row.finished == match Last(es, n, AFinish) case None => None case Some(k) => State(es[..k]).instance
  }

  ghost predicate WatchTold(row: Row, es: seq<Event>, n: nat)
    requires n <= |es|
  {
    row.exits == match Last(es, n, AWatch)
                 case None => None
                 case Some(w) => Some(Exits(Exited(es, w), Time(es, Opens(es, w))))
  }

  ghost predicate Told(es: seq<Event>, n: nat)
    requires n <= |es|
  {
    var row := State(es[..n]);
    && MovesTold(row, es, n) && ChangesTold(row, es, n) && FinishTold(row, es, n) && WatchTold(row, es, n)
    && (row.crashLoop.None? ==> row.churn < CRASH_LOOP_AT)
  }

  lemma StateNext(es: seq<Event>, n: nat)
    requires n < |es|
    ensures State(es[..n + 1]) == After(State(es[..n]), es[n])
  {
    assert es[..n + 1][..n] == es[..n];
  }

  lemma TellsMoves(es: seq<Event>, n: nat)
    requires n < |es| && MovesTold(State(es[..n]), es, n)
    ensures MovesTold(State(es[..n + 1]), es, n + 1)
  {
    StateNext(es, n);
  }

  lemma TellsFinish(es: seq<Event>, n: nat)
    requires n < |es| && FinishTold(State(es[..n]), es, n)
    ensures FinishTold(State(es[..n + 1]), es, n + 1)
  {
    StateNext(es, n);
  }

  lemma TellsWatch(es: seq<Event>, n: nat)
    requires n < |es| && WatchTold(State(es[..n]), es, n)
    ensures WatchTold(State(es[..n + 1]), es, n + 1)
  {
    hide State, Changes, After, NewProcess, ExitsAfter, Exited, Opens;
    StateNext(es, n);
    ChangeIs(es, n);
    var row := State(es[..n]);
    if Changes(es, n) {
      NewExits(row, es[n].claim, es[n].at);
      if Watches(es, n) {
        ExitsOpen(es, n);
      }
    } else {
      QuietExits(row, es[n]);
    }
  }

  lemma NewExits(row: Row, c: Claim, now: int)
    ensures NewProcess(row, c, now).row.exits == if c.exit == Watchdog then Some(ExitsAfter(row, now)) else row.exits
  {
  }

  lemma ExitsOpen(es: seq<Event>, n: nat)
    requires n < |es| && es[n].Claims? && Watches(es, n) && WatchTold(State(es[..n]), es, n)
    ensures ExitsAfter(State(es[..n]), es[n].at) == Exits(Exited(es, n), Time(es, Opens(es, n)))
  {
    hide State, Changes;
    assert Is(es, n, AWatch);
    if Last(es, n, AWatch).Some? {
      var w := Last(es, n, AWatch).value;
      assert State(es[..n]).exits == Some(Exits(Exited(es, w), Time(es, Opens(es, w))));
      assert Exited(es, n) == if Opens(es, n) == n then 1 else 1 + Exited(es, w);
    }
  }

  lemma QuietExits(row: Row, e: Event)
    requires !(e.Claims? && row.conflictAt.None? && e.claim.instance != row.instance && !Returns(row, e.claim, e.at))
    ensures After(row, e).exits == row.exits
  {
  }

  lemma ChangeIs(es: seq<Event>, n: nat)
    requires n < |es|
    ensures Changes(es, n) <==>
              && es[n].Claims? && State(es[..n]).conflictAt.None? && es[n].claim.instance != State(es[..n]).instance
              && !Returns(State(es[..n]), es[n].claim, es[n].at)
    ensures Changes(es, n) ==>
              && After(State(es[..n]), es[n]) == NewProcess(State(es[..n]), es[n].claim, es[n].at).row
              && Says(es, n) == NewProcess(State(es[..n]), es[n].claim, es[n].at).journal
  {
    hide NewProcess, Returns;
    StateNext(es, n);
    var row := State(es[..n]);
    if es[n].Claims? && row.conflictAt.None? && es[n].claim.instance != row.instance
       && !Returns(row, es[n].claim, es[n].at) {
      NewIs(row, es[n].claim, es[n].at);
    }
  }

  lemma NewIs(row: Row, c: Claim, now: int)
    ensures var after := NewProcess(row, c, now).row;
            && after.instance == c.instance && after.conflictAt == row.conflictAt && after.since == Some(now)
            && after.churn == (if row.crashLoop.Some? && row.instance.Some? && row.finished == row.instance then 0
                               else ChurnAfter(row, c, now))
  {
  }

  lemma HadFinishedIs(es: seq<Event>, n: nat)
    requires n < |es| && FinishTold(State(es[..n]), es, n)
    ensures HadFinished(es, n) <==>
              State(es[..n]).instance.Some? && State(es[..n]).finished == State(es[..n]).instance
  {
  }

  /** The count of a new process is the streak. */
  lemma ChurnIs(es: seq<Event>, n: nat)
    requires OnClock(es) && n < |es| && Changes(es, n)
    requires ChangesTold(State(es[..n]), es, n) && FinishTold(State(es[..n]), es, n)
    ensures ChurnAfter(State(es[..n]), es[n].claim, es[n].at) == Streak(es, n)
    ensures HadFinished(es, n) ==> Streak(es, n) == 0
  {
    hide State, Streak, Changes, HadFinished;
    HadFinishedIs(es, n);
    StreakIs(es, n);
    var row := State(es[..n]);
    assert es[n].Claims? by { ChangeIs(es, n); }
    if Counted(es, n) {
      var j := Last(es, n, AChange).value;
      assert es[j].Claims? by { ChangeIs(es, j); }
      assert forall k | j < k < n && es[k].Claims? :: es[k].at <= es[n].at;
      assert row.churn == Streak(es, j);
    }
  }

  lemma StreakIs(es: seq<Event>, n: nat)
    requires n < |es|
    ensures Streak(es, n) == if !Counted(es, n) then 0 else 1 + Streak(es, Last(es, n, AChange).value)
  {
  }

  lemma TellsChanges(es: seq<Event>, n: nat)
    requires OnClock(es) && n < |es| && ChangesTold(State(es[..n]), es, n) && FinishTold(State(es[..n]), es, n)
    ensures ChangesTold(State(es[..n + 1]), es, n + 1)
  {
    hide State, Streak, Changes, Step, ChurnAfter, NewProcess, HadFinished;
    StateNext(es, n);
    var row := State(es[..n]);
    if Changes(es, n) {
      ChangeIs(es, n);
      ChurnIs(es, n);
      HadFinishedIs(es, n);
      NewIs(row, es[n].claim, es[n].at);
      assert Last(es, n + 1, AChange) == Some(n);
    } else {
      assert Last(es, n + 1, AChange) == Last(es, n, AChange);
      ChangeIs(es, n);
      QuietSince(row, es[n]);
    }
  }

  /** Where no process is new, the count stays, or ends with a process that stays up. */
  lemma QuietSince(row: Row, e: Event)
    requires !(e.Claims? && row.conflictAt.None? && e.claim.instance != row.instance && !Returns(row, e.claim, e.at))
    ensures var after := After(row, e);
            && after.since == row.since
            && (after.churn == row.churn
                || (after.churn == 0 && e.Claims? && row.since.Some? && e.at >= row.since.value + CHURN_CLEAR))
  {
  }

  lemma FewerThanThree(es: seq<Event>, n: nat)
    requires n < |es| && (State(es[..n]).crashLoop.None? ==> State(es[..n]).churn < CRASH_LOOP_AT)
    ensures State(es[..n + 1]).crashLoop.None? ==> State(es[..n + 1]).churn < CRASH_LOOP_AT
  {
    StateNext(es, n);
  }

  lemma {:induction false} AllTold(es: seq<Event>, n: nat)
    requires OnClock(es) && n <= |es|
    ensures Told(es, n)
    decreases n
  {
    hide State, MovesTold, ChangesTold, FinishTold, WatchTold;
    if n == 0 {
      NothingTold(es);
    } else {
      AllTold(es, n - 1);
      TellsMoves(es, n - 1);
      TellsChanges(es, n - 1);
      TellsFinish(es, n - 1);
      TellsWatch(es, n - 1);
      FewerThanThree(es, n - 1);
    }
  }

  lemma NothingTold(es: seq<Event>)
    ensures Told(es, 0)
  {
    assert es[..0] == [];
  }

  // ---------- crash loops ----------

  /** Three changes of process in a row count, this one the third. */
  predicate ThirdInARow(es: seq<Event>, i: nat)
    requires i < |es|
  {
    && Counted(es, i)
    && var j := Last(es, i, AChange).value;
    && Counted(es, j)
    && var k := Last(es, j, AChange).value;
    && Counted(es, k)
    && (Last(es, k, AChange).Some? ==> !Counted(es, Last(es, k, AChange).value))
  }

  /**
   * A crash loop is declared exactly at the third process change in a row before
   * which the process lived under ten minutes, finished nothing and ended with
   * nothing to explain it, while none is declared.
   */
  lemma DeclaredExactly(es: seq<Event>, i: nat)
    requires OnClock(es) && i < |es|
    ensures CrashLooping in Says(es, i) <==> ThirdInARow(es, i) && State(es[..i]).crashLoop.None?
    ensures CrashLooping in Says(es, i) <==> State(es[..i]).crashLoop.None? && State(es[..i + 1]).crashLoop.Some?
    ensures CrashLooping in Says(es, i) ==> State(es[..i + 1]).crashLoop == Some(es[i].at)
  {
    hide State, Streak, Changes, Step, HadFinished, ChurnAfter, NewProcess, ThirdInARow, Counted;
    AllTold(es, i);
    StateNext(es, i);
    ChangeIs(es, i);
    StepSays(es, i);
    if Changes(es, i) {
      ChurnIs(es, i);
      HadFinishedIs(es, i);
      NewSays(State(es[..i]), es[i].claim, es[i].at);
      StreakBefore(es, i);
    } else {
      QuietSays(State(es[..i]), es[i]);
      NotThird(es, i);
    }
  }

  lemma NotThird(es: seq<Event>, i: nat)
    requires i < |es| && !Changes(es, i)
    ensures !ThirdInARow(es, i)
  {
  }

  /** The third in a row is a streak of three. */
  lemma StreakBefore(es: seq<Event>, i: nat)
    requires i < |es|
    ensures ThirdInARow(es, i) <==> Streak(es, i) == 3
  {
    hide Changes, State, HadFinished, Streak;
    StreakIs(es, i);
    if Counted(es, i) {
      var j := Last(es, i, AChange).value;
      StreakIs(es, j);
      if Counted(es, j) {
        var k := Last(es, j, AChange).value;
        StreakIs(es, k);
        if Counted(es, k) {
          StreakIs(es, Last(es, k, AChange).value);
        }
      }
    }
  }

  lemma StepSays(es: seq<Event>, i: nat)
    requires i < |es|
    ensures Says(es, i) == if es[i].Claims? then Step(State(es[..i]), es[i].claim, es[i].at).journal else []
  {
  }

  lemma NewSays(row: Row, c: Claim, now: int)
    ensures var out, works := NewProcess(row, c, now),
              row.crashLoop.Some? && row.instance.Some? && row.finished == row.instance;
            && (CrashLooping in out.journal <==> !works && ChurnAfter(row, c, now) >= 3 && row.crashLoop.None?)
            && ChurnAfter(row, c, now) <= row.churn + 1
            && out.row.crashLoop == (if works then None
                                   else if CrashLooping in out.journal then Some(now) else row.crashLoop)
            && (WorksAgain in out.journal <==> works) && StaysUp !in out.journal
            && (forall n :: WatchdogExit(n) in out.journal <==>
                  c.exit == Watchdog && n == ExitsAfter(row, now).n && (n == 1 || n == 3))
  {
  }

  lemma QuietSays(row: Row, e: Event)
    requires !(e.Claims? && row.conflictAt.None? && e.claim.instance != row.instance && !Returns(row, e.claim, e.at))
    ensures var journal := if e.Claims? then Step(row, e.claim, e.at).journal else [];
            && CrashLooping !in journal && WorksAgain !in journal && (forall n :: WatchdogExit(n) !in journal)
            && (StaysUp in journal <==>
                  && e.Claims? && row.crashLoop.Some? && e.claim.instance == row.instance
                  && After(row, e).conflictAt.None?
                  && row.since.Some? && e.at - row.since.value >= 30 * 60000)
            && After(row, e).crashLoop == if StaysUp in journal then None else row.crashLoop
  {
  }

  /**
   * It ends exactly when a process that finished a task gives way to another, or
   * when the token's one process claims thirty minutes after it took over.
   */
  lemma ClearedExactly(es: seq<Event>, i: nat)
    requires OnClock(es) && i < |es| && State(es[..i]).crashLoop.Some?
    ensures WorksAgain in Says(es, i) <==> Changes(es, i) && HadFinished(es, i)
    ensures StaysUp in Says(es, i) <==>
              && es[i].Claims? && es[i].claim.instance == State(es[..i]).instance && State(es[..i + 1]).conflictAt.None?
              && Ago(es, i, AChange).Some? && Ago(es, i, AChange).value >= 30 * 60000
    ensures State(es[..i + 1]).crashLoop ==
              if WorksAgain in Says(es, i) || StaysUp in Says(es, i) then None else State(es[..i]).crashLoop
  {
    hide State, Streak, Changes, Step, HadFinished, ChurnAfter, NewProcess;
    AllTold(es, i);
    StateNext(es, i);
    ChangeIs(es, i);
    StepSays(es, i);
    HadFinishedIs(es, i);
    if Changes(es, i) {
      NewSays(State(es[..i]), es[i].claim, es[i].at);
    } else {
      QuietSays(State(es[..i]), es[i]);
    }
  }

  // ---------- the watchdog ----------

  /**
   * The watchdog's exits are counted from one that opens 24 hours, and told at
   * the first and the third.
   */
  lemma WatchdogExactly(es: seq<Event>, i: nat, n: nat)
    requires OnClock(es) && i < |es|
    ensures WatchdogExit(n) in Says(es, i) <==> Watches(es, i) && n == Exited(es, i) && (n == 1 || n == 3)
  {
    hide State, Streak, Changes, Step, HadFinished, ChurnAfter, NewProcess;
    AllTold(es, i);
    StateNext(es, i);
    ChangeIs(es, i);
    StepSays(es, i);
    if Changes(es, i) {
      NewSays(State(es[..i]), es[i].claim, es[i].at);
    } else {
      QuietSays(State(es[..i]), es[i]);
    }
  }

  /** Two first exits told stand 24 hours apart. */
  lemma FirstsApart(es: seq<Event>, i: nat, j: nat)
    requires OnClock(es) && i < j < |es| && WatchdogExit(1) in Says(es, i) && WatchdogExit(1) in Says(es, j)
    ensures Time(es, j) - Time(es, i) >= 24 * 3600000
  {
    hide State, Changes, Step;
    WatchdogExactly(es, i, 1);
    WatchdogExactly(es, j, 1);
    ExitedOne(es, i);
    ExitedOne(es, j);
    assert Is(es, i, AWatch);
    var w := Last(es, j, AWatch).value;
    OpensFrom(es, i, w);
  }

  lemma ExitedOne(es: seq<Event>, i: nat)
    requires i < |es| && Watches(es, i)
    ensures Exited(es, i) == 1 <==> Opens(es, i) == i
  {
    hide State, Changes;
    if Opens(es, i) != i {
      assert Exited(es, Last(es, i, AWatch).value) >= 1;
    }
  }

  lemma {:induction false} OpensFrom(es: seq<Event>, i: nat, w: nat)
    requires OnClock(es) && i <= w < |es| && Watches(es, i) && Watches(es, w) && Opens(es, i) == i
    ensures Opens(es, w) >= i && Time(es, Opens(es, w)) >= Time(es, i)
    decreases w
  {
    hide State, Changes, Step;
    assert Is(es, i, AWatch);
    if i < w {
      OpensFrom(es, i, Last(es, w, AWatch).value);
    }
  }

  const HOUR: int := 3600000

  /** A new process, ended by its watchdog or by nothing said. */
  function Ended(instance: nat, exit: Exit, at: int): Event {
    Claims(Claim(Some(instance), 0, 0, exit, false), at)
  }

  const WEDGED: seq<Event> := [Ended(1, NotSaid, 0), Ended(2, Watchdog, HOUR), Ended(3, Watchdog, 2 * HOUR),
                               Ended(4, Watchdog, 24 * HOUR), Ended(5, Watchdog, 25 * HOUR),
                               Ended(6, Watchdog, 26 * HOUR), Ended(7, Watchdog, 27 * HOUR)]

  /** The row after n of them. */
  function Wedged(n: nat): Row
    requires 1 <= n <= 7
  {
    var since := [0, HOUR, 2 * HOUR, 24 * HOUR, 25 * HOUR, 26 * HOUR, 27 * HOUR];
    NEW.(instance := Some(n), prev := if n == 1 then None else Some(n - 1), since := Some(since[n - 1]),
         exits := if n == 1 then None else if n <= 4 then Some(Exits(n - 1, HOUR)) else Some(Exits(n - 4, 25 * HOUR)))
  }

  lemma WedgedStep(n: nat)
    requires 1 <= n < 7
    ensures Step(Wedged(n), WEDGED[n].claim, WEDGED[n].at)
         == Outcome(Wedged(n + 1), if n == 1 || n == 4 then [WatchdogExit(1)]
                                   else if n == 3 || n == 6 then [WatchdogExit(3)] else [])
  {
  }

  lemma {:induction false} WedgedState(n: nat)
    requires 1 <= n <= 7
    ensures State(WEDGED[..n]) == Wedged(n)
  {
    if n == 1 {
      assert WEDGED[..1][..0] == [];
      assert State(WEDGED[..0]) == NEW;
      StateNext(WEDGED, 0);
    } else {
      WedgedState(n - 1);
      WedgedStep(n - 1);
      StateNext(WEDGED, n - 1);
    }
  }

  /** Three lines of the watchdog within three hours: the third of one day, the first and the third of the next. */
  lemma ThreeLinesADay()
    ensures OnClock(WEDGED) && WEDGED[6].at - WEDGED[3].at == 3 * HOUR
    ensures WatchdogExit(3) in Says(WEDGED, 3) && WatchdogExit(1) in Says(WEDGED, 4)
            && WatchdogExit(3) in Says(WEDGED, 6)
  {
    hide State, Step;
    WedgedState(3);
    WedgedStep(3);
    WedgedState(4);
    WedgedStep(4);
    WedgedState(6);
    WedgedStep(6);
  }

  // ---------- two processes ----------

  /**
   * Two processes are seen exactly when, no conflict standing, a claim names the
   * process before the last that the row named, less than ten minutes after the
   * last new process.
   */
  lemma TwoSeenExactly(es: seq<Event>, i: nat)
    requires OnClock(es) && i < |es|
    ensures TwoProcesses in Says(es, i) <==>
              && es[i].Claims? && State(es[..i]).conflictAt.None? && es[i].claim.instance.Some?
              && Last(es, i, AMove).Some? && es[i].claim.instance == State(es[..Last(es, i, AMove).value]).instance
              && Ago(es, i, AChange).Some? && Ago(es, i, AChange).value < 10 * 60000
    ensures TwoProcesses in Says(es, i) <==> State(es[..i]).conflictAt.None? && State(es[..i + 1]).conflictAt.Some?
  {
    hide State, Streak;
    AllTold(es, i);
    StateNext(es, i);
  }

  /**
   * It is one process again exactly when the process the row names claims
   * thirteen minutes after the row's last moved; and the row's moves, while the
   * conflict stands, at another's claim three minutes after it last did.
   */
  lemma OneAgainExactly(es: seq<Event>, i: nat)
    requires OnClock(es) && i < |es| && State(es[..i]).conflictAt.Some?
    ensures Last(es, i, AMove).Some?
    ensures OneAgain in Says(es, i) <==>
              && es[i].Claims? && es[i].claim.instance == State(es[..i]).instance
              && Ago(es, i, AMove).value >= 13 * 60000
    ensures OneAgain in Says(es, i) <==> State(es[..i + 1]).conflictAt.None?
    ensures Moves(es, i) <==> && es[i].Claims? && es[i].claim.instance != State(es[..i]).instance
                              && Ago(es, i, AMove).value >= 3 * 60000
    ensures Moves(es, i) ==> State(es[..i + 1]).instance == es[i].claim.instance
  {
    hide State, Streak;
    AllTold(es, i);
    StateNext(es, i);
  }
}
