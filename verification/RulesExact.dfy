/**
 * The bounded rules from the log alone (worker/src/orders.ts `decideAuto`,
 * worker/src/routes/factory.ts `autoOrder`): which claims write which line, if
 * and only if, whatever the counts and times beside the row say.
 */
module RulesExact {
  import opened Wrappers
  import opened Rules
  import opened RulesRuns

  /** A span of so many minutes, `scale` times as fast in development. */
  predicate Late(ms: int, minutes: int, scale: int) { ms * scale >= minutes * 60000 }

  /** Every line of a mark in a spell is so many minutes old. */
  ghost predicate AllLate(log: seq<Event>, mark: Mark, spell: int, now: int, minutes: int, scale: int) {
    forall e <- log | e.mark == mark && e.spell == spell :: Late(now - e.at, minutes, scale)
  }

  /** The rules may help: an agent that fails, for an error a restart or a re-check may mend, its spell not ended. */
  ghost predicate Open(log: seq<Event>, x: Seen) {
    && x.takes.Some? && !x.conflict && !x.drained && x.needsAgent && x.status == Fails && x.spell.Some? && x.open == 0
    && x.cls !in {Auth, Credit, Rate, Remote} && InSpell(log, GaveUp, x.spell.value) == 0
  }

  /**
   * A re-check is due: five minutes into the spell, the last probe as old, none
   * and no restart in the spell before, fewer than three in the day.
   */
  ghost predicate DueRecheck(log: seq<Event>, x: Seen, now: int, scale: int) {
    && Open(log, x) && RecheckAgent in x.takes.value
    && Late(now - x.spell.value, 5, scale) && (x.probeAge.None? || Late(x.probeAge.value, 5, scale))
    && InSpell(log, Recheck, x.spell.value) == 0 && InSpell(log, Restart, x.spell.value) == 0
    && Within(log, Recheck, now) < 3
  }

  /** Where no re-check is due, a worker of a known error that is no host may be restarted. */
  ghost predicate Restartable(log: seq<Event>, x: Seen, now: int, scale: int) {
    Open(log, x) && !DueRecheck(log, x, now, scale) && !x.host && x.cls != Unknown
  }

  /** The shared agent service first, where it answers no sibling; else the worker itself. */
  ghost function Kind(log: seq<Event>, x: Seen): Order
    requires x.takes.Some? && x.spell.Some?
  {
    if x.via == Sibling && RestartAgent in x.takes.value && !x.siblingAnswers
       && InSpell(log, Restart, x.spell.value) == 0
    then RestartAgent
    else RestartWorker
  }

  /**
   * A restart is due: the first ten minutes into the spell and five after its
   * re-check, the second thirty after the first, of a process two minutes old
   * that takes it, fewer than three in the day.
   */
  ghost predicate DueRestart(log: seq<Event>, x: Seen, now: int, scale: int) {
    && Restartable(log, x, now, scale) && (x.via == Broker ==> x.pairRestart) && Kind(log, x) in x.takes.value
    && (match InSpell(log, Restart, x.spell.value)
        case 0 => Late(now - x.spell.value, 10, scale) && AllLate(log, Recheck, x.spell.value, now, 5, scale)
        case 1 => AllLate(log, Restart, x.spell.value, now, 30, scale)
        case _ => false)
    && x.instanceSince.Some? && now - x.instanceSince.value >= 120000
    && Within(log, Restart, now) < 3
  }

  /** The spell's restarts are over: two, the last thirty minutes ago. */
  ghost predicate DueEnd(log: seq<Event>, x: Seen, now: int, scale: int) {
    && Restartable(log, x, now, scale)
    && InSpell(log, Restart, x.spell.value) >= 2 && AllLate(log, Restart, x.spell.value, now, 30, scale)
  }

  /** The line a claim writes, if any. */
  ghost function Line(log: seq<Event>, x: Seen, now: int, fate: Fate, scale: int): seq<Event> {
    if DueRecheck(log, x, now, scale) && fate == Accepted then
      [Event(Recheck, x.spell.value, now, Some(RecheckAgent), x)]
    else if DueRestart(log, x, now, scale) && fate == Accepted then
      [Event(Restart, x.spell.value, now, Some(Kind(log, x)), x)]
    else if (DueRestart(log, x, now, scale) && fate == SiteGivesUp && Kind(log, x) == RestartAgent)
         || (DueEnd(log, x, now, scale) && fate != Dropped) then
      [Event(GaveUp, x.spell.value, now, None, x)]
    else []
  }

  // ---------- the state says what the log says ----------

  lemma LateMore(a: int, b: int, minutes: int, scale: int)
    requires a >= b && scale > 0 && Late(b, minutes, scale)
    ensures Late(a, minutes, scale)
  {
    assert a * scale >= b * scale;
  }

  /** When the last line of a mark in a spell is so late, all are. */
  lemma LastLate(log: seq<Event>, mark: Mark, spell: int, last: int, now: int, minutes: int, scale: int)
    requires scale > 0 && forall e <- log | e.mark == mark && e.spell == spell :: e.at <= last
    requires exists e <- log :: e.mark == mark && e.spell == spell && e.at == last
    ensures Late(now - last, minutes, scale) <==> AllLate(log, mark, spell, now, minutes, scale)
  {
    hide Late;
    if Late(now - last, minutes, scale) {
      forall e <- log | e.mark == mark && e.spell == spell ensures Late(now - e.at, minutes, scale) {
        LateMore(now - e.at, now - last, minutes, scale);
      }
    }
  }

  /** The times a decision starts from are those of the last lines of its spell. */
  lemma RestartsLate(s: State, spell: int, now: int, minutes: int, scale: int)
    requires Inv(s, scale) && s.since == Some(spell) && scale > 0
    ensures var a := AutoOf(s.auto, Some(spell), s.last);
            a.restarts > 0 ==> (PastSince(a.lastRestart, now, minutes, scale)
                                <==> AllLate(s.log, Restart, spell, now, minutes, scale))
  {
    hide Agrees, Bounded, Spaced, Count, Recent, Within, InSpell, AllLate;
    var a := AutoOf(s.auto, Some(spell), s.last);
    if a.restarts > 0 {
      LastLate(s.log, Restart, spell, a.lastRestart.value, now, minutes, scale);
    }
  }

  lemma RechecksLate(s: State, spell: int, now: int, minutes: int, scale: int)
    requires Inv(s, scale) && s.since == Some(spell) && scale > 0
    ensures var a := AutoOf(s.auto, Some(spell), s.last);
            a.lastRecheck.None? || PastSince(a.lastRecheck, now, minutes, scale)
            <==> AllLate(s.log, Recheck, spell, now, minutes, scale)
  {
    hide Agrees, Bounded, Spaced, Count, Recent, Within, InSpell;
    var a := AutoOf(s.auto, Some(spell), s.last);
    if a.lastRecheck.Some? {
      LastLate(s.log, Recheck, spell, a.lastRecheck.value, now, minutes, scale);
    }
  }

  lemma EndedIs(s: State, spell: int, scale: int)
    requires Inv(s, scale) && s.since == Some(spell)
    ensures AutoOf(s.auto, Some(spell), s.last).gaveUp.None? <==> InSpell(s.log, GaveUp, spell) == 0
  {
    hide Agrees, Bounded, Spaced, Count, Recent, Within, InSpell;
    MarkIn(s.log, GaveUp, spell);
  }

  lemma {:induction false} MarkIn(log: seq<Event>, mark: Mark, spell: int)
    ensures InSpell(log, mark, spell) > 0 <==> exists e <- log :: e.mark == mark && e.spell == spell
  {
    if log != [] { MarkIn(log[..|log| - 1], mark, spell); }
  }

  // ---------- which claims write ----------

  /** A claim writes exactly the line due from the log, and no other. */
  lemma StepLine(s: State, c: Claim, scale: int)
    requires Inv(s, scale) && s.last <= c.now && scale > 0
    ensures Step(s, c, scale).log == s.log + Line(s.log, Sees(s, c), c.now, c.fate, scale)
  {
    hide Inv, AutoOf, InSpell, Within, AllLate, Count, Decide, Line;
    var x, base := Sees(s, c), Claimed(s, c);
    if x.spell.Some? {
      var spell := x.spell.value;
      ClaimedKeeps(s, c, scale);
      StartsFrom(base, spell, scale);
      EndedIs(base, spell, scale);
      RestartsLate(base, spell, c.now, 30, scale);
      RechecksLate(base, spell, c.now, 5, scale);
      LineIs(s, x, c, AutoOf(s.auto, x.spell, c.now), scale);
    } else {
      Closed(s, x, c, scale);
    }
  }

  lemma Closed(s: State, x: Seen, c: Claim, scale: int)
    requires x == Sees(s, c) && x.spell.None?
    ensures Step(s, c, scale).log == s.log + Line(s.log, x, c.now, c.fate, scale)
  {
  }

  lemma LineIs(s: State, x: Seen, c: Claim, a: Auto, scale: int)
    requires x == Sees(s, c) && x.spell.Some? && a == AutoOf(s.auto, x.spell, c.now) && scale > 0
    requires InSpell(s.log, Recheck, x.spell.value) == a.rechecks
             && InSpell(s.log, Restart, x.spell.value) == a.restarts
    requires Count(a.day, Recheck) == Within(s.log, Recheck, c.now)
             && Count(a.day, Restart) == Within(s.log, Restart, c.now)
    requires a.gaveUp.None? <==> InSpell(s.log, GaveUp, x.spell.value) == 0
    requires a.restarts > 0 ==> (PastSince(a.lastRestart, c.now, 30, scale)
                                 <==> AllLate(s.log, Restart, x.spell.value, c.now, 30, scale))
    requires a.lastRecheck.None? || PastSince(a.lastRecheck, c.now, 5, scale)
             <==> AllLate(s.log, Recheck, x.spell.value, c.now, 5, scale)
    ensures Step(s, c, scale).log == s.log + Line(s.log, x, c.now, c.fate, scale)
  {
    hide AutoOf, InSpell, Within, AllLate, Count;
    assert forall ms, m :: Past(ms, m, scale) == Late(ms, m, scale);
  }

  /**
   * The rules write exactly what the full log calls for. On any run a claim
   * writes a re-check if and only if one is due and goes out, a restart if and
   * only if one is, of the kind that helps, and the end of the spell's restarts
   * if and only if they are over or the site refuses the shared one; and it
   * writes nothing else.
   */
  lemma WritesExactly(claims: seq<Claim>, c: Claim, scale: int)
    requires InTime(claims + [c]) && scale > 0
    ensures var s := Run(claims, scale);
            Run(claims + [c], scale).log == s.log + Line(s.log, Sees(s, c), c.now, c.fate, scale)
  {
    hide Inv, Step, Line;
    assert (claims + [c])[..|claims|] == claims;
    LastIs(claims, c);
    RunKeeps(claims, scale);
    StepLine(Run(claims, scale), c, scale);
  }

  /** A restart goes out on the condition that the agent does not answer by then; a re-check on none. */
  lemma OnCondition(stored: Option<Auto>, x: Seen, now: int, scale: int)
    ensures var d := Decide(stored, x, now, scale);
            d.Issue? ==> (d.unless <==> d.kind in {RestartWorker, RestartAgent})
  {
    hide AutoOf, Count, Recent;
  }

  // ---------- the spell ----------

  /** A claim that ends the spell: the agent answers, or the worker was forgotten before it. */
  predicate Breaks(c: Claim) { c.forgotten || c.probe == Some(Answers) }

  /** A spell begins at a claim: the agent fails, as at no claim since the last break, and no break follows. */
  ghost predicate Begins(claims: seq<Claim>, i: nat) {
    && i < |claims| && claims[i].probe == Some(Fails)
    && (forall j | i < j < |claims| :: !Breaks(claims[j]))
    && forall k {:trigger claims[k]} | 0 <= k < i && claims[k].probe == Some(Fails) ::
         exists j | k < j <= i :: Breaks(claims[j])
  }

  lemma BeginsOnce(claims: seq<Claim>, i: nat, k: nat)
    requires Begins(claims, i) && Begins(claims, k)
    ensures i == k
  {
  }

  /** One claim more, no break: what began goes on. */
  lemma BeginsOn(before: seq<Claim>, c: Claim, i: nat)
    requires !Breaks(c) && i < |before|
    ensures Begins(before + [c], i) <==> Begins(before, i)
  {
    var claims := before + [c];
    assert forall j | 0 <= j < |before| :: claims[j] == before[j];
    assert claims[|before|] == c;
  }

  /** Nothing began and nothing failed since the last break, or something began. */
  lemma {:induction false} FirstFailure(claims: seq<Claim>, k: nat)
    requires k < |claims| && claims[k].probe == Some(Fails) && forall j | k < j < |claims| :: !Breaks(claims[j])
    ensures exists i: nat :: Begins(claims, i)
    decreases k
  {
    if !Begins(claims, k) {
      var l :| 0 <= l < k && claims[l].probe == Some(Fails) && forall j | l < j <= k :: !Breaks(claims[j]);
      FirstFailure(claims, l);
    }
  }

  ghost predicate SpellIs(claims: seq<Claim>, since: Option<int>) {
    match since
    case None => forall i: nat :: !Begins(claims, i)
    case Some(t) => exists i: nat :: Begins(claims, i) && claims[i].now == t
  }

  lemma SpellNext(before: seq<Claim>, c: Claim, since: Option<int>)
    requires SpellIs(before, since)
    ensures SpellIs(before + [c], SpellAfter(if c.forgotten then None else since, c.probe, c.now))
  {
    var claims := before + [c];
    assert claims[|before|] == c && forall j | 0 <= j < |before| :: claims[j] == before[j];
    if Breaks(c) {
      forall i: nat | i < |before| ensures !Begins(claims, i) {
      }
      if c.probe == Some(Fails) {
        assert Begins(claims, |before|);
      }
    } else {
      forall i: nat | i < |before| ensures Begins(claims, i) <==> Begins(before, i) {
        BeginsOn(before, c, i);
      }
      if c.probe == Some(Fails) {
        if since.Some? {
          var i: nat :| Begins(before, i) && before[i].now == since.value;
          assert Begins(claims, i);
        } else {
          forall k | 0 <= k < |before| && claims[k].probe == Some(Fails)
            ensures exists j | k < j <= |before| :: Breaks(claims[j])
          {
            if forall j | k < j < |before| :: !Breaks(before[j]) {
              FirstFailure(before, k);
            } else {
              var j :| k < j < |before| && Breaks(before[j]);
              assert Breaks(claims[j]);
            }
          }
          assert Begins(claims, |before|);
        }
      } else if since.Some? {
        var i: nat :| Begins(before, i) && before[i].now == since.value;
        assert Begins(claims, i);
      }
    }
  }

  lemma {:induction false} SpellKept(claims: seq<Claim>, scale: int)
    ensures SpellIs(claims, Run(claims, scale).since)
    decreases |claims|
  {
    hide SpellIs, SpellAfter, Decide;
    if claims == [] {
      NoSpell();
    } else {
      var before, c := claims[..|claims| - 1], claims[|claims| - 1];
      SpellKept(before, scale);
      SpellNext(before, c, Run(before, scale).since);
      assert before + [c] == claims;
    }
  }

  lemma NoSpell()
    ensures SpellIs([], None)
  {
  }

  /** The spell is as old as the first failing claim since the agent last answered. */
  lemma SpellExactly(claims: seq<Claim>, scale: int, t: int)
    ensures Run(claims, scale).since == Some(t) <==> exists i: nat :: Begins(claims, i) && claims[i].now == t
  {
    hide Begins, Run;
    SpellKept(claims, scale);
    forall i: nat, k: nat | Begins(claims, i) && Begins(claims, k) ensures i == k {
      BeginsOnce(claims, i, k);
    }
  }
}
