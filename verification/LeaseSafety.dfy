/**
 * Who may end a lease, whose writes are taken, and how often a lease is taken
 * back, over every run. A host's leases have a generation and keep all of it; a
 * legacy worker's have none, and what they do not keep is shown by a run.
 */
module LeaseSafety {
  import opened Wrappers
  import opened Leases
  import opened LeaseRuns

  // ---------- a lease's tokens ----------

  /** The whole second a time is in, as a token's claims carry it. */
  function WholeSecond(at: int): int { (at / 1000) * 1000 }

  /** The token was issued in the same whole second as its update fixed its expiry. */
  predicate Timely(t: Token) {
    WholeSecond(t.issued) == WholeSecond(t.from)
  }

  /** When the last update of a run that landed fixed the expiry it wrote. */
  function LastFixed(steps: seq<Step>, w: World): int
    decreases |steps|
  {
    if steps == [] then w.row.expires - LEASE_MS
    else
      var before, s := steps[..|steps| - 1], steps[|steps| - 1];
      if Run(before, w).Some? && Sets(s) && Written(Run(before, w).value, s).Some?
      then s.fixed
      else LastFixed(before, w)
  }

  lemma {:induction false} ExpiryIsLast(steps: seq<Step>, w: World)
    requires Inv(w) && Run(steps, w).Some?
    ensures var v := Run(steps, w).value; v.row.status == Leased ==> v.row.expires == LastFixed(steps, w) + LEASE_MS
    decreases |steps|
  {
    hide Inv, Allowed, Written;
    if steps != [] {
      var before, s := steps[..|steps| - 1], steps[|steps| - 1];
      ExpiryIsLast(before, w);
      RunKeeps(before, w);
      var v := Run(before, w).value;
      if Written(v, s).Some? {
        WrittenMoves(v, s);
      }
    }
  }

  /** The token has expired whenever the lease has. */
  ghost predicate GoneWith(row: Row, t: Token) {
    forall at: int | row.expires < at :: Expired(t, at)
  }

  /**
   * On any run, a token of the lease held is gone whenever the lease has expired,
   * if and only if no whole second fell between the time the last update to land
   * fixed its expiry and the token's issue. That time is the token's own unless
   * another update landed after its: so of the last update's tokens the timely
   * ones are gone, and a timely one of an earlier update exactly when the last
   * did not fix its expiry in an earlier second.
   */
  lemma {:induction false} TokenGone(steps: seq<Step>, w: World, t: Token)
    requires Inv(w) && Run(steps, w).Some?
    requires var v := Run(steps, w).value; v.row.status == Leased && t in v.tokens && t.lease == v.row.lease
    ensures var row, fixed := Run(steps, w).value.row, LastFixed(steps, w);
            && (GoneWith(row, t) <==> WholeSecond(t.issued) <= fixed)
            && (fixed == t.from ==> (GoneWith(row, t) <==> Timely(t)))
            && (Timely(t) ==> (GoneWith(row, t) <==> WholeSecond(t.from) <= fixed))
  {
    hide Run, LastFixed, Inv;
    ExpiryIsLast(steps, w);
    RunKeeps(steps, w);
    assert TokenOk(Run(steps, w).value, t) by { TokenFacts(Run(steps, w).value, t); }
    GoneIs(Run(steps, w).value.row, t);
  }

  lemma {:induction false} TokenFacts(w: World, t: Token)
    requires Inv(w) && t in w.tokens
    ensures TokenOk(w, t)
  {
  }

  lemma {:induction false} GoneIs(row: Row, t: Token)
    ensures GoneWith(row, t) <==> TokenEnd(t.issued) <= row.expires
  {
    if TokenEnd(t.issued) > row.expires {
      assert !Expired(t, row.expires + 1);
    }
  }

  // ---------- what ends a lease ----------

  /** The owner held no earlier lease of the task. */
  predicate FirstOfOwner(v: World) {
    forall j {:trigger v.holders[j - 1]} | 1 <= j < v.row.lease && j <= |v.holders| :: v.holders[j - 1] != v.row.owner
  }

  /**
   * A lease ends in one of four ways. The cron ends it once it has expired, with
   * every token no later than its expiry; on a read of this lease, unless the
   * expiry it met was past when it was written. A stopped worker's own claim ends
   * it, and a host's only when it does not list it; a host's claims end it when
   * two did not. A report ends it on the word of a worker that held the task — a
   * word and a read of this very lease, if it is a host's or its owner's first.
   */
  lemma {:induction false} EndsBySaying(steps: seq<Step>, w: World, s: Step)
    requires Inv(w) && Run(steps, w).Some? && Allowed(Run(steps, w).value, s)
    requires Ends(Run(steps, w).value.row, Next(Run(steps, w).value, s).row)
    ensures var v := Run(steps, w).value;
            match s
            case Cron(read) =>
              && v.row.expires < read.at <= v.now
              && (read.row.lease == v.row.lease || v.row.expires < v.landed)
              && forall t | t in v.tokens && t.lease == v.row.lease && GoneWith(v.row, t) :: Expired(t, v.now)
            case ClaimEnds(worker, read, listed) =>
              && read.row.lease == v.row.lease && v.row.owner == worker && v.row.stop.Some?
              && (v.row.gen.Some? ==> v.row.gen.value !in listed)
            case Reconcile(worker, read, listed, _) =>
              && read.row.lease == v.row.lease && v.row.owner == worker && v.row.gen.Some? && v.row.gen.value !in listed
              && read.row.missed >= 1 && read.row.started <= read.at - GRACE_MS
            case Complete(read, word, _) => Reported(v, read, word)
            case Fail(read, word, _, _) => Reported(v, read, word)
            case _ => false
  {
    hide Run, Inv, GoneWith;
    RunKeeps(steps, w);
    var v := Run(steps, w).value;
    match s
    case Cron(read) => CronEnds(v, read);
    case ClaimEnds(worker, read, _) => ReadThisLease(v, read);
    case Reconcile(worker, read, _, _) => ReadThisLease(v, read);
    case Complete(read, word, _) => ReportEnds(v, read, word);
    case Fail(read, word, _, _) => ReportEnds(v, read, word);
    case _ =>
  }

  /**
   * What a report that ended a lease says of it: the sender holds the task, and
   * spoke, on what was read, of this lease or an earlier of its own.
   */
  predicate Reported(v: World, read: Seen, word: Word) {
    && v.row.owner == word.Worker() && HeldBy(v, word.Lease(), word.Worker())
    && read.row.owner == word.Worker() && HeldBy(v, read.row.lease, read.row.owner) && word.Lease() <= read.row.lease
    && (v.row.gen.Some? || FirstOfOwner(v) ==> word.Lease() == read.row.lease == v.row.lease)
  }

  lemma {:induction false} CronEnds(v: World, read: Seen)
    requires Inv(v) && Allowed(v, Cron(read)) && Written(v, Cron(read)).Some?
    ensures v.row.expires < read.at <= v.now && (read.row.lease == v.row.lease || v.row.expires < v.landed)
    ensures forall t | t in v.tokens && t.lease == v.row.lease && GoneWith(v.row, t) :: Expired(t, v.now)
  {
    assert SeenOk(v, read);
  }

  lemma {:induction false} ReadThisLease(v: World, read: Seen)
    requires Inv(v) && read in v.seen && v.row.status == Leased
    ensures read.row.stop.Some? && read.row.stop == v.row.stop ==> read.row.lease == v.row.lease
    ensures read.row.gen.Some? && read.row.gen == v.row.gen ==> read.row.lease == v.row.lease
    ensures read.row.lease == v.row.lease && read.row.status == Leased ==> read.row.gen == v.row.gen
  {
    assert SeenOk(v, read);
  }

  lemma {:induction false} ReportEnds(v: World, read: Seen, word: Word)
    requires Inv(v) && Sent(v, read, word)
    requires LeaseHeld(v.row, word.Worker(), read.row.gen)
    ensures Reported(v, read, word)
  {
    if word.ByToken? {
      assert TokenOk(v, word.token);
    }
    assert SeenOk(v, read);
    assert HeldBy(v, read.row.lease, read.row.owner) && HeldBy(v, word.Lease(), word.Worker());
    if FirstOfOwner(v) {
      assert word.Lease() >= v.row.lease && read.row.lease >= v.row.lease;
    }
  }

  /** Every word that can end or renew the lease held is of that lease. */
  ghost predicate WordsNameIt(v: World) {
    forall read, word {:trigger Sent(v, read, word)}
      | Sent(v, read, word) && LeaseHeld(v.row, word.Worker(), read.row.gen) :: word.Lease() == v.row.lease
  }

  /** Every read on which a revoked release's report can give it back is of that lease. */
  ghost predicate ReadsNameIt(v: World) {
    forall read, word {:trigger Sent(v, read, word)}
      | Sent(v, read, word) && LeaseHeld(v.row, read.row.owner, read.row.gen) :: read.row.lease == v.row.lease
  }

  /**
   * Which leases a report of an earlier one cannot touch. On any run, with the
   * held lease's row read, every word that passes the write's guard is of this
   * lease if and only if the lease is a host's or its owner's first of the task.
   */
  lemma {:induction false} WordsNameItExactly(steps: seq<Step>, w: World, at: int)
    requires Inv(w) && Run(steps, w).Some?
    requires var v := Run(steps, w).value; Seen(v.row, at) in v.seen && LeaseHeld(v.row, v.row.owner, v.row.gen)
    ensures var v := Run(steps, w).value; WordsNameIt(v) <==> v.row.gen.Some? || FirstOfOwner(v)
  {
    hide Run, Inv, Sent, FirstOfOwner;
    RunKeeps(steps, w);
    var v := Run(steps, w).value;
    if v.row.gen.Some? || FirstOfOwner(v) {
      forall read, word | Sent(v, read, word) && LeaseHeld(v.row, word.Worker(), read.row.gen)
        ensures word.Lease() == v.row.lease
      {
        ReportEnds(v, read, word);
      }
    } else {
      OldWord(v, Seen(v.row, at));
    }
  }

  /** A legacy worker that held an earlier lease may still speak of it, and passes. */
  lemma {:induction false} OldWord(v: World, read: Seen)
    requires Inv(v) && read in v.seen && read.row == v.row && LeaseHeld(v.row, v.row.owner, v.row.gen)
    requires v.row.gen.None? && !FirstOfOwner(v)
    ensures !WordsNameIt(v)
  {
    var j :| 1 <= j < v.row.lease && j <= |v.holders| && v.holders[j - 1] == v.row.owner;
    assert Sent(v, read, ByWorker(v.row.owner, j));
  }

  /** Each lease of the task was read while it was held. */
  ghost predicate EachRead(v: World) {
    forall j: nat {:trigger v.holders[j - 1]} | 1 <= j <= v.row.lease ::
      exists o :: o in v.seen && o.row.lease == j && LeaseHeld(o.row, o.row.owner, o.row.gen)
  }

  /**
   * The same of a revoked release's report, which writes on the row it read: with
   * each lease read while it was held, every read that passes is of this lease if
   * and only if the lease is a host's or its owner's first of the task.
   */
  lemma {:induction false} ReadsNameItExactly(steps: seq<Step>, w: World)
    requires Inv(w) && Run(steps, w).Some?
    requires var v := Run(steps, w).value; EachRead(v) && LeaseHeld(v.row, v.row.owner, v.row.gen)
    ensures var v := Run(steps, w).value; ReadsNameIt(v) <==> v.row.gen.Some? || FirstOfOwner(v)
  {
    hide Run, Inv, Sent, FirstOfOwner, EachRead;
    RunKeeps(steps, w);
    var v := Run(steps, w).value;
    if v.row.gen.Some? || FirstOfOwner(v) {
      forall read, word | Sent(v, read, word) && LeaseHeld(v.row, read.row.owner, read.row.gen)
        ensures read.row.lease == v.row.lease
      {
        SentByOwner(v, read, word);
        ReportEnds(v, read, word);
      }
    } else {
      OldRead(v);
    }
  }

  lemma {:induction false} SentByOwner(v: World, read: Seen, word: Word)
    requires Sent(v, read, word)
    ensures read.row.owner == word.Worker()
  {
  }

  lemma {:induction false} OldRead(v: World)
    requires Inv(v) && EachRead(v) && LeaseHeld(v.row, v.row.owner, v.row.gen) && v.row.gen.None? && !FirstOfOwner(v)
    ensures !ReadsNameIt(v)
  {
    var j :| 1 <= j < v.row.lease && j <= |v.holders| && v.holders[j - 1] == v.row.owner;
    var o :| o in v.seen && o.row.lease == j && LeaseHeld(o.row, o.row.owner, o.row.gen);
    assert SeenOk(v, o);
    assert Sent(v, o, ByWorker(v.row.owner, j));
  }

  /**
   * Whether the last claim of a host to write its count of a lease listed it; None
   * when none did.
   */
  ghost function LastCount(steps: seq<Step>, w: World, worker: nat, gen: nat): Option<bool>
    decreases |steps|
  {
    if steps == [] then None
    else
      var before, s := steps[..|steps| - 1], steps[|steps| - 1];
      if Counts(s, worker, gen) && Run(before, w).Some? && Written(Run(before, w).value, s).Some?
      then Some(gen in s.listed)
      else LastCount(before, w, worker, gen)
  }

  predicate Counts(s: Step, worker: nat, gen: nat) {
    s.Reconcile? && s.worker == worker && s.read.row.gen == Some(gen)
  }

  /** A lease counted missed was not listed by the last claim of its host that wrote its count. */
  ghost predicate MissedLast(steps: seq<Step>, w: World, row: Row) {
    row.status == Leased && row.missed >= 1 && row.gen.Some? ==>
      LastCount(steps, w, row.owner, row.gen.value) == Some(false)
  }

  /** What a write leaves of a count: the row's own, unless it is a claim's, a new lease's or an end's. */
  lemma {:induction false} CountAfter(v: World, s: Step)
    requires Next(v, s).row.status == Leased && Next(v, s).row.missed >= 1 && Next(v, s).row.gen.Some?
    ensures var row := Next(v, s).row;
            if Counts(s, row.owner, row.gen.value) && Written(v, s).Some? then row.gen.value !in s.listed
            else v.row.status == Leased && v.row.missed == row.missed && v.row.owner == row.owner
                 && v.row.gen == row.gen
  {
  }

  lemma {:induction false} RunMissed(steps: seq<Step>, w: World)
    requires Run(steps, w).Some? && w.row.missed == 0
    ensures MissedLast(steps, w, Run(steps, w).value.row)
    decreases |steps|
  {
    hide Allowed, Next, Written;
    if steps != [] {
      var before, s := steps[..|steps| - 1], steps[|steps| - 1];
      RunMissed(before, w);
      var row := Run(steps, w).value.row;
      if row.status == Leased && row.missed >= 1 && row.gen.Some? {
        CountAfter(Run(before, w).value, s);
      }
    }
  }

  /** A row read stood so after some step of the run. */
  ghost predicate StoodSo(steps: seq<Step>, w: World, o: Seen, k: nat) {
    k <= |steps| && Run(steps[..k], w).Some? && Run(steps[..k], w).value.row == o.row
    && Run(steps[..k], w).value.now == o.at
  }

  lemma {:induction false} ReadStood(steps: seq<Step>, w: World, o: Seen) returns (k: nat)
    requires Run(steps, w).Some? && w.seen == {} && o in Run(steps, w).value.seen
    ensures StoodSo(steps, w, o, k)
    decreases |steps|
  {
    hide Allowed, Written;
    var before, s := steps[..|steps| - 1], steps[|steps| - 1];
    if o in Run(before, w).value.seen {
      k := ReadStood(before, w, o);
      assert before[..k] == steps[..k];
    } else {
      k := |steps| - 1;
    }
  }

  /**
   * A host loses a lease on its claims' word only, and on two in a row: this one
   * does not list it, and neither did the last to write its count before the row
   * was read.
   */
  lemma {:induction false} LostUnlistedTwice(steps: seq<Step>, hosts: set<nat>,
                                             maxAttempts: nat, priority: int, now: int, s: Step)
    requires Run(steps, Start(hosts, maxAttempts, priority, now)).Some? && s.Reconcile?
    requires var v := Run(steps, Start(hosts, maxAttempts, priority, now)).value;
             Allowed(v, s) && Ends(v.row, Next(v, s).row)
    ensures var w := Start(hosts, maxAttempts, priority, now);
            var v := Run(steps, w).value;
            && v.row.gen.Some? && v.row.owner == s.worker && v.row.gen.value !in s.listed
            && exists k: nat :: StoodSo(steps, w, s.read, k)
                                && LastCount(steps[..k], w, v.row.owner, v.row.gen.value) == Some(false)
  {
    hide LastCount, Run, Inv;
    var w := Start(hosts, maxAttempts, priority, now);
    StartKeeps(hosts, maxAttempts, priority, now);
    var v := Run(steps, w).value;
    EndsBySaying(steps, w, s);
    LostRead(v, s);
    var k := ReadStood(steps, w, s.read);
    RunMissed(steps[..k], w);
  }

  lemma {:induction false} LostRead(v: World, s: Step)
    requires s.Reconcile? && Allowed(v, s) && Ends(v.row, Next(v, s).row)
    ensures s.read in v.seen && s.read.row.status == Leased && s.read.row.missed >= 1 && s.read.row.gen.Some?
            && s.read.row.gen == v.row.gen && s.read.row.owner == v.row.owner
  {
  }

  // ---------- whose writes are taken ----------

  /** A lease that is over: ended, fenced, or followed by a newer one. */
  predicate Over(w: World, lease: nat) {
    w.row.lease > lease || (w.row.lease == lease && (w.row.status != Leased || w.row.stop.Some?))
  }

  lemma {:induction false} OverStays(w: World, s: Step, lease: nat)
    requires Inv(w) && Allowed(w, s) && Over(w, lease)
    ensures Over(Next(w, s), lease)
  {
    hide Written, Allowed;
    if Written(w, s).Some? { WrittenMoves(w, s); }
  }

  /** Once a lease is over it stays over, whatever follows. */
  lemma {:induction false} OverForever(steps: seq<Step>, w: World, lease: nat)
    requires Inv(w) && Over(w, lease) && Run(steps, w).Some?
    ensures Over(Run(steps, w).value, lease)
    decreases |steps|
  {
    hide Inv, Next, Allowed, Over;
    if steps != [] {
      var before := steps[..|steps| - 1];
      OverForever(before, w, lease);
      RunKeeps(before, w);
      OverStays(Run(before, w).value, steps[|steps| - 1], lease);
    }
  }

  lemma {:induction false} TokensStay(steps: seq<Step>, w: World, t: Token)
    requires t in w.tokens && Run(steps, w).Some?
    ensures t in Run(steps, w).value.tokens
    decreases |steps|
  {
    if steps != [] {
      TokensStay(steps[..|steps| - 1], w, t);
    }
  }

  /** What a newer lease of the same legacy worker, of a revoked release, keeps from an earlier lease's token. */
  predicate Barred(row: Row, t: Token, revoked: set<nat>) {
    LeaseHeld(row, t.worker, None) && row.release in revoked
  }

  /**
   * Which tokens are accepted, exactly: until it expires, one of the lease held
   * now, unless its release is revoked; and one of a lease that is over, if it
   * is a legacy worker's, unless a revoked lease of that worker is held now.
   */
  lemma {:induction false} AcceptedExactly(w: World, t: Token, revoked: set<nat>)
    requires Inv(w) && t in w.tokens
    ensures Accepted(w.row, t, w.now, revoked) <==>
              !Expired(t, w.now) && if Over(w, t.lease) then t.gen.None? && !Barred(w.row, t, revoked)
              else w.row.release !in revoked
  {
    assert TokenOk(w, t);
  }

  /**
   * Once a host's lease has ended or been fenced, no write with a token of it
   * is accepted again, whatever is claimed, renewed, stopped or given back
   * since — by the same host too.
   */
  lemma {:induction false} NoWriteAfter(steps: seq<Step>, w: World, t: Token, revoked: set<nat>)
    requires Inv(w) && t in w.tokens && t.gen.Some? && Over(w, t.lease) && Run(steps, w).Some?
    ensures var v := Run(steps, w).value;
            !Accepted(v.row, t, v.now, revoked) && !LeaseHeld(v.row, t.worker, t.gen)
  {
    hide Run, Next;
    RunKeeps(steps, w);
    OverForever(steps, w, t.lease);
    TokensStay(steps, w, t);
    assert TokenOk(Run(steps, w).value, t);
  }

  /**
   * Two tokens accepted at once are of one lease, the one held now — or one of
   * them is a legacy worker's, of a lease that is over, and has not expired.
   */
  lemma {:induction false} OneWriter(steps: seq<Step>, w: World, t: Token, u: Token, revoked: set<nat>)
    requires Inv(w) && Run(steps, w).Some?
    requires var v := Run(steps, w).value;
             && t in v.tokens && u in v.tokens
             && Accepted(v.row, t, v.now, revoked) && Accepted(v.row, u, v.now, revoked)
    ensures var v := Run(steps, w).value;
            || t.lease == u.lease == v.row.lease
            || (t.gen.None? && Over(v, t.lease)) || (u.gen.None? && Over(v, u.lease))
  {
    hide Run;
    RunKeeps(steps, w);
    var v := Run(steps, w).value;
    assert TokenOk(v, t) && TokenOk(v, u);
  }

  // ---------- how often a lease is taken back ----------

  /** Each lease is taken back at most once, and every lease made is an attempt still counted or one given back. */
  lemma {:induction false} BackOnce(steps: seq<Step>, hosts: set<nat>, maxAttempts: nat, priority: int, now: int)
    requires Run(steps, Start(hosts, maxAttempts, priority, now)).Some?
    ensures var w := Run(steps, Start(hosts, maxAttempts, priority, now)).value;
            && (forall i, j | 0 <= i < j < |w.back| :: w.back[i] != w.back[j])
            && |w.holders| == w.row.attempts + w.given
  {
    hide Run;
    StartKeeps(hosts, maxAttempts, priority, now);
    RunKeeps(steps, Start(hosts, maxAttempts, priority, now));
  }

  /** A queued task has attempts left, and none has more than its attempts. */
  predicate Bounded(row: Row) {
    row.attempts <= row.maxAttempts && (row.status == Queued ==> row.attempts < row.maxAttempts)
  }

  /** A failure decided on a read with attempts left, written to a lease that was the last. */
  predicate Slips(w: World, s: Step) {
    && s.Fail? && Written(w, s).Some? && s.read.row.release !in s.revoked
    && !GivesBack(s.read.row, s.what) && !s.what.final
    && s.read.row.attempts < s.read.row.maxAttempts && w.row.attempts >= w.row.maxAttempts
  }

  /**
   * A step leaves a queued task without attempts exactly when it slips; and then
   * it was read of an earlier legacy lease.
   */
  lemma {:induction false} SlipsExactly(w: World, s: Step)
    requires Inv(w) && Allowed(w, s) && Bounded(w.row)
    ensures Bounded(Next(w, s).row) <==> !Slips(w, s)
    ensures Slips(w, s) ==> w.row.gen.None? && s.read.row.lease < w.row.lease
  {
    if s.Fail? {
      assert SeenOk(w, s.read);
    }
  }

  /** No step of the run slips. */
  predicate NoSlip(steps: seq<Step>, w: World)
    decreases |steps|
  {
    steps == [] ||
    var before := steps[..|steps| - 1];
    NoSlip(before, w) && (Run(before, w).Some? ==> !Slips(Run(before, w).value, steps[|steps| - 1]))
  }

  /** A queued task always has attempts left, on every run no step of which slips. */
  lemma {:induction false} AttemptsLeft(steps: seq<Step>, w: World)
    requires Inv(w) && Bounded(w.row) && Run(steps, w).Some? && NoSlip(steps, w)
    ensures Bounded(Run(steps, w).value.row)
    decreases |steps|
  {
    hide Inv, Next, Allowed, Bounded, Slips;
    if steps != [] {
      var before := steps[..|steps| - 1];
      AttemptsLeft(before, w);
      RunKeeps(before, w);
      SlipsExactly(Run(before, w).value, steps[|steps| - 1]);
    }
  }

  predicate HostsOnly(steps: seq<Step>, hosts: set<nat>) {
    forall s <- steps :: s.Claim? ==> s.worker in hosts
  }

  predicate OfHost(row: Row) { row.status == Leased ==> row.gen.Some? }

  /** And none slips while only hosts claim. */
  lemma {:induction false} HostsNeverSlip(steps: seq<Step>, w: World)
    requires Inv(w) && Bounded(w.row) && OfHost(w.row) && Run(steps, w).Some? && HostsOnly(steps, w.hosts)
    ensures NoSlip(steps, w) && Bounded(Run(steps, w).value.row) && OfHost(Run(steps, w).value.row)
    decreases |steps|
  {
    hide Inv, Next, Allowed, Bounded, Slips;
    if steps != [] {
      var before, s := steps[..|steps| - 1], steps[|steps| - 1];
      HostsNeverSlip(before, w);
      RunKeeps(before, w);
      HostsSame(before, w);
      SlipsExactly(Run(before, w).value, s);
      HostStays(Run(before, w).value, s);
      if Slips(Run(before, w).value, s) {
        LeasedWhenWritten(Run(before, w).value, s);
      }
    }
  }

  lemma {:induction false} HostsSame(steps: seq<Step>, w: World)
    requires Run(steps, w).Some?
    ensures Run(steps, w).value.hosts == w.hosts
    decreases |steps|
  {
    hide Written, Allowed;
    if steps != [] {
      HostsSame(steps[..|steps| - 1], w);
    }
  }

  lemma {:induction false} LeasedWhenWritten(w: World, s: Step)
    requires Slips(w, s)
    ensures w.row.status == Leased
  {
  }

  lemma {:induction false} HostStays(w: World, s: Step)
    requires Inv(w) && Allowed(w, s) && OfHost(w.row) && (s.Claim? ==> s.worker in w.hosts)
    ensures OfHost(Next(w, s).row)
  {
    hide Written, Allowed;
    if Written(w, s).Some? { WrittenMoves(w, s); }
  }

  // ---------- what legacy leases do not keep ----------

  lemma {:induction false} Took(steps: seq<Step>, w: World, v: World, s: Step, after: World)
    requires Run(steps, w) == Some(v) && Allowed(v, s) && Next(v, s) == after
    ensures Run(steps + [s], w) == Some(after)
  {
    assert (steps + [s])[..|steps|] == steps;
  }

  const FIRST := Row(Leased, 7, None, LEASE_MS, 0, 1, 2, 0, None, 0, 0, 1, 1)
  const BACK := FIRST.(status := Queued, priority := 10)
  const SECOND := FIRST.(attempts := 2, priority := 10, lease := 2)
  const TOKEN := Token(7, None, 1, 0, 0)
  const PLAIN := Failure(false, false, false)
  const TAKE := Claim(7, 1, 0, 0)

  const MADE: seq<World> := [
    Start({}, 2, 0, 0),
    Start({}, 2, 0, 0).(row := FIRST, due := {Due(7, None, 1, 0)}, holders := [7]),
    Start({}, 2, 0, 0).(row := FIRST, tokens := {TOKEN}, holders := [7]),
    Start({}, 2, 0, 0).(row := FIRST, tokens := {TOKEN}, seen := {Seen(FIRST, 0)}, holders := [7]),
    Start({}, 2, 0, 0).(row := BACK, tokens := {TOKEN}, seen := {Seen(FIRST, 0)}, holders := [7], back := [1]),
    Start({}, 2, 0, 0).(row := SECOND, due := {Due(7, None, 2, 0)}, tokens := {TOKEN}, seen := {Seen(FIRST, 0)},
                    holders := [7, 7], back := [1])]

  /** A legacy worker leases a task, reports a failure — sent twice — and leases it again. */
  function LegacyRun(): seq<Step> {
    [] + [TAKE] + [Issue(Due(7, None, 1, 0))] + [Read]
    + [Fail(Seen(FIRST, 0), ByToken(TOKEN), PLAIN, {})] + [TAKE] + [Read]
  }

  lemma {:induction false} MadeFirst()
    ensures Next(MADE[0], TAKE) == MADE[1]
    ensures Allowed(MADE[1], Issue(Due(7, None, 1, 0))) && Next(MADE[1], Issue(Due(7, None, 1, 0))) == MADE[2]
    ensures Next(MADE[2], Read) == MADE[3]
  {
  }

  lemma {:induction false} MadeSecond()
    ensures var s := Fail(Seen(FIRST, 0), ByToken(TOKEN), PLAIN, {}); Allowed(MADE[3], s) && Next(MADE[3], s) == MADE[4]
  {
    var s := Fail(Seen(FIRST, 0), ByToken(TOKEN), PLAIN, {});
    assert Sent(MADE[3], Seen(FIRST, 0), ByToken(TOKEN));
    assert Written(MADE[3], s) == Some(BACK);
  }

  lemma {:induction false} MadeThird()
    ensures Next(MADE[4], TAKE) == MADE[5]
  {
    assert Written(MADE[4], TAKE) == Some(SECOND);
  }

  lemma {:induction false} LegacyWorld()
    ensures Run(LegacyRun(), Start({}, 2, 0, 0)) == Some(Next(MADE[5], Read))
  {
    MadeFirst();
    MadeSecond();
    MadeThird();
    var w, r := MADE[0], [] + [TAKE] + [Issue(Due(7, None, 1, 0))] + [Read];
    assert Run([], w) == Some(w);
    hide Run, Next;
    Took([], w, w, TAKE, MADE[1]);
    Took([] + [TAKE], w, MADE[1], Issue(Due(7, None, 1, 0)), MADE[2]);
    Took([] + [TAKE] + [Issue(Due(7, None, 1, 0))], w, MADE[2], Read, MADE[3]);
    Took(r, w, MADE[3], Fail(Seen(FIRST, 0), ByToken(TOKEN), PLAIN, {}), MADE[4]);
    Took(r + [Fail(Seen(FIRST, 0), ByToken(TOKEN), PLAIN, {})], w, MADE[4], TAKE, MADE[5]);
    Took(r + [Fail(Seen(FIRST, 0), ByToken(TOKEN), PLAIN, {})]
           + [TAKE], w, MADE[5], Read, Next(MADE[5], Read));
  }

  /** A token of a legacy worker's earlier lease ends its newer one, on a report sent after it began. */
  lemma {:induction false} LegacyReportHitsNewer()
    ensures var w, s := Run(LegacyRun(), Start({}, 2, 0, 0)), Fail(Seen(SECOND, 0), ByToken(TOKEN), PLAIN, {});
            w.Some? && Allowed(w.value, s) && Ends(w.value.row, Next(w.value, s).row)
            && s.word.Lease() == 1 && w.value.row.lease == 2
  {
    hide Run;
    LegacyWorld();
  }

  /** The same for a revoked release: what was read of one lease gives back the next. */
  lemma {:induction false} LegacyRevocationHitsNewer()
    ensures var w, s := Run(LegacyRun(), Start({}, 2, 0, 0)), Fail(Seen(FIRST, 0), ByToken(TOKEN), PLAIN, {1});
            w.Some? && Allowed(w.value, s) && Ends(w.value.row, Next(w.value, s).row)
            && s.read.row.lease == 1 && w.value.row.lease == 2
  {
    hide Run;
    LegacyWorld();
  }

  /**
   * And the failure read at its first attempt of two, written after its second
   * began, queues the task with none left.
   */
  lemma {:induction false} LegacyReportSlips()
    ensures var w, s := Run(LegacyRun(), Start({}, 2, 0, 0)), Fail(Seen(FIRST, 0), ByToken(TOKEN), PLAIN, {});
            && w.Some? && Allowed(w.value, s) && Slips(w.value, s)
            && var after := Next(w.value, s).row; after.status == Queued && after.attempts == after.maxAttempts
  {
    hide Run;
    LegacyWorld();
  }

  const LATE := Row(Leased, 7, None, 990 + LEASE_MS, 990, 1, 2, 0, None, 0, 0, 1, 1)
  const OUTLIVES := Token(7, None, 1, 990, 1020)
  const OTHERS := Token(8, None, 2, 995 + LEASE_MS, 995 + LEASE_MS)

  const GONE: int := 995 + LEASE_MS
  const LATE_TAKE := Claim(7, 1, 990, 990)
  const OTHER_TAKE := Claim(8, 1, GONE, GONE)

  const PASSED: seq<World> := [
    Start({}, 2, 0, 990),
    Start({}, 2, 0, 990).(row := LATE, due := {Due(7, None, 1, 990)}, holders := [7]),
    Start({}, 2, 0, 990).(row := LATE, now := 1020, due := {Due(7, None, 1, 990)}, holders := [7]),
    Start({}, 2, 0, 990).(row := LATE, now := 1020, tokens := {OUTLIVES}, holders := [7]),
    Start({}, 2, 0, 990).(row := LATE, now := GONE, tokens := {OUTLIVES}, holders := [7]),
    Start({}, 2, 0, 990).(row := LATE, now := GONE, tokens := {OUTLIVES}, seen := {Seen(LATE, GONE)}, holders := [7])]

  /**
   * A token issued 30 ms after its lease began, past a whole second; the lease
   * expires, and another worker's begins.
   */
  function LateRun(): seq<Step> {
    [] + [LATE_TAKE] + [Tick(30)] + [Issue(Due(7, None, 1, 990))] + [Tick(LEASE_MS - 25)] + [Read]
    + [Cron(Seen(LATE, GONE))] + [OTHER_TAKE] + [Issue(Due(8, None, 2, GONE))]
  }

  lemma {:induction false} PassedFirst()
    ensures Next(PASSED[0], LATE_TAKE) == PASSED[1] && Next(PASSED[1], Tick(30)) == PASSED[2]
    ensures Allowed(PASSED[2], Issue(Due(7, None, 1, 990))) && Next(PASSED[2], Issue(Due(7, None, 1, 990))) == PASSED[3]
    ensures Next(PASSED[3], Tick(LEASE_MS - 25)) == PASSED[4] && Next(PASSED[4], Read) == PASSED[5]
  {
  }

  lemma {:induction false} PassedSecond()
    ensures Allowed(PASSED[5], Cron(Seen(LATE, GONE)))
    ensures var w := Next(Next(PASSED[5], Cron(Seen(LATE, GONE))), OTHER_TAKE);
            && Allowed(w, Issue(Due(8, None, 2, GONE)))
            && var v := Next(w, Issue(Due(8, None, 2, GONE)));
            && v.tokens == {OUTLIVES, OTHERS} && v.now == GONE
            && Accepted(v.row, OUTLIVES, v.now, {}) && Accepted(v.row, OTHERS, v.now, {})
  {
  }

  /** The token outlives its lease: the task is another's, and both workers' tokens are accepted. */
  lemma {:induction false} LateTokenOutlives()
    ensures var w := Run(LateRun(), Start({}, 2, 0, 990));
            && w.Some? && w.value.tokens == {OUTLIVES, OTHERS} && !Timely(OUTLIVES)
            && Accepted(w.value.row, OUTLIVES, w.value.now, {}) && Accepted(w.value.row, OTHERS, w.value.now, {})
            && OUTLIVES.worker == 7 && OTHERS.worker == 8 && OUTLIVES.lease != OTHERS.lease
  {
    PassedFirst();
    PassedSecond();
    var w := PASSED[0];
    var r := [] + [LATE_TAKE] + [Tick(30)] + [Issue(Due(7, None, 1, 990))];
    var q := r + [Tick(LEASE_MS - 25)] + [Read];
    var w6 := Next(PASSED[5], Cron(Seen(LATE, GONE)));
    var w7 := Next(w6, OTHER_TAKE);
    assert Run([], w) == Some(w);
    hide Run, Next;
    Took([], w, w, LATE_TAKE, PASSED[1]);
    Took([] + [LATE_TAKE], w, PASSED[1], Tick(30), PASSED[2]);
    Took([] + [LATE_TAKE] + [Tick(30)], w, PASSED[2], Issue(Due(7, None, 1, 990)), PASSED[3]);
    Took(r, w, PASSED[3], Tick(LEASE_MS - 25), PASSED[4]);
    Took(r + [Tick(LEASE_MS - 25)], w, PASSED[4], Read, PASSED[5]);
    Took(q, w, PASSED[5], Cron(Seen(LATE, GONE)), w6);
    Took(q + [Cron(Seen(LATE, GONE))], w, w6, OTHER_TAKE, w7);
    Took(q + [Cron(Seen(LATE, GONE))]
           + [OTHER_TAKE], w, w7, Issue(Due(8, None, 2, GONE)), Next(w7, Issue(Due(8, None, 2, GONE))));
  }

  const RENEWED := FIRST.(expires := 5000 + LEASE_MS)
  const FRESH := Token(7, None, 1, 5000, 5020)
  const AFTER: int := LEASE_MS + 1
  const BEAT := Heartbeat(Seen(FIRST, 0), ByToken(TOKEN), {}, 5000)
  const LATE_BEAT := Heartbeat(Seen(FIRST, 0), ByToken(TOKEN), {}, 0)
  const NEXT_TAKE := Claim(8, 1, AFTER, AFTER)

  const BEATEN: seq<World> := [
    MADE[3].(now := 5000),
    MADE[3].(row := RENEWED, now := 5000, due := {Due(7, None, 1, 5000)}, landed := 5000),
    MADE[3].(row := RENEWED, now := 5020, due := {Due(7, None, 1, 5000)}, landed := 5000),
    MADE[3].(row := RENEWED, now := 5020, tokens := {TOKEN, FRESH}, landed := 5000),
    MADE[3].(now := 5020, due := {Due(7, None, 1, 0)}, tokens := {TOKEN, FRESH}, landed := 5020),
    MADE[3].(now := AFTER, due := {Due(7, None, 1, 0)}, tokens := {TOKEN, FRESH}, landed := 5020),
    MADE[3].(now := AFTER, due := {Due(7, None, 1, 0)}, tokens := {TOKEN, FRESH}, landed := 5020,
             seen := {Seen(FIRST, 0), Seen(FIRST, AFTER)})]

  /**
   * One heartbeat fixes its expiry and is held up; another lands five seconds
   * later and its token is issued at once; then the first lands, and the expiry is
   * back where it was.
   */
  function BeatRun(): seq<Step> {
    BeatUntilIssued() + [LATE_BEAT] + [Tick(AFTER - 5020)] + [Read] + [Cron(Seen(FIRST, AFTER))] + [NEXT_TAKE]
    + [Issue(Due(8, None, 2, AFTER))]
  }

  lemma {:induction false} BeatenFirst()
    ensures Next(MADE[3], Tick(5000)) == BEATEN[0]
    ensures Allowed(BEATEN[0], BEAT) && Next(BEATEN[0], BEAT) == BEATEN[1]
    ensures Next(BEATEN[1], Tick(20)) == BEATEN[2]
    ensures Allowed(BEATEN[2], Issue(Due(7, None, 1, 5000)))
            && Next(BEATEN[2], Issue(Due(7, None, 1, 5000))) == BEATEN[3]
  {
    assert Sent(BEATEN[0], Seen(FIRST, 0), ByToken(TOKEN));
    assert Written(BEATEN[0], BEAT) == Some(RENEWED);
  }

  lemma {:induction false} BeatenSecond()
    ensures Allowed(BEATEN[3], LATE_BEAT) && Next(BEATEN[3], LATE_BEAT) == BEATEN[4]
    ensures Next(BEATEN[4], Tick(AFTER - 5020)) == BEATEN[5] && Next(BEATEN[5], Read) == BEATEN[6]
  {
    assert Sent(BEATEN[3], Seen(FIRST, 0), ByToken(TOKEN));
    assert Written(BEATEN[3], LATE_BEAT) == Some(FIRST);
  }

  lemma {:induction false} BeatenThird()
    ensures Allowed(BEATEN[6], Cron(Seen(FIRST, AFTER)))
    ensures var w := Next(Next(BEATEN[6], Cron(Seen(FIRST, AFTER))), NEXT_TAKE);
            && Allowed(w, Issue(Due(8, None, 2, AFTER)))
            && var v := Next(w, Issue(Due(8, None, 2, AFTER)));
            && FRESH in v.tokens && Token(8, None, 2, AFTER, AFTER) in v.tokens && v.now == AFTER
            && Accepted(v.row, FRESH, v.now, {}) && Accepted(v.row, Token(8, None, 2, AFTER, AFTER), v.now, {})
  {
    assert Written(BEATEN[6], Cron(Seen(FIRST, AFTER))) == Some(BACK);
  }

  function BeatUntilIssued(): seq<Step> {
    [] + [TAKE] + [Issue(Due(7, None, 1, 0))] + [Read] + [Tick(5000)] + [BEAT] + [Tick(20)]
    + [Issue(Due(7, None, 1, 5000))]
  }

  lemma {:induction false} BeatenRun()
    ensures Run(BeatUntilIssued(), MADE[0]) == Some(BEATEN[3])
  {
    MadeFirst();
    BeatenFirst();
    var w := MADE[0];
    var q := [] + [TAKE] + [Issue(Due(7, None, 1, 0))] + [Read];
    assert Run([], w) == Some(w);
    hide Run, Next;
    Took([], w, w, TAKE, MADE[1]);
    Took([] + [TAKE], w, MADE[1], Issue(Due(7, None, 1, 0)), MADE[2]);
    Took([] + [TAKE] + [Issue(Due(7, None, 1, 0))], w, MADE[2], Read, MADE[3]);
    Took(q, w, MADE[3], Tick(5000), BEATEN[0]);
    Took(q + [Tick(5000)], w, BEATEN[0], BEAT, BEATEN[1]);
    Took(q + [Tick(5000)] + [BEAT], w, BEATEN[1], Tick(20), BEATEN[2]);
    Took(q + [Tick(5000)] + [BEAT] + [Tick(20)], w, BEATEN[2], Issue(Due(7, None, 1, 5000)), BEATEN[3]);
  }

  lemma {:induction false} BeatenOn(r: seq<Step>)
    requires Run(r, MADE[0]) == Some(BEATEN[3])
    ensures var end := Next(Next(BEATEN[6], Cron(Seen(FIRST, AFTER))), NEXT_TAKE);
            Run(r + [LATE_BEAT] + [Tick(AFTER - 5020)] + [Read] + [Cron(Seen(FIRST, AFTER))] + [NEXT_TAKE]
                  + [Issue(Due(8, None, 2, AFTER))], MADE[0]) == Some(Next(end, Issue(Due(8, None, 2, AFTER))))
  {
    BeatenSecond();
    BeatenThird();
    var w, p := MADE[0], r + [LATE_BEAT] + [Tick(AFTER - 5020)] + [Read];
    var w7 := Next(BEATEN[6], Cron(Seen(FIRST, AFTER)));
    var w8 := Next(w7, NEXT_TAKE);
    assert Allowed(w7, NEXT_TAKE) by { assert w7.now == AFTER; }
    hide Run, Next;
    Took(r, w, BEATEN[3], LATE_BEAT, BEATEN[4]);
    Took(r + [LATE_BEAT], w, BEATEN[4], Tick(AFTER - 5020), BEATEN[5]);
    Took(r + [LATE_BEAT] + [Tick(AFTER - 5020)], w, BEATEN[5], Read, BEATEN[6]);
    Took(p, w, BEATEN[6], Cron(Seen(FIRST, AFTER)), w7);
    Took(p + [Cron(Seen(FIRST, AFTER))], w, w7, NEXT_TAKE, w8);
    Took(p + [Cron(Seen(FIRST, AFTER))] + [NEXT_TAKE], w, w8, Issue(Due(8, None, 2, AFTER)),
         Next(w8, Issue(Due(8, None, 2, AFTER))));
  }

  /**
   * A timely token outlives its lease: the task is another's, and both workers'
   * tokens are accepted.
   */
  lemma {:induction false} MovedBackOutlives()
    ensures var w, u := Run(BeatRun(), Start({}, 2, 0, 0)), Token(8, None, 2, AFTER, AFTER);
            && w.Some? && FRESH in w.value.tokens && u in w.value.tokens && Timely(FRESH)
            && Accepted(w.value.row, FRESH, w.value.now, {}) && Accepted(w.value.row, u, w.value.now, {})
            && FRESH.worker != u.worker && FRESH.lease != u.lease
  {
    hide Run, Next, Accepted;
    BeatenRun();
    BeatenOn(BeatUntilIssued());
    BeatenThird();
  }
}
