/**
 * What each handler's write leaves of a task's row (worker/src/lease.ts,
 * worker/src/routes/factory.ts), on every interleaving: when it writes at all,
 * whose attempt it spends, and how far behind its peers the task goes.
 */
module LeaseEffects {
  import opened Wrappers
  import opened Leases
  import opened LeaseRuns

  const MINUTE: int := 60000

  /** The lease is the worker's, of that generation, and no stop fences it. */
  predicate Holds(row: Row, worker: nat, gen: Option<nat>) {
    row.status == Leased && row.owner == worker && row.gen == gen && row.stop == None
  }

  /** An attempt spent: ten behind its peers, failed when it was the last. */
  predicate GoesBehind(row: Row, after: Row) {
    && after.status == (if row.attempts < row.maxAttempts then Queued else Failed)
    && after.priority == row.priority + 10 && after.attempts == row.attempts && after.stop.None?
  }

  /** An attempt given back: queued again at its place. */
  predicate GoesBack(row: Row, after: Row) {
    after.status == Queued && after.priority == row.priority && after.attempts == row.attempts - 1
  }

  /** A queued task is leased, one attempt more, for thirty minutes from when the claim fixed them; no other is. */
  lemma ClaimWrites(v: World, s: Step)
    requires Inv(v) && Allowed(v, s) && s.Claim?
    ensures var row, after := v.row, Next(v, s).row;
            if row.status != Queued then after == row
            else
              && after.status == Leased && after.owner == s.worker && (after.gen.Some? <==> s.worker in v.hosts)
              && after.expires == s.fixed + 30 * MINUTE && after.started == s.at && after.attempts == row.attempts + 1
              && after.stop.None? && after.missed == 0 && after.release == s.release && after.lease == row.lease + 1
              && after.priority == row.priority && after.losses == row.losses
  {
  }

  /** A renewal moves the expiry of the lease held, a stop fences the worker's, and neither does anything else. */
  lemma HoldsOn(v: World, s: Step)
    requires Inv(v) && Allowed(v, s) && (s.Heartbeat? || s.Replay? || s.Stop?)
    ensures var row, after := v.row, Next(v, s).row;
            match s
            case Heartbeat(read, word, _, fixed) =>
              after == if Holds(row, word.Worker(), read.row.gen) then row.(expires := fixed + 30 * MINUTE) else row
            case Replay(worker, fixed) =>
              after == if row.gen.Some? && Holds(row, worker, row.gen)
                       then row.(expires := fixed + 30 * MINUTE) else row
            case Stop(worker) =>
              after == if Holds(row, worker, row.gen) then row.(stop := Some(v.nextOrder)) else row
  {
  }

  /**
   * The cron takes a lease back while it is still the one read, fenced as it was,
   * and has expired; a stopped worker's claim whatever its expiry. Each spends
   * the attempt.
   */
  lemma RequeueWrites(v: World, s: Step)
    requires Inv(v) && Allowed(v, s) && (s.Cron? || s.ClaimEnds?)
    ensures var row, after, read := v.row, Next(v, s).row, s.read.row;
            var same := row.status == Leased && row.owner == read.owner && row.stop == read.stop;
            if same && (s.Cron? ==> row.expires < s.read.at) then GoesBehind(row, after) else after == row
  {
  }

  /**
   * A completion ends the lease held. A failure does, ten behind its peers: for
   * good when it says so or the attempts read are spent, unless the attempt is
   * given back — for the first two losses of a host, or a lane that cannot run
   * it. On a revoked release nothing of it counts.
   */
  lemma ReportWrites(v: World, s: Step)
    requires Inv(v) && Allowed(v, s) && (s.Complete? || s.Fail?)
    ensures var row, after, read := v.row, Next(v, s).row, s.read.row;
            if !Holds(row, s.word.Worker(), read.gen) then after == row
            else if s.Complete? then after == row.(status := Done)
            else if read.release in s.revoked then GoesBack(row, after) && after.losses == row.losses
            else
              var lost := read.gen.Some? && s.what.lost && read.losses < 2;
              var back := lost || s.what.native;
              && after.priority == row.priority + 10
              && after.attempts == row.attempts - (if back then 1 else 0)
              && after.losses == row.losses + (if lost then 1 else 0)
              && after.status == (if !back && (s.what.final || read.attempts >= read.maxAttempts)
                                 then Failed else Queued)
  {
  }

  /**
   * A host's claim counts a lease it does not list, and starts the count again for
   * one it lists. The second count in a row, two minutes into the lease, takes it
   * back: the attempt given back twice, or on a revoked release; then spent.
   */
  lemma ReconcileWrites(v: World, s: Step)
    requires Inv(v) && Allowed(v, s) && s.Reconcile?
    ensures var row, after, read := v.row, Next(v, s).row, s.read.row;
            var same := row.status == Leased && row.owner == s.worker && row.gen == read.gen;
            if read.gen.value in s.listed then after == if same then row.(missed := 0) else row
            else if read.missed == 0 || s.read.at - read.started < 2 * MINUTE then
              after == if same then row.(missed := read.missed + 1) else row
            else if !same || row.stop.Some? then after == row
            else if read.release in s.revoked then
              GoesBack(row, after) && after.losses == row.losses && after.missed == 0
            else && (if row.losses < 2 then GoesBack(row, after) else GoesBehind(row, after))
                 && after.losses == row.losses + 1 && after.missed == 0
  {
  }

  /** Time, reads and tokens move no row. */
  lemma QuietWrites(v: World, s: Step)
    requires s.Tick? || s.Read? || s.Issue?
    ensures Next(v, s).row == v.row
  {
  }

  /** A token lasts thirty minutes from the whole second it was issued in. */
  lemma TokenLasts(t: Token, now: int)
    requires t.issued >= 0
    ensures Expired(t, now) <==> exists s: int :: s * 1000 <= t.issued < (s + 1) * 1000 && now > s * 1000 + 30 * MINUTE
  {
    var s := t.issued / 1000;
    assert s * 1000 <= t.issued < (s + 1) * 1000;
    forall k: int | k * 1000 <= t.issued < (k + 1) * 1000 ensures k == s {
    }
  }

  // ---------- how far behind a task goes ----------

  /** A write that puts the task behind its peers: an attempt spent, or a failure reported. */
  predicate Behind(v: World, s: Step) {
    var after := Next(v, s).row;
    && v.row.status == Leased && after.status in {Queued, Failed}
    && (s.Cron? || s.ClaimEnds?
        || (s.Fail? && s.read.row.release !in s.revoked)
        || (s.Reconcile? && s.read.row.release !in s.revoked && v.row.losses >= 2))
  }

  ghost function Behinds(steps: seq<Step>, w: World): nat
    decreases |steps|
  {
    if steps == [] then 0
    else
      var before, s := steps[..|steps| - 1], steps[|steps| - 1];
      Behinds(before, w) + if Run(before, w).Some? && Behind(Run(before, w).value, s) then 1 else 0
  }

  lemma StepBehind(v: World, s: Step)
    requires Inv(v) && Allowed(v, s)
    ensures Next(v, s).row.priority == v.row.priority + if Behind(v, s) then 10 else 0
  {
    hide Inv, Allowed, Written, Next;
    match s
    case Claim(_, _, _, _) => ClaimWrites(v, s);
    case Cron(_) => RequeueWrites(v, s);
    case ClaimEnds(_, _, _) => RequeueWrites(v, s);
    case Complete(_, _, _) => ReportWrites(v, s);
    case Fail(_, _, _, _) => ReportWrites(v, s);
    case Reconcile(_, _, _, _) => ReconcileWrites(v, s);
    case Tick(_) => QuietWrites(v, s);
    case Read => QuietWrites(v, s);
    case Issue(_) => QuietWrites(v, s);
    case _ => HoldsOn(v, s);
  }

  /** A task stands ten behind where it was queued for each attempt spent and each failure reported, and no more. */
  lemma {:induction false} PriorityCounts(steps: seq<Step>, w: World)
    requires Inv(w) && Run(steps, w).Some?
    ensures Run(steps, w).value.row.priority == w.row.priority + 10 * Behinds(steps, w)
    decreases |steps|
  {
    hide Inv, Allowed, Next, Behind;
    if steps != [] {
      var before := steps[..|steps| - 1];
      PriorityCounts(before, w);
      RunKeeps(before, w);
      StepBehind(Run(before, w).value, steps[|steps| - 1]);
    }
  }
}
