/**
 * One task under every interleaving of claims, heartbeats, stops, the cron,
 * reports, reconciliations and revocations. A handler reads the row, fixes the
 * expiry it will write, and any time later makes its write, decided on what it
 * read; a token is issued some time after the update it belongs to.
 */
module LeaseRuns {
  import opened Wrappers
  import opened Leases

  /** A row some handler read, and when. */
  datatype Seen = Seen(row: Row, at: int)

  /** A token still to be issued: an update leased or renewed, and its answer is on its way. */
  datatype Due = Due(worker: nat, gen: Option<nat>, lease: nat, from: int)

  /**
   * Who speaks of a lease: a job token of it, or a worker that held it, with the
   * registration's own token.
   */
  datatype Word = ByToken(token: Token) | ByWorker(worker: nat, lease: nat) {
    function Worker(): nat { if ByToken? then token.worker else worker }
    function Gen(): Option<nat> { if ByToken? then token.gen else None }
    function Lease(): nat { if ByToken? then token.lease else lease }
  }

  /**
   * `hosts` are the workers registered as hosts; `holders` names who claimed each
   * lease, `back` the leases that ended, in their order; `landed` is when the
   * row's expiry was last written.
   */
  datatype World = World(row: Row, now: int, hosts: set<nat>, nextGen: nat, nextOrder: nat, due: set<Due>,
                         tokens: set<Token>, seen: set<Seen>, holders: seq<nat>, given: nat, back: seq<nat>,
                         landed: int)

  datatype Step =
    | Tick(span: nat)
    | Read
    | Claim(worker: nat, release: nat, at: int, fixed: int)
    | Replay(worker: nat, fixed: int)                          // a host's claim retried: the lease it took, renewed
    | Issue(due: Due)
    | Stop(worker: nat)
    | Heartbeat(read: Seen, word: Word, revoked: set<nat>, fixed: int)
    | Complete(read: Seen, word: Word, revoked: set<nat>)
    | Fail(read: Seen, word: Word, what: Failure, revoked: set<nat>)
    | Cron(read: Seen)                                         // the expired lease the cron read
    // the stopped worker claims again; a host lists what it still runs
    | ClaimEnds(worker: nat, read: Seen, listed: set<nat>)
    | Reconcile(worker: nat, read: Seen, listed: set<nat>, revoked: set<nat>)

  /** Two claims in a row did not list the lease, and it is old enough to be lost. */
  predicate Missed(read: Seen, listed: set<nat>) {
    && read.row.gen.Some? && read.row.gen.value !in listed
    && read.row.missed >= 1 && read.row.started <= read.at - GRACE_MS
  }

  function Reconciled(row: Row, worker: nat, read: Seen, listed: set<nat>, revoked: set<nat>): Option<Row>
    requires read.row.gen.Some?
  {
    if !Missed(read, listed)
       then Counted(row, worker, read.row.gen, if read.row.gen.value in listed then 0 else read.row.missed + 1)
    else if read.row.release in revoked then RequeuedRevoked(row, worker, read.row.gen)
    else Lost(row, worker, read.row.gen.value)
  }

  /** The row a step writes; None when it writes none. */
  function Written(w: World, s: Step): Option<Row> {
    match s
    case Claim(worker, release, at, fixed) =>
      Claimed(w.row, worker, if worker in w.hosts then Some(w.nextGen) else None, release, at, fixed)
    case Replay(worker, fixed) => if w.row.gen.None? then None else Renewed(w.row, worker, w.row.gen, fixed)
    case Stop(worker) => Fenced(w.row, worker, w.nextOrder)
    case Heartbeat(read, word, _, fixed) => Renewed(w.row, word.Worker(), read.row.gen, fixed)
    case Complete(read, word, _) => Completed(w.row, word.Worker(), read.row.gen)
    case Fail(read, word, what, revoked) =>
      if read.row.release in revoked then RequeuedRevoked(w.row, read.row.owner, read.row.gen)
      else FailedOn(w.row, read.row, word.Worker(), what)
    case Cron(read) => Requeued(w.row, read.row.owner, read.row.stop, Some(read.at))
    case ClaimEnds(worker, read, _) => Requeued(w.row, worker, read.row.stop, None)
    case Reconcile(worker, read, listed, revoked) =>
      if read.row.gen.None? then None else Reconciled(w.row, worker, read, listed, revoked)
    case _ => None
  }

  /**
   * A report or a heartbeat that passed its first check: its word is of a lease
   * made, and the row it read is the sender's.
   */
  predicate Sent(w: World, read: Seen, word: Word) {
    && read in w.seen && LeaseHeld(read.row, word.Worker(), word.Gen()) && 1 <= word.Lease() <= read.row.lease
    && match word
       case ByToken(t) => t in w.tokens && t.issued <= read.at && !Expired(t, read.at)
       case ByWorker(worker, lease) => lease <= |w.holders| && w.holders[lease - 1] == worker
  }

  /** When a handler reaches its write at all, on what it read. */
  predicate Allowed(w: World, s: Step) {
    match s
    case Issue(due) => due in w.due
    case Claim(_, _, at, fixed) => at <= fixed <= w.now
    case Replay(_, fixed) => fixed <= w.now
    case Heartbeat(read, word, revoked, fixed) =>
      Sent(w, read, word) && read.row.release !in revoked && read.at <= fixed <= w.now
    case Complete(read, word, revoked) => Sent(w, read, word) && read.row.release !in revoked
    case Fail(read, word, _, _) => Sent(w, read, word)
    case Cron(read) => read in w.seen && read.row.status == Leased && read.row.expires < read.at
    case ClaimEnds(worker, read, listed) =>
      && read in w.seen && read.row.status == Leased && read.row.owner == worker && read.row.stop.Some?
      && (read.row.gen.Some? ==> read.row.gen.value !in listed)
    case Reconcile(worker, read, _, _) => read in w.seen && read.row.gen.Some?
                                          && LeaseHeld(read.row, worker, read.row.gen)
    case _ => true
  }

  predicate Ends(before: Row, after: Row) { before.status == Leased && after.status != Leased }

  /** A step that writes an expiry, fixed when its handler chose it. */
  predicate Sets(s: Step) { s.Claim? || s.Replay? || s.Heartbeat? }

  function Renews(s: Step, after: Row): set<Due> {
    if Sets(s) then {Due(after.owner, after.gen, after.lease, s.fixed)} else {}
  }

  function Next(w: World, s: Step): World {
    match Written(w, s)
    case None =>
      (match s
       case Tick(span) => w.(now := w.now + span)
       case Read => w.(seen := w.seen + {Seen(w.row, w.now)})
       case Issue(due) =>
         w.(due := w.due - {due}, tokens := w.tokens + {Token(due.worker, due.gen, due.lease, due.from, w.now)})
       case _ => w)
    case Some(after) =>
      w.(row := after,
         nextGen := if s.Claim? && s.worker in w.hosts then w.nextGen + 1 else w.nextGen,
         nextOrder := if s.Stop? then w.nextOrder + 1 else w.nextOrder,
         due := w.due + Renews(s, after),
         holders := if s.Claim? then w.holders + [s.worker] else w.holders,
         given := w.given + (if w.row.attempts > after.attempts then w.row.attempts - after.attempts else 0),
         back := if Ends(w.row, after) then w.back + [w.row.lease] else w.back,
         landed := if Sets(s) then w.now else w.landed)
  }

  function Start(hosts: set<nat>, maxAttempts: nat, priority: int, now: int): World {
    var row := Row(Queued, 0, None, 0, 0, 0, maxAttempts, priority, None, 0, 0, 0, 0);
    World(row, now, hosts, 0, 0, {}, {}, {}, [], 0, [], now)
  }

  // ---------- what every step keeps ----------

  predicate HeldBy(w: World, lease: nat, worker: nat) {
    1 <= lease <= |w.holders| && w.holders[lease - 1] == worker
  }

  /** A generation of an earlier lease is never the row's; one of this lease is the row's, and its worker the holder. */
  predicate Names(w: World, worker: nat, gen: Option<nat>, lease: nat) {
    && HeldBy(w, lease, worker)
    && (gen.Some? ==> gen.value < w.nextGen)
    && (gen.Some? && gen == w.row.gen ==> lease == w.row.lease)
    && (lease == w.row.lease ==> gen == w.row.gen)
  }

  predicate DueOk(w: World, d: Due) {
    Names(w, d.worker, d.gen, d.lease) && d.from <= w.now
  }

  predicate TokenOk(w: World, t: Token) {
    DueOk(w, Due(t.worker, t.gen, t.lease, t.from)) && t.from <= t.issued <= w.now
  }

  /**
   * A row read earlier: a generation or a fence it saw belongs to no newer lease,
   * and the expiry of a newer one was written after it was read.
   */
  predicate SeenOk(w: World, o: Seen) {
    && o.at <= w.now && o.row.lease <= w.row.lease && o.row.maxAttempts == w.row.maxAttempts
    && (o.row.gen.Some? ==> o.row.gen.value < w.nextGen)
    && (o.row.gen.Some? && o.row.gen == w.row.gen ==> o.row.lease == w.row.lease)
    && (o.row.stop.Some? ==> o.row.stop.value < w.nextOrder)
    && (o.row.stop.Some? && o.row.stop == w.row.stop ==> o.row.lease == w.row.lease)
    && (o.row.lease < w.row.lease && w.row.status == Leased ==> o.at <= w.landed)
    && (o.row.status == Leased ==>
          HeldBy(w, o.row.lease, o.row.owner) && (o.row.gen.Some? <==> o.row.owner in w.hosts))
    && (o.row.lease == w.row.lease && o.row.status == Leased ==> o.row.owner == w.row.owner && o.row.gen == w.row.gen)
    && (o.row.lease == w.row.lease && o.row.status == Leased == w.row.status ==>
          o.row.attempts == w.row.attempts && o.row.losses == w.row.losses)
  }

  predicate RowOk(w: World) {
    && (w.row.status == Leased ==>
          && 1 <= w.row.attempts && HeldBy(w, w.row.lease, w.row.owner) && (w.row.gen.Some? <==> w.row.owner in w.hosts)
          && w.row.expires <= w.landed + LEASE_MS && w.landed <= w.now)
    && (w.row.status != Leased ==> w.row.stop.None?)
    && (w.row.gen.Some? ==> w.row.gen.value < w.nextGen)
    && (w.row.stop.Some? ==> w.row.stop.value < w.nextOrder)
    && |w.holders| == w.row.lease == w.row.attempts + w.given
  }

  /** Every lease that ended did so once, and none of them is the one held now. */
  ghost predicate BackOk(w: World) {
    && (forall i {:trigger w.back[i]} | 0 <= i < |w.back| ::
          w.back[i] < w.row.lease || (w.back[i] == w.row.lease && w.row.status != Leased))
    && (forall i, j {:trigger w.back[i], w.back[j]} | 0 <= i < j < |w.back| :: w.back[i] < w.back[j])
  }

  ghost predicate Inv(w: World) {
    && RowOk(w) && BackOk(w)
    && (forall d {:trigger DueOk(w, d)} | d in w.due :: DueOk(w, d))
    && (forall t {:trigger TokenOk(w, t)} | t in w.tokens :: TokenOk(w, t))
    && (forall o {:trigger SeenOk(w, o)} | o in w.seen :: SeenOk(w, o))
  }

  /** What a write may do to the row, whichever handler makes it. */
  predicate Moves(w: World, s: Step, after: Row) {
    && after.maxAttempts == w.row.maxAttempts
    && (s.Claim? ==>
          && w.row.status == Queued
          && after == Claimed(w.row, s.worker, if s.worker in w.hosts then Some(w.nextGen) else None, s.release, s.at,
                              s.fixed).value)
    && (!s.Claim? ==>
          && w.row.status == Leased
          && after.lease == w.row.lease && after.gen == w.row.gen && after.owner == w.row.owner
          && (after.status == Leased ==>
                && after.attempts == w.row.attempts && after.losses == w.row.losses
                && (Sets(s) || after.expires == w.row.expires)
                && (after.stop == w.row.stop || (s.Stop? && after.stop == Some(w.nextOrder))))
          && (after.status != Leased ==> after.stop.None? && after.attempts <= w.row.attempts))
    && (Sets(s) ==> after.status == Leased && after.expires == s.fixed + LEASE_MS && s.fixed <= w.now)
  }

  lemma {:induction false} WrittenMoves(w: World, s: Step)
    requires Inv(w) && Allowed(w, s) && Written(w, s).Some?
    ensures Moves(w, s, Written(w, s).value)
  {
  }

  lemma {:induction false} NamesKept(w: World, s: Step, worker: nat, gen: Option<nat>, lease: nat)
    requires RowOk(w) && Written(w, s).Some? && Moves(w, s, Written(w, s).value) && Names(w, worker, gen, lease)
    ensures Names(Next(w, s), worker, gen, lease)
  {
    hide Written, Moves;
    MovesName(w, s);
  }

  lemma {:induction false} MovesName(w: World, s: Step)
    requires Written(w, s).Some? && Moves(w, s, Written(w, s).value)
    ensures var after := Next(w, s);
            && after.row == Written(w, s).value && w.holders <= after.holders && w.nextGen <= after.nextGen
            && (if s.Claim? then
                  && after.row.lease == w.row.lease + 1 && (after.row.gen.Some? ==> after.row.gen == Some(w.nextGen))
                  && |after.holders| == |w.holders| + 1 && after.holders[|w.holders|] == after.row.owner
                else
                  && after.row.lease == w.row.lease && after.row.gen == w.row.gen && after.holders == w.holders)
  {
    hide Written;
  }

  lemma {:induction false} StepKeeps(w: World, s: Step)
    requires Inv(w) && Allowed(w, s)
    ensures Inv(Next(w, s))
  {
    if Written(w, s).Some? {
      WrittenMoves(w, s);
      WriteKeeps(w, s);
    } else {
      QuietKeeps(w, s);
    }
  }

  lemma {:induction false} QuietKeeps(w: World, s: Step)
    requires Inv(w) && Allowed(w, s) && Written(w, s).None?
    ensures Inv(Next(w, s))
  {
    var after := Next(w, s);
    forall d | d in after.due ensures DueOk(after, d) {
      assert DueOk(w, d);
    }
    forall t | t in after.tokens ensures TokenOk(after, t) {
      if t in w.tokens {
        assert TokenOk(w, t);
      } else {
        assert DueOk(w, s.due);
      }
    }
    forall o | o in after.seen ensures SeenOk(after, o) {
      if o in w.seen {
        assert SeenOk(w, o);
      }
    }
  }

  lemma {:induction false} WriteKeeps(w: World, s: Step)
    requires Inv(w) && Written(w, s).Some? && Moves(w, s, Written(w, s).value)
    ensures Inv(Next(w, s))
  {
    hide Written, Names;
    var after := Next(w, s);
    MovesName(w, s);
    RowKept(w, s);
    forall d | d in after.due ensures DueOk(after, d) {
      DueKept(w, s, d);
    }
    forall t | t in after.tokens ensures TokenOk(after, t) {
      assert TokenOk(w, t);
      NamesKept(w, s, t.worker, t.gen, t.lease);
    }
    forall o | o in after.seen ensures SeenOk(after, o) {
      assert SeenOk(w, o);
      SeenKept(w, s, o);
    }
  }

  lemma {:induction false} RowKept(w: World, s: Step)
    requires RowOk(w) && BackOk(w) && Written(w, s).Some? && Moves(w, s, Written(w, s).value)
    ensures RowOk(Next(w, s)) && BackOk(Next(w, s))
  {
    hide Written;
  }

  lemma {:induction false} DueKept(w: World, s: Step, d: Due)
    requires Inv(w) && Written(w, s).Some? && Moves(w, s, Written(w, s).value) && d in Next(w, s).due
    ensures DueOk(Next(w, s), d)
  {
    hide Written;
    if d in w.due {
      assert DueOk(w, d);
      NamesKept(w, s, d.worker, d.gen, d.lease);
    }
  }

  lemma {:induction false} SeenKept(w: World, s: Step, o: Seen)
    requires RowOk(w) && SeenOk(w, o) && Written(w, s).Some? && Moves(w, s, Written(w, s).value)
    ensures SeenOk(Next(w, s), o)
  {
    hide Written;
  }

  // ---------- whole runs ----------

  /** The world after a run; nothing when a step is not allowed. */
  function Run(steps: seq<Step>, w: World): Option<World>
    decreases |steps|
  {
    if steps == [] then Some(w)
    else match Run(steps[..|steps| - 1], w)
      case None => None
      case Some(v) => if Allowed(v, steps[|steps| - 1]) then Some(Next(v, steps[|steps| - 1])) else None
  }

  lemma {:induction false} RunKeeps(steps: seq<Step>, w: World)
    requires Inv(w) && Run(steps, w).Some?
    ensures Inv(Run(steps, w).value)
    decreases |steps|
  {
    hide Inv, Next, Allowed;
    if steps != [] {
      RunKeeps(steps[..|steps| - 1], w);
      StepKeeps(Run(steps[..|steps| - 1], w).value, steps[|steps| - 1]);
    }
  }

  lemma {:induction false} StartKeeps(hosts: set<nat>, maxAttempts: nat, priority: int, now: int)
    ensures Inv(Start(hosts, maxAttempts, priority, now))
  {
  }
}
