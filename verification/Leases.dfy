/**
 * A task's row, and the guarded updates that move it: the claim, the renewals,
 * the stop's fence, and every way a lease is given back (worker/src/lease.ts,
 * worker/src/auth.ts, worker/src/routes/factory.ts). Times are milliseconds.
 */
module Leases {
  import opened Wrappers

  datatype Status = Queued | Leased | Failed | Done

  /**
   * A task's row. `lease` is no column: it counts the claims that leased the
   * task, so a lease has a name here that no guard reads.
   */
  datatype Row = Row(status: Status, owner: nat, gen: Option<nat>, expires: int, started: int,
                     attempts: nat, maxAttempts: nat, priority: int, stop: Option<nat>,
                     losses: nat, missed: nat, release: nat, lease: nat)

  /**
   * A job token: who it was issued to, its lease's generation, and when it was
   * issued. `lease` names that lease, and `from` when the update it was issued
   * after — the claim's or the heartbeat's — fixed its expiry.
   */
  datatype Token = Token(worker: nat, gen: Option<nat>, lease: nat, from: int, issued: int)

  const LEASE_MS: int := 30 * 60000
  const GRACE_MS: int := 2 * 60000
  const HOST_LOSSES_MAX: nat := 2

  /** A token's end: whole seconds of the time it is issued, as its claims carry it. */
  function TokenEnd(issued: int): int {
    (issued / 1000) * 1000 + LEASE_MS
  }

  predicate Expired(t: Token, now: int) { TokenEnd(t.issued) < now }

  /**
   * A queued task leased: one attempt more, no fence, a new generation for a
   * host's lease and none for a legacy one. The claim's time and its expiry's are
   * taken before the row is written.
   */
  function Claimed(row: Row, worker: nat, gen: Option<nat>, release: nat, at: int, fixed: int): Option<Row> {
    if row.status != Queued then None
    else Some(row.(status := Leased, owner := worker, gen := gen, expires := fixed + LEASE_MS, started := at,
                   attempts := row.attempts + 1, stop := None, missed := 0, release := release, lease := row.lease + 1))
  }

  /**
   * A write that ends or renews a lease is conditional on this: leased to the
   * caller, of its generation, not fenced.
   */
  predicate LeaseHeld(row: Row, worker: nat, gen: Option<nat>) {
    row.status == Leased && row.owner == worker && row.gen == gen && row.stop.None?
  }

  /** The expiry set outright, whatever stands: one fixed earlier moves it back. */
  function Renewed(row: Row, worker: nat, gen: Option<nat>, fixed: int): Option<Row> {
    if LeaseHeld(row, worker, gen) then Some(row.(expires := fixed + LEASE_MS)) else None
  }

  /** A stop fences the lease its worker holds now. */
  function Fenced(row: Row, worker: nat, order: nat): Option<Row> {
    if row.status == Leased && row.owner == worker && row.stop.None? then Some(row.(stop := Some(order))) else None
  }

  /** An attempt spent: behind its peers, failed when it was the last. */
  function Spent(row: Row): Row {
    row.(status := if row.attempts >= row.maxAttempts then Failed else Queued,
         priority := row.priority + 10, stop := None)
  }

  function GivenBack(row: Row): Row {
    row.(attempts := if row.attempts > 0 then row.attempts - 1 else 0)
  }

  /** REQUEUE_SQL: only while the lease is still the one read, and for the cron only while it has still expired. */
  function Requeued(row: Row, worker: nat, stop: Option<nat>, expiredBefore: Option<int>): Option<Row> {
    if row.status == Leased && row.owner == worker && row.stop == stop
       && (expiredBefore.Some? ==> row.expires < expiredBefore.value)
    then Some(Spent(row)) else None
  }

  /** REVOKED_REQUEUE_SQL: back at its place, the attempt given back. */
  function RequeuedRevoked(row: Row, worker: nat, gen: Option<nat>): Option<Row> {
    if LeaseHeld(row, worker, gen) then Some(GivenBack(row).(status := Queued, missed := 0)) else None
  }

  /** LOST_LEASE_SQL: the attempt given back at most HOST_LOSSES_MAX times, then spent. */
  function Lost(row: Row, worker: nat, gen: nat): Option<Row> {
    if !LeaseHeld(row, worker, Some(gen)) then None
    else
      var after := if row.losses >= HOST_LOSSES_MAX then Spent(row) else GivenBack(row).(status := Queued);
      Some(after.(losses := row.losses + 1, missed := 0))
  }

  /** A host's claim that does not list a lease counts it missed; one that lists it starts the count again. */
  function Counted(row: Row, worker: nat, gen: Option<nat>, missed: nat): Option<Row> {
    if row.status == Leased && row.owner == worker && row.gen == gen then Some(row.(missed := missed)) else None
  }

  function Completed(row: Row, worker: nat, gen: Option<nat>): Option<Row> {
    if LeaseHeld(row, worker, gen) then Some(row.(status := Done)) else None
  }

  /** What a failure report says: for good, the host's own loss, or that its emulated lane cannot start it. */
  datatype Failure = Failure(final: bool, lost: bool, native: bool)

  /** The report's words, as the row it read lets them count. */
  predicate IsLoss(read: Row, what: Failure) {
    read.gen.Some? && what.lost && read.losses < HOST_LOSSES_MAX
  }

  predicate GivesBack(read: Row, what: Failure) {
    IsLoss(read, what) || what.native
  }

  predicate Exhausted(read: Row, what: Failure) {
    !GivesBack(read, what) && (what.final || read.attempts >= read.maxAttempts)
  }

  /** A failure reported on `read`, written to the row as it stands: its new status was decided when it was read. */
  function FailedOn(row: Row, read: Row, worker: nat, what: Failure): Option<Row> {
    if !LeaseHeld(row, worker, read.gen) then None
    else
      var back := if GivesBack(read, what) then GivenBack(row) else row;
      Some(back.(status := if Exhausted(read, what) then Failed else Queued, priority := row.priority + 10,
                 losses := if IsLoss(read, what) then row.losses + 1 else row.losses))
  }

  /** Whether the pool takes a write of a token now: the lease check every pool-wide write passes. */
  predicate Accepted(row: Row, t: Token, now: int, revoked: set<nat>) {
    && !Expired(t, now)
    && if t.gen.None? && revoked == {} then true
       else
         var held := LeaseHeld(row, t.worker, t.gen);
         if held then row.release !in revoked else t.gen.None?
  }

  /** The row a task keeps, under the updates lease.ts makes to it. */
  class TaskRow {
    var row: Row

    constructor (row: Row)
      ensures this.row == row
    {
      this.row := row;
    }

    /** One lease given back, by the cron or by a claim: false when the lease had moved. */
    method RequeueLease(worker: nat, stop: Option<nat>, expiredBefore: Option<int>) returns (done: bool)
      modifies this
      ensures match Requeued(old(row), worker, stop, expiredBefore)
              case Some(after) => done && row == after
              case None => !done && row == old(row)
    {
      if row.status != Leased || row.owner != worker || row.stop != stop {
        return false;
      }
      if expiredBefore.Some? && row.expires >= expiredBefore.value {
        return false;
      }
      if row.attempts >= row.maxAttempts {
        row := row.(status := Failed);
      } else {
        row := row.(status := Queued);
      }
      row := row.(priority := row.priority + 10, stop := None);
      return true;
    }

    /** A lease of a revoked release given back: false when the lease had moved. */
    method RequeueRevoked(worker: nat, gen: Option<nat>) returns (done: bool)
      modifies this
      ensures match RequeuedRevoked(old(row), worker, gen)
              case Some(after) => done && row == after
              case None => !done && row == old(row)
    {
      if row.status != Leased || row.owner != worker || row.gen != gen || row.stop.Some? {
        return false;
      }
      row := row.(status := Queued, attempts := if row.attempts > 0 then row.attempts - 1 else 0, missed := 0);
      return true;
    }
  }
}
