/**
 * The caps inside the one INSERT that issues an order (worker/src/orders.ts
 * `ISSUE_SQL`, `issueOrder`): what any sequence of issues, by any logins and
 * by the pool, can put into any hour or day. Times are milliseconds; nothing
 * here asks the clock to be monotone unless a lemma says so.
 */
module Caps {
  const HOUR: int := 3600000
  const DAY: int := 24 * HOUR
  const PER_WORKER: nat := 6
  const LOGIN_ORDERS: nat := 20
  const LOGIN_STOPS: nat := 30
  const POOL_RESTARTS: nat := 10
  const POOL_ORDERS: nat := 60
  const COMMUNITY_RESTARTS: nat := 6
  const COMMUNITY_ORDERS: nat := 40

  datatype Kind = RecheckAgent | Restart | RestartAgent | Drain | Resume | Update | StopTask

  /** Who issues: the pool for the project's workers or for the community's, or a person. */
  datatype Issuer = PoolProject | PoolCommunity | Login(id: nat)

  /** A row of the order table. */
  datatype Order = Order(worker: nat, kind: Kind, issuer: Issuer, at: int)

  /** What a cap counts. */
  datatype Class =
    | Worker(worker: nat, kinds: set<Kind>) | Orders(issuer: Issuer) | Others(issuer: Issuer) | Stops(issuer: Issuer)
                 | PoolAll | PoolRestarts | IssuerAll(issuer: Issuer) | IssuerRestarts(issuer: Issuer)

  predicate InClass(c: Class, o: Order) {
    match c
    case Worker(w, kinds) => o.worker == w && o.kind in kinds
    case Orders(who) => o.issuer == who && o.kind != Resume
    case Others(who) => o.issuer == who && o.kind != Resume && o.kind != StopTask
    case Stops(who) => o.issuer == who && o.kind == StopTask
    case PoolAll => !o.issuer.Login?
    case PoolRestarts => !o.issuer.Login? && o.kind in {Restart, RestartAgent}
    case IssuerAll(who) => o.issuer == who
    case IssuerRestarts(who) => o.issuer == who && o.kind in {Restart, RestartAgent}
  }

  /** The rows of a class later than `after`. */
  function Since(rows: seq<Order>, c: Class, after: int): nat {
    if rows == [] then 0
    else
      var o := rows[|rows| - 1];
      Since(rows[..|rows| - 1], c, after) + (if InClass(c, o) && o.at > after then 1 else 0)
  }

  /** The rows of a class from `from` on, before `from + span`. */
  function During(rows: seq<Order>, c: Class, from: int, span: int): nat {
    if rows == [] then 0
    else
      var o := rows[|rows| - 1];
      During(rows[..|rows| - 1], c, from, span) + (if InClass(c, o) && from <= o.at < from + span then 1 else 0)
  }

  /** The kinds that share a worker's hourly cap; on a host's registration a stop is outside. */
  function Group(host: bool, kind: Kind): set<Kind> {
    if host && kind == StopTask then {}
    else if kind in {Restart, RestartAgent, Update, StopTask}
            then {Restart, RestartAgent, Update} + (if host then {} else {StopTask})
    else {kind}
  }

  /** The caps of the INSERT, over the table as it finds it. */
  predicate Passes(hosts: set<nat>, rows: seq<Order>, o: Order) {
    var host := o.worker in hosts;
    var pool := !o.issuer.Login?;
    var restart := o.kind in {Restart, RestartAgent};
    && (o.kind == Resume || Since(rows, Worker(o.worker, Group(host, o.kind)), o.at - HOUR) < PER_WORKER)
    && (pool || o.kind == Resume ||
        if o.kind == StopTask && host then Since(rows, Stops(o.issuer), o.at - HOUR) < LOGIN_STOPS
        else Since(rows, Orders(o.issuer), o.at - HOUR) < LOGIN_ORDERS)
    && (!pool || !restart || Since(rows, PoolRestarts, o.at - HOUR) < POOL_RESTARTS)
    && (o.issuer != PoolCommunity || !restart
        || Since(rows, IssuerRestarts(PoolCommunity), o.at - HOUR) < COMMUNITY_RESTARTS)
    && (!pool || Since(rows, PoolAll, o.at - DAY) < POOL_ORDERS)
    && (o.issuer != PoolCommunity || Since(rows, IssuerAll(PoolCommunity), o.at - DAY) < COMMUNITY_ORDERS)
  }

  /**
   * The table after an issue; `may` stands for what is not a count: the compare-
   * and-set, the state a kind acts on, the unique indexes.
   */
  function Issued(hosts: set<nat>, rows: seq<Order>, o: Order, may: bool): seq<Order> {
    if may && Passes(hosts, rows, o) then rows + [o] else rows
  }

  /** A table every row of which went in under the caps. */
  ghost predicate Legit(hosts: set<nat>, rows: seq<Order>) {
    rows == [] || (Legit(hosts, rows[..|rows| - 1]) && Passes(hosts, rows[..|rows| - 1], rows[|rows| - 1]))
  }

  /** The orders table of the pool. */
  class OrderTable {
    const hosts: set<nat>
    var rows: seq<Order>

    ghost predicate Valid() reads this {
      Legit(hosts, rows)
    }

    constructor (hosts: set<nat>)
      ensures Valid() && this.hosts == hosts && rows == []
    {
      this.hosts := hosts;
      rows := [];
    }

    method CountSince(c: Class, after: int) returns (n: nat)
      ensures n == Since(rows, c, after)
    {
      n := 0;
      for i := 0 to |rows|
        invariant n == Since(rows[..i], c, after)
      {
        assert rows[..i + 1][..i] == rows[..i];
        if InClass(c, rows[i]) && rows[i].at > after {
          n := n + 1;
        }
      }
      assert rows[..|rows|] == rows;
    }

    /** One order, issued only under every cap; nothing is written unless it is. */
    method Issue(o: Order, may: bool) returns (ok: bool)
      requires Valid()
      modifies this`rows
      ensures Valid() && rows == Issued(hosts, old(rows), o, may)
      ensures ok <==> rows == old(rows) + [o]
    {
      var host, pool, restart := o.worker in hosts, !o.issuer.Login?, o.kind in {Restart, RestartAgent};
      ok := may;
      var n;
      if o.kind != Resume {
        n := CountSince(Worker(o.worker, Group(host, o.kind)), o.at - HOUR);
        ok := ok && n < PER_WORKER;
        if !pool {
          if o.kind == StopTask && host {
            n := CountSince(Stops(o.issuer), o.at - HOUR);
            ok := ok && n < LOGIN_STOPS;
          } else {
            n := CountSince(Orders(o.issuer), o.at - HOUR);
            ok := ok && n < LOGIN_ORDERS;
          }
        }
      }
      if pool {
        if restart {
          n := CountSince(PoolRestarts, o.at - HOUR);
          ok := ok && n < POOL_RESTARTS;
        }
        n := CountSince(PoolAll, o.at - DAY);
        ok := ok && n < POOL_ORDERS;
      }
      if o.issuer == PoolCommunity {
        if restart {
          n := CountSince(IssuerRestarts(PoolCommunity), o.at - HOUR);
          ok := ok && n < COMMUNITY_RESTARTS;
        }
        n := CountSince(IssuerAll(PoolCommunity), o.at - DAY);
        ok := ok && n < COMMUNITY_ORDERS;
      }
      if ok {
        assert (rows + [o])[..|rows|] == rows;
        rows := rows + [o];
      }
    }
  }
}
