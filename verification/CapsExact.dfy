/**
 * Which orders go in (worker/src/orders.ts `ISSUE_SQL`), from the rows of the
 * table alone: if and only if.
 */
module CapsExact {
  import opened Caps

  /** The rows of the table that are of a kind, later than a time. */
  function Later(rows: seq<Order>, of: Order -> bool, after: int): set<nat> {
    set i | 0 <= i < |rows| && of(rows[i]) && rows[i].at > after
  }

  lemma {:induction false} SinceIsLater(rows: seq<Order>, c: Class, of: Order -> bool, after: int)
    requires forall o :: InClass(c, o) <==> of(o)
    ensures Since(rows, c, after) == |Later(rows, of, after)|
    decreases |rows|
  {
    hide InClass;
    if rows != [] {
      var before, o := rows[..|rows| - 1], rows[|rows| - 1];
      SinceIsLater(before, c, of, after);
      var was := Later(before, of, after);
      assert Later(rows, of, after) == if of(o) && o.at > after then was + {|before|} else was;
    }
  }

  predicate IsRestart(k: Kind) { k == Restart || k == RestartAgent }

  /** The kinds an order of kind `k` shares its worker's hour with. */
  predicate Shares(k: Kind, k': Kind, host: bool) {
    if IsRestart(k) || k == Update || k == StopTask
    then IsRestart(k') || k' == Update || (k' == StopTask && !host)
    else k' == k
  }

  /** Fewer than six for its worker in the hour, of the kinds that share; a resume and a stop on a host are outside. */
  predicate WorkerAllows(hosts: set<nat>, rows: seq<Order>, o: Order) {
    var host := o.worker in hosts;
    || o.kind == Resume
    || (o.kind == StopTask && host)
    || |Later(rows, (p: Order) => p.worker == o.worker && Shares(o.kind, p.kind, host), o.at - 3600000)| < 6
  }

  /** A person: fewer than twenty orders in the hour, or thirty stops on hosts' registrations; resumes are free. */
  predicate LoginAllows(hosts: set<nat>, rows: seq<Order>, o: Order) {
    || !o.issuer.Login?
    || o.kind == Resume
    || if o.kind == StopTask && o.worker in hosts
       then |Later(rows, (p: Order) => p.issuer == o.issuer && p.kind == StopTask, o.at - 3600000)| < 30
       else |Later(rows, (p: Order) => p.issuer == o.issuer && p.kind != Resume, o.at - 3600000)| < 20
  }

  /** The pool: fewer than sixty orders in the day and ten restarts in the hour. */
  predicate PoolAllows(rows: seq<Order>, o: Order) {
    o.issuer.Login? ||
    (&& |Later(rows, (p: Order) => !p.issuer.Login?, o.at - 86400000)| < 60
     && (IsRestart(o.kind) ==> |Later(rows, (p: Order) => !p.issuer.Login? && IsRestart(p.kind), o.at - 3600000)| < 10))
  }

  /** The community's share of them: fewer than forty, and six. */
  predicate ShareAllows(rows: seq<Order>, o: Order) {
    o.issuer != PoolCommunity ||
    (&& |Later(rows, (p: Order) => p.issuer == PoolCommunity, o.at - 86400000)| < 40
     && (IsRestart(o.kind) ==>
           |Later(rows, (p: Order) => p.issuer == PoolCommunity && IsRestart(p.kind), o.at - 3600000)| < 6))
  }

  lemma WorkerIs(hosts: set<nat>, rows: seq<Order>, o: Order)
    ensures WorkerAllows(hosts, rows, o) <==>
              o.kind == Resume
              || Since(rows, Worker(o.worker, Group(o.worker in hosts, o.kind)), o.at - HOUR) < PER_WORKER
  {
    hide Since;
    var host := o.worker in hosts;
    var group := Worker(o.worker, Group(host, o.kind));
    if o.kind == StopTask && host {
      SinceIsLater(rows, group, (p: Order) => false, o.at - HOUR);
      assert Later(rows, (p: Order) => false, o.at - HOUR) == {};
    } else {
      SinceIsLater(rows, group, (p: Order) => p.worker == o.worker && Shares(o.kind, p.kind, host), o.at - HOUR);
    }
  }

  lemma LoginIs(hosts: set<nat>, rows: seq<Order>, o: Order)
    ensures LoginAllows(hosts, rows, o) <==>
              || !o.issuer.Login? || o.kind == Resume
              || if o.kind == StopTask && o.worker in hosts then Since(rows, Stops(o.issuer), o.at - HOUR) < LOGIN_STOPS
                 else Since(rows, Orders(o.issuer), o.at - HOUR) < LOGIN_ORDERS
  {
    hide Since;
    SinceIsLater(rows, Stops(o.issuer), (p: Order) => p.issuer == o.issuer && p.kind == StopTask, o.at - HOUR);
    SinceIsLater(rows, Orders(o.issuer), (p: Order) => p.issuer == o.issuer && p.kind != Resume, o.at - HOUR);
  }

  lemma PoolIs(rows: seq<Order>, o: Order)
    ensures PoolAllows(rows, o) <==>
              || o.issuer.Login?
              || (&& Since(rows, PoolAll, o.at - DAY) < POOL_ORDERS
                  && (IsRestart(o.kind) ==> Since(rows, PoolRestarts, o.at - HOUR) < POOL_RESTARTS))
  {
    hide Since;
    SinceIsLater(rows, PoolAll, (p: Order) => !p.issuer.Login?, o.at - DAY);
    SinceIsLater(rows, PoolRestarts, (p: Order) => !p.issuer.Login? && IsRestart(p.kind), o.at - HOUR);
  }

  lemma ShareIs(rows: seq<Order>, o: Order)
    ensures ShareAllows(rows, o) <==>
              || o.issuer != PoolCommunity
              || (&& Since(rows, IssuerAll(PoolCommunity), o.at - DAY) < COMMUNITY_ORDERS
                  && (IsRestart(o.kind) ==>
                        Since(rows, IssuerRestarts(PoolCommunity), o.at - HOUR) < COMMUNITY_RESTARTS))
  {
    hide Since;
    SinceIsLater(rows, IssuerAll(PoolCommunity), (p: Order) => p.issuer == PoolCommunity, o.at - DAY);
    SinceIsLater(rows, IssuerRestarts(PoolCommunity), (p: Order) => p.issuer == PoolCommunity && IsRestart(p.kind),
                 o.at - HOUR);
  }

  /**
   * An order goes in if and only if it may for what is no count, its worker's
   * hour has room, and so has what issued it: a person's hour, the pool's day and
   * hour, the community's share of them.
   */
  lemma GoesInExactly(hosts: set<nat>, rows: seq<Order>, o: Order, may: bool)
    ensures Issued(hosts, rows, o, may) ==
              if may && WorkerAllows(hosts, rows, o) && LoginAllows(hosts, rows, o) && PoolAllows(rows, o)
                 && ShareAllows(rows, o)
              then rows + [o] else rows
  {
    hide Since, WorkerAllows, LoginAllows, PoolAllows, ShareAllows;
    WorkerIs(hosts, rows, o);
    LoginIs(hosts, rows, o);
    PoolIs(rows, o);
    ShareIs(rows, o);
  }

  /** A person under the caps is never refused for what the pool or another person did. */
  lemma LoginNeverStarved(hosts: set<nat>, rows: seq<Order>, o: Order)
    requires o.issuer.Login? && WorkerAllows(hosts, rows, o)
    requires |Later(rows, (p: Order) => p.issuer == o.issuer, o.at - 3600000)| < 20
    ensures Issued(hosts, rows, o, true) == rows + [o]
  {
    hide WorkerAllows;
    GoesInExactly(hosts, rows, o, true);
    var mine := Later(rows, (p: Order) => p.issuer == o.issuer, o.at - 3600000);
    Fewer(Later(rows, (p: Order) => p.issuer == o.issuer && p.kind == StopTask, o.at - 3600000), mine);
    Fewer(Later(rows, (p: Order) => p.issuer == o.issuer && p.kind != Resume, o.at - 3600000), mine);
  }

  lemma {:induction false} Fewer(a: set<nat>, b: set<nat>)
    requires a <= b
    ensures |a| <= |b|
    decreases a
  {
    if a != {} {
      var x :| x in a;
      Fewer(a - {x}, b - {x});
    }
  }
}
