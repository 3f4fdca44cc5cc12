/** What the caps leave possible in any hour or day of any run of issues. */
module CapsRuns {
  import opened Caps

  /** A class, what the INSERT counts for it (as much, or more), how many and over how long. */
  datatype Cap = Cap(of: Class, counted: Class, most: nat, span: int)

  function WorkerCap(hosts: set<nat>, w: nat, k: Kind): Cap {
    var group := Worker(w, Group(w in hosts, k));
    Cap(group, group, PER_WORKER, HOUR)
  }

  ghost predicate IsCap(hosts: set<nat>, c: Cap) {
    || (exists w, k :: k != Resume && c == WorkerCap(hosts, w, k))
    || (c.of.Others? && c.of.issuer.Login? && c == Cap(c.of, Orders(c.of.issuer), LOGIN_ORDERS, HOUR))
    || c == Cap(PoolRestarts, PoolRestarts, POOL_RESTARTS, HOUR)
    || c == Cap(PoolAll, PoolAll, POOL_ORDERS, DAY)
    || c == Cap(IssuerRestarts(PoolCommunity), IssuerRestarts(PoolCommunity), COMMUNITY_RESTARTS, HOUR)
    || c == Cap(IssuerAll(PoolCommunity), IssuerAll(PoolCommunity), COMMUNITY_ORDERS, DAY)
  }

  /** What is of the one class is of the other. */
  predicate Covers(counted: Class, c: Class) {
    c == counted || ((c.Others? || c.Stops?) && counted == Orders(c.issuer))
  }

  lemma {:induction false} DuringSince(rows: seq<Order>, c: Class, counted: Class, from: int, span: int, at: int)
    requires from <= at < from + span && Covers(counted, c)
    ensures During(rows, c, from, span) <= Since(rows, counted, at - span)
  {
    if rows != [] {
      DuringSince(rows[..|rows| - 1], c, counted, from, span, at);
    }
  }

  lemma CapCounts(hosts: set<nat>, rows: seq<Order>, o: Order, c: Cap)
    requires IsCap(hosts, c) && Passes(hosts, rows, o) && InClass(c.of, o)
    ensures Since(rows, c.counted, o.at - c.span) < c.most
  {
  }

  /**
   * A cap holds in every half-open window of its span, on every run: the last
   * row that went into the window counted all the others, whatever the clock did.
   */
  lemma {:induction false} CapHolds(hosts: set<nat>, rows: seq<Order>, c: Cap, from: int)
    requires Legit(hosts, rows) && IsCap(hosts, c)
    ensures During(rows, c.of, from, c.span) <= c.most
  {
    if rows != [] {
      var before, o := rows[..|rows| - 1], rows[|rows| - 1];
      CapHolds(hosts, before, c, from);
      if InClass(c.of, o) && from <= o.at < from + c.span {
        CapCounts(hosts, before, o, c);
        DuringSince(before, c.of, c.counted, from, c.span, o.at);
      }
    }
  }

  /**
   * A login's stops: thirty an hour, wherever they go; a legacy worker's stop
   * passes the narrower cap of twenty orders.
   */
  lemma {:induction false} StopsHold(hosts: set<nat>, rows: seq<Order>, login: nat, from: int)
    requires Legit(hosts, rows)
    ensures During(rows, Stops(Login(login)), from, HOUR) <= LOGIN_STOPS
  {
    if rows != [] {
      var before, o := rows[..|rows| - 1], rows[|rows| - 1];
      StopsHold(hosts, before, login, from);
      if InClass(Stops(Login(login)), o) && from <= o.at < from + HOUR {
        DuringSince(before, Stops(Login(login)), Stops(Login(login)), from, HOUR, o.at);
        DuringSince(before, Stops(Login(login)), Orders(Login(login)), from, HOUR, o.at);
      }
    }
  }

  /** Every cap, in every hour and every day of every run of issues. */
  lemma RunCapped(hosts: set<nat>, rows: seq<Order>, worker: nat, login: nat, from: int)
    requires Legit(hosts, rows)
    ensures During(rows, Worker(worker, if worker in hosts then {Restart, RestartAgent, Update}
                                else {Restart, RestartAgent, Update, StopTask}), from, HOUR) <= 6
    ensures During(rows, Worker(worker, {RecheckAgent}), from, HOUR) <= 6
            && During(rows, Worker(worker, {Drain}), from, HOUR) <= 6
    ensures During(rows, Others(Login(login)), from, HOUR) <= 20 && During(rows, Stops(Login(login)), from, HOUR) <= 30
    ensures During(rows, PoolRestarts, from, HOUR) <= 10 && During(rows, PoolAll, from, DAY) <= 60
    ensures During(rows, IssuerRestarts(PoolCommunity), from, HOUR) <= 6
            && During(rows, IssuerAll(PoolCommunity), from, DAY) <= 40
  {
    var host := worker in hosts;
    assert Group(host, Restart) ==
             if host then {Restart, RestartAgent, Update} else {Restart, RestartAgent, Update, StopTask};
    assert Group(host, RecheckAgent) == {RecheckAgent} && Group(host, Drain) == {Drain};
    CapHolds(hosts, rows, WorkerCap(hosts, worker, Restart), from);
    CapHolds(hosts, rows, WorkerCap(hosts, worker, RecheckAgent), from);
    CapHolds(hosts, rows, WorkerCap(hosts, worker, Drain), from);
    CapHolds(hosts, rows, Cap(Others(Login(login)), Orders(Login(login)), LOGIN_ORDERS, HOUR), from);
    StopsHold(hosts, rows, login, from);
    CapHolds(hosts, rows, Cap(PoolRestarts, PoolRestarts, POOL_RESTARTS, HOUR), from);
    CapHolds(hosts, rows, Cap(PoolAll, PoolAll, POOL_ORDERS, DAY), from);
    CapHolds(hosts, rows, Cap(IssuerRestarts(PoolCommunity), IssuerRestarts(PoolCommunity), COMMUNITY_RESTARTS, HOUR),
             from);
    CapHolds(hosts, rows, Cap(IssuerAll(PoolCommunity), IssuerAll(PoolCommunity), COMMUNITY_ORDERS, DAY), from);
  }

  // ---------- the community's share never starves the project ----------

  /**
   * The pool's rows since `now - span` are the project's and the community's, and
   * the community's lie in one window.
   */
  lemma {:induction false} PoolSplits(rows: seq<Order>, now: int, span: int)
    requires forall o <- rows :: o.at <= now
    ensures Since(rows, PoolAll, now - span) == Since(rows, IssuerAll(PoolProject), now - span)
              + During(rows, IssuerAll(PoolCommunity), now - span + 1, span)
    ensures Since(rows, PoolRestarts, now - span) == Since(rows, IssuerRestarts(PoolProject), now - span)
              + During(rows, IssuerRestarts(PoolCommunity), now - span + 1, span)
  {
    if rows != [] {
      PoolSplits(rows[..|rows| - 1], now, span);
      assert rows[|rows| - 1] in rows;
    }
  }

  /**
   * The project's order passes the pool's budgets whenever the project itself
   * issued fewer than 20 in the day and 4 restarts in the hour, whatever the
   * community's share was spent on.
   */
  lemma ProjectNeverStarved(hosts: set<nat>, rows: seq<Order>, o: Order)
    requires Legit(hosts, rows) && o.issuer == PoolProject && forall e <- rows :: e.at <= o.at
    requires Since(rows, IssuerAll(PoolProject), o.at - DAY) < 20
             && Since(rows, IssuerRestarts(PoolProject), o.at - HOUR) < 4
    ensures Since(rows, PoolAll, o.at - DAY) < POOL_ORDERS && Since(rows, PoolRestarts, o.at - HOUR) < POOL_RESTARTS
    ensures Passes(hosts, rows, o) <==>
              || o.kind == Resume
              || Since(rows, Worker(o.worker, Group(o.worker in hosts, o.kind)), o.at - HOUR) < PER_WORKER
  {
    hide Since, During, Legit;
    PoolSplits(rows, o.at, DAY);
    PoolSplits(rows, o.at, HOUR);
    CapHolds(hosts, rows, Cap(IssuerAll(PoolCommunity), IssuerAll(PoolCommunity), COMMUNITY_ORDERS, DAY), o.at - DAY
               + 1);
    CapHolds(hosts, rows, Cap(IssuerRestarts(PoolCommunity), IssuerRestarts(PoolCommunity), COMMUNITY_RESTARTS, HOUR),
             o.at - HOUR + 1);
  }
}
