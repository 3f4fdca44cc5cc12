/**
 * A queued build's place (worker/src/queue.ts `queuePosition`): the closed
 * form over a snapshot of the queue, against the order it estimates — by
 * priority, then round-robin by owner, then by age.
 */
module Queue {
  import opened Wrappers
  import opened Sums

  /** A community build queued for the architecture and pinned to no worker. */
  datatype Build = Build(id: nat, owner: Option<nat>, priority: int)

  /** The snapshot lists its builds by id. */
  ghost predicate ById(q: seq<Build>) {
    forall i, j | 0 <= i < j < |q| :: q[i].id < q[j].id
  }

  function Weight(p: Build -> bool): Build -> nat { (b: Build) => if p(b) then 1 else 0 }

  /** How many builds of a list satisfy `p`. */
  function Count(s: seq<Build>, p: Build -> bool): nat {
    Sum(s, Weight(p))
  }

  predicate Same(a: Build, b: Build) {
    a.owner == b.owner && a.priority == b.priority
  }

  function Urgent(me: Build): Build -> bool { (x: Build) => x.priority < me.priority }

  function Mates(b: Build): Build -> bool { (x: Build) => Same(x, b) }

  function Older(b: Build): Build -> bool { (x: Build) => Same(x, b) && x.id < b.id }

  function Before(q: seq<Build>, b: Build): Build -> bool { (x: Build) => Earlier(q, x, b) }

  /** How many builds of `b`'s owner and priority `s` lists. */
  function Group(s: seq<Build>, b: Build): nat {
    Count(s, Mates(b))
  }

  /** `b`'s place among its owner's builds of its priority. */
  function Rank(s: seq<Build>, b: Build): nat {
    Count(s, Older(b))
  }

  // ---------- the closed form ----------

  predicate Other(b: Build, me: Build) {
    b.priority == me.priority && b.owner != me.owner
  }

  predicate Lists(os: seq<Build>, b: Build) {
    os != [] && (Same(os[|os| - 1], b) || Lists(os[..|os| - 1], b))
  }

  /** The other owners at `me`'s priority, each once. */
  function Others(q: seq<Build>, me: Build): seq<Build> {
    if q == [] then []
    else
      var os, b := Others(q[..|q| - 1], me), q[|q| - 1];
      if Other(b, me) && !Lists(os, b) then os + [b] else os
  }

  /** The id of the oldest build of `b`'s owner and priority; `b`'s own when none is listed. */
  function Head(s: seq<Build>, b: Build): nat {
    if s == [] then b.id else if Same(s[0], b) then s[0].id else Head(s[1..], b)
  }

  function Min(a: nat, b: nat): nat {
    if a < b then a else b
  }

  /** What one other owner puts ahead: a build a round, one more when its head is older. */
  function Term(q: seq<Build>, o: Build, k: nat, id: nat): nat {
    var n := Group(q, o);
    Min(n, k) + (if n > k && Head(q, o) < id then 1 else 0)
  }

  function TermOf(q: seq<Build>, k: nat, id: nat): Build -> nat { (o: Build) => Term(q, o, k, id) }

  function Ahead(q: seq<Build>, me: Build): nat {
    var k := Rank(q, me);
    Count(q, Urgent(me)) + k + Sum(Others(q, me), TermOf(q, k, me.id))
  }

  /** The position and the total a page shows. */
  function Position(q: seq<Build>, me: Build): (nat, nat) {
    var position := Ahead(q, me) + 1;
    (position, if |q| > position then |q| else position)
  }

  // ---------- the order it estimates ----------

  /** With `taken` handed out, `a` goes before `b`. */
  predicate Sooner(taken: seq<Build>, a: Build, b: Build) {
    || a.priority < b.priority
    || (a.priority == b.priority
        && (Group(taken, a) < Group(taken, b) || (Group(taken, a) == Group(taken, b) && a.id < b.id)))
  }

  /**
   * The queue handed out greedily: always the build with the least priority,
   * builds of its owner taken so far, and id.
   */
  ghost predicate Greedy(q: seq<Build>, order: seq<Build>) {
    && multiset(order) == multiset(q)
    && forall i, j | 0 <= i < j < |order| :: Sooner(order[..i], order[i], order[j])
  }

  /** The order's key, fixed by the whole queue. */
  predicate Earlier(q: seq<Build>, a: Build, b: Build) {
    || a.priority < b.priority
    || (a.priority == b.priority && (Rank(q, a) < Rank(q, b) || (Rank(q, a) == Rank(q, b) && a.id < b.id)))
  }

  // ---------- counting ----------

  lemma CountLast(s: seq<Build>, b: Build, p: Build -> bool)
    ensures Count(s + [b], p) == Count(s, p) + (if p(b) then 1 else 0)
  {
    SumOne(s, b, Weight(p));
  }

  lemma CountJoin(s: seq<Build>, t: seq<Build>, p: Build -> bool)
    ensures Count(s + t, p) == Count(s, p) + Count(t, p)
  {
    SumAppend(s, t, Weight(p));
  }

  lemma CountPermuted(s: seq<Build>, t: seq<Build>, p: Build -> bool)
    requires multiset(s) == multiset(t)
    ensures Count(s, p) == Count(t, p)
  {
    SumPermuted(s, t, Weight(p));
  }

  lemma {:induction false} CountNone(s: seq<Build>, p: Build -> bool)
    requires forall b <- s :: !p(b)
    ensures Count(s, p) == 0
  {
    if s != [] { CountNone(s[1..], p); }
  }

  lemma {:induction false} CountAll(s: seq<Build>, p: Build -> bool)
    requires forall b <- s :: p(b)
    ensures Count(s, p) == |s|
  {
    if s != [] { CountAll(s[1..], p); }
  }

  lemma {:induction false} CountAgree(s: seq<Build>, p: Build -> bool, r: Build -> bool)
    requires forall b <- s :: p(b) == r(b)
    ensures Count(s, p) == Count(s, r)
  {
    if s != [] { CountAgree(s[1..], p, r); }
  }

  lemma {:induction false} CountLess(s: seq<Build>, p: Build -> bool, r: Build -> bool)
    requires forall b <- s :: p(b) ==> r(b)
    ensures Count(s, p) <= Count(s, r)
  {
    if s != [] { CountLess(s[1..], p, r); }
  }

  /** Where the condition holds on a front and fails after it, the count is the front's length. */
  lemma CountFront(s: seq<Build>, n: nat, p: Build -> bool)
    requires n <= |s| && (forall b <- s[..n] :: p(b)) && forall b <- s[n..] :: !p(b)
    ensures Count(s, p) == n
  {
    assert s == s[..n] + s[n..];
    CountJoin(s[..n], s[n..], p);
    CountAll(s[..n], p);
    CountNone(s[n..], p);
  }

  // ---------- the greedy order is the order by key ----------

  /** In the greedy order a build's rank is the builds of its owner taken before it. */
  lemma RankIsTaken(order: seq<Build>, i: nat)
    requires forall a, b | 0 <= a < b < |order| :: Sooner(order[..a], order[a], order[b])
    requires i < |order|
    ensures Rank(order, order[i]) == Group(order[..i], order[i])
  {
    var me := order[i];
    var p := Older(me);
    assert order == order[..i] + order[i..];
    CountJoin(order[..i], order[i..], p);
    forall b | b in order[..i] ensures p(b) == Same(b, me) {
      var a :| 0 <= a < i && order[a] == b;
      if Same(b, me) { SameGroup(order[..a], b, me); }
    }
    CountAgree(order[..i], p, Mates(me));
    forall b | b in order[i..] ensures !p(b) {
      var a :| i <= a < |order| && order[a] == b;
      if Same(b, me) && a > i { SameGroup(order[..i], me, b); }
    }
    CountNone(order[i..], p);
  }

  lemma SameGroup(s: seq<Build>, a: Build, b: Build)
    requires Same(a, b)
    ensures Group(s, a) == Group(s, b)
  {
    CountAgree(s, Mates(a), Mates(b));
  }

  lemma GroupGrows(s: seq<Build>, i: nat, j: nat, b: Build)
    requires i <= j <= |s|
    ensures Group(s[..i], b) <= Group(s[..j], b)
  {
    assert s[..j] == s[..i] + s[i..j];
    CountJoin(s[..i], s[i..j], Mates(b));
  }

  lemma GreedySorted(q: seq<Build>, order: seq<Build>, i: nat, j: nat)
    requires Greedy(q, order) && i < j < |order|
    ensures Earlier(q, order[i], order[j])
  {
    RankIsTaken(order, i);
    RankIsTaken(order, j);
    GroupGrows(order, i, j, order[j]);
    CountPermuted(order, q, Older(order[i]));
    CountPermuted(order, q, Older(order[j]));
  }

  /** The place in the greedy order is the number of builds with an earlier key. */
  lemma GreedyPlace(q: seq<Build>, order: seq<Build>, p: nat)
    requires Greedy(q, order) && p < |order|
    ensures Count(q, Before(q, order[p])) == p
  {
    var me := order[p];
    var f := Before(q, me);
    CountPermuted(order, q, f);
    forall b | b in order[..p] ensures f(b) {
      var i :| 0 <= i < p && order[i] == b;
      GreedySorted(q, order, i, p);
    }
    forall b | b in order[p..] ensures !f(b) {
      var i :| p <= i < |order| && order[i] == b;
      if i > p { GreedySorted(q, order, p, i); }
    }
    CountFront(order, p, f);
  }

  // ---------- the closed form against the key ----------

  function Bit(b: bool): nat {
    if b then 1 else 0
  }

  /**
   * A build the closed form counts ahead of `me` though it goes after: its owner's
   * turn of `me`'s round, younger than `me` while its owner's oldest is older.
   */
  predicate Counted(q: seq<Build>, x: Build, me: Build) {
    x.priority == me.priority && x.owner != me.owner && Rank(q, x) == Rank(q, me) && x.id >= me.id && Head(q, x) < me.id
  }

  function Over(q: seq<Build>, me: Build): Build -> bool { (x: Build) => Counted(q, x, me) }

  /** The other owners at this priority with more builds than `me` has ahead of it in its own. */
  function Longer(q: seq<Build>, k: nat): Build -> nat { (o: Build) => if Group(q, o) > k then 1 else 0 }

  lemma RankById(q: seq<Build>, j: nat)
    requires ById(q) && j < |q|
    ensures Rank(q, q[j]) == Group(q[..j], q[j])
  {
    assert q == q[..j] + q[j..];
    CountJoin(q[..j], q[j..], Older(q[j]));
    CountAgree(q[..j], Older(q[j]), Mates(q[j]));
    CountNone(q[j..], Older(q[j]));
  }

  lemma {:induction false} HeadJoin(s: seq<Build>, t: seq<Build>, b: Build)
    ensures Head(s + t, b) == if Group(s, b) > 0 then Head(s, b) else Head(t, b)
  {
    if s == [] {
      assert s + t == t;
    } else {
      assert (s + t)[1..] == s[1..] + t;
      HeadJoin(s[1..], t, b);
      assert s == [s[0]] + s[1..];
      CountJoin([s[0]], s[1..], Mates(b));
      CountLast([], s[0], Mates(b));
    }
  }

  /** Heads agree within a group, and are no younger than a member. */
  lemma {:induction false} HeadMember(s: seq<Build>, i: nat)
    requires ById(s) && i < |s|
    ensures Head(s, s[i]) <= s[i].id && Group(s[..i + 1], s[i]) > 0
  {
    assert s[..i + 1] == s[..i] + [s[i]];
    CountLast(s[..i], s[i], Mates(s[i]));
    HeadFirst(s, i, 0);
  }

  lemma {:induction false} HeadFirst(s: seq<Build>, i: nat, from: nat)
    requires ById(s) && from <= i < |s|
    ensures Head(s[from..], s[i]) <= s[i].id
    decreases i - from
  {
    assert s[from..][0] == s[from] && s[from..][1..] == s[from + 1..];
    if from < i { HeadFirst(s, i, from + 1); }
    assert s[0..] == s;
  }

  lemma {:induction false} HeadSame(s: seq<Build>, a: Build, b: Build)
    requires Same(a, b) && Group(s, a) > 0
    ensures Head(s, a) == Head(s, b)
  {
    if s != [] && !Same(s[0], a) {
      assert s == [s[0]] + s[1..];
      CountJoin([s[0]], s[1..], Mates(a));
      CountLast([], s[0], Mates(a));
      HeadSame(s[1..], a, b);
    }
  }

  // ---------- the other owners, each once ----------

  ghost predicate Apart(os: seq<Build>) {
    forall i, j | 0 <= i < j < |os| :: !Same(os[i], os[j])
  }

  lemma {:induction false} ListsIff(os: seq<Build>, b: Build)
    ensures Lists(os, b) <==> exists o <- os :: Same(o, b)
  {
    if os != [] {
      var front, o := os[..|os| - 1], os[|os| - 1];
      ListsIff(front, b);
      assert os == front + [o];
      if Lists(front, b) {
        var x :| x in front && Same(x, b);
        assert x in os;
      }
    }
  }

  lemma {:induction false} OthersFacts(q: seq<Build>, me: Build)
    ensures Apart(Others(q, me))
    ensures forall o <- Others(q, me) :: o.priority == me.priority && o.owner != me.owner && Group(q, o) > 0
  {
    if q != [] {
      var front, b := q[..|q| - 1], q[|q| - 1];
      OthersFacts(front, me);
      ListsIff(Others(front, me), b);
      assert q == front + [b];
      forall o | o in Others(q, me) ensures o.priority == me.priority && o.owner != me.owner && Group(q, o) > 0 {
        CountLast(front, b, Mates(o));
      }
    }
  }

  /** Where one owner's value grows, so does the sum. */
  lemma {:induction false} SumChange(os: seq<Build>, f: Build -> nat, g: Build -> nat, b: Build, d: nat)
    requires Apart(os)
    requires forall o <- os :: g(o) == f(o) + (if Same(o, b) then d else 0)
    ensures Sum(os, g) == Sum(os, f) + (if Lists(os, b) then d else 0)
  {
    if os != [] {
      var front, o := os[..|os| - 1], os[|os| - 1];
      SumChange(front, f, g, b, d);
      assert os == front + [o];
      SumOne(front, o, f);
      SumOne(front, o, g);
      if Lists(front, b) {
        ListsIff(front, b);
        var x :| x in front && Same(x, b);
        var i :| 0 <= i < |front| && front[i] == x;
        assert os[i] == x && os[|front|] == o;
      }
    }
  }

  /** What one build adds to its owner's term. */
  function Adds(r: nat, k: nat, head: nat, id: nat): nat {
    if r < k || (r == k && head < id) then 1 else 0
  }

  lemma TermGrows(s: seq<Build>, b: Build, o: Build, k: nat, id: nat)
    requires Group(s, o) > 0
    ensures Term(s + [b], o, k, id) == Term(s, o, k, id)
              + (if Same(o, b) then Adds(Group(s, b), k, Head(s + [b], b), id) else 0)
    ensures Longer(s + [b], k)(o) == Longer(s, k)(o) + (if Same(o, b) && Group(s, b) == k then 1 else 0)
  {
    CountLast(s, b, Mates(o));
    HeadJoin(s, [b], o);
    if Same(o, b) {
      SameGroup(s, o, b);
      SameGroup(s + [b], o, b);
      HeadSame(s + [b], o, b);
    }
  }

  lemma TermNew(s: seq<Build>, b: Build, k: nat, id: nat)
    requires Group(s, b) == 0
    ensures Term(s + [b], b, k, id) == Adds(0, k, Head(s + [b], b), id) && Longer(s + [b], k)(b) ==
              if k == 0 then 1 else 0
  {
    CountLast(s, b, Mates(b));
  }

  /** An owner not listed yet has no build. */
  lemma {:induction false} NotListed(s: seq<Build>, me: Build, b: Build)
    requires Other(b, me) && !Lists(Others(s, me), b)
    ensures Group(s, b) == 0
  {
    if s != [] {
      ListsIff(Others(s[..|s| - 1], me), b);
      ListsIff(Others(s, me), b);
      ListsIff(Others(s[..|s| - 1], me), s[|s| - 1]);
      NotListed(s[..|s| - 1], me, b);
      assert s == s[..|s| - 1] + [s[|s| - 1]];
      CountLast(s[..|s| - 1], s[|s| - 1], Mates(b));
    }
  }

  /** A sum over the other owners, as one more build is listed. */
  lemma OthersGrow(s: seq<Build>, b: Build, me: Build, f: Build -> nat, g: Build -> nat, d: nat)
    requires forall o <- Others(s, me) :: g(o) == f(o) + (if Same(o, b) then d else 0)
    requires Other(b, me) && !Lists(Others(s, me), b) ==> g(b) == d
    ensures Sum(Others(s + [b], me), g) == Sum(Others(s, me), f) + (if Other(b, me) then d else 0)
  {
    hide Sum, Lists, Group, Same;
    var os := Others(s, me);
    assert (s + [b])[..|s|] == s;
    OthersFacts(s, me);
    NotOther(os, me, b);
    SumChange(os, f, g, b, d);
    SumOne(os, b, g);
  }

  lemma NotOther(os: seq<Build>, me: Build, b: Build)
    requires forall o <- os :: o.priority == me.priority && o.owner != me.owner
    ensures !Other(b, me) ==> !Lists(os, b)
  {
    ListsIff(os, b);
  }

  lemma TermsGrow(s: seq<Build>, b: Build, me: Build, k: nat)
    ensures Sum(Others(s + [b], me), TermOf(s + [b], k, me.id))
            == Sum(Others(s, me), TermOf(s, k, me.id))
              + (if Other(b, me) then Adds(Group(s, b), k, Head(s + [b], b), me.id) else 0)
  {
    hide Sum, Others, Term, Group, Head, Adds;
    var d := Adds(Group(s, b), k, Head(s + [b], b), me.id);
    OthersFacts(s, me);
    forall o | o in Others(s, me)
      ensures TermOf(s + [b], k, me.id)(o) == TermOf(s, k, me.id)(o) + (if Same(o, b) then d else 0)
    {
      TermGrows(s, b, o, k, me.id);
    }
    if Other(b, me) && !Lists(Others(s, me), b) {
      NotListed(s, me, b);
      TermNew(s, b, k, me.id);
    }
    OthersGrow(s, b, me, TermOf(s, k, me.id), TermOf(s + [b], k, me.id), d);
  }

  lemma LongerGrow(s: seq<Build>, b: Build, me: Build, k: nat)
    ensures Sum(Others(s + [b], me), Longer(s + [b], k)) == Sum(Others(s, me), Longer(s, k))
              + Bit(Other(b, me) && Group(s, b) == k)
  {
    hide Sum, Others, Term, Group, Head;
    var d := Bit(Group(s, b) == k);
    OthersFacts(s, me);
    forall o | o in Others(s, me) ensures Longer(s + [b], k)(o) == Longer(s, k)(o) + (if Same(o, b) then d else 0) {
      TermGrows(s, b, o, k, me.id);
    }
    if Other(b, me) && !Lists(Others(s, me), b) {
      NotListed(s, me, b);
      TermNew(s, b, k, me.id);
    }
    OthersGrow(s, b, me, Longer(s, k), Longer(s + [b], k), d);
  }

  // ---------- one build at a time ----------

  /** Within `me`'s own builds, earlier is older. */
  lemma OwnEarlier(q: seq<Build>, x: Build, me: Build)
    requires Same(x, me)
    ensures Earlier(q, x, me) <==> x.id < me.id
  {
    if x.id < me.id {
      CountLess(q, Older(x), Older(me));
    } else {
      CountLess(q, Older(me), Older(x));
    }
  }

  /**
   * Builds before `me` by key and builds the closed form counts too many, against
   * what it counts: over the first `n` builds.
   */
  lemma {:induction false} Prefix(q: seq<Build>, me: Build, n: nat)
    requires ById(q) && n <= |q|
    ensures var s := q[..n];
            && Count(s, Before(q, me)) + Count(s, Over(q, me))
               == Count(s, Urgent(me)) + Count(s, Older(me)) + Sum(Others(s, me), TermOf(s, Rank(q, me), me.id))
            && Count(s, Over(q, me)) <= Sum(Others(s, me), Longer(s, Rank(q, me)))
  {
    if n > 0 {
      var s, b, k := q[..n - 1], q[n - 1], Rank(q, me);
      Prefix(q, me, n - 1);
      assert q[..n] == s + [b];
      CountLast(s, b, Before(q, me));
      CountLast(s, b, Over(q, me));
      CountLast(s, b, Urgent(me));
      CountLast(s, b, Older(me));
      TermsGrow(s, b, me, k);
      LongerGrow(s, b, me, k);
      One(q, me, n - 1);
    }
  }

  lemma One(q: seq<Build>, me: Build, j: nat)
    requires ById(q) && j < |q|
    ensures var s, b, k := q[..j], q[j], Rank(q, me);
            && Bit(Earlier(q, b, me)) + Bit(Counted(q, b, me))
               == Bit(b.priority < me.priority) + Bit(Same(b, me) && b.id < me.id)
                 + (if Other(b, me) then Adds(Group(s, b), k, Head(s + [b], b), me.id) else 0)
            && Bit(Counted(q, b, me)) <= Bit(Other(b, me) && Group(s, b) == k)
  {
    var s, b := q[..j], q[j];
    RankById(q, j);
    HeadMember(q, j);
    assert q[..j + 1] == s + [b] && q == (s + [b]) + q[j + 1..];
    HeadJoin(s + [b], q[j + 1..], b);
    if Same(b, me) { OwnEarlier(q, b, me); }
  }

  // ---------- the position ----------

  lemma {:induction false} Apart2(s: seq<Build>, me: Build, p: Build -> bool, r: Build -> bool)
    requires me in s && !p(me) && !r(me) && forall x <- s :: !(p(x) && r(x))
    ensures Count(s, p) + Count(s, r) < |s|
  {
    var b, rest := s[0], s[1..];
    if me in rest {
      Apart2(rest, me, p, r);
    } else {
      AtMost(rest, p, r);
    }
  }

  lemma {:induction false} AtMost(s: seq<Build>, p: Build -> bool, r: Build -> bool)
    requires forall x <- s :: !(p(x) && r(x))
    ensures Count(s, p) + Count(s, r) <= |s|
  {
    if s != [] { AtMost(s[1..], p, r); }
  }

  /**
   * The closed form against any greedy hand-out: never too small; too large by
   * exactly the builds it counts too many, at most one for each other owner
   * with more builds than `me` has ahead in its own; exact for an owner's
   * oldest. And the total it shows is the queue's length.
   */
  lemma PlaceBounds(q: seq<Build>, order: seq<Build>, p: nat)
    requires ById(q) && Greedy(q, order) && p < |order|
    ensures var me := order[p];
            && Ahead(q, me) == p + Count(q, Over(q, me))
            && Count(q, Over(q, me)) <= Sum(Others(q, me), Longer(q, Rank(q, me)))
            && (Rank(q, me) == 0 ==> Ahead(q, me) == p)
            && Position(q, me) == (Ahead(q, me) + 1, |q|)
  {
    hide *;
    var me := order[p];
    assert q[..|q|] == q;
    Prefix(q, me, |q|);
    GreedyPlace(q, order, p);
    Listed(q, order, p);
    Gap(q, me);
    if Rank(q, me) == 0 { OldestExact(q, me); }
  }

  lemma Listed(q: seq<Build>, order: seq<Build>, p: nat)
    requires Greedy(q, order) && p < |order|
    ensures order[p] in q && |order| == |q|
  {
    assert order[p] in multiset(order);
    assert |multiset(order)| == |order|;
  }

  lemma Gap(q: seq<Build>, me: Build)
    requires me in q && Count(q, Before(q, me)) + Count(q, Over(q, me)) == Count(q, Urgent(me)) + Count(q, Older(me))
               + Sum(Others(q, me), TermOf(q, Rank(q, me), me.id))
    ensures Ahead(q, me) == Count(q, Before(q, me)) + Count(q, Over(q, me))
            && Position(q, me) == (Ahead(q, me) + 1, |q|)
  {
    hide Count, Head, Sum, Earlier, Counted, Others, Older, Urgent, TermOf;
    forall x ensures !(Before(q, me)(x) && Over(q, me)(x)) && !Before(q, me)(me) && !Over(q, me)(me) {
      Exclusive(q, x, me);
    }
    Apart2(q, me, Before(q, me), Over(q, me));
  }

  lemma Exclusive(q: seq<Build>, x: Build, me: Build)
    ensures !(Earlier(q, x, me) && Counted(q, x, me)) && !Earlier(q, me, me) && !Counted(q, me, me)
  {
  }

  lemma OldestExact(q: seq<Build>, me: Build)
    requires ById(q) && Rank(q, me) == 0
    ensures Count(q, Over(q, me)) == 0
  {
    forall x | x in q ensures !Counted(q, x, me) {
      var j :| 0 <= j < |q| && q[j] == x;
      RankById(q, j);
      if Group(q[..j], x) == 0 { OldestHead(q, j); }
    }
    CountNone(q, Over(q, me));
  }

  /** A build with no older one of its owner is its owner's head. */
  lemma OldestHead(q: seq<Build>, j: nat)
    requires ById(q) && j < |q| && Group(q[..j], q[j]) == 0
    ensures Head(q, q[j]) == q[j].id
  {
    assert q == q[..j] + q[j..];
    HeadJoin(q[..j], q[j..], q[j]);
  }

  /** Every queue can be handed out greedily. */
  lemma {:induction false} GreedyExists(taken: seq<Build>, left: seq<Build>) returns (order: seq<Build>)
    requires forall i, j | 0 <= i < j < |left| :: left[i].id != left[j].id
    ensures multiset(order) == multiset(left)
    ensures forall i, j | 0 <= i < j < |order| :: Sooner(taken + order[..i], order[i], order[j])
    decreases |left|
  {
    hide Sooner;
    if left == [] {
      order := [];
    } else {
      var m := Least(taken, left);
      var b, rest := left[m], left[..m] + left[m + 1..];
      assert left == left[..m] + [b] + left[m + 1..];
      assert forall i | 0 <= i < |rest| :: rest[i] == left[if i < m then i else i + 1];
      var tail := GreedyExists(taken + [b], rest);
      order := [b] + tail;
      SoonerFirst(taken, b, rest, tail);
    }
  }

  lemma SoonerFirst(taken: seq<Build>, b: Build, rest: seq<Build>, tail: seq<Build>)
    requires (forall x <- rest :: Sooner(taken, b, x)) && multiset(tail) == multiset(rest)
    requires forall i, j | 0 <= i < j < |tail| :: Sooner(taken + [b] + tail[..i], tail[i], tail[j])
    ensures var order := [b] + tail; forall i, j | 0 <= i < j < |order| ::
              Sooner(taken + order[..i], order[i], order[j])
  {
    hide Sooner;
    var order := [b] + tail;
    forall i, j | 0 <= i < j < |order| ensures Sooner(taken + order[..i], order[i], order[j]) {
      if i == 0 {
        assert taken + order[..0] == taken;
        assert tail[j - 1] in multiset(rest);
      } else {
        assert taken + order[..i] == taken + [b] + tail[..i - 1];
      }
    }
  }

  lemma GreedyOrder(q: seq<Build>) returns (order: seq<Build>)
    requires ById(q)
    ensures Greedy(q, order)
  {
    order := GreedyExists([], q);
    assert forall i | 0 <= i < |order| :: [] + order[..i] == order[..i];
  }

  lemma {:induction false} Least(taken: seq<Build>, left: seq<Build>) returns (m: nat)
    requires left != [] && forall i, j | 0 <= i < j < |left| :: left[i].id != left[j].id
    ensures m < |left| && forall j | 0 <= j < |left| && j != m :: Sooner(taken, left[m], left[j])
  {
    var n := |left| - 1;
    if n == 0 {
      m := 0;
    } else {
      m := Least(taken, left[..n]);
      if !Sooner(taken, left[m], left[n]) { m := n; }
    }
  }
}
