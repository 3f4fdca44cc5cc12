/**
 * `select` is canonical: its result lists exactly the eligible candidates, once
 * each, in the order the filters and the hoists define, and does not depend on
 * the order the candidates, the members or the leases were read in.
 */
module SelectOrder {
  import opened Wrappers
  import opened Sums
  import opened Fleet
  import opened Select

  /** A queue lists each task once. */
  ghost predicate Distinct(s: seq<Candidate>) {
    && (forall c | c in s :: multiset(s)[c] == 1)
    && (forall a, b | a in s && b in s :: a.id == b.id ==> a == b)
  }

  ghost predicate InOrder(x: Claim, s: seq<Candidate>) {
    forall i, j | 0 <= i < j < |s| :: x.Before(s[i], s[j])
  }

  lemma SameElements<T(!new)>(s: seq<T>, t: seq<T>)
    requires multiset(s) == multiset(t)
    ensures forall e :: e in s <==> e in t
  {
    assert forall e :: e in s <==> e in multiset(s);
    assert forall e :: e in t <==> e in multiset(t);
  }

  // ---------- the sort ----------

  lemma BeforeTotal(x: Claim, a: Candidate, b: Candidate)
    requires a.id != b.id
    ensures x.Before(a, b) <==> !x.Before(b, a)
  {
  }

  lemma BeforeTransitive(x: Claim, a: Candidate, b: Candidate, c: Candidate)
    requires x.Before(a, b) && x.Before(b, c)
    ensures x.Before(a, c)
  {
  }

  lemma {:induction false} InsertKeeps(x: Claim, c: Candidate, s: seq<Candidate>)
    ensures multiset(Insert(x, c, s)) == multiset(s) + multiset{c}
    ensures forall e :: e in Insert(x, c, s) <==> e == c || e in s
  {
    if s == [] || x.Before(c, s[0]) {
      assert forall e :: e in [c] + s <==> e == c || e in s;
    } else {
      InsertKeeps(x, c, s[1..]);
      HeadMultiset(s);
      assert s == [s[0]] + s[1..];
    }
  }

  lemma {:induction false} InsertOrders(x: Claim, c: Candidate, s: seq<Candidate>)
    requires InOrder(x, s) && forall e | e in s :: e.id != c.id
    ensures InOrder(x, Insert(x, c, s))
  {
    hide Claim.Before;
    if s == [] {
    } else if x.Before(c, s[0]) {
      var t := [c] + s;
      forall i, j | 0 <= i < j < |t| ensures x.Before(t[i], t[j]) {
        if i == 0 && j > 1 {
          BeforeTransitive(x, c, s[0], t[j]);
        }
      }
    } else {
      BeforeTotal(x, c, s[0]);
      InsertOrders(x, c, s[1..]);
      InsertKeeps(x, c, s[1..]);
      var t := Insert(x, c, s[1..]);
      forall j | 0 <= j < |t| ensures x.Before(s[0], t[j]) {
        assert t[j] in t;
        if t[j] != c {
          var k :| 1 <= k < |s| && s[k] == t[j];
        }
      }
    }
  }

  lemma {:induction false} SortedFacts(x: Claim, s: seq<Candidate>)
    requires Distinct(s)
    ensures multiset(Sorted(x, s)) == multiset(s) && InOrder(x, Sorted(x, s))
  {
    if s != [] {
      HeadMultiset(s);
      assert s == [s[0]] + s[1..];
      DistinctTail(s);
      SortedFacts(x, s[1..]);
      SameElements(Sorted(x, s[1..]), s[1..]);
      InsertKeeps(x, s[0], Sorted(x, s[1..]));
      InsertOrders(x, s[0], Sorted(x, s[1..]));
    }
  }

  lemma DistinctTail(s: seq<Candidate>)
    requires Distinct(s) && s != []
    ensures Distinct(s[1..]) && forall e | e in s[1..] :: e.id != s[0].id
  {
    HeadMultiset(s);
    assert s == [s[0]] + s[1..];
    forall e | e in s[1..] ensures e.id != s[0].id && multiset(s[1..])[e] == 1 {
      assert e in s && multiset(s)[s[0]] == 1;
      assert e in multiset(s[1..]);
    }
  }

  /** Two orderings of the same candidates are the same list. */
  lemma {:induction false} OrderUnique(x: Claim, s: seq<Candidate>, t: seq<Candidate>)
    requires multiset(s) == multiset(t) && InOrder(x, s) && InOrder(x, t) && Distinct(s)
    ensures s == t
    decreases |s|
  {
    hide Claim.Before;
    SameElements(s, t);
    if s == [] {
      EmptyPermuted(t);
    } else {
      assert |multiset(s)| == |s| && |multiset(t)| == |t|;
      FirstUnique(x, s, t);
      TailPermuted(s, t);
      DistinctTail(s);
      TailOrdered(x, s);
      TailOrdered(x, t);
      OrderUnique(x, s[1..], t[1..]);
      assert s == [s[0]] + s[1..] && t == [t[0]] + t[1..];
    }
  }

  lemma TailPermuted<T(!new)>(s: seq<T>, t: seq<T>)
    requires s != [] && t != [] && s[0] == t[0] && multiset(s) == multiset(t)
    ensures multiset(s[1..]) == multiset(t[1..])
  {
    HeadMultiset(s);
    HeadMultiset(t);
    assert multiset(s) - multiset{s[0]} == multiset(s[1..]);
    assert multiset(t) - multiset{s[0]} == multiset(t[1..]);
  }

  lemma TailOrdered(x: Claim, s: seq<Candidate>)
    requires InOrder(x, s) && s != []
    ensures InOrder(x, s[1..])
  {
    hide Claim.Before;
  }

  lemma FirstUnique(x: Claim, s: seq<Candidate>, t: seq<Candidate>)
    requires s != [] && t != [] && InOrder(x, s) && InOrder(x, t) && Distinct(s)
    requires forall e :: e in s <==> e in t
    ensures s[0] == t[0]
  {
    hide Claim.Before;
    assert t[0] in t && s[0] in s;
    if s[0] != t[0] {
      var i :| 0 <= i < |s| && s[i] == t[0];
      assert s[0] in t;
      var j :| 0 <= j < |t| && t[j] == s[0];
      assert x.Before(s[0], s[i]) && x.Before(t[0], t[j]);
      BeforeTotal(x, s[0], t[0]);
    }
  }

  // ---------- what is listed ----------

  lemma {:induction false} FilterDistinct(s: seq<Candidate>, keep: Candidate -> bool)
    requires Distinct(s)
    ensures Distinct(Filter(s, keep))
  {
    if s != [] {
      DistinctTail(s);
      FilterDistinct(s[1..], keep);
      InFilter(s[1..], keep);
      if keep(s[0]) {
        var t := Filter(s[1..], keep);
        assert Filter(s, keep) == [s[0]] + t;
        assert s[0] !in t;
      }
    }
  }

  lemma {:induction false} InWithout(s: seq<Candidate>, id: nat)
    ensures forall e :: e in Without(s, id) <==> e in s && e.id != id
  {
    if s != [] {
      InWithout(s[1..], id);
      assert s == [s[0]] + s[1..];
    }
  }

  lemma {:induction false} WithoutAbsent(s: seq<Candidate>, id: nat)
    requires forall e | e in s :: e.id != id
    ensures Without(s, id) == s
  {
    if s != [] {
      WithoutAbsent(s[1..], id);
    }
  }

  lemma {:induction false} WithoutMultiset(s: seq<Candidate>, c: Candidate)
    requires Distinct(s) && c in s
    ensures multiset(Without(s, c.id)) + multiset{c} == multiset(s)
  {
    DistinctTail(s);
    HeadMultiset(s);
    if s[0] == c {
      WithoutAbsent(s[1..], c.id);
      assert Without(s, c.id) == s[1..];
    } else {
      assert c in s[1..];
      assert c.id != s[0].id;
      WithoutMultiset(s[1..], c);
      assert Without(s, c.id) == [s[0]] + Without(s[1..], c.id);
    }
  }

  lemma FirstKeeps(s: seq<Candidate>, c: Option<Candidate>)
    requires Distinct(s)
    ensures multiset(First(s, c)) == multiset(s)
  {
    if c.Some? && c.value in s {
      WithoutMultiset(s, c.value);
    }
  }

  lemma PermutedDistinct(s: seq<Candidate>, t: seq<Candidate>)
    requires Distinct(s) && multiset(s) == multiset(t)
    ensures Distinct(t)
  {
    SameElements(s, t);
  }

  /** The eligible candidates, in the order of their keys. */
  function Keyed(x: Claim): seq<Candidate> {
    Sorted(x, Filter(x.queue, IsEligible(x)))
  }

  lemma KeyedFacts(x: Claim)
    requires Distinct(x.queue)
    ensures multiset(Keyed(x)) == multiset(Filter(x.queue, IsEligible(x)))
    ensures InOrder(x, Keyed(x)) && Distinct(Keyed(x))
    ensures forall c :: c in Keyed(x) <==> c in x.queue && x.Eligible(c)
  {
    hide Claim.Eligible;
    var f := Filter(x.queue, IsEligible(x));
    FilterDistinct(x.queue, IsEligible(x));
    InFilter(x.queue, IsEligible(x));
    SortedFacts(x, f);
    SameElements(Keyed(x), f);
    PermutedDistinct(f, Keyed(x));
  }

  /** A claim's result lists exactly the eligible candidates, each once; a host that sleeps takes none. */
  lemma RankedExactly(x: Claim)
    requires Distinct(x.queue)
    ensures Distinct(Ranked(x))
    ensures forall c :: c in Ranked(x) <==> !x.me.asleep && c in x.queue && x.Eligible(c)
  {
    hide Claim.Eligible, Claim.Marked, Filter, Sorted, Oldest, First;
    KeyedFacts(x);
    var ok := Keyed(x);
    var one := First(ok, Oldest(x, ok));
    FirstKeeps(ok, Oldest(x, ok));
    PermutedDistinct(ok, one);
    FirstKeeps(one, x.Marked());
    var two := First(one, x.Marked());
    PermutedDistinct(one, two);
    SameElements(two, ok);
  }

  lemma {:induction false} WithoutOrdered(x: Claim, s: seq<Candidate>, id: nat)
    requires InOrder(x, s)
    ensures InOrder(x, Without(s, id)) && forall e | e in Without(s, id) :: e in s
  {
    hide Claim.Before;
    if s != [] {
      WithoutOrdered(x, s[1..], id);
      var t := Without(s[1..], id);
      if s[0].id != id {
        assert Without(s, id) == [s[0]] + t;
        forall j | 0 <= j < |t| ensures x.Before(s[0], t[j]) {
          assert t[j] in t;
          var k :| 1 <= k < |s| && s[k] == t[j];
        }
      }
    }
  }

  function Dropped(s: seq<Candidate>, c: Option<Candidate>): seq<Candidate> {
    if c.Some? then Without(s, c.value.id) else s
  }

  /**
   * The candidates a claim puts ahead of the keys' order: the reserved task it may
   * take, the starved emulated lane's oldest.
   */
  function Hoisted(x: Claim): seq<Candidate> {
    var mark, share := x.Marked(), ShareOf(x);
    (if mark.Some? && x.Eligible(mark.value) then [mark.value] else [])
      + (if share.Some? && share != mark then [share.value] else [])
  }

  /** Every other eligible candidate, by the keys' order. */
  function Rest(x: Claim): seq<Candidate> {
    var mark, share := x.Marked(), ShareOf(x);
    Dropped(Dropped(Keyed(x), share), if mark.Some? && x.Eligible(mark.value) then mark else None)
  }

  /**
   * The order: the reserved task first when the claim may take it, then the
   * starved emulated lane's oldest when there is one, then the rest by their
   * keys, without exception.
   */
  lemma RankedOrder(x: Claim)
    requires Distinct(x.queue) && !x.me.asleep
    ensures Ranked(x) == Hoisted(x) + Rest(x)
    ensures InOrder(x, Rest(x))
  {
    hide Claim.Eligible, Claim.Marked, Filter, Sorted, Claim.Before, Oldest, Without;
    KeyedFacts(x);
    var ok, share, mark := Keyed(x), ShareOf(x), x.Marked();
    OldestIn(x, ok);
    MarkedIn(x);
    DroppedOrdered(x, ok, share);
    DroppedOrdered(x, Dropped(ok, share), mark);
    if share.Some? {
      InWithout(ok, share.value.id);
    }
    HoistTwice(ok, share, mark);
  }

  lemma DroppedOrdered(x: Claim, s: seq<Candidate>, c: Option<Candidate>)
    requires InOrder(x, s)
    ensures InOrder(x, Dropped(s, c))
  {
    if c.Some? {
      WithoutOrdered(x, s, c.value.id);
    }
  }

  lemma HoistTwice(ok: seq<Candidate>, share: Option<Candidate>, mark: Option<Candidate>)
    requires Distinct(ok) && (share.Some? ==> share.value in ok)
    ensures First(First(ok, share), mark)
         == (if mark.Some? && mark.value in ok then [mark.value] else [])
           + (if share.Some? && share != mark then [share.value] else [])
          + Dropped(Dropped(ok, share), if mark.Some? && mark.value in ok then mark else None)
  {
    hide Without;
    if share.Some? {
      var s := share.value;
      var rest := Without(ok, s.id);
      InWithout(ok, s.id);
      assert First(ok, share) == [s] + rest;
      if mark.Some? && mark.value in ok {
        var m := mark.value;
        assert m in [s] + rest;
        WithoutFirst(s, rest, m.id);
        if m == s {
          WithoutAbsent(rest, s.id);
          assert Without([s] + rest, m.id) == rest;
          assert [m] + rest == [m] + [] + rest;
        } else {
          assert [m] + ([s] + Without(rest, m.id)) == [m] + [s] + Without(rest, m.id);
        }
      } else if mark.Some? {
        assert mark.value !in [s] + rest;
        assert [s] + rest == [] + [s] + rest;
      } else {
        assert [s] + rest == [] + [s] + rest;
      }
    } else if mark.Some? && mark.value in ok {
      assert [mark.value] + Without(ok, mark.value.id) == [mark.value] + [] + Without(ok, mark.value.id);
    } else {
      assert ok == [] + [] + ok;
    }
  }

  lemma WithoutFirst(a: Candidate, s: seq<Candidate>, id: nat)
    ensures Without([a] + s, id) == (if a.id == id then [] else [a]) + Without(s, id)
  {
    assert ([a] + s)[1..] == s;
  }

  lemma {:induction false} OldestIn(x: Claim, s: seq<Candidate>)
    ensures match Oldest(x, s)
            case Some(o) => o in s && x.Shared(o) && forall c | c in s && x.Shared(c) ::
                              c == o || o.queuedAt < c.queuedAt || (o.queuedAt == c.queuedAt && o.id <= c.id)
            case None => forall c | c in s :: !x.Shared(c)
  {
    hide Claim.Shared;
    if s != [] {
      OldestIn(x, s[1..]);
      assert s == [s[0]] + s[1..];
    }
  }

  lemma {:induction false} FindIs(queue: seq<Candidate>, id: nat)
    ensures match Find(queue, id)
            case Some(c) => c in queue && c.id == id
            case None => forall c | c in queue :: c.id != id
  {
    if queue != [] {
      FindIs(queue[1..], id);
      assert queue == [queue[0]] + queue[1..];
    }
  }

  lemma MarkedIn(x: Claim)
    ensures x.Marked().Some? ==> x.Marked().value in x.queue && x.Mark() == Some(x.Marked().value.id)
  {
    if x.Mark().Some? {
      FindIs(x.queue, x.Mark().value);
    }
  }
}
