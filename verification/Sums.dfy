/**
 * Sums, filters and their order-independence: what the pool counts from its rows
 * does not depend on the order they are read in.
 */
module Sums {
  function Sum<T(!new)>(s: seq<T>, w: T -> nat): nat {
    if s == [] then 0 else w(s[0]) + Sum(s[1..], w)
  }

  function Filter<T(!new)>(s: seq<T>, keep: T -> bool): seq<T> {
    if s == [] then [] else (if keep(s[0]) then [s[0]] else []) + Filter(s[1..], keep)
  }

  lemma {:induction false} SumAppend<T(!new)>(s: seq<T>, t: seq<T>, w: T -> nat)
    ensures Sum(s + t, w) == Sum(s, w) + Sum(t, w)
  {
    if s == [] {
      assert s + t == t;
    } else {
      assert (s + t)[1..] == s[1..] + t;
      SumAppend(s[1..], t, w);
    }
  }

  lemma SumOne<T(!new)>(s: seq<T>, x: T, w: T -> nat)
    ensures Sum(s + [x], w) == Sum(s, w) + w(x)
  {
    SumAppend(s, [x], w);
    assert Sum([x], w) == w(x) + Sum([], w);
  }

  lemma SumWithout<T(!new)>(s: seq<T>, i: nat, w: T -> nat)
    requires i < |s|
    ensures Sum(s, w) == w(s[i]) + Sum(s[..i] + s[i + 1..], w)
  {
    assert s == s[..i] + [s[i]] + s[i + 1..];
    SumAppend(s[..i] + [s[i]], s[i + 1..], w);
    SumOne(s[..i], s[i], w);
    SumAppend(s[..i], s[i + 1..], w);
  }

  lemma WithoutMultiset<T(!new)>(s: seq<T>, i: nat)
    requires i < |s|
    ensures multiset(s) == multiset(s[..i] + s[i + 1..]) + multiset{s[i]}
  {
    assert s == s[..i] + [s[i]] + s[i + 1..];
  }

  /** Where a permutation holds an element, and what is left of it without that one. */
  lemma Elsewhere<T(!new)>(s: seq<T>, t: seq<T>) returns (i: nat)
    requires s != [] && multiset(s) == multiset(t)
    ensures i < |t| && t[i] == s[0] && multiset(s[1..]) == multiset(t[..i] + t[i + 1..])
  {
    assert s[0] in multiset(s);
    assert s[0] in multiset(t);
    i :| 0 <= i < |t| && t[i] == s[0];
    WithoutMultiset(t, i);
    HeadMultiset(s);
    assert multiset(s) - multiset{s[0]} == multiset(s[1..]);
    assert multiset(t) - multiset{s[0]} == multiset(t[..i] + t[i + 1..]);
  }

  lemma HeadMultiset<T(!new)>(s: seq<T>)
    requires s != []
    ensures multiset(s) == multiset{s[0]} + multiset(s[1..])
  {
    assert s == [s[0]] + s[1..];
  }

  lemma EmptyPermuted<T(!new)>(t: seq<T>)
    requires multiset(t) == multiset{}
    ensures t == []
  {
    assert |multiset(t)| == |t|;
  }

  lemma {:induction false} SumPermuted<T(!new)>(s: seq<T>, t: seq<T>, w: T -> nat)
    requires multiset(s) == multiset(t)
    ensures Sum(s, w) == Sum(t, w)
    decreases |s|
  {
    if s == [] {
      EmptyPermuted(t);
    } else {
      var i := Elsewhere(s, t);
      SumPermuted(s[1..], t[..i] + t[i + 1..], w);
      SumWithout(t, i, w);
    }
  }

  lemma {:induction false} FilterAppend<T(!new)>(s: seq<T>, t: seq<T>, keep: T -> bool)
    ensures Filter(s + t, keep) == Filter(s, keep) + Filter(t, keep)
  {
    if s == [] {
      assert s + t == t;
    } else {
      assert (s + t)[1..] == s[1..] + t;
      FilterAppend(s[1..], t, keep);
      var head: seq<T> := if keep(s[0]) then [s[0]] else [];
      Associative(head, Filter(s[1..], keep), Filter(t, keep));
    }
  }

  lemma Associative<T(!new)>(x: seq<T>, y: seq<T>, z: seq<T>)
    ensures x + (y + z) == x + y + z
    ensures multiset(x + y + z) == multiset(x + z) + multiset(y)
  {
  }

  lemma FilterWithout<T(!new)>(t: seq<T>, i: nat, keep: T -> bool)
    requires i < |t|
    ensures multiset(Filter(t, keep)) == multiset(Filter(t[..i] + t[i + 1..], keep))
              + (if keep(t[i]) then multiset{t[i]} else multiset{})
  {
    hide Filter;
    var a, b := t[..i], t[i + 1..];
    assert t == a + [t[i]] + b;
    FilterAround(a, t[i], b, keep);
    FilterAppend(a, b, keep);
    Associative(Filter(a, keep), if keep(t[i]) then [t[i]] else [], Filter(b, keep));
  }

  lemma FilterOne<T(!new)>(x: T, keep: T -> bool)
    ensures Filter([x], keep) == if keep(x) then [x] else []
  {
  }

  lemma {:induction false} InFilter<T(!new)>(s: seq<T>, keep: T -> bool)
    ensures forall x :: x in Filter(s, keep) <==> x in s && keep(x)
  {
    if s != [] {
      InFilter(s[1..], keep);
      assert s == [s[0]] + s[1..];
    }
  }

  lemma FilterAround<T(!new)>(a: seq<T>, x: T, b: seq<T>, keep: T -> bool)
    ensures Filter(a + [x] + b, keep) == Filter(a, keep) + (if keep(x) then [x] else []) + Filter(b, keep)
  {
    FilterAppend(a + [x], b, keep);
    FilterAppend(a, [x], keep);
    FilterOne(x, keep);
  }

  lemma {:induction false} FilterPermuted<T(!new)>(s: seq<T>, t: seq<T>, keep: T -> bool, keep': T -> bool)
    requires multiset(s) == multiset(t)
    requires forall x | x in s :: keep(x) == keep'(x)
    ensures multiset(Filter(s, keep)) == multiset(Filter(t, keep'))
    decreases |s|
  {
    if s == [] {
      EmptyPermuted(t);
    } else {
      var i := Elsewhere(s, t);
      FilterPermuted(s[1..], t[..i] + t[i + 1..], keep, keep');
      FilterWithout(t, i, keep');
    }
  }

  lemma {:induction false} FilterSame<T(!new)>(s: seq<T>, keep: T -> bool, keep': T -> bool)
    requires forall x | x in s :: keep(x) == keep'(x)
    ensures Filter(s, keep) == Filter(s, keep')
  {
    if s != [] {
      FilterSame(s[1..], keep, keep');
    }
  }
}
