/**
 * The array built-ins the core leans on, over sequences: `filter`, the
 * insertion order of a `Map`'s keys, and duplicate-freedom.
 */
module Seqs {

  predicate Distinct<T(==)>(xs: seq<T>) {
    forall a, b :: 0 <= a < b < |xs| ==> xs[a] != xs[b]
  }

  /** The elements of a sequence, as a set. */
  function Elements<T>(xs: seq<T>): set<T> {
    set x | x in xs
  }

  /** `acc` followed by the elements of `xs` not seen before, in the order first seen. */
  function AppendNew<T(==)>(acc: seq<T>, xs: seq<T>): seq<T>
    decreases |xs|
  {
    if |xs| == 0 then acc
    else
      var d := AppendNew(acc, xs[..|xs| - 1]);
      if xs[|xs| - 1] in d then d else d + [xs[|xs| - 1]]
  }

  /** `Array.prototype.filter`: the elements satisfying `f`, in their order. */
  function Filter<T(!new)>(s: seq<T>, f: T -> bool): (r: seq<T>)
    ensures |r| <= |s|
    ensures forall k :: 0 <= k < |r| ==> f(r[k])
  {
    if |s| == 0 then [] else (if f(s[0]) then [s[0]] else []) + Filter(s[1..], f)
  }

  lemma {:induction false} FilterMembers<T(!new)>(s: seq<T>, f: T -> bool)
    ensures forall x :: x in Filter(s, f) <==> x in s && f(x)
  {
    if |s| > 0 {
      FilterMembers(s[1..], f);
      assert s == [s[0]] + s[1..];
    }
  }

  lemma {:induction false} FilterAppend<T(!new)>(s: seq<T>, t: seq<T>, f: T -> bool)
    ensures Filter(s + t, f) == Filter(s, f) + Filter(t, f)
  {
    if |s| > 0 {
      assert (s + t)[1..] == s[1..] + t;
      FilterAppend(s[1..], t, f);
    } else {
      assert s + t == t;
    }
  }

  lemma FilterFour<T(!new)>(a: seq<T>, b: seq<T>, c: seq<T>, d: seq<T>, f: T -> bool)
    ensures Filter(a + b + c + d, f) == Filter(a, f) + Filter(b, f) + Filter(c, f) + Filter(d, f)
  {
    FilterAppend(a + b + c, d, f);
    FilterAppend(a + b, c, f);
    FilterAppend(a, b, f);
  }

  lemma {:induction false} FilterKeepsAll<T(!new)>(s: seq<T>, f: T -> bool)
    requires forall k :: 0 <= k < |s| ==> f(s[k])
    ensures Filter(s, f) == s
  {
    if |s| > 0 {
      FilterKeepsAll(s[1..], f);
    }
  }

  lemma {:induction false} FilterDistinct<T(!new)>(s: seq<T>, f: T -> bool)
    requires Distinct(s)
    ensures Distinct(Filter(s, f))
  {
    if |s| > 0 {
      FilterDistinct(s[1..], f);
      FilterMembers(s[1..], f);
      assert s[0] !in s[1..];
    }
  }

  /** Each filtered element keeps its multiplicity or drops to none. */
  lemma {:induction false} FilterMultiset<T(!new)>(s: seq<T>, f: T -> bool, x: T)
    ensures multiset(Filter(s, f))[x] == if f(x) then multiset(s)[x] else 0
  {
    if |s| > 0 {
      FilterMultiset(s[1..], f, x);
      assert s == [s[0]] + s[1..];
    }
  }

  lemma {:induction false} DistinctCard<T>(s: seq<T>)
    requires Distinct(s)
    ensures |Elements(s)| == |s|
  {
    if |s| > 0 {
      var init := s[..|s| - 1];
      assert Distinct(init);
      DistinctCard(init);
      assert Elements(s) == Elements(init) + {s[|s| - 1]};
      assert s[|s| - 1] !in Elements(init);
    }
  }

  /** A duplicate-free selection from a longer duplicate-free sequence leaves something out. */
  lemma Pigeonhole<T>(a: seq<T>, b: seq<T>)
    requires Distinct(a) && Distinct(b) && |a| < |b|
    requires forall k :: 0 <= k < |a| ==> a[k] in b
    ensures exists x :: x in b && x !in a
  {
    DistinctCard(a);
    DistinctCard(b);
    if forall x :: x in b ==> x in a {
      SubsetCard(Elements(b), Elements(a));
    }
  }

  /** A duplicate-free selection as long as the duplicate-free sequence it is drawn from holds all of it. */
  lemma AllTaken<T>(a: seq<T>, b: seq<T>)
    requires Distinct(a) && Distinct(b) && |a| == |b|
    requires forall k :: 0 <= k < |a| ==> a[k] in b
    ensures forall x :: x in b ==> x in a
  {
    forall x | x in b
      ensures x in a
    {
      if x !in a {
        var ax := a + [x];
        assert Distinct(ax);
        assert forall k :: 0 <= k < |ax| ==> ax[k] in b;
        SubsetNoLonger(ax, b);
      }
    }
  }

  /** A duplicate-free selection from a duplicate-free sequence is no longer than it. */
  lemma SubsetNoLonger<T>(a: seq<T>, b: seq<T>)
    requires Distinct(a)
    requires forall k :: 0 <= k < |a| ==> a[k] in b
    ensures |a| <= |Elements(b)| <= |b|
  {
    DistinctCard(a);
    SubsetCard(Elements(a), Elements(b));
    SetNoLonger(b);
  }

  lemma SubsetCard<T>(small: set<T>, large: set<T>)
    requires small <= large
    ensures |small| <= |large|
    decreases small
  {
    if small != {} {
      var x :| x in small;
      SubsetCard(small - {x}, large - {x});
    }
  }

  lemma {:induction false} SetNoLonger<T>(b: seq<T>)
    ensures |Elements(b)| <= |b|
  {
    if |b| > 0 {
      var init := b[..|b| - 1];
      SetNoLonger(init);
      assert Elements(b) == Elements(init) + {b[|b| - 1]};
    }
  }

  /** `AppendNew` keeps `acc`, adds only elements of `xs`, adds each of them, and never repeats. */
  lemma {:induction false} AppendNewFacts<T>(acc: seq<T>, xs: seq<T>)
    requires Distinct(acc)
    ensures var r := AppendNew(acc, xs);
      Distinct(r) && |acc| <= |r| && r[..|acc|] == acc
      && (forall x :: x in r <==> x in acc || x in xs)
    decreases |xs|
  {
    if |xs| > 0 {
      AppendNewFacts(acc, xs[..|xs| - 1]);
      var d := AppendNew(acc, xs[..|xs| - 1]);
      assert xs == xs[..|xs| - 1] + [xs[|xs| - 1]];
      if xs[|xs| - 1] !in d {
        assert (d + [xs[|xs| - 1]])[..|acc|] == d[..|acc|];
      }
    }
  }

  /** A duplicate-free sequence holds each element at most once. */
  lemma {:induction false} DistinctOnce<T>(t: seq<T>, x: T)
    requires Distinct(t)
    ensures multiset(t)[x] <= 1
    decreases |t|
  {
    if |t| > 0 {
      var init := t[..|t| - 1];
      DistinctOnce(init, x);
      assert t == init + [t[|t| - 1]];
      assert t[|t| - 1] !in init;
    }
  }

  /** A rearrangement of a duplicate-free sequence is duplicate-free. */
  lemma DistinctPermutation<T>(s: seq<T>, t: seq<T>)
    requires multiset(s) == multiset(t) && Distinct(t)
    ensures Distinct(s)
  {
    forall a, b | 0 <= a < b < |s|
      ensures s[a] != s[b]
    {
      DistinctOnce(t, s[a]);
      assert s == s[..b] + [s[b]] + s[b + 1..];
      assert s[a] in s[..b];
      assert multiset(s)[s[a]] >= multiset(s[..b])[s[a]] + multiset([s[b]])[s[a]];
      assert multiset([s[b]])[s[a]] == 0;
    }
  }

  function Min(a: nat, b: nat): nat {
    if a <= b then a else b
  }
}
