/** Facts about sequences and sets that several modules use. */
module Collections {

  predicate Distinct<T(==)>(s: seq<T>) {
    forall i, j | 0 <= i < j < |s| :: s[i] != s[j]
  }

  lemma TailDistinct<T>(s: seq<T>)
    requires Distinct(s) && s != []
    ensures Distinct(s[1..]) && forall k | 0 < k < |s| :: s[0] != s[k]
  {
  }

  lemma Associate<T>(a: seq<T>, b: seq<T>, c: seq<T>)
    ensures (a + b) + c == a + (b + c)
  {
  }

  /** A sequence is what precedes an element, the element, and what follows it. */
  lemma CutAt<T>(s: seq<T>, n: nat)
    requires n < |s|
    ensures s == s[..n] + [s[n]] + s[n + 1..]
  {
  }

  lemma {:induction false} SubsetIsSmaller<T>(a: set<T>, b: set<T>)
    requires a <= b
    ensures |a| <= |b|
  {
    assert b == a + (b - a);
  }

  lemma {:induction false} DistinctCardinality<T>(s: seq<T>)
    requires Distinct(s)
    ensures |set x | x in s| == |s|
  {
    if s != [] {
      var rest := s[1..];
      DistinctCardinality(rest);
      assert (set x | x in s) == {s[0]} + set x | x in rest;
      assert s[0] !in rest;
    }
  }

  lemma DistinctSnoc<T>(s: seq<T>, x: T)
    requires Distinct(s) && x !in s
    ensures Distinct(s + [x])
  {
  }

  lemma {:induction false} DistinctAmong<T>(a: seq<T>, b: set<T>)
    requires Distinct(a) && forall x | x in a :: x in b
    ensures |a| <= |b|
    ensures |a| == |b| ==> forall x | x in b :: x in a
  {
    if a == [] {
      assert |b| == 0 ==> b == {};
    } else {
      assert a[0] in a;
      forall x | x in a[1..]
        ensures x in b - {a[0]}
      {
        assert x in a;
      }
      DistinctAmong(a[1..], b - {a[0]});
      assert forall x | x in a[1..] :: x in a;
    }
  }

  lemma {:induction false} SetOfSeqIsSmall<T>(s: seq<T>)
    ensures |set x | x in s| <= |s|
  {
    if s != [] {
      SetOfSeqIsSmall(s[1..]);
      assert (set x | x in s) == {s[0]} + set x | x in s[1..];
    }
  }

  /** Distinct elements out of a list are at most as many, and as many exactly if they are all of them. */
  lemma AllOrFewer<T>(some: seq<T>, all: seq<T>)
    requires Distinct(some) && Distinct(all) && forall x | x in some :: x in all
    ensures |some| <= |all|
    ensures |some| == |all| <==> forall x | x in all :: x in some
  {
    var these, those := (set x | x in all), (set x | x in some);
    DistinctCardinality(all);
    DistinctCardinality(some);
    DistinctAmong(some, these);
    if forall x | x in all :: x in some { SubsetIsSmaller(these, those); }
  }
}
