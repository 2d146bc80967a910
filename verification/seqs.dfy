/** Array.prototype.filter and the counting facts the dashboards rely on. */
module Seqs {

  /** `s.filter(p)`: the elements satisfying p, in their original order. */
  function Filter<T>(s: seq<T>, p: T -> bool): (r: seq<T>)
    ensures |r| <= |s|
    ensures forall i :: 0 <= i < |r| ==> r[i] in s && p(r[i])
    ensures forall i :: 0 <= i < |s| && p(s[i]) ==> s[i] in r
    decreases |s|
  {
    if |s| == 0 then []
    else if p(s[0]) then [s[0]] + Filter(s[1..], p)
    else Filter(s[1..], p)
  }

  /** Filtering with a predicate every element satisfies changes nothing. */
  lemma {:induction false} FilterAll<T>(s: seq<T>, p: T -> bool)
    requires forall x :: x in s ==> p(x)
    ensures Filter(s, p) == s
    decreases |s|
  {
    if |s| > 0 {
      assert s[0] in s;
      forall x | x in s[1..] ensures p(x) { assert x in s; }
      FilterAll(s[1..], p);
      assert [s[0]] + s[1..] == s;
    }
  }

  /** Filtering with a predicate no element satisfies gives the empty list. */
  lemma FilterNone<T>(s: seq<T>, p: T -> bool)
    requires forall x :: x in s ==> !p(x)
    ensures Filter(s, p) == []
  {
  }

  /** Filter distributes over concatenation. */
  lemma {:induction false} FilterAppend<T>(a: seq<T>, b: seq<T>, p: T -> bool)
    ensures Filter(a + b, p) == Filter(a, p) + Filter(b, p)
    decreases |a|
  {
    if |a| > 0 {
      assert (a + b)[1..] == a[1..] + b;
      FilterAppend(a[1..], b, p);
    } else {
      assert a + b == b;
    }
  }

  /** Filtering twice is filtering once by both predicates. */
  lemma {:induction false} FilterFilter<T>(s: seq<T>, p: T -> bool, q: T -> bool)
    ensures Filter(Filter(s, p), q) == Filter(s, (x: T) => p(x) && q(x))
    decreases |s|
  {
    if |s| > 0 {
      FilterFilter(s[1..], p, q);
      if p(s[0]) {
        assert Filter(s, p)[1..] == Filter(s[1..], p);
      }
    }
  }

  /** Splitting the p-elements by c and by its complement d loses and repeats
      nothing: the two filtered lists together hold the p-elements. */
  lemma {:induction false} FilterPartition<T>(s: seq<T>, p: T -> bool, c: T -> bool, d: T -> bool)
    requires forall x :: x in s ==> (d(x) <==> !c(x))
    ensures multiset(Filter(s, (x: T) => d(x) && p(x))) + multiset(Filter(s, (x: T) => c(x) && p(x)))
      == multiset(Filter(s, p))
    decreases |s|
  {
    if |s| > 0 {
      assert s[0] in s;
      forall x | x in s[1..] ensures d(x) <==> !c(x) { assert x in s; }
      FilterPartition(s[1..], p, c, d);
    }
  }

  /** When every element satisfies exactly one of q and r, and p is their union,
      the p-count is the q-count plus the r-count. */
  lemma {:induction false} CountSplit<T>(s: seq<T>, p: T -> bool, q: T -> bool, r: T -> bool)
    requires forall x :: x in s ==> (p(x) <==> q(x) || r(x)) && !(q(x) && r(x))
    ensures |Filter(s, p)| == |Filter(s, q)| + |Filter(s, r)|
    decreases |s|
  {
    if |s| > 0 {
      assert s[0] in s;
      forall x | x in s[1..] ensures (p(x) <==> q(x) || r(x)) && !(q(x) && r(x)) { assert x in s; }
      CountSplit(s[1..], p, q, r);
    }
  }

  /** A predicate that implies another selects no more elements. */
  lemma {:induction false} CountMono<T>(s: seq<T>, q: T -> bool, p: T -> bool)
    requires forall x :: x in s && q(x) ==> p(x)
    ensures |Filter(s, q)| <= |Filter(s, p)|
    decreases |s|
  {
    if |s| > 0 {
      assert s[0] in s;
      forall x | x in s[1..] && q(x) ensures p(x) { assert x in s; }
      CountMono(s[1..], q, p);
    }
  }

  /** Two predicates that agree on the elements select the same list. */
  lemma {:induction false} FilterCongruent<T>(s: seq<T>, p: T -> bool, q: T -> bool)
    requires forall x :: x in s ==> (p(x) <==> q(x))
    ensures Filter(s, p) == Filter(s, q)
    decreases |s|
  {
    if |s| > 0 {
      assert s[0] in s;
      forall x | x in s[1..] ensures p(x) <==> q(x) { assert x in s; }
      FilterCongruent(s[1..], p, q);
    }
  }

  /** Two lists of the same length whose elements agree, position by position,
      on p select equally many elements. */
  lemma {:induction false} CountSame<T>(a: seq<T>, b: seq<T>, p: T -> bool)
    requires |a| == |b|
    requires forall i :: 0 <= i < |a| ==> (p(a[i]) <==> p(b[i]))
    ensures |Filter(a, p)| == |Filter(b, p)|
    decreases |a|
  {
    if |a| > 0 {
      CountSame(a[1..], b[1..], p);
    }
  }

  /** Changing one position from unselected to selected, and nothing else about
      p, raises the count by one. */
  lemma {:induction false} CountBump<T>(a: seq<T>, b: seq<T>, p: T -> bool, k: nat)
    requires |a| == |b| && k < |a|
    requires forall i :: 0 <= i < |a| && i != k ==> (p(a[i]) <==> p(b[i]))
    requires !p(a[k]) && p(b[k])
    ensures |Filter(b, p)| == |Filter(a, p)| + 1
    decreases |a|
  {
    if k == 0 {
      CountSame(a[1..], b[1..], p);
    } else {
      CountBump(a[1..], b[1..], p, k - 1);
    }
  }

  /** Dropping the single element that fails p shortens the list by one. */
  lemma {:induction false} FilterDropsOne<T>(s: seq<T>, p: T -> bool, k: nat)
    requires k < |s| && !p(s[k])
    requires forall i :: 0 <= i < |s| && i != k ==> p(s[i])
    ensures |Filter(s, p)| == |s| - 1
    decreases |s|
  {
    if k == 0 {
      forall x | x in s[1..] ensures p(x) {
        var m :| 0 <= m < |s[1..]| && s[1..][m] == x;
        assert s[m + 1] == x;
      }
      FilterAll(s[1..], p);
    } else {
      FilterDropsOne(s[1..], p, k - 1);
    }
  }

  /** No two elements share a key. */
  ghost predicate DistinctBy<T, K>(s: seq<T>, key: T -> K) {
    forall i, j :: 0 <= i < j < |s| ==> key(s[i]) != key(s[j])
  }

  /** An element whose key no later element shares, in front of a sequence of
      distinct keys, keeps the keys distinct. */
  lemma DistinctCons<T, K>(x: T, rest: seq<T>, key: T -> K)
    requires DistinctBy(rest, key)
    requires forall y :: y in rest ==> key(y) != key(x)
    ensures DistinctBy([x] + rest, key)
  {
    var r := [x] + rest;
    forall i, j | 0 <= i < j < |r| ensures key(r[i]) != key(r[j]) {
      assert r[j] == rest[j - 1];
      if i > 0 {
        assert r[i] == rest[i - 1];
      }
    }
  }

  /** Filtering keeps keys distinct. */
  lemma {:induction false} FilterKeepsDistinct<T, K>(s: seq<T>, p: T -> bool, key: T -> K)
    requires DistinctBy(s, key)
    ensures DistinctBy(Filter(s, p), key)
    decreases |s|
  {
    if |s| > 0 {
      var rest := Filter(s[1..], p);
      FilterKeepsDistinct(s[1..], p, key);
      if p(s[0]) {
        forall y | y in rest ensures key(y) != key(s[0]) {
          var m :| 0 <= m < |s[1..]| && s[1..][m] == y;
          assert s[m + 1] == y;
        }
        DistinctCons(s[0], rest, key);
      }
    }
  }

  /** No element occurs twice. */
  predicate NoDup<T(==)>(s: seq<T>) {
    forall i, j :: 0 <= i < j < |s| ==> s[i] != s[j]
  }
}
