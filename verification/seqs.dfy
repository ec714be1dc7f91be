/**
 * Generic sequence operations behind the JavaScript array idioms the dashboard
 * uses everywhere: `filter`, `reduce` into a sum, `slice(0, n)`, `find`,
 * `[...new Set(xs)]` and `sort` with a numeric comparator.
 */
module Seqs {
  import opened Wrappers

  function Min(a: int, b: int): int { if a <= b then a else b }

  /** `r` can be obtained from `s` by deleting elements (order is kept). */
  ghost predicate IsSubsequence<T>(r: seq<T>, s: seq<T>)
  {
    if |r| == 0 then true
    else if |s| == 0 then false
    else if r[0] == s[0] then IsSubsequence(r[1..], s[1..])
    else IsSubsequence(r, s[1..])
  }

  /** Dropping the first element of a subsequence keeps it a subsequence. */
  lemma {:induction false} SubsequenceTail<T>(r: seq<T>, s: seq<T>)
    requires |r| > 0 && IsSubsequence(r, s)
    ensures IsSubsequence(r[1..], s)
    decreases |s|, 0
  {
    if r[0] == s[0] {
      SubsequenceSkip(r[1..], s[1..], s[0]);
      assert s == [s[0]] + s[1..];
    } else {
      SubsequenceTail(r, s[1..]);
      SubsequenceSkip(r[1..], s[1..], s[0]);
      assert s == [s[0]] + s[1..];
    }
  }

  /** A subsequence of `s` is also a subsequence of `[x] + s`. */
  lemma {:induction false} SubsequenceSkip<T>(r: seq<T>, s: seq<T>, x: T)
    requires IsSubsequence(r, s)
    ensures IsSubsequence(r, [x] + s)
    decreases |s|, 1
  {
    var xs := [x] + s;
    assert xs[1..] == s;
    if |r| > 0 && r[0] == x {
      SubsequenceTail(r, s);
    }
  }

  /** The subsequence relation is transitive. */
  lemma {:induction false} SubsequenceTransitive<T>(a: seq<T>, b: seq<T>, c: seq<T>)
    requires IsSubsequence(a, b) && IsSubsequence(b, c)
    ensures IsSubsequence(a, c)
    decreases |c|
  {
    if |a| == 0 {
    } else if b[0] == c[0] {
      if a[0] == b[0] {
        SubsequenceTransitive(a[1..], b[1..], c[1..]);
      } else {
        SubsequenceTransitive(a, b[1..], c[1..]);
      }
    } else {
      SubsequenceTransitive(a, b, c[1..]);
      if a[0] == c[0] {
        SubsequenceTail(a, c[1..]);
      }
    }
  }

  /** The elements of `s` that satisfy `p`, in order (JavaScript `s.filter(p)`). */
  function Filter<T(!new)>(s: seq<T>, p: T -> bool): (r: seq<T>)
    ensures |r| <= |s|
    ensures forall x :: x in r <==> x in s && p(x)
    ensures forall x :: multiset(r)[x] == if p(x) then multiset(s)[x] else 0
    ensures IsSubsequence(r, s)
  {
    if |s| == 0 then []
    else
      assert s == [s[0]] + s[1..];
      var rest := Filter(s[1..], p);
      if p(s[0]) then
        assert ([s[0]] + rest)[1..] == rest;
        [s[0]] + rest
      else
        assert |rest| > 0 ==> rest[0] in rest;
        rest
  }

  /** Filtering distributes over concatenation. */
  lemma {:induction false} FilterAppend<T(!new)>(a: seq<T>, b: seq<T>, p: T -> bool)
    ensures Filter(a + b, p) == Filter(a, p) + Filter(b, p)
  {
    if |a| == 0 {
      assert a + b == b;
    } else {
      var x, tail := a[0], a[1..];
      assert (a + b)[0] == x;
      assert (a + b)[1..] == tail + b;
      FilterAppend(tail, b, p);
      if p(x) {
        ConcatAssoc([x], Filter(tail, p), Filter(b, p));
      }
    }
  }

  /** Concatenation is associative, stated so a proof can name the one instance it needs. */
  lemma ConcatAssoc<T>(h: seq<T>, f: seq<T>, g: seq<T>)
    ensures h + (f + g) == (h + f) + g
  {
  }

  /** The positions of `s` whose element passes `p`. */
  function Passing<T>(s: seq<T>, p: T -> bool): set<int>
  {
    set i | 0 <= i < |s| && p(s[i])
  }

  /** The length of a filter is the number of positions whose element passes. */
  lemma {:induction false} FilterLengthCountsIndices<T(!new)>(s: seq<T>, p: T -> bool)
    ensures |Filter(s, p)| == |Passing(s, p)|
    decreases |s|
  {
    if |s| == 0 {
      assert Passing(s, p) == {};
    } else {
      var init, last := s[..|s| - 1], s[|s| - 1];
      assert s == init + [last];
      FilterAppend(init, [last], p);
      assert [last][1..] == [];
      FilterLengthCountsIndices(init, p);
      PassingSnoc(s, p);
    }
  }

  lemma PassingSnoc<T>(s: seq<T>, p: T -> bool)
    requires |s| > 0
    ensures p(s[|s| - 1]) ==> |Passing(s, p)| == |Passing(s[..|s| - 1], p)| + 1
    ensures !p(s[|s| - 1]) ==> |Passing(s, p)| == |Passing(s[..|s| - 1], p)|
  {
    var n := |s| - 1;
    var before := Passing(s[..n], p);
    var extra: set<int> := if p(s[n]) then {n} else {};
    forall i ensures i in Passing(s, p) <==> i in before + extra {
      if 0 <= i < n {
        assert s[..n][i] == s[i];
      }
    }
    assert Passing(s, p) == before + extra;
    assert n !in before;
  }

  /** Filtering by a weaker predicate keeps at least as many elements. */
  lemma {:induction false} FilterCountMonotone<T(!new)>(s: seq<T>, p: T -> bool, q: T -> bool)
    requires forall x :: p(x) ==> q(x)
    ensures |Filter(s, p)| <= |Filter(s, q)|
  {
    if |s| > 0 {
      FilterCountMonotone(s[1..], p, q);
    }
  }


  /** `f` applied to each element (JavaScript `s.map(f)`). */
  function Map<A, B>(s: seq<A>, f: A -> B): (r: seq<B>)
    ensures |r| == |s|
    ensures forall i :: 0 <= i < |s| ==> r[i] == f(s[i])
  {
    seq(|s|, i requires 0 <= i < |s| => f(s[i]))
  }

  lemma MapAppend<A, B>(a: seq<A>, b: seq<A>, f: A -> B)
    ensures Map(a + b, f) == Map(a, f) + Map(b, f)
  {
    assert forall i :: 0 <= i < |a + b| ==> Map(a + b, f)[i] == (Map(a, f) + Map(b, f))[i];
  }

  /** Mapping keeps a sub-multiset a sub-multiset: nothing is listed more often than it occurs. */
  lemma {:induction false} MapSubMultiset<A, B>(a: seq<A>, b: seq<A>, f: A -> B)
    requires multiset(a) <= multiset(b)
    ensures multiset(Map(a, f)) <= multiset(Map(b, f))
    decreases |a|
  {
    if |a| > 0 {
      var x := a[0];
      assert x in multiset(a);
      assert x in b;
      var j :| 0 <= j < |b| && b[j] == x;
      var rest := b[..j] + b[j + 1..];
      RemoveAt(b, j, f);
      SubMultisetTail(a, rest, x);
      MapSubMultiset(a[1..], rest, f);
      MapConsBound(a, rest, b, f);
    }
  }

  lemma MapConsBound<A, B>(a: seq<A>, rest: seq<A>, b: seq<A>, f: A -> B)
    requires |a| > 0
    requires multiset(Map(a[1..], f)) <= multiset(Map(rest, f))
    requires multiset(Map(b, f)) == multiset(Map(rest, f)) + multiset{f(a[0])}
    ensures multiset(Map(a, f)) <= multiset(Map(b, f))
  {
    var head, tail := Map([a[0]], f), Map(a[1..], f);
    assert a == [a[0]] + a[1..];
    MapAppend([a[0]], a[1..], f);
    assert Map(a, f) == head + tail;
    assert head == [f(a[0])];
    assert multiset(head + tail) == multiset{f(a[0])} + multiset(tail);
    AddToBoth(multiset(Map(a[1..], f)), multiset(Map(rest, f)), f(a[0]));
  }

  lemma AddToBoth<T>(m: multiset<T>, n: multiset<T>, x: T)
    requires m <= n
    ensures multiset{x} + m <= n + multiset{x}
  {
    forall y ensures (multiset{x} + m)[y] <= (n + multiset{x})[y] {
    }
  }

  /** Taking out the element at `j`, before and after mapping. */
  lemma RemoveAt<A, B>(b: seq<A>, j: int, f: A -> B)
    requires 0 <= j < |b|
    ensures multiset(b) == multiset(b[..j] + b[j + 1..]) + multiset{b[j]}
    ensures multiset(Map(b, f)) == multiset(Map(b[..j] + b[j + 1..], f)) + multiset{f(b[j])}
  {
    var before, after := b[..j], b[j + 1..];
    assert b == before + [b[j]] + after;
    MultisetWithout(before, b[j], after);
    MapAppend(before + [b[j]], after, f);
    MapAppend(before, [b[j]], f);
    MapAppend(before, after, f);
    assert Map([b[j]], f) == [f(b[j])];
    assert Map(b, f) == Map(before, f) + [f(b[j])] + Map(after, f);
    MultisetWithout(Map(before, f), f(b[j]), Map(after, f));
  }

  lemma MultisetWithout<T>(before: seq<T>, x: T, after: seq<T>)
    ensures multiset(before + [x] + after) == multiset(before + after) + multiset{x}
  {
  }

  lemma SubMultisetTail<A>(a: seq<A>, rest: seq<A>, x: A)
    requires |a| > 0 && a[0] == x
    requires multiset(a) <= multiset(rest) + multiset{x}
    ensures multiset(a[1..]) <= multiset(rest)
  {
    assert a == [x] + a[1..];
    assert multiset(a) == multiset{x} + multiset(a[1..]);
    forall y ensures multiset(a[1..])[y] <= multiset(rest)[y] {
      assert multiset(a)[y] <= (multiset(rest) + multiset{x})[y];
    }
  }

  /** Sum of `f` over `s` (JavaScript `s.reduce((sum, x) => sum + f(x), 0)`). */
  function SumBy<T>(s: seq<T>, f: T -> real): real
  {
    if |s| == 0 then 0.0 else f(s[0]) + SumBy(s[1..], f)
  }

  lemma {:induction false} SumByAppend<T>(a: seq<T>, b: seq<T>, f: T -> real)
    ensures SumBy(a + b, f) == SumBy(a, f) + SumBy(b, f)
  {
    if |a| == 0 {
      assert a + b == b;
    } else {
      assert (a + b)[1..] == a[1..] + b;
      SumByAppend(a[1..], b, f);
    }
  }

  lemma {:induction false} SumByNonNegative<T>(s: seq<T>, f: T -> real)
    requires forall x :: x in s ==> f(x) >= 0.0
    ensures SumBy(s, f) >= 0.0
  {
    if |s| > 0 {
      assert s[0] in s;
      assert forall x :: x in s[1..] ==> x in s;
      SumByNonNegative(s[1..], f);
    }
  }

  /** The first `n` elements of `s`, or all of them (JavaScript `s.slice(0, n)`). */
  function Take<T>(s: seq<T>, n: nat): (r: seq<T>)
    ensures |r| == Min(n, |s|)
    ensures r == s[..|r|]
  {
    if |s| <= n then s else s[..n]
  }

  /** Index of the first element that satisfies `p` (JavaScript `findIndex`). */
  function FindFirst<T>(s: seq<T>, p: T -> bool): (r: Option<nat>)
    ensures r.Some? ==> r.value < |s| && p(s[r.value])
    ensures r.Some? ==> forall j :: 0 <= j < r.value ==> !p(s[j])
    ensures r.None? ==> forall j :: 0 <= j < |s| ==> !p(s[j])
  {
    if |s| == 0 then None
    else if p(s[0]) then Some(0)
    else
      match FindFirst(s[1..], p)
      case None => None
      case Some(i) => Some(i + 1)
  }

  /** `f` applied to every element, or `None` when any application fails. */
  function MapAll<A, B>(s: seq<A>, f: A -> Option<B>): (r: Option<seq<B>>)
    ensures r.Some? <==> forall i :: 0 <= i < |s| ==> f(s[i]).Some?
    ensures r.Some? ==> |r.value| == |s|
    ensures r.Some? ==> forall i :: 0 <= i < |s| ==> r.value[i] == f(s[i]).value
  {
    if |s| == 0 then Some([])
    else
      match f(s[0])
      case None => None
      case Some(first) =>
        match MapAll(s[1..], f)
        case None => None
        case Some(rest) =>
          assert forall i :: 1 <= i < |s| ==> s[i] == s[1..][i - 1];
          Some([first] + rest)
  }

  ghost predicate NoDuplicates<T>(s: seq<T>)
  {
    forall i, j :: 0 <= i < j < |s| ==> s[i] != s[j]
  }

  /** Position of the first occurrence of `x` in `s`. */
  function FirstIndex<T(==)>(s: seq<T>, x: T): (i: nat)
    requires x in s
    ensures i < |s| && s[i] == x
    ensures forall j :: 0 <= j < i ==> s[j] != x
  {
    if s[0] == x then 0 else 1 + FirstIndex(s[1..], x)
  }

  lemma {:induction false} FirstIndexPrefix<T>(s: seq<T>, x: T, n: nat)
    requires n <= |s| && x in s[..n]
    ensures FirstIndex(s, x) == FirstIndex(s[..n], x)
  {
    var i := FirstIndex(s[..n], x);
    assert s[i] == s[..n][i];
    var k := FirstIndex(s, x);
    assert k <= i;
    assert s[..n][k] == s[k];
  }

  /**
   * The distinct elements of `s` in order of first appearance
   * (JavaScript `[...new Set(s)]`, or the insertion order of an object's keys).
   */
  function Distinct<T(==,!new)>(s: seq<T>): (r: seq<T>)
    ensures forall x :: x in r <==> x in s
    ensures NoDuplicates(r)
    ensures forall i, j :: 0 <= i < j < |r| ==> FirstIndex(s, r[i]) < FirstIndex(s, r[j])
    ensures |r| <= |s|
  {
    if |s| == 0 then []
    else
      var init := s[..|s| - 1];
      var last := s[|s| - 1];
      assert s == init + [last];
      var d := Distinct(init);
      assert forall y :: y in d ==> FirstIndex(s, y) == FirstIndex(init, y) by {
        forall y | y in d {
          FirstIndexPrefix(s, y, |s| - 1);
        }
      }
      if last in d then d
      else
        assert FirstIndex(s, last) == |s| - 1;
        d + [last]
  }

  /** A sequence without repeats has as many elements as its set of elements. */
  lemma {:induction false} NoDuplicatesCardinality<T>(s: seq<T>)
    requires NoDuplicates(s)
    ensures |set x | x in s| == |s|
  {
    if |s| > 0 {
      var rest := s[1..];
      NoDuplicatesCardinality(rest);
      assert (set x | x in s) == {s[0]} + (set x | x in rest) by {
        assert s == [s[0]] + rest;
      }
      assert s[0] !in rest by {
        forall j | 0 <= j < |rest| ensures rest[j] != s[0] { assert rest[j] == s[j + 1]; }
      }
    }
  }

  /** `r` is `s` ordered by non-decreasing `key`. */
  ghost predicate SortedBy<T>(s: seq<T>, key: T -> real)
  {
    forall i, j :: 0 <= i < j < |s| ==> key(s[i]) <= key(s[j])
  }

  /** Inserts `x` before the first element whose key is not smaller than its own. */
  function InsertBy<T>(x: T, s: seq<T>, key: T -> real): (r: seq<T>)
    requires SortedBy(s, key)
    ensures SortedBy(r, key)
    ensures multiset(r) == multiset(s) + multiset{x}
    ensures |r| == |s| + 1
  {
    if |s| == 0 || key(x) <= key(s[0]) then [x] + s
    else
      var rest := InsertBy(x, s[1..], key);
      InsertStep(x, s, key, rest);
      [s[0]] + rest
  }

  lemma InsertStep<T>(x: T, s: seq<T>, key: T -> real, rest: seq<T>)
    requires |s| > 0 && SortedBy(s, key) && key(s[0]) < key(x)
    requires SortedBy(rest, key) && multiset(rest) == multiset(s[1..]) + multiset{x}
    ensures SortedBy([s[0]] + rest, key)
    ensures multiset([s[0]] + rest) == multiset(s) + multiset{x}
  {
    assert s == [s[0]] + s[1..];
    var r := [s[0]] + rest;
    forall j | 0 < j < |r|
      ensures key(s[0]) <= key(r[j])
    {
      assert r[j] == rest[j - 1];
      assert r[j] in multiset(rest);
      if r[j] != x {
        assert r[j] in multiset(s[1..]);
        var k :| 0 <= k < |s[1..]| && s[1..][k] == r[j];
        assert s[k + 1] == r[j];
      }
    }
  }

  /**
   * `s` ordered by non-decreasing `key` (JavaScript's stable `sort` with the
   * comparator `(a, b) => key(a) - key(b)`), by insertion.
   */
  function SortBy<T>(s: seq<T>, key: T -> real): (r: seq<T>)
    ensures SortedBy(r, key)
    ensures multiset(r) == multiset(s)
    ensures |r| == |s|
  {
    if |s| == 0 then []
    else
      assert s == [s[0]] + s[1..];
      InsertBy(s[0], SortBy(s[1..], key), key)
  }

  /**
   * The `n` elements of `s` with the greatest `key`, greatest first
   * (JavaScript `[...s].sort((a, b) => key(b) - key(a)).slice(0, n)`).
   */
  function TopBy<T(!new)>(s: seq<T>, key: T -> real, n: nat): (r: seq<T>)
    ensures |r| == Min(n, |s|)
    ensures forall i, j :: 0 <= i < j < |r| ==> key(r[i]) >= key(r[j])
    ensures multiset(r) <= multiset(s)
    ensures forall x :: x in r ==> x in s
    ensures forall x, y :: x in s && x !in r && y in r ==> key(y) >= key(x)
  {
    var sorted := SortBy(s, x => -key(x));
    var r := Take(sorted, n);
    TopByBound(sorted, key, r);
    assert forall x :: x in s ==> x in sorted by {
      forall x | x in s ensures x in sorted { assert x in multiset(s); }
    }
    assert forall x :: x in r ==> x in s by {
      forall x | x in r ensures x in s { assert x in multiset(r); }
    }
    r
  }

  lemma TopByBound<T>(sorted: seq<T>, key: T -> real, r: seq<T>)
    requires SortedBy(sorted, x => -key(x))
    requires |r| <= |sorted| && r == sorted[..|r|]
    ensures forall i, j :: 0 <= i < j < |r| ==> key(r[i]) >= key(r[j])
    ensures multiset(r) <= multiset(sorted)
    ensures forall x, y :: x in sorted && x !in r && y in r ==> key(y) >= key(x)
  {
    assert sorted == r + sorted[|r|..];
    forall x, y | x in sorted && x !in r && y in r
      ensures key(y) >= key(x)
    {
      var j :| 0 <= j < |sorted| && sorted[j] == x;
      var i :| 0 <= i < |r| && r[i] == y;
      assert j >= |r|;
      assert -key(sorted[i]) <= -key(sorted[j]);
    }
  }
}
