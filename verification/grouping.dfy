/**
 * Summing values per key into an object whose keys keep their insertion
 * order, as `acc[k] = (acc[k] || 0) + v` does over a list in JavaScript.
 */
module Grouping {
  import opened Wrappers
  import opened Seqs

  function KeysOf<K, V>(pairs: seq<(K, V)>): (ks: seq<K>)
    ensures |ks| == |pairs|
    ensures forall i :: 0 <= i < |pairs| ==> ks[i] == pairs[i].0
  {
    seq(|pairs|, i requires 0 <= i < |pairs| => pairs[i].0)
  }

  function Second<K>(p: (K, real)): real
  {
    p.1
  }

  /** The sum of the values listed under `k`. */
  function SumFor<K(==)>(pairs: seq<(K, real)>, k: K): real
    decreases |pairs|
  {
    if |pairs| == 0 then 0.0
    else
      var last := pairs[|pairs| - 1];
      SumFor(pairs[..|pairs| - 1], k) + (if last.0 == k then last.1 else 0.0)
  }

  /** Changing one element of a sum changes the sum by the difference. */
  lemma SumByUpdate<T>(s: seq<T>, i: nat, x: T, f: T -> real)
    requires i < |s|
    ensures SumBy(s[i := x], f) == SumBy(s, f) - f(s[i]) + f(x)
  {
    assert s == s[..i] + ([s[i]] + s[i + 1..]);
    assert s[i := x] == s[..i] + ([x] + s[i + 1..]);
    SumByAppend(s[..i], [s[i]] + s[i + 1..], f);
    SumByAppend(s[..i], [x] + s[i + 1..], f);
  }

  /** One step of the accumulation: add `v` under `k`, opening `k` at the end if it is new. */
  function Accumulate<K(==)>(acc: seq<(K, real)>, k: K, v: real): (r: seq<(K, real)>)
    ensures k in KeysOf(acc) ==> KeysOf(r) == KeysOf(acc)
    ensures k !in KeysOf(acc) ==> r == acc + [(k, v)]
    ensures forall i :: 0 <= i < |acc| && acc[i].0 != k ==> r[i] == acc[i]
    ensures forall i :: 0 <= i < |acc| && acc[i].0 == k && (forall j :: 0 <= j < i ==> acc[j].0 != k) ==>
      r[i] == (k, acc[i].1 + v)
    ensures SumBy(r, Second) == SumBy(acc, Second) + v
  {
    match FindFirst(acc, (p: (K, real)) => p.0 == k)
    case Some(i) =>
      var r := acc[i := (k, acc[i].1 + v)];
      SumByUpdate(acc, i, (k, acc[i].1 + v), Second);
      assert KeysOf(r) == KeysOf(acc);
      r
    case None =>
      assert k !in KeysOf(acc);
      SumByAppend(acc, [(k, v)], Second);
      acc + [(k, v)]
  }

  /**
   * The per-key sums of `pairs`: one entry per distinct key, in order of first
   * appearance, holding the sum of that key's values; no value is lost or added.
   */
  function GroupSum<K(==,!new)>(pairs: seq<(K, real)>): (groups: seq<(K, real)>)
    ensures KeysOf(groups) == Distinct(KeysOf(pairs))
    ensures forall i :: 0 <= i < |groups| ==> groups[i].1 == SumFor(pairs, groups[i].0)
    ensures SumBy(groups, Second) == SumBy(pairs, Second)
    decreases |pairs|
  {
    if |pairs| == 0 then []
    else
      var init := pairs[..|pairs| - 1];
      var last := pairs[|pairs| - 1];
      assert pairs == init + [last];
      var g := GroupSum(init);
      SumByAppend(init, [last], Second);
      GroupKeysStep(init, last, g);
      GroupSumsStep(init, last, g);
      Accumulate(g, last.0, last.1)
  }

  /** The `i`-th group is keyed by the `i`-th distinct key. */
  lemma GroupKeys<K(!new)>(pairs: seq<(K, real)>)
    ensures forall i :: 0 <= i < |GroupSum(pairs)| ==> GroupSum(pairs)[i].0 == Distinct(KeysOf(pairs))[i]
  {
    var g := GroupSum(pairs);
    assert forall i :: 0 <= i < |g| ==> g[i].0 == KeysOf(g)[i];
  }

  lemma GroupKeysStep<K(!new)>(init: seq<(K, real)>, last: (K, real), g: seq<(K, real)>)
    requires KeysOf(g) == Distinct(KeysOf(init))
    ensures KeysOf(Accumulate(g, last.0, last.1)) == Distinct(KeysOf(init + [last]))
  {
    var ks := KeysOf(init + [last]);
    assert ks[..|ks| - 1] == KeysOf(init);
    assert ks[|ks| - 1] == last.0;
  }

  /** A key that is never listed sums to 0. */
  lemma {:induction false} SumForAbsent<K>(pairs: seq<(K, real)>, k: K)
    requires k !in KeysOf(pairs)
    ensures SumFor(pairs, k) == 0.0
    decreases |pairs|
  {
    if |pairs| > 0 {
      var init := pairs[..|pairs| - 1];
      assert KeysOf(pairs)[|pairs| - 1] == pairs[|pairs| - 1].0;
      assert forall x :: x in KeysOf(init) ==> x in KeysOf(pairs) by {
        forall x | x in KeysOf(init) ensures x in KeysOf(pairs) {
          var j :| 0 <= j < |init| && KeysOf(init)[j] == x;
          assert KeysOf(pairs)[j] == x;
        }
      }
      SumForAbsent(init, k);
    }
  }

  lemma GroupSumsStep<K(!new)>(init: seq<(K, real)>, last: (K, real), g: seq<(K, real)>)
    requires KeysOf(g) == Distinct(KeysOf(init))
    requires forall i :: 0 <= i < |g| ==> g[i].1 == SumFor(init, g[i].0)
    ensures var r := Accumulate(g, last.0, last.1);
      forall i :: 0 <= i < |r| ==> r[i].1 == SumFor(init + [last], r[i].0)
  {
    var r := Accumulate(g, last.0, last.1);
    forall i | 0 <= i < |r|
      ensures r[i].1 == SumFor(init + [last], r[i].0)
    {
      GroupSumStepAt(init, last, g, r, i);
    }
  }

  /** The sum under `k` after one more pair. */
  lemma SumForSnoc<K>(init: seq<(K, real)>, last: (K, real), k: K)
    ensures SumFor(init + [last], k) == SumFor(init, k) + (if last.0 == k then last.1 else 0.0)
  {
    var pairs := init + [last];
    assert pairs[..|pairs| - 1] == init;
    assert pairs[|pairs| - 1] == last;
  }

  lemma GroupSumStepAt<K(!new)>(init: seq<(K, real)>, last: (K, real), g: seq<(K, real)>, r: seq<(K, real)>, i: int)
    requires KeysOf(g) == Distinct(KeysOf(init))
    requires forall i :: 0 <= i < |g| ==> g[i].1 == SumFor(init, g[i].0)
    requires r == Accumulate(g, last.0, last.1) && 0 <= i < |r|
    ensures r[i].1 == SumFor(init + [last], r[i].0)
  {
    SumForSnoc(init, last, r[i].0);
    if i < |g| && g[i].0 == last.0 {
      forall j | 0 <= j < i
        ensures g[j].0 != last.0
      {
        assert KeysOf(g)[j] != KeysOf(g)[i];
      }
      assert r[i] == (last.0, g[i].1 + last.1);
    } else if i < |g| {
      assert r[i] == g[i];
    } else {
      assert last.0 !in KeysOf(g);
      assert r[i] == last;
      SumForAbsent(init, last.0);
    }
  }

  /** A key whose values are all 0 sums to 0. */
  lemma {:induction false} SumForZero<K>(pairs: seq<(K, real)>, k: K)
    requires forall i :: 0 <= i < |pairs| && pairs[i].0 == k ==> pairs[i].1 == 0.0
    ensures SumFor(pairs, k) == 0.0
    decreases |pairs|
  {
    if |pairs| > 0 {
      SumForZero(pairs[..|pairs| - 1], k);
    }
  }

  /** When every value is 1, a key's sum counts its occurrences: between 1 and |pairs| for a listed key. */
  lemma {:induction false} SumForCounts<K>(pairs: seq<(K, real)>, k: K)
    requires forall i :: 0 <= i < |pairs| ==> pairs[i].1 == 1.0
    ensures 0.0 <= SumFor(pairs, k) <= |pairs| as real
    ensures k in KeysOf(pairs) ==> SumFor(pairs, k) >= 1.0
    decreases |pairs|
  {
    if |pairs| > 0 {
      var init := pairs[..|pairs| - 1];
      SumForCounts(init, k);
      if k in KeysOf(pairs) && pairs[|pairs| - 1].0 != k {
        var j :| 0 <= j < |pairs| && KeysOf(pairs)[j] == k;
        assert KeysOf(init)[j] == k;
      }
    }
  }

  /** Summing 1 per element counts the elements. */
  lemma {:induction false} SumOfOnes<K>(pairs: seq<(K, real)>)
    requires forall i :: 0 <= i < |pairs| ==> pairs[i].1 == 1.0
    ensures SumBy(pairs, Second) == |pairs| as real
  {
    if |pairs| > 0 {
      SumOfOnes(pairs[1..]);
    }
  }
}
