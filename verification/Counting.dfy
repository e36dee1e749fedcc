/** Counting the tasks in a phase, and summing a map of counters. */
module Counting {

  function Bit(b: bool): nat { if b then 1 else 0 }

  function Count<T>(xs: seq<T>, p: T -> bool): nat
  {
    if xs == [] then 0 else Bit(p(xs[0])) + Count(xs[1..], p)
  }

  lemma {:induction false} CountAppend<T>(xs: seq<T>, y: T, p: T -> bool)
    ensures Count(xs + [y], p) == Count(xs, p) + Bit(p(y))
  {
    if xs == [] {
      assert xs + [y] == [y];
    } else {
      assert (xs + [y])[1..] == xs[1..] + [y];
      CountAppend(xs[1..], y, p);
    }
  }

  /** Moving one task from one phase to another changes the count by what that task was and is. */
  lemma {:induction false} CountUpdate<T>(xs: seq<T>, i: nat, y: T, p: T -> bool)
    requires i < |xs|
    ensures Count(xs[i := y], p) + Bit(p(xs[i])) == Count(xs, p) + Bit(p(y))
  {
    if i == 0 {
      assert xs[i := y][1..] == xs[1..];
    } else {
      assert xs[i := y][1..] == xs[1..][i - 1 := y];
      CountUpdate(xs[1..], i - 1, y, p);
    }
  }

  lemma {:induction false} CountPositive<T>(xs: seq<T>, p: T -> bool)
    ensures Count(xs, p) > 0 <==> exists i :: 0 <= i < |xs| && p(xs[i])
  {
    if xs != [] {
      CountPositive(xs[1..], p);
      if Count(xs[1..], p) > 0 {
        var i :| 0 <= i < |xs[1..]| && p(xs[1..][i]);
        assert p(xs[i + 1]);
      }
      forall i | 0 < i < |xs| && p(xs[i]) ensures Count(xs, p) > 0 {
        assert p(xs[1..][i - 1]);
      }
    }
  }

  lemma {:induction false} CountSum<T>(xs: seq<T>, p: T -> bool, q: T -> bool, r: T -> bool)
    requires forall i :: 0 <= i < |xs| ==> Bit(p(xs[i])) == Bit(q(xs[i])) + Bit(r(xs[i]))
    ensures Count(xs, p) == Count(xs, q) + Count(xs, r)
  {
    if xs != [] {
      assert forall i :: 0 <= i < |xs[1..]| ==> xs[1..][i] == xs[i + 1];
      CountSum(xs[1..], p, q, r);
    }
  }

  // ---- counters keyed by user or by IP ----

  function Get<K>(m: map<K, nat>, k: K): nat { if k in m then m[k] else 0 }

  function Inc<K>(m: map<K, nat>, k: K): map<K, nat> { m[k := Get(m, k) + 1] }

  /** One release: the last one removes the entry. */
  function Dec<K>(m: map<K, nat>, k: K): map<K, nat>
  {
    if k !in m then m else if m[k] <= 1 then m - {k} else m[k := m[k] - 1]
  }

  ghost function Sum<K>(m: map<K, nat>): nat
  {
    if m == map[] then 0
    else
      var k :| k in m;
      m[k] + Sum(m - {k})
  }

  /** The sum does not depend on the order in which entries are taken out. */
  lemma {:induction false} SumTake<K>(m: map<K, nat>, k: K)
    requires k in m
    ensures Sum(m) == m[k] + Sum(m - {k})
    decreases |m|
  {
    var j :| j in m && Sum(m) == m[j] + Sum(m - {j});
    if j != k {
      assert |m - {j}| < |m| by { assert (m - {j}).Keys == m.Keys - {j}; }
      assert |m - {k}| < |m| by { assert (m - {k}).Keys == m.Keys - {k}; }
      SumTake(m - {j}, k);
      SumTake(m - {k}, j);
      assert m - {j} - {k} == m - {k} - {j};
    }
  }

  lemma SumInc<K>(m: map<K, nat>, k: K)
    ensures Sum(Inc(m, k)) == Sum(m) + 1
  {
    SumTake(Inc(m, k), k);
    assert Inc(m, k) - {k} == m - {k};
    if k in m { SumTake(m, k); } else { assert m - {k} == m; }
  }

  lemma SumDec<K>(m: map<K, nat>, k: K)
    requires k in m && m[k] > 0
    ensures Sum(Dec(m, k)) == Sum(m) - 1
  {
    SumTake(m, k);
    if m[k] > 1 {
      SumTake(Dec(m, k), k);
      assert Dec(m, k) - {k} == m - {k};
    }
  }
}
