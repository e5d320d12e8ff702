/** Sums over finite maps, in whatever order. */
module Sums {

  ghost function SumOf<T>(m: map<T, int>): int {
    if m == map[] then 0
    else
      var k :| k in m;
      m[k] + SumOf(m - {k})
  }

  /** Any key may be taken out first. */
  lemma {:induction false} TakeOut<T>(m: map<T, int>, k: T)
    requires k in m
    ensures SumOf(m) == m[k] + SumOf(m - {k})
    decreases m
  {
    var first :| first in m && SumOf(m) == m[first] + SumOf(m - {first});
    if first != k {
      TakeOut(m - {first}, k);
      TakeOut(m - {k}, first);
      assert m - {first} - {k} == m - {k} - {first};
    }
  }

  lemma PutIn<T>(m: map<T, int>, k: T, v: int)
    ensures SumOf(m[k := v]) == SumOf(m - {k}) + v
    ensures k in m ==> SumOf(m[k := v]) == SumOf(m) - m[k] + v
    ensures k !in m ==> SumOf(m[k := v]) == SumOf(m) + v
  {
    TakeOut(m[k := v], k);
    assert m[k := v] - {k} == m - {k};
    if k in m {
      TakeOut(m, k);
    } else {
      assert m - {k} == m;
    }
  }

  lemma {:induction false} SumSplits<T>(m: map<T, int>, a: map<T, int>, b: map<T, int>)
    requires a.Keys !! b.Keys && m == a + b
    ensures SumOf(m) == SumOf(a) + SumOf(b)
    decreases b
  {
    if b == map[] {
      assert m == a;
    } else {
      var k :| k in b;
      TakeOut(m, k);
      TakeOut(b, k);
      assert m - {k} == a + (b - {k});
      SumSplits(m - {k}, a, b - {k});
    }
  }

  function Total(values: seq<int>): int {
    if values == [] then 0 else values[0] + Total(values[1..])
  }

  lemma {:induction false} TotalAppends(a: seq<int>, b: seq<int>)
    ensures Total(a + b) == Total(a) + Total(b)
  {
    if a == [] {
      assert a + b == b;
    } else {
      TotalAppends(a[1..], b);
      assert (a + b)[1..] == a[1..] + b;
    }
  }

  /** A sum over a map is the sum over any list of its keys without repeats. */
  lemma {:induction false} SumOfKeys<T>(m: map<T, int>, keys: seq<T>)
    requires m.Keys == (set k | k in keys) && forall i, j :: 0 <= i < j < |keys| ==> keys[i] != keys[j]
    ensures SumOf(m) == Total(seq(|keys|, i requires 0 <= i < |keys| && keys[i] in m => m[keys[i]]))
    decreases |keys|
  {
    if keys == [] {
      assert m == map[];
    } else {
      var rest := m - {keys[0]};
      TakeOut(m, keys[0]);
      SumOfKeys(rest, keys[1..]);
      var values := seq(|keys|, i requires 0 <= i < |keys| && keys[i] in m => m[keys[i]]);
      assert values[1..] == seq(|keys[1..]|, i
                                requires 0 <= i < |keys[1..]| && keys[1..][i] in rest => rest[keys[1..][i]]);
    }
  }
}
