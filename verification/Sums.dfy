/** Sums over finite maps. */
module Sums {

  ghost function Sum<K>(m: map<K, int>): int
    decreases |m|
  {
    if m == map[] then 0
    else
      var k :| k in m;
      m[k] + Sum(m - {k})
  }

  lemma SumEmpty<K>()
    ensures Sum<K>(map[]) == 0
  {
  }

  /** Any key can be taken out first. */
  lemma {:induction false} SumPick<K>(m: map<K, int>, k: K)
    requires k in m
    ensures Sum(m) == m[k] + Sum(m - {k})
    decreases |m|
  {
    var j :| j in m && Sum(m) == m[j] + Sum(m - {j});
    if j != k {
      SumPick(m - {j}, k);
      SumPick(m - {k}, j);
      assert m - {j} - {k} == m - {k} - {j};
    }
  }

  lemma SumUpdate<K>(m: map<K, int>, k: K, v: int)
    ensures Sum(m[k := v]) == Sum(m) - (if k in m then m[k] else 0) + v
  {
    SumPick(m[k := v], k);
    assert m[k := v] - {k} == m - {k};
    if k in m {
      SumPick(m, k);
    } else {
      assert m - {k} == m;
    }
  }

  lemma SumRemove<K>(m: map<K, int>, k: K)
    ensures Sum(m - {k}) == Sum(m) - (if k in m then m[k] else 0)
  {
    if k in m {
      SumPick(m, k);
    } else {
      assert m - {k} == m;
    }
  }

  lemma {:induction false} SumNonNegative<K>(m: map<K, int>)
    requires forall k :: k in m ==> m[k] >= 0
    ensures Sum(m) >= 0
    ensures forall k :: k in m ==> m[k] <= Sum(m)
    decreases |m|
  {
    if m != map[] {
      forall k | k in m
        ensures 0 <= m[k] <= Sum(m)
      {
        SumPick(m, k);
        SumNonNegative(m - {k});
      }
    }
  }

  ghost function Restricted<K>(m: map<K, int>, s: set<K>): map<K, int> {
    map k | k in m && k in s :: m[k]
  }

  /** A sum splits along any set of keys. */
  lemma {:induction false} SumSplit<K>(m: map<K, int>, s: set<K>)
    ensures Sum(m) == Sum(m - s) + Sum(Restricted(m, s))
    decreases |m|
  {
    hide Sum;
    var inside := Restricted(m, s);
    SumEmpty<K>();
    assert forall k :: k in inside <==> k in m && k in s;
    if inside == map[] {
      assert forall k :: k in m ==> k !in s;
      assert m - s == m;
    } else {
      var k :| k in inside;
      SumPick(m, k);
      SumPick(inside, k);
      SumSplit(m - {k}, s);
      assert (m - {k}) - s == m - s;
      assert Restricted(m - {k}, s) == inside - {k};
    }
  }
}
