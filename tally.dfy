/**
 * Counting occurrences of keys, as the `grouped[key] = (grouped[key] || 0) + 1`
 * loops of the statistics aggregation do.
 */
module Counting {

  /** The number of occurrences of `k` in `ks`. */
  function Count<K(==)>(ks: seq<K>, k: K): nat {
    if ks == [] then 0
    else Count(ks[..|ks| - 1], k) + (if ks[|ks| - 1] == k then 1 else 0)
  }

  /** The dictionary built by folding the keys left to right, starting from `{}`. */
  function Tally<K(==)>(ks: seq<K>): map<K, nat> {
    if ks == [] then map[]
    else
      var m := Tally(ks[..|ks| - 1]);
      var k := ks[|ks| - 1];
      m[k := (if k in m then m[k] else 0) + 1]
  }

  /** The sum of the values of a dictionary. */
  ghost function SumValues<K>(m: map<K, nat>): nat
    decreases |m.Keys|
  {
    if m == map[] then 0
    else
      var k :| k in m;
      assert (m - {k}).Keys == m.Keys - {k};
      m[k] + SumValues(m - {k})
  }

  /** The sum does not depend on which key is taken out first. */
  lemma {:induction false} SumValuesRemove<K>(m: map<K, nat>, k: K)
    requires k in m
    ensures SumValues(m) == m[k] + SumValues(m - {k})
    decreases |m.Keys|
  {
    var j :| j in m && SumValues(m) == m[j] + SumValues(m - {j});
    if j != k {
      assert (m - {j}).Keys == m.Keys - {j};
      assert (m - {k}).Keys == m.Keys - {k};
      SumValuesRemove(m - {j}, k);
      SumValuesRemove(m - {k}, j);
      assert m - {j} - {k} == m - {k} - {j};
    }
  }

  lemma SumValuesUpdate<K>(m: map<K, nat>, k: K, v: nat)
    ensures SumValues(m[k := v]) == SumValues(m) - (if k in m then m[k] else 0) + v
  {
    var m' := m[k := v];
    SumValuesRemove(m', k);
    assert m' - {k} == m - {k};
    if k in m {
      SumValuesRemove(m, k);
    } else {
      assert m - {k} == m;
    }
  }

  /** Each key is present exactly when it occurs, with its number of occurrences. */
  lemma {:induction false} TallyCounts<K>(ks: seq<K>)
    ensures forall k :: k in Tally(ks) <==> Count(ks, k) > 0
    ensures forall k :: k in Tally(ks) ==> Tally(ks)[k] == Count(ks, k)
  {
    if ks != [] {
      TallyCounts(ks[..|ks| - 1]);
    }
  }

  /** The counts add up to the number of keys folded. */
  lemma {:induction false} TallySum<K>(ks: seq<K>)
    ensures SumValues(Tally(ks)) == |ks|
  {
    if ks != [] {
      var m := Tally(ks[..|ks| - 1]);
      var k := ks[|ks| - 1];
      TallySum(ks[..|ks| - 1]);
      SumValuesUpdate(m, k, (if k in m then m[k] else 0) + 1);
    }
  }

  lemma {:induction false} CountMember<K>(ks: seq<K>, k: K)
    ensures Count(ks, k) > 0 <==> k in ks
  {
    if ks != [] {
      CountMember(ks[..|ks| - 1], k);
      assert ks == ks[..|ks| - 1] + [ks[|ks| - 1]];
    }
  }
}
