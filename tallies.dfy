/**
 * Frequency tables: a dictionary from keys to numbers that loops bump one
 * entry at a time, and the sum of its entries.
 */
module Tallies {

  /** `t[k] = (t[k] || 0) + w` */
  function Bump<K>(t: map<K, real>, k: K, w: real): (r: map<K, real>)
    ensures r.Keys == t.Keys + {k}
    ensures r[k] == (if k in t then t[k] else 0.0) + w
    ensures forall j :: j in t && j != k ==> r[j] == t[j]
  {
    t[k := (if k in t then t[k] else 0.0) + w]
  }

  /** The sum of the values of a table. */
  ghost function SumValues<K>(t: map<K, real>): real
    decreases |t.Keys|
  {
    if t == map[] then 0.0
    else
      var k :| k in t;
      t[k] + SumValues(t - {k})
  }

  lemma {:induction false} SumValuesRemove<K>(t: map<K, real>, k: K)
    requires k in t
    ensures SumValues(t) == t[k] + SumValues(t - {k})
    decreases |t.Keys|
  {
    var j :| j in t && SumValues(t) == t[j] + SumValues(t - {j});
    if j != k {
      SumValuesRemove(t - {j}, k);
      SumValuesRemove(t - {k}, j);
      assert t - {j} - {k} == t - {k} - {j};
    }
  }

  /** Bumping an entry by `w` adds `w` to the sum of the table. */
  lemma SumValuesBump<K>(t: map<K, real>, k: K, w: real)
    ensures SumValues(Bump(t, k, w)) == SumValues(t) + w
  {
    var b := Bump(t, k, w);
    SumValuesRemove(b, k);
    if k in t {
      SumValuesRemove(t, k);
      assert b - {k} == t - {k};
    } else {
      assert b - {k} == t;
    }
  }
}
