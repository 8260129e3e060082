/** Vocabulary shared by every component: identifiers, optional values and sums over tables. */
module Prelude {

  /** A UUID. Only equality and, for the row lock order, the ordering matter. */
  type Id = nat

  datatype Option<+T> = None | Some(value: T)

  /** How one database transaction ends. After CommitUnknown it is applied, but the caller sees an error. */
  datatype Answer = Commits | CommitUnknown | Aborts

  /** Sum of the values of a table column. */
  ghost function Total(m: map<Id, int>): (t: int)
    ensures (forall k :: k in m ==> m[k] >= 0) ==> t >= 0
    decreases |m|
  {
    if m == map[] then 0
    else
      var k := PickKey(m);
      m[k] + Total(m - {k})
  }

  ghost function PickKey(m: map<Id, int>): (k: Id)
    requires m != map[]
    ensures k in m
  {
    assert m.Keys != {};
    var k :| k in m.Keys;
    k
  }

  /** Any row may be taken out of a sum first. */
  lemma {:induction false} TotalExtract(m: map<Id, int>, k: Id)
    requires k in m
    ensures Total(m) == m[k] + Total(m - {k})
    decreases |m|
  {
    var k0 := PickKey(m);
    if k0 != k {
      assert m - {k0} - {k} == m - {k} - {k0};
      TotalExtract(m - {k0}, k);
      TotalExtract(m - {k}, k0);
    }
  }

  /** Writing one row changes a sum by the change of that row. */
  lemma TotalWrite(m: map<Id, int>, k: Id, v: int)
    ensures Total(m[k := v]) == Total(m) + v - (if k in m then m[k] else 0)
  {
    TotalExtract(m[k := v], k);
    assert m[k := v] - {k} == m - {k};
    if k in m {
      TotalExtract(m, k);
    } else {
      assert m - {k} == m;
    }
  }
}
