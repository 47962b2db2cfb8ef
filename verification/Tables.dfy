/** Sums over the rows of a table, and the lemmas that say how one write changes them. */
module Tables {

  datatype Option<+T> = None | Some(value: T)

  ghost function AnyOf<K(!new)>(s: set<K>): (k: K)
    requires s != {}
    ensures k in s
  {
    var k :| k in s;
    k
  }

  /** The sum of `w(row)` over all rows of `m`. */
  ghost function Sum<K(!new), V>(m: map<K, V>, w: V -> int): int
    decreases |m|
  {
    if m.Keys == {} then 0 else
    var k := AnyOf(m.Keys);
    w(m[k]) + Sum(m - {k}, w)
  }

  /** Erasing a row takes exactly its weight out of the sum. */
  lemma {:induction false} SumErase<K(!new), V>(m: map<K, V>, w: V -> int, k: K)
    requires k in m
    ensures Sum(m, w) == w(m[k]) + Sum(m - {k}, w)
    decreases |m|
  {
    var j := AnyOf(m.Keys);
    if j != k {
      assert k in m - {j} && (m - {j})[k] == m[k];
      assert j in m - {k} && (m - {k})[j] == m[j];
      assert m - {j} - {k} == m - {k} - {j};
      SumErase(m - {j}, w, k);
      SumErase(m - {k}, w, j);
    }
  }

  /** Emplacing a fresh row adds its weight; modifying one replaces its weight. */
  lemma SumWrite<K(!new), V>(m: map<K, V>, w: V -> int, k: K, v: V)
    ensures Sum(m[k := v], w) == Sum(m, w) + w(v) - (if k in m then w(m[k]) else 0)
  {
    SumErase(m[k := v], w, k);
    assert m[k := v] - {k} == m - {k};
    if k in m {
      SumErase(m, w, k);
    } else {
      assert m - {k} == m;
    }
  }

  /** Two weights that agree on every row give the same sum. */
  lemma {:induction false} SumSame<K(!new), V>(m: map<K, V>, w: V -> int, u: V -> int)
    requires forall k :: k in m ==> w(m[k]) == u(m[k])
    ensures Sum(m, w) == Sum(m, u)
    decreases |m|
  {
    if m.Keys != {} {
      var k := AnyOf(m.Keys);
      SumErase(m, u, k);
      SumSame(m - {k}, w, u);
    }
  }

  /** When no row weighs anything, neither does the table. */
  lemma {:induction false} SumZero<K(!new), V>(m: map<K, V>, w: V -> int)
    requires forall k :: k in m ==> w(m[k]) == 0
    ensures Sum(m, w) == 0
    decreases |m|
  {
    if m.Keys != {} { SumZero(m - {AnyOf(m.Keys)}, w); }
  }

  /** When no row has a negative weight, the sum is at least the weight of any one row. */
  lemma {:induction false} SumCovers<K(!new), V>(m: map<K, V>, w: V -> int)
    requires forall k :: k in m ==> 0 <= w(m[k])
    ensures 0 <= Sum(m, w)
    ensures forall k :: k in m ==> w(m[k]) <= Sum(m, w)
    decreases |m|
  {
    if m.Keys != {} {
      var j := AnyOf(m.Keys);
      SumCovers(m - {j}, w);
      forall k | k in m ensures w(m[k]) <= Sum(m, w) {
        if k != j {
          assert k in m - {j};
          assert (m - {j})[k] == m[k];
        }
      }
    }
  }

  /** The key `available_primary_key` hands out, after the callers' bump from 0 to 1:
      one more than the largest key in use. */
  ghost function NextKey(keys: set<nat>): (k: nat)
    ensures k !in keys && 1 <= k
    ensures forall j :: j in keys ==> j < k
    ensures k == 1 || k - 1 in keys
  {
    if keys == {} then 1 else
    var j := AnyOf(keys);
    var rest := NextKey(keys - {j});
    assert forall i :: i in keys ==> i == j || i in keys - {j};
    if rest <= j then j + 1 else rest
  }

  /** The first key of a table. */
  ghost function Least(keys: set<nat>): (k: nat)
    requires keys != {}
    ensures k in keys && forall j :: j in keys ==> k <= j
    decreases |keys|
  {
    var k := AnyOf(keys);
    if keys == {k} then k else
    assert keys == (keys - {k}) + {k} && keys - {k} != {};
    var j := Least(keys - {k});
    if j < k then j else k
  }

  /** `begin()` of a table. */
  method Smallest(keys: set<nat>) returns (k: nat)
    requires keys != {}
    ensures k == Least(keys)
  {
    k :| k in keys;
    var rest := keys - {k};
    while rest != {}
      invariant rest <= keys && k in keys && forall j :: j in keys && j !in rest ==> k <= j
      decreases |rest|
    {
      var j :| j in rest;
      rest := rest - {j};
      if j < k { k := j; }
    }
  }
}
