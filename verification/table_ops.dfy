/** The row-set operations every wallet table is built from, over a map from primary key to
    row: a batch insert that refuses a used or repeated key, a batch delete, and a batch of
    targeted updates that each rewrite one row in place. */
module TableOps {
  import opened Results

  /** The keys a batch names. */
  function KeysOf<K(==), R>(rows: seq<R>, keyOf: R -> K): set<K> {
    set i | 0 <= i < |rows| :: keyOf(rows[i])
  }

  predicate DistinctKeys<K(==), R>(rows: seq<R>, keyOf: R -> K) {
    forall i, j | 0 <= i < j < |rows| :: keyOf(rows[i]) != keyOf(rows[j])
  }

  /** Every stored row sits under its own primary key. */
  predicate WellKeyed<K(==), R>(m: map<K, R>, keyOf: R -> K) {
    forall k | k in m :: keyOf(m[k]) == k
  }

  lemma KeysOfCons<K, R>(rows: seq<R>, keyOf: R -> K)
    requires |rows| > 0
    ensures KeysOf(rows, keyOf) == {keyOf(rows[0])} + KeysOf(rows[1..], keyOf)
  {
    var tail := rows[1..];
    forall k | k in KeysOf(rows, keyOf)
      ensures k in {keyOf(rows[0])} + KeysOf(tail, keyOf)
    {
      var i :| 0 <= i < |rows| && keyOf(rows[i]) == k;
      if i > 0 {
        assert keyOf(tail[i - 1]) == k;
      }
    }
    forall k | k in KeysOf(tail, keyOf)
      ensures k in KeysOf(rows, keyOf)
    {
      var i :| 0 <= i < |tail| && keyOf(tail[i]) == k;
      assert keyOf(rows[i + 1]) == k;
    }
  }

  /** Inserts the rows in order. It refuses the whole batch (`None`) when a row's key is already
      stored or repeats an earlier row's key, the way a primary-key constraint does. */
  function Insert<K(==), R>(m: map<K, R>, rows: seq<R>, keyOf: R -> K): (r: Option<map<K, R>>)
    ensures r.Some? <==> DistinctKeys(rows, keyOf) && KeysOf(rows, keyOf) !! m.Keys
    ensures r.Some? ==> r.value.Keys == m.Keys + KeysOf(rows, keyOf)
    ensures r.Some? ==> forall k | k in m :: r.value[k] == m[k]
    ensures r.Some? ==> forall i | 0 <= i < |rows| :: r.value[keyOf(rows[i])] == rows[i]
    ensures r.Some? && WellKeyed(m, keyOf) ==> WellKeyed(r.value, keyOf)
    decreases |rows|
  {
    if |rows| == 0 then Some(m)
    else
      var k := keyOf(rows[0]);
      KeysOfCons(rows, keyOf);
      if k in m then None
      else
        var r := Insert(m[k := rows[0]], rows[1..], keyOf);
        assert r.Some? ==> forall i | 1 <= i < |rows| :: r.value[keyOf(rows[i])] == rows[i] by {
          if r.Some? {
            forall i | 1 <= i < |rows| ensures r.value[keyOf(rows[i])] == rows[i] {
              assert rows[1..][i - 1] == rows[i];
            }
          }
        }
        assert DistinctKeys(rows, keyOf) <==> DistinctKeys(rows[1..], keyOf) && k !in KeysOf(rows[1..], keyOf) by {
          if DistinctKeys(rows[1..], keyOf) && k !in KeysOf(rows[1..], keyOf) {
            forall i, j | 0 <= i < j < |rows| ensures keyOf(rows[i]) != keyOf(rows[j]) {
              assert rows[j] == rows[1..][j - 1];
              if i > 0 {
                assert rows[i] == rows[1..][i - 1];
              }
            }
          }
          if DistinctKeys(rows, keyOf) {
            forall i, j | 0 <= i < j < |rows| - 1
              ensures keyOf(rows[1..][i]) != keyOf(rows[1..][j])
            {
              assert rows[1..][i] == rows[i + 1] && rows[1..][j] == rows[j + 1];
            }
            forall j | 0 <= j < |rows| - 1 ensures keyOf(rows[1..][j]) != k {
              assert rows[1..][j] == rows[j + 1];
            }
          }
        }
        r
  }

  /** Removes the listed keys; keys that are not stored are ignored. */
  function Remove<K(==), R>(m: map<K, R>, keys: seq<K>): (r: map<K, R>)
    ensures r.Keys == m.Keys - set k | k in keys
    ensures forall k | k in r :: r[k] == m[k]
  {
    m - set k | k in keys
  }

  /** Applies each entry to the row its target names, in order; an entry whose target is not
      stored changes nothing, like an SQL UPDATE that matches no row. */
  function Update<K(==), R, E>(m: map<K, R>, entries: seq<E>, target: E -> K, apply: (R, E) -> R): (r: map<K, R>)
    ensures r.Keys == m.Keys
    ensures forall k | k in m && k !in KeysOf(entries, target) :: r[k] == m[k]
    ensures DistinctKeys(entries, target) ==>
      forall i | 0 <= i < |entries| && target(entries[i]) in m ::
        r[target(entries[i])] == apply(m[target(entries[i])], entries[i])
    decreases |entries|
  {
    if |entries| == 0 then m
    else
      var k := target(entries[0]);
      var m' := if k in m then m[k := apply(m[k], entries[0])] else m;
      KeysOfCons(entries, target);
      var r := Update(m', entries[1..], target, apply);
      assert DistinctKeys(entries, target) ==>
        forall i | 0 <= i < |entries| && target(entries[i]) in m ::
          r[target(entries[i])] == apply(m[target(entries[i])], entries[i]) by {
        if DistinctKeys(entries, target) {
          assert DistinctKeys(entries[1..], target) by {
            forall i, j | 0 <= i < j < |entries| - 1
              ensures target(entries[1..][i]) != target(entries[1..][j])
            {
              assert entries[1..][i] == entries[i + 1] && entries[1..][j] == entries[j + 1];
            }
          }
          forall i | 0 <= i < |entries| && target(entries[i]) in m
            ensures r[target(entries[i])] == apply(m[target(entries[i])], entries[i])
          {
            if i == 0 {
              assert k !in KeysOf(entries[1..], target) by {
                forall j | 0 <= j < |entries| - 1 ensures target(entries[1..][j]) != k {
                  assert entries[1..][j] == entries[j + 1];
                }
              }
            } else {
              assert entries[1..][i - 1] == entries[i];
            }
          }
        }
      }
      r
  }

  /** An update whose entries never change some projection of a row leaves that projection of
      every stored row as it was, whatever the entries and however often a row is named. */
  lemma {:induction false} UpdatePreserves<K, R, E, P>(m: map<K, R>, entries: seq<E>, target: E -> K, apply: (R, E) -> R, proj: R -> P)
    requires forall x, e :: proj(apply(x, e)) == proj(x)
    ensures forall k | k in m :: proj(Update(m, entries, target, apply)[k]) == proj(m[k])
    decreases |entries|
  {
    if |entries| > 0 {
      var k := target(entries[0]);
      var m' := if k in m then m[k := apply(m[k], entries[0])] else m;
      UpdatePreserves(m', entries[1..], target, apply, proj);
    }
  }
}
