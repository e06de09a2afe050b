/**
 * A Python `dict` as the sequence of its items in insertion order. Assigning
 * to a key that is already present overwrites its value in place; a new key
 * goes to the end. The serialiser walks `items()`, so this order is part of
 * the observable behaviour.
 */
module OrderedMaps {
  import opened Wrappers

  type OMap<K, V> = seq<(K, V)>

  predicate HasKey<K(==), V>(m: OMap<K, V>, k: K) {
    exists i :: 0 <= i < |m| && m[i].0 == k
  }

  /** No key occurs twice: every value built by `Put` alone has this shape. */
  predicate UniqueKeys<K(==), V>(m: OMap<K, V>) {
    forall i, j :: 0 <= i < j < |m| ==> m[i].0 != m[j].0
  }

  function KeySet<K, V>(m: OMap<K, V>): set<K> {
    set i | 0 <= i < |m| :: m[i].0
  }

  /** Python's `d.get(k)`: the value of the first item with key `k`. */
  function Get<K(==), V>(m: OMap<K, V>, k: K): (r: Option<V>)
    ensures r.None? <==> !HasKey(m, k)
    ensures r.Some? ==> exists i :: 0 <= i < |m| && m[i] == (k, r.value)
  {
    if m == [] then None
    else if m[0].0 == k then Some(m[0].1)
    else
      var r := Get(m[1..], k);
      assert HasKey(m, k) ==> HasKey(m[1..], k) by {
        if HasKey(m, k) {
          var i :| 0 <= i < |m| && m[i].0 == k;
          assert m[1..][i - 1].0 == k;
        }
      }
      assert r.Some? ==> exists i :: 0 <= i < |m| && m[i] == (k, r.value) by {
        if r.Some? {
          var i :| 0 <= i < |m[1..]| && m[1..][i] == (k, r.value);
          assert m[i + 1] == (k, r.value);
        }
      }
      r
  }

  /** Python's `d[k] = v`. */
  function Put<K(==), V>(m: OMap<K, V>, k: K, v: V): (r: OMap<K, V>)
  {
    if m == [] then [(k, v)]
    else if m[0].0 == k then [(k, v)] + m[1..]
    else [m[0]] + Put(m[1..], k, v)
  }

  /** After `d[k] = v`, `k` maps to `v` and every other key keeps its value. */
  lemma {:induction false} PutGet<K, V>(m: OMap<K, V>, k: K, v: V, j: K)
    ensures Get(Put(m, k, v), k) == Some(v)
    ensures j != k ==> Get(Put(m, k, v), j) == Get(m, j)
  {
    if m != [] && m[0].0 != k {
      PutGet(m[1..], k, v, j);
      assert Put(m, k, v)[1..] == Put(m[1..], k, v);
    }
  }

  lemma KeySetCons<K, V>(x: (K, V), t: OMap<K, V>)
    ensures KeySet([x] + t) == {x.0} + KeySet(t)
  {
    var r := [x] + t;
    forall y | y in KeySet(r) ensures y in {x.0} + KeySet(t) {
      var i :| 0 <= i < |r| && r[i].0 == y;
      if i > 0 { assert r[i] == t[i - 1]; }
    }
    assert r[0] == x;
    forall y | y in KeySet(t) ensures y in KeySet(r) {
      var i :| 0 <= i < |t| && t[i].0 == y;
      assert r[i + 1] == t[i];
    }
  }

  lemma HasKeyInKeySet<K, V>(m: OMap<K, V>, k: K)
    ensures HasKey(m, k) <==> k in KeySet(m)
  {
  }

  /** Assignment keeps every key where it was and adds a new key at the end. */
  lemma {:induction false} PutShape<K, V>(m: OMap<K, V>, k: K, v: V)
    ensures HasKey(m, k) ==> |Put(m, k, v)| == |m| && forall i :: 0 <= i < |m| ==> Put(m, k, v)[i].0 == m[i].0
    ensures !HasKey(m, k) ==> Put(m, k, v) == m + [(k, v)]
    ensures KeySet(Put(m, k, v)) == KeySet(m) + {k}
  {
    if m == [] {
      KeySetCons((k, v), []);
    } else {
      assert m == [m[0]] + m[1..];
      KeySetCons(m[0], m[1..]);
      HasKeyInKeySet(m, k);
      HasKeyInKeySet(m[1..], k);
      if m[0].0 == k {
        KeySetCons((k, v), m[1..]);
      } else {
        PutShape(m[1..], k, v);
        KeySetCons(m[0], Put(m[1..], k, v));
      }
    }
  }

  /** Assignment never duplicates a key. */
  lemma {:induction false} PutUnique<K, V>(m: OMap<K, V>, k: K, v: V)
    requires UniqueKeys(m)
    ensures UniqueKeys(Put(m, k, v))
  {
    if m != [] && m[0].0 != k {
      var t := Put(m[1..], k, v);
      var r := [m[0]] + t;
      PutUnique(m[1..], k, v);
      PutShape(m[1..], k, v);
      assert m[0].0 !in KeySet(t) by {
        assert forall i :: 0 <= i < |m[1..]| ==> m[1..][i] == m[i + 1];
      }
      forall i, j | 0 <= i < j < |r| ensures r[i].0 != r[j].0 {
        if i == 0 {
          assert r[j] == t[j - 1];
        } else {
          assert r[i] == t[i - 1] && r[j] == t[j - 1];
        }
      }
    }
  }

  /** Every item after `d[k] = v` is the new item or one that was there before. */
  lemma {:induction false} PutItems<K, V>(m: OMap<K, V>, k: K, v: V)
    ensures forall i :: 0 <= i < |Put(m, k, v)| ==> Put(m, k, v)[i] == (k, v) || Put(m, k, v)[i] in m
  {
    if m != [] && m[0].0 != k {
      PutItems(m[1..], k, v);
      var t := Put(m[1..], k, v);
      forall i | 0 <= i < |Put(m, k, v)| ensures Put(m, k, v)[i] == (k, v) || Put(m, k, v)[i] in m {
        if i > 0 {
          assert Put(m, k, v)[i] == t[i - 1];
          assert t[i - 1] in m[1..] ==> t[i - 1] in m;
        }
      }
    } else if m != [] {
      forall i | 0 <= i < |Put(m, k, v)| ensures Put(m, k, v)[i] == (k, v) || Put(m, k, v)[i] in m {
        if i > 0 {
          assert Put(m, k, v)[i] == m[i];
        }
      }
    }
  }

  /** Assigning the same value twice is the same as assigning it once. */
  lemma {:induction false} PutTwice<K, V>(m: OMap<K, V>, k: K, v: V)
    ensures Put(Put(m, k, v), k, v) == Put(m, k, v)
  {
    if m != [] && m[0].0 != k {
      PutTwice(m[1..], k, v);
      var t := Put(m[1..], k, v);
      assert Put(m, k, v) == [m[0]] + t;
      assert ([m[0]] + t)[1..] == t;
    } else if m != [] {
      assert ([(k, v)] + m[1..])[1..] == m[1..];
    }
  }
}
