/**
 * JavaScript's insertion-ordered containers: a `Map`, a plain object used as
 * a dictionary, and a `Set`. Entries are kept as a sequence of pairs in
 * insertion order; setting a key that is already there replaces its value
 * and keeps its place, a new key goes last.
 */
module OrderedMaps {
  import opened Wrappers

  /** The keys, in insertion order. */
  function Keys<K, V>(m: seq<(K, V)>): (ks: seq<K>)
    ensures |ks| == |m|
    ensures forall i :: 0 <= i < |m| ==> ks[i] == m[i].0
  {
    if |m| == 0 then [] else [m[0].0] + Keys(m[1..])
  }

  /** Every key appears once. */
  predicate UniqueKeys<K(==, !new), V>(m: seq<(K, V)>) {
    forall i, j :: 0 <= i < j < |m| ==> m[i].0 != m[j].0
  }

  /** `m.get(k)`, `obj[k]`: the value stored under `k`, if any. */
  function Get<K(==, !new), V>(m: seq<(K, V)>, k: K): (r: Option<V>)
    ensures r.Some? <==> k in Keys(m)
    ensures r.Some? ==> (k, r.value) in m
  {
    if |m| == 0 then None
    else if m[0].0 == k then Some(m[0].1)
    else Get(m[1..], k)
  }

  /** `m.set(k, v)`, `obj[k] = v`. */
  function Put<K(==, !new), V>(m: seq<(K, V)>, k: K, v: V): (r: seq<(K, V)>)
    ensures Keys(r) == if k in Keys(m) then Keys(m) else Keys(m) + [k]
    ensures k !in Keys(m) ==> r == m + [(k, v)]
  {
    if |m| == 0 then [(k, v)]
    else if m[0].0 == k then [(k, v)] + m[1..]
    else [m[0]] + Put(m[1..], k, v)
  }

  /** After `m.set(k, v)`, `k` holds `v` and every other key keeps its value. */
  lemma {:induction false} PutGet<K(!new), V>(m: seq<(K, V)>, k: K, v: V)
    ensures Get(Put(m, k, v), k) == Some(v)
    ensures forall k' :: k' != k ==> Get(Put(m, k, v), k') == Get(m, k')
  {
    if |m| > 0 && m[0].0 != k {
      PutGet(m[1..], k, v);
      var r := Put(m, k, v);
      assert r[0] == m[0] && r[1..] == Put(m[1..], k, v);
    } else if |m| > 0 {
      assert Put(m, k, v)[1..] == m[1..];
    }
  }

  /** `set` never makes a key appear twice. */
  lemma PutUnique<K(!new), V>(m: seq<(K, V)>, k: K, v: V)
    requires UniqueKeys(m)
    ensures UniqueKeys(Put(m, k, v))
  {
    var r := Put(m, k, v);
    var ks := Keys(r);
    forall i, j | 0 <= i < j < |r| ensures r[i].0 != r[j].0 {
      assert ks[i] == r[i].0 && ks[j] == r[j].0;
      if k in Keys(m) {
        assert Keys(m)[i] == m[i].0 && Keys(m)[j] == m[j].0;
      } else if j < |m| {
        assert r[i] == m[i] && r[j] == m[j];
      } else {
        assert r[i] == m[i] && r[j].0 == k;
        assert m[i].0 in Keys(m);
      }
    }
  }

  /** Sets the pairs of `s` one after another into an empty map (also `{...a, ...b}`). */
  function FromPairs<K(==, !new), V>(s: seq<(K, V)>): (r: seq<(K, V)>)
    ensures UniqueKeys(r)
  {
    if |s| == 0 then []
    else
      PutUnique(FromPairs(s[..|s| - 1]), s[|s| - 1].0, s[|s| - 1].1);
      Put(FromPairs(s[..|s| - 1]), s[|s| - 1].0, s[|s| - 1].1)
  }

  /** The value of the last pair of `s` whose key is `k`. */
  function LastValue<K(==, !new), V>(s: seq<(K, V)>, k: K): Option<V> {
    if |s| == 0 then None
    else if s[|s| - 1].0 == k then Some(s[|s| - 1].1)
    else LastValue(s[..|s| - 1], k)
  }

  /** A `Set` filled from `s`: each element once, in order of first insertion. */
  function Distinct<T(==, !new)>(s: seq<T>): (r: seq<T>)
    ensures forall x :: x in r <==> x in s
    ensures forall i, j :: 0 <= i < j < |r| ==> r[i] != r[j]
  {
    if |s| == 0 then []
    else
      var prefix := Distinct(s[..|s| - 1]);
      if s[|s| - 1] in prefix then prefix else prefix + [s[|s| - 1]]
  }

  /** In a map with unique keys, the value stored under a key is the one paired with it. */
  lemma GetOfUnique<K(!new), V>(m: seq<(K, V)>, k: K, v: V)
    requires UniqueKeys(m)
    requires (k, v) in m
    ensures Get(m, k) == Some(v)
  {
    var i :| 0 <= i < |m| && m[i] == (k, v);
    assert Keys(m)[i] == k;
    var j :| 0 <= j < |m| && m[j] == (k, Get(m, k).value);
  }

  /** Adding one more element to a `Set`. */
  lemma DistinctSnoc<T(!new)>(s: seq<T>, x: T)
    ensures Distinct(s + [x]) == if x in Distinct(s) then Distinct(s) else Distinct(s) + [x]
  {
    assert (s + [x])[..|s|] == s;
  }

  /** One more element of `b` appended to `a`, seen by the `Set` filled from them. */
  lemma DistinctAppendStep<T(!new)>(a: seq<T>, b: seq<T>, j: nat)
    requires j < |b|
    ensures Distinct(a + b[..j + 1]) ==
      if b[j] in Distinct(a + b[..j]) then Distinct(a + b[..j]) else Distinct(a + b[..j]) + [b[j]]
  {
    assert a + b[..j + 1] == (a + b[..j]) + [b[j]];
    DistinctSnoc(a + b[..j], b[j]);
  }

  /** On a collision the later pair wins. */
  lemma {:induction false} FromPairsLastWins<K(!new), V>(s: seq<(K, V)>, k: K)
    ensures Get(FromPairs(s), k) == LastValue(s, k)
  {
    if |s| > 0 {
      FromPairsLastWins(s[..|s| - 1], k);
      PutGet(FromPairs(s[..|s| - 1]), s[|s| - 1].0, s[|s| - 1].1);
    }
  }

  /** Keys keep the position of their first insertion. */
  lemma {:induction false} FromPairsKeys<K(!new), V>(s: seq<(K, V)>)
    ensures Keys(FromPairs(s)) == Distinct(Keys(s))
  {
    if |s| > 0 {
      var init, last := s[..|s| - 1], s[|s| - 1];
      var m := FromPairs(init);
      var ks := Keys(init);
      FromPairsKeys(init);
      KeysInit(s);
      calc {
        Keys(FromPairs(s));
        Keys(Put(m, last.0, last.1));
        if last.0 in Keys(m) then Keys(m) else Keys(m) + [last.0];
        { DistinctSnoc(ks, last.0); }
        Distinct(ks + [last.0]);
      }
    }
  }

  lemma KeysInit<K, V>(s: seq<(K, V)>)
    requires |s| > 0
    ensures Keys(s) == Keys(s[..|s| - 1]) + [s[|s| - 1].0]
  {
    var a, b := Keys(s), Keys(s[..|s| - 1]) + [s[|s| - 1].0];
    forall i | 0 <= i < |a| ensures a[i] == b[i] {
      if i < |s| - 1 {
        assert b[i] == Keys(s[..|s| - 1])[i] == s[..|s| - 1][i].0;
      }
    }
  }

  /** Filling a map from pairs whose keys are already distinct gives back the pairs. */
  lemma {:induction false} FromPairsOfUnique<K(!new), V>(s: seq<(K, V)>)
    requires UniqueKeys(s)
    ensures FromPairs(s) == s
  {
    if |s| > 0 {
      var init := s[..|s| - 1];
      FromPairsOfUnique(init);
      assert s[|s| - 1].0 !in Keys(init);
      assert init + [s[|s| - 1]] == s;
    }
  }

  lemma {:induction false} PutPairs<K(!new), V>(m: seq<(K, V)>, k: K, v: V)
    ensures forall p :: p in Put(m, k, v) ==> p in m || p == (k, v)
  {
    if |m| > 0 && m[0].0 != k {
      PutPairs(m[1..], k, v);
      assert Put(m, k, v) == [m[0]] + Put(m[1..], k, v);
    }
  }

  /** Every pair of the filled map is one of the pairs it was filled from. */
  lemma {:induction false} FromPairsPairs<K(!new), V>(s: seq<(K, V)>)
    ensures forall p :: p in FromPairs(s) ==> p in s
  {
    if |s| > 0 {
      FromPairsPairs(s[..|s| - 1]);
      PutPairs(FromPairs(s[..|s| - 1]), s[|s| - 1].0, s[|s| - 1].1);
    }
  }
}
