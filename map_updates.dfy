/**
 * A Python dictionary filled by a loop of `d[k] = v` assignments: the
 * override loop, the input/output mappings and the word-vector dictionary
 * are all built this way.
 */
module MapUpdates {

  /** The dictionary after assigning each pair of `kvs` in order, starting from `m`. */
  function Updates<K, V>(m: map<K, V>, kvs: seq<(K, V)>): map<K, V>
    decreases |kvs|
  {
    if kvs == [] then m
    else Updates(m, kvs[..|kvs| - 1])[kvs[|kvs| - 1].0 := kvs[|kvs| - 1].1]
  }

  /** The keys assigned so far: one loop step adds one pair. */
  lemma UpdatesSnoc<K, V>(m: map<K, V>, kvs: seq<(K, V)>, kv: (K, V))
    ensures Updates(m, kvs + [kv]) == Updates(m, kvs)[kv.0 := kv.1]
  {
    assert (kvs + [kv])[..|kvs|] == kvs;
  }

  /** The keys of the result are the starting keys and every key assigned. */
  lemma {:induction false} UpdatesKeys<K, V>(m: map<K, V>, kvs: seq<(K, V)>)
    ensures Updates(m, kvs).Keys == m.Keys + (set j | 0 <= j < |kvs| :: kvs[j].0)
    decreases |kvs|
  {
    if kvs != [] {
      var init := kvs[..|kvs| - 1];
      UpdatesKeys(m, init);
      var later := set j | 0 <= j < |kvs| :: kvs[j].0;
      var earlier := set j | 0 <= j < |init| :: init[j].0;
      assert later == earlier + {kvs[|kvs| - 1].0} by {
        forall x | x in later ensures x in earlier + {kvs[|kvs| - 1].0} {
          var j :| 0 <= j < |kvs| && kvs[j].0 == x;
          if j < |init| {
            assert init[j] == kvs[j];
          }
        }
        forall x | x in earlier ensures x in later {
          var j :| 0 <= j < |init| && init[j].0 == x;
          assert kvs[j] == init[j];
        }
      }
    }
  }

  /** The last assignment to a key wins: a key keeps the value of its last pair. */
  lemma {:induction false} UpdatesLastWins<K, V>(m: map<K, V>, kvs: seq<(K, V)>, i: nat)
    requires i < |kvs|
    requires forall j :: i < j < |kvs| ==> kvs[j].0 != kvs[i].0
    ensures kvs[i].0 in Updates(m, kvs) && Updates(m, kvs)[kvs[i].0] == kvs[i].1
    decreases |kvs|
  {
    if i < |kvs| - 1 {
      var init := kvs[..|kvs| - 1];
      assert init[i] == kvs[i];
      forall j | i < j < |init| ensures init[j].0 != init[i].0 {
        assert init[j] == kvs[j];
      }
      UpdatesLastWins(m, init, i);
    }
  }

  /** A key no pair assigns keeps its starting value, or stays absent. */
  lemma {:induction false} UpdatesUntouched<K, V>(m: map<K, V>, kvs: seq<(K, V)>, k: K)
    requires forall j :: 0 <= j < |kvs| ==> kvs[j].0 != k
    ensures k in Updates(m, kvs) <==> k in m
    ensures k in m ==> Updates(m, kvs)[k] == m[k]
    decreases |kvs|
  {
    if kvs != [] {
      var init := kvs[..|kvs| - 1];
      forall j | 0 <= j < |init| ensures init[j].0 != k {
        assert init[j] == kvs[j];
      }
      UpdatesUntouched(m, init, k);
    }
  }

  /** Assigning `n` pairs adds at most `n` keys. */
  lemma {:induction false} UpdatesSize<K, V>(m: map<K, V>, kvs: seq<(K, V)>)
    ensures |Updates(m, kvs).Keys| <= |m.Keys| + |kvs|
    decreases |kvs|
  {
    if kvs != [] {
      var init := kvs[..|kvs| - 1];
      UpdatesSize(m, init);
      var before := Updates(m, init);
      var k := kvs[|kvs| - 1].0;
      assert Updates(m, kvs).Keys == before.Keys + {k};
    }
  }

  /** When each pair's key is `f` of the matching element of `xs`, the keys assigned are the image of `xs`. */
  lemma KeysAsImage<K, V, T>(kvs: seq<(K, V)>, xs: seq<T>, f: T -> K)
    requires |kvs| == |xs|
    requires forall j :: 0 <= j < |kvs| ==> kvs[j].0 == f(xs[j])
    ensures (set j | 0 <= j < |kvs| :: kvs[j].0) == (set j | 0 <= j < |xs| :: f(xs[j]))
  {
    var named := set j | 0 <= j < |kvs| :: kvs[j].0;
    var image := set j | 0 <= j < |xs| :: f(xs[j]);
    forall x | x in named ensures x in image {
      var j :| 0 <= j < |kvs| && kvs[j].0 == x;
      assert f(xs[j]) == x;
    }
    forall x | x in image ensures x in named {
      var j :| 0 <= j < |xs| && f(xs[j]) == x;
      assert kvs[j].0 == x;
    }
  }
}
