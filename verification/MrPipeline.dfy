/** The data path of MapReduce: the worker's split, group and reduce, and the sequential program that
    sorts and scans. Both print one line per key, and the lines are the same. */
module MrPipeline {
  import opened Linearizability

  datatype KeyValue<K, V> = KeyValue(key: K, value: V)
  datatype Line<K, O> = Line(key: K, output: O)

  // ---------- what the output should be ----------

  function KeysOf<K(==), V>(kvs: seq<KeyValue<K, V>>): set<K> {
    if kvs == [] then {} else KeysOf(kvs[..|kvs| - 1]) + {kvs[|kvs| - 1].key}
  }

  function ValuesOf<K(==), V>(kvs: seq<KeyValue<K, V>>, k: K): seq<V> {
    if kvs == [] then []
    else
      var kv := kvs[|kvs| - 1];
      ValuesOf(kvs[..|kvs| - 1], k) + if kv.key == k then [kv.value] else []
  }

  /** One line for each of the keys. */
  ghost function Lines<K, V, O>(keys: set<K>, kvs: seq<KeyValue<K, V>>, reducef: (K, seq<V>) -> O): set<Line<K, O>> {
    set k <- keys :: Line(k, reducef(k, ValuesOf(kvs, k)))
  }

  /** The meaning of a MapReduce job on the intermediate pairs `kvs`. */
  ghost function Expected<K, V, O>(kvs: seq<KeyValue<K, V>>, reducef: (K, seq<V>) -> O): set<Line<K, O>> {
    Lines(KeysOf(kvs), kvs, reducef)
  }

  ghost predicate OrderInsensitive<K(!new), V(!new), O>(reducef: (K, seq<V>) -> O) {
    forall k, a, b {:trigger reducef(k, a), reducef(k, b)} ::
      multiset(a) == multiset(b) ==> reducef(k, a) == reducef(k, b)
  }

  function Flat<T>(parts: seq<seq<T>>): seq<T> {
    if parts == [] then [] else Flat(parts[..|parts| - 1]) + parts[|parts| - 1]
  }

  /** What the map function gives for each input file. */
  function MapOutputs<I, K, V>(inputs: seq<I>, mapf: I -> seq<KeyValue<K, V>>): seq<seq<KeyValue<K, V>>> {
    seq(|inputs|, i requires 0 <= i < |inputs| => mapf(inputs[i]))
  }

  /** The pairs that go to reduce task `r`. */
  function Bucket<K, V>(kvs: seq<KeyValue<K, V>>, hash: K -> nat, n: nat, r: nat): seq<KeyValue<K, V>>
    requires n > 0
  {
    if kvs == [] then []
    else
      var kv := kvs[|kvs| - 1];
      Bucket(kvs[..|kvs| - 1], hash, n, r) + if hash(kv.key) % n == r then [kv] else []
  }

  // ---------- pairs, keys and values ----------

  lemma {:induction false} KeysHaveValues<K, V>(kvs: seq<KeyValue<K, V>>, k: K)
    ensures k in KeysOf(kvs) <==> ValuesOf(kvs, k) != []
  {
    if kvs != [] { KeysHaveValues(kvs[..|kvs| - 1], k); }
  }

  lemma {:induction false} ValuesConcat<K, V>(a: seq<KeyValue<K, V>>, b: seq<KeyValue<K, V>>, k: K)
    ensures ValuesOf(a + b, k) == ValuesOf(a, k) + ValuesOf(b, k)
    decreases |b|
  {
    if b == [] {
      assert a + b == a;
    } else {
      var n := |b| - 1;
      ValuesConcat(a, b[..n], k);
      assert (a + b)[..|a + b| - 1] == a + b[..n];
    }
  }

  lemma {:induction false} KeysConcat<K, V>(a: seq<KeyValue<K, V>>, b: seq<KeyValue<K, V>>)
    ensures KeysOf(a + b) == KeysOf(a) + KeysOf(b)
    decreases |b|
  {
    if b == [] {
      assert a + b == a;
    } else {
      var n := |b| - 1;
      KeysConcat(a, b[..n]);
      assert (a + b)[..|a + b| - 1] == a + b[..n];
    }
  }

  lemma RemoveOne<T>(front: seq<T>, before: seq<T>, x: T, after: seq<T>)
    requires multiset(front + [x]) == multiset(before + [x] + after)
    ensures multiset(front) == multiset(before + after)
  {
    assert multiset(front) == multiset(front + [x]) - multiset{x};
    assert multiset(before + after) == multiset(before + [x] + after) - multiset{x};
  }

  lemma OneMoreValue<K, V>(before: seq<KeyValue<K, V>>, kv: KeyValue<K, V>, after: seq<KeyValue<K, V>>, k: K)
    ensures multiset(ValuesOf(before + [kv] + after, k)) ==
      multiset(ValuesOf(before + after, k)) + multiset(ValuesOf([kv], k))
  {
    ValuesConcat(before, after, k);
    ValuesConcat(before + [kv], after, k);
    ValuesConcat(before, [kv], k);
  }

  lemma {:induction false} PermutedValues<K, V>(a: seq<KeyValue<K, V>>, b: seq<KeyValue<K, V>>, k: K)
    requires multiset(a) == multiset(b)
    ensures multiset(ValuesOf(a, k)) == multiset(ValuesOf(b, k))
    decreases |a|
  {
    if a == [] {
      assert |b| == |multiset(b)| == 0;
    } else {
      var front, kv := a[..|a| - 1], a[|a| - 1];
      assert a == front + [kv];
      assert kv in multiset(b);
      var i :| 0 <= i < |b| && b[i] == kv;
      var before, after := b[..i], b[i + 1..];
      assert b == before + [kv] + after;
      RemoveOne(front, before, kv, after);
      PermutedValues(front, before + after, k);
      OneMoreValue(before, kv, after, k);
      ValuesConcat(front, [kv], k);
    }
  }

  /** The order of the pairs does not matter. */
  lemma ExpectedOfPermutation<K(!new), V(!new), O>(
      a: seq<KeyValue<K, V>>, b: seq<KeyValue<K, V>>, reducef: (K, seq<V>) -> O)
    requires multiset(a) == multiset(b) && OrderInsensitive(reducef)
    ensures Expected(a, reducef) == Expected(b, reducef)
  {
    forall k ensures (k in KeysOf(a) <==> k in KeysOf(b)) && reducef(k, ValuesOf(a, k)) == reducef(k, ValuesOf(b, k)) {
      PermutedValues(a, b, k);
      KeysHaveValues(a, k);
      KeysHaveValues(b, k);
      assert |ValuesOf(a, k)| == |multiset(ValuesOf(a, k))| && |ValuesOf(b, k)| == |multiset(ValuesOf(b, k))|;
    }
    assert KeysOf(a) == KeysOf(b);
  }

  // ---------- buckets ----------

  lemma {:induction false} BucketValues<K, V>(kvs: seq<KeyValue<K, V>>, hash: K -> nat, n: nat, r: nat, k: K)
    requires n > 0
    ensures ValuesOf(Bucket(kvs, hash, n, r), k) == if hash(k) % n == r then ValuesOf(kvs, k) else []
  {
    if kvs != [] {
      var front, kv := kvs[..|kvs| - 1], kvs[|kvs| - 1];
      BucketValues(front, hash, n, r, k);
      var b := Bucket(front, hash, n, r);
      if hash(kv.key) % n == r {
        assert (b + [kv])[..|b|] == b;
      } else {
        assert Bucket(kvs, hash, n, r) == b;
      }
    }
  }

  lemma {:induction false} BucketConcat<K, V>(
      a: seq<KeyValue<K, V>>, b: seq<KeyValue<K, V>>, hash: K -> nat, n: nat, r: nat)
    requires n > 0
    ensures Bucket(a + b, hash, n, r) == Bucket(a, hash, n, r) + Bucket(b, hash, n, r)
    decreases |b|
  {
    if b == [] {
      assert a + b == a;
    } else {
      var m := |b| - 1;
      BucketConcat(a, b[..m], hash, n, r);
      assert (a + b)[..|a + b| - 1] == a + b[..m];
    }
  }

  ghost predicate HashesTo<K>(hash: K -> nat, n: nat, k: K, r: nat)
    requires n > 0
  {
    hash(k) % n == r
  }

  ghost predicate HashesBelow<K>(hash: K -> nat, n: nat, k: K, r: nat)
    requires n > 0
  {
    hash(k) % n < r
  }

  ghost function KeysTo<K, V>(kvs: seq<KeyValue<K, V>>, hash: K -> nat, n: nat, r: nat): set<K>
    requires n > 0
  {
    set k <- KeysOf(kvs) | HashesTo(hash, n, k, r)
  }

  /** The keys that go to the first `r` reduce tasks. */
  ghost function KeysBelow<K, V>(kvs: seq<KeyValue<K, V>>, hash: K -> nat, n: nat, r: nat): set<K>
    requires n > 0
  {
    set k <- KeysOf(kvs) | HashesBelow(hash, n, k, r)
  }

  lemma {:induction false} BucketKeys<K, V>(kvs: seq<KeyValue<K, V>>, hash: K -> nat, n: nat, r: nat)
    requires n > 0
    ensures KeysOf(Bucket(kvs, hash, n, r)) == KeysTo(kvs, hash, n, r)
  {
    if kvs != [] {
      var front, kv := kvs[..|kvs| - 1], kvs[|kvs| - 1];
      BucketKeys(front, hash, n, r);
      var b := Bucket(front, hash, n, r);
      if hash(kv.key) % n == r {
        assert (b + [kv])[..|b|] == b;
        assert KeysTo(kvs, hash, n, r) == KeysTo(front, hash, n, r) + {kv.key};
      } else {
        assert Bucket(kvs, hash, n, r) == b;
        assert KeysTo(kvs, hash, n, r) == KeysTo(front, hash, n, r);
      }
    }
  }

  lemma BucketLines<K, V, O>(kvs: seq<KeyValue<K, V>>, hash: K -> nat, n: nat, r: nat, reducef: (K, seq<V>) -> O)
    requires n > 0
    ensures Expected(Bucket(kvs, hash, n, r), reducef) == Lines(KeysTo(kvs, hash, n, r), kvs, reducef)
  {
    BucketKeys(kvs, hash, n, r);
    var b := Bucket(kvs, hash, n, r);
    forall k | k in KeysTo(kvs, hash, n, r) ensures ValuesOf(b, k) == ValuesOf(kvs, k) {
      assert HashesTo(hash, n, k, r);
      BucketValues(kvs, hash, n, r, k);
    }
  }

  lemma LinesUnion<K, V, O>(a: set<K>, b: set<K>, kvs: seq<KeyValue<K, V>>, reducef: (K, seq<V>) -> O)
    requires a !! b
    ensures multiset(Lines(a + b, kvs, reducef)) == multiset(Lines(a, kvs, reducef)) + multiset(Lines(b, kvs, reducef))
  {
    assert Lines(a + b, kvs, reducef) == Lines(a, kvs, reducef) + Lines(b, kvs, reducef);
    assert Lines(a, kvs, reducef) !! Lines(b, kvs, reducef);
  }

  lemma OneMoreLine<K, V, O>(
      out: seq<Line<K, O>>, keys: set<K>, k: K, kvs: seq<KeyValue<K, V>>, reducef: (K, seq<V>) -> O)
    requires multiset(out) == multiset(Lines(keys, kvs, reducef)) && k !in keys
    ensures multiset(out + [Line(k, reducef(k, ValuesOf(kvs, k)))]) == multiset(Lines(keys + {k}, kvs, reducef))
  {
    LinesUnion(keys, {k}, kvs, reducef);
    assert Lines({k}, kvs, reducef) == {Line(k, reducef(k, ValuesOf(kvs, k)))};
  }

  /** The lines are the output of the job on these pairs, each printed once, in any order. */
  ghost predicate Printed<K, V, O>(out: seq<Line<K, O>>, kvs: seq<KeyValue<K, V>>, reducef: (K, seq<V>) -> O) {
    multiset(out) == multiset(Expected(kvs, reducef))
  }

  lemma {:induction false} BucketsTogether<K, V, O>(
    outs: seq<seq<Line<K, O>>>, kvs: seq<KeyValue<K, V>>, hash: K -> nat, n: nat, reducef: (K, seq<V>) -> O)
    requires n > 0
    requires forall r: nat {:trigger outs[r]} :: r < |outs| ==> Printed(outs[r], Bucket(kvs, hash, n, r), reducef)
    ensures multiset(Flat(outs)) == multiset(Lines(KeysBelow(kvs, hash, n, |outs|), kvs, reducef))
    decreases |outs|
  {
    if outs == [] {
      assert KeysBelow(kvs, hash, n, 0) == {};
      assert Lines({}, kvs, reducef) == {};
    } else {
      var r := |outs| - 1;
      BucketsTogether(outs[..r], kvs, hash, n, reducef);
      BucketLines(kvs, hash, n, r, reducef);
      assert KeysBelow(kvs, hash, n, r + 1) == KeysBelow(kvs, hash, n, r) + KeysTo(kvs, hash, n, r);
      LinesUnion(KeysBelow(kvs, hash, n, r), KeysTo(kvs, hash, n, r), kvs, reducef);
      assert Printed(outs[r], Bucket(kvs, hash, n, r), reducef);
    }
  }

  /** Whatever the hash function: the outputs of all reduce tasks together are the output of the job. */
  lemma BucketsMakeTheJob<K, V, O>(
    outs: seq<seq<Line<K, O>>>, kvs: seq<KeyValue<K, V>>, hash: K -> nat, reducef: (K, seq<V>) -> O)
    requires outs != []
    requires forall r: nat {:trigger outs[r]} :: r < |outs| ==> Printed(outs[r], Bucket(kvs, hash, |outs|, r), reducef)
    ensures Printed(Flat(outs), kvs, reducef)
  {
    BucketsTogether(outs, kvs, hash, |outs|, reducef);
    assert KeysBelow(kvs, hash, |outs|, |outs|) == KeysOf(kvs);
  }
}
