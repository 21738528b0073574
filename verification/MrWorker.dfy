/** The loops of a MapReduce worker. Intermediate and output files are sequences of what was written. */
module MrWorker {
  import opened MrPipeline
  import opened MrFileNames
  import opened MrCoordinator

  /** writeMapOutput: split the pairs over the reduce tasks. */
  method WriteMapOutput<K, V>(
      kva: seq<KeyValue<K, V>>, hash: K -> nat, nReduce: nat)
      returns (files: seq<seq<KeyValue<K, V>>>)
    requires kva != [] ==> nReduce > 0
    ensures |files| == nReduce
    ensures forall r: nat :: r < nReduce ==> files[r] == Bucket(kva, hash, nReduce, r)
  {
    files := seq(nReduce, _ => []);
    for i := 0 to |kva|
      invariant |files| == nReduce
      invariant forall r: nat {:trigger files[r]} :: r < nReduce ==> files[r] == Bucket(kva[..i], hash, nReduce, r)
    {
      var reduceID := hash(kva[i].key) % nReduce;
      assert kva[..i + 1][..i] == kva[..i];
      files := files[reduceID := files[reduceID] + [kva[i]]];
      BucketStep(kva, hash, nReduce, i);
    }
    assert kva[..|kva|] == kva;
  }

  lemma BucketStep<K, V>(kva: seq<KeyValue<K, V>>, hash: K -> nat, n: nat, i: nat)
    requires n > 0 && i < |kva|
    ensures forall r: nat {:trigger Bucket(kva[..i + 1], hash, n, r)} ::
      Bucket(kva[..i + 1], hash, n, r) ==
        Bucket(kva[..i], hash, n, r) + if hash(kva[i].key) % n == r then [kva[i]] else []
  {
    assert kva[..i + 1][..i] == kva[..i];
  }

  /** The file names reportTaskDone builds in its loop. */
  method ReportedFiles(taskID: nat, nReduce: nat) returns (names: seq<string>)
    ensures names == OutputFiles(taskID, nReduce)
  {
    names := [];
    for i := 0 to nReduce
      invariant names == OutputFiles(taskID, i)
    {
      names := names + [FileName(taskID, i)];
    }
  }

  ghost predicate Grouped<K, V>(groups: map<K, seq<V>>, kvs: seq<KeyValue<K, V>>) {
    groups.Keys == KeysOf(kvs) && forall k {:trigger ValuesOf(kvs, k)} :: k in groups ==> groups[k] == ValuesOf(kvs, k)
  }

  lemma GroupOne<K, V>(groups: map<K, seq<V>>, kvs: seq<KeyValue<K, V>>, kv: KeyValue<K, V>)
    requires Grouped(groups, kvs)
    ensures var before := if kv.key in groups then groups[kv.key] else [];
      Grouped(groups[kv.key := before + [kv.value]], kvs + [kv])
  {
    KeysHaveValues(kvs, kv.key);
    assert (kvs + [kv])[..|kvs|] == kvs;
  }

  /** The decoding loop of performReduce: put one file's pairs into the groups. */
  method GroupFile<K(==), V>(file: seq<KeyValue<K, V>>, groups: map<K, seq<V>>, ghost kvs: seq<KeyValue<K, V>>)
    returns (groups': map<K, seq<V>>)
    requires Grouped(groups, kvs)
    ensures Grouped(groups', kvs + file)
  {
    groups' := groups;
    assert kvs + file[..0] == kvs;
    for i := 0 to |file|
      invariant Grouped(groups', kvs + file[..i])
    {
      var kv := file[i];
      GroupOne(groups', kvs + file[..i], kv);
      groups' := groups'[kv.key := (if kv.key in groups' then groups'[kv.key] else []) + [kv.value]];
      assert kvs + file[..i + 1] == kvs + file[..i] + [kv];
    }
    assert file[..|file|] == file;
  }

  /** performReduce: group the pairs of all files by key and print a line for every key, in whatever
      order the map of groups gives them. */
  method PerformReduce<K(==), V, O>(
      files: seq<seq<KeyValue<K, V>>>, reducef: (K, seq<V>) -> O)
      returns (out: seq<Line<K, O>>)
    ensures Printed(out, Flat(files), reducef)
  {
    var groups: map<K, seq<V>> := map[];
    for i := 0 to |files|
      invariant Grouped(groups, Flat(files[..i]))
    {
      groups := GroupFile(files[i], groups, Flat(files[..i]));
      assert files[..i + 1][..i] == files[..i];
    }
    assert files[..|files|] == files;
    out := PrintGroups(groups, reducef, Flat(files));
  }

  method PrintGroups<K(==), V, O>(groups: map<K, seq<V>>, reducef: (K, seq<V>) -> O, ghost kvs: seq<KeyValue<K, V>>)
    returns (out: seq<Line<K, O>>)
    requires Grouped(groups, kvs)
    ensures Printed(out, kvs, reducef)
  {
    out := [];
    var keys := groups.Keys;
    ghost var printed: set<K> := {};
    while keys != {}
      invariant printed + keys == groups.Keys && printed !! keys
      invariant multiset(out) == multiset(Lines(printed, kvs, reducef))
      decreases |keys|
    {
      var k :| k in keys;
      OneMoreLine(out, printed, k, kvs, reducef);
      out := out + [Line(k, reducef(k, groups[k]))];
      keys := keys - {k};
      printed := printed + {k};
    }
  }
}
