/** The sequential MapReduce program: collect all pairs, sort them by key, scan runs of equal keys. */
module MrSequential {
  import opened MrPipeline
  import opened Sorting

  /** No two different keys are unordered. */
  ghost predicate Total<K(!new)>(less: (K, K) -> bool) {
    forall a, b {:trigger less(a, b), less(b, a)} :: !less(a, b) && !less(b, a) ==> a == b
  }

  /** What sort.Sort leaves: nothing stands before something smaller. */
  ghost predicate SortedByKey<K, V>(kvs: seq<KeyValue<K, V>>, less: (K, K) -> bool) {
    forall i, j {:trigger less(kvs[j].key, kvs[i].key)} :: 0 <= i < j < |kvs| ==> !less(kvs[j].key, kvs[i].key)
  }

  /** No key stands on both sides of position `i`. */
  ghost predicate Cut<K, V>(kvs: seq<KeyValue<K, V>>, i: nat)
    requires i <= |kvs|
  {
    forall a, b {:trigger kvs[a], kvs[b]} :: 0 <= a < i <= b < |kvs| ==> kvs[a].key != kvs[b].key
  }

  predicate SameKey<K(==), V>(kvs: seq<KeyValue<K, V>>, i: nat, j: nat)
    requires i < j <= |kvs|
  {
    forall a {:trigger kvs[a]} :: i <= a < j ==> kvs[a].key == kvs[i].key
  }

  /** A maximal run of one key in sorted pairs ends at a cut. */
  lemma RunEndsAtCut<K(!new), V>(kvs: seq<KeyValue<K, V>>, less: (K, K) -> bool, i: nat, j: nat)
    requires Total(less) && SortedByKey(kvs, less) && i < j <= |kvs| && Cut(kvs, i) && SameKey(kvs, i, j)
    requires j < |kvs| ==> kvs[j].key != kvs[i].key
    ensures Cut(kvs, j)
  {
    forall a, b | 0 <= a < j <= b < |kvs| ensures kvs[a].key != kvs[b].key {
      if i <= a && j < b {
        assert !less(kvs[j].key, kvs[i].key);
        assert !less(kvs[b].key, kvs[j].key);
      }
    }
  }

  lemma {:induction false} NoValues<K, V>(kvs: seq<KeyValue<K, V>>, k: K)
    requires forall a {:trigger kvs[a]} :: 0 <= a < |kvs| ==> kvs[a].key != k
    ensures ValuesOf(kvs, k) == []
  {
    if kvs != [] { NoValues(kvs[..|kvs| - 1], k); }
  }

  lemma {:induction false} OneKey<K, V>(kvs: seq<KeyValue<K, V>>, k: K)
    requires kvs != [] && forall a {:trigger kvs[a]} :: 0 <= a < |kvs| ==> kvs[a].key == k
    ensures KeysOf(kvs) == {k}
  {
    if |kvs| > 1 { OneKey(kvs[..|kvs| - 1], k); }
  }

  lemma NoneBeforeCut<K, V>(kvs: seq<KeyValue<K, V>>, i: nat)
    requires i < |kvs| && Cut(kvs, i)
    ensures ValuesOf(kvs[..i], kvs[i].key) == []
  {
    NoValues(kvs[..i], kvs[i].key);
  }

  lemma NoneAfterCut<K, V>(kvs: seq<KeyValue<K, V>>, i: nat, j: nat)
    requires i < j <= |kvs| && Cut(kvs, j)
    ensures ValuesOf(kvs[j..], kvs[i].key) == []
  {
    NoValues(kvs[j..], kvs[i].key);
  }

  lemma MiddleValues<K, V>(before: seq<KeyValue<K, V>>, run: seq<KeyValue<K, V>>, after: seq<KeyValue<K, V>>, k: K)
    requires ValuesOf(before, k) == [] && ValuesOf(after, k) == []
    ensures ValuesOf(before + run + after, k) == ValuesOf(run, k)
  {
    ValuesConcat(before, run, k);
    ValuesConcat(before + run, after, k);
  }

  /** All values of the run's key are in the run. */
  lemma RunHasAllValues<K, V>(kvs: seq<KeyValue<K, V>>, i: nat, j: nat)
    requires i < j <= |kvs| && Cut(kvs, i) && Cut(kvs, j)
    ensures ValuesOf(kvs[i..j], kvs[i].key) == ValuesOf(kvs, kvs[i].key)
  {
    NoneBeforeCut(kvs, i);
    NoneAfterCut(kvs, i, j);
    MiddleValues(kvs[..i], kvs[i..j], kvs[j..], kvs[i].key);
    Pieces(kvs, i, j);
  }

  lemma Pieces<T>(s: seq<T>, i: nat, j: nat)
    requires i <= j <= |s|
    ensures s == s[..i] + s[i..j] + s[j..]
  {}

  lemma RunAddsOneKey<K, V>(kvs: seq<KeyValue<K, V>>, i: nat, j: nat)
    requires i < j <= |kvs| && Cut(kvs, i) && SameKey(kvs, i, j)
    ensures KeysOf(kvs[..j]) == KeysOf(kvs[..i]) + {kvs[i].key} && kvs[i].key !in KeysOf(kvs[..i])
  {
    KeysConcat(kvs[..i], kvs[i..j]);
    OneKey(kvs[i..j], kvs[i].key);
    assert kvs[..j] == kvs[..i] + kvs[i..j];
    NoneBeforeCut(kvs, i);
    KeysHaveValues(kvs[..i], kvs[i].key);
  }

  /** Collect what the map function gives for every input file. */
  method MapAll<I, K, V>(inputs: seq<I>, mapf: I -> seq<KeyValue<K, V>>) returns (intermediate: seq<KeyValue<K, V>>)
    ensures intermediate == Flat(MapOutputs(inputs, mapf))
  {
    intermediate := [];
    for n := 0 to |inputs|
      invariant intermediate == Flat(MapOutputs(inputs[..n], mapf))
    {
      intermediate := intermediate + mapf(inputs[n]);
      var outputs := MapOutputs(inputs[..n + 1], mapf);
      assert outputs[..n] == MapOutputs(inputs[..n], mapf);
    }
    assert inputs[..|inputs|] == inputs;
  }

  /** The values of one run, gathered by the innermost loop. */
  method Gather<K, V>(kvs: seq<KeyValue<K, V>>, i: nat, j: nat) returns (values: seq<V>)
    requires i < j <= |kvs| && SameKey(kvs, i, j)
    ensures values == ValuesOf(kvs[i..j], kvs[i].key)
  {
    values := [];
    for k := i to j
      invariant values == ValuesOf(kvs[i..k], kvs[i].key)
    {
      values := values + [kvs[k].value];
      assert kvs[i..k + 1][..k - i] == kvs[i..k];
    }
  }

  /** The lines stand in the order of their keys, no key twice. */
  ghost predicate InKeyOrder<K, O>(out: seq<Line<K, O>>, less: (K, K) -> bool) {
    forall i, j {:trigger out[i], out[j]} :: 0 <= i < j < |out| ==> less(out[i].key, out[j].key)
  }

  /** The keys of the lines are those at the positions `at` before `i`. */
  ghost predicate LinesFrom<K, V, O>(out: seq<Line<K, O>>, kvs: seq<KeyValue<K, V>>, at: seq<nat>, i: nat) {
    && i <= |kvs| && |at| == |out|
    && forall x {:trigger out[x]} {:trigger at[x]} :: 0 <= x < |out| ==> at[x] < i && out[x].key == kvs[at[x]].key
  }

  lemma NextLineIsLater<K(!new), V, O>(
      out: seq<Line<K, O>>, kvs: seq<KeyValue<K, V>>, less: (K, K) -> bool, at: seq<nat>, i: nat, line: Line<K, O>)
    requires Total(less) && SortedByKey(kvs, less) && i < |kvs| && Cut(kvs, i) && line.key == kvs[i].key
    requires InKeyOrder(out, less) && LinesFrom(out, kvs, at, i)
    ensures InKeyOrder(out + [line], less)
  {
    forall x | 0 <= x < |out| ensures less(out[x].key, line.key) {
      assert !less(kvs[i].key, kvs[at[x]].key);
    }
  }

  /** What is printed when the scan stands at `i`: the lines of all keys before, in their order. */
  ghost predicate Scanned<K(!new), V, O>(
      out: seq<Line<K, O>>, kvs: seq<KeyValue<K, V>>, less: (K, K) -> bool, reducef: (K, seq<V>) -> O,
      at: seq<nat>, i: nat) {
    && i <= |kvs| && Cut(kvs, i)
    && multiset(out) == multiset(Lines(KeysOf(kvs[..i]), kvs, reducef))
    && InKeyOrder(out, less) && LinesFrom(out, kvs, at, i)
  }

  lemma LinesNext<K(!new), V, O>(
      out: seq<Line<K, O>>, kvs: seq<KeyValue<K, V>>, reducef: (K, seq<V>) -> O, i: nat, j: nat, line: Line<K, O>)
    requires i < j <= |kvs| && Cut(kvs, i) && Cut(kvs, j) && SameKey(kvs, i, j)
    requires multiset(out) == multiset(Lines(KeysOf(kvs[..i]), kvs, reducef))
    requires line == Line(kvs[i].key, reducef(kvs[i].key, ValuesOf(kvs[i..j], kvs[i].key)))
    ensures multiset(out + [line]) == multiset(Lines(KeysOf(kvs[..j]), kvs, reducef))
  {
    RunHasAllValues(kvs, i, j);
    RunAddsOneKey(kvs, i, j);
    OneMoreLine(out, KeysOf(kvs[..i]), kvs[i].key, kvs, reducef);
  }

  lemma ScannedNext<K(!new), V, O>(
      out: seq<Line<K, O>>, kvs: seq<KeyValue<K, V>>, less: (K, K) -> bool, reducef: (K, seq<V>) -> O,
      at: seq<nat>, i: nat, j: nat, line: Line<K, O>)
    requires Total(less) && SortedByKey(kvs, less) && Scanned(out, kvs, less, reducef, at, i)
    requires i < j <= |kvs| && SameKey(kvs, i, j) && (j < |kvs| ==> kvs[j].key != kvs[i].key)
    requires line == Line(kvs[i].key, reducef(kvs[i].key, ValuesOf(kvs[i..j], kvs[i].key)))
    ensures Scanned(out + [line], kvs, less, reducef, at + [i], j)
  {
    RunEndsAtCut(kvs, less, i, j);
    LinesNext(out, kvs, reducef, i, j, line);
    NextLineIsLater(out, kvs, less, at, i, line);
  }

  /** The end of the run of equal keys that begins at `i`. */
  method RunEnd<K(==), V>(kvs: seq<KeyValue<K, V>>, i: nat) returns (j: nat)
    requires i < |kvs|
    ensures i < j <= |kvs| && SameKey(kvs, i, j) && (j < |kvs| ==> kvs[j].key != kvs[i].key)
  {
    j := i + 1;
    while j < |kvs| && kvs[j].key == kvs[i].key
      invariant i < j <= |kvs| && SameKey(kvs, i, j)
    {
      j := j + 1;
    }
  }

  /** The scan over the sorted pairs prints exactly the output of the job, in the order of the keys. */
  method Scan<K(==, !new), V, O>(
      kvs: seq<KeyValue<K, V>>, less: (K, K) -> bool, reducef: (K, seq<V>) -> O)
      returns (out: seq<Line<K, O>>)
    requires Total(less) && SortedByKey(kvs, less)
    ensures Printed(out, kvs, reducef) && InKeyOrder(out, less)
  {
    out := [];
    var i := 0;
    ghost var at: seq<nat> := [];
    while i < |kvs|
      invariant Scanned(out, kvs, less, reducef, at, i)
    {
      var j := RunEnd(kvs, i);
      var values := Gather(kvs, i, j);
      var line := Line(kvs[i].key, reducef(kvs[i].key, values));
      ScannedNext(out, kvs, less, reducef, at, i, j, line);
      out, at := out + [line], at + [i];
      i := j;
    }
    assert kvs[..i] == kvs;
  }

  // ---------- sorting ----------

  /** A strict total order of the keys. */
  ghost predicate TotalOrder<K(!new)>(less: (K, K) -> bool) {
    Total(less) && WeakOrder(less)
  }

  lemma {:induction false} DifferentStringsCompare(a: string, b: string)
    requires !StringLess(a, b) && !StringLess(b, a)
    ensures a == b
  {
    if a != [] && b != [] && a[0] == b[0] {
      DifferentStringsCompare(a[1..], b[1..]);
      assert a == [a[0]] + a[1..] && b == [b[0]] + b[1..];
    }
  }

  /** The order in which the program sorts: byte by byte. */
  lemma StringsAreOrdered()
    ensures TotalOrder(StringLess)
  {
    forall a, b | !StringLess(a, b) && !StringLess(b, a) ensures a == b {
      DifferentStringsCompare(a, b);
    }
    StringsAreWeaklyOrdered();
  }

  /** ByKey.Less of sort.Sort(ByKey(intermediate)). */
  function ByKey<K, V>(less: (K, K) -> bool): (KeyValue<K, V>, KeyValue<K, V>) -> bool {
    (a: KeyValue<K, V>, b: KeyValue<K, V>) => less(a.key, b.key)
  }

  lemma ByKeyIsWeakOrder<K(!new), V(!new)>(less: (K, K) -> bool)
    requires WeakOrder(less)
    ensures WeakOrder(ByKey<K, V>(less))
  {
    var lessKey := ByKey<K, V>(less);
    forall a, b | lessKey(a, b) ensures !lessKey(b, a) {
      assert less(a.key, b.key);
    }
    forall a, b, c | !lessKey(b, a) && !lessKey(c, b) ensures !lessKey(c, a) {
      assert !less(b.key, a.key) && !less(c.key, b.key);
    }
  }

  method SortByKey<K(!new), V(!new)>(kvs: seq<KeyValue<K, V>>, less: (K, K) -> bool)
    returns (sorted: seq<KeyValue<K, V>>)
    requires TotalOrder(less)
    ensures SortedByKey(sorted, less) && multiset(sorted) == multiset(kvs)
  {
    ByKeyIsWeakOrder<K, V>(less);
    sorted := Sort(kvs, ByKey(less));
    assert forall i, j {:trigger less(sorted[j].key, sorted[i].key)} :: 0 <= i < j < |sorted| ==>
      !ByKey<K, V>(less)(sorted[j], sorted[i]);
  }

  // ---------- the program ----------

  /** What the sequential program prints for these inputs: the output of the job on some sorted order of
      all intermediate pairs, in the order of the keys. */
  ghost predicate PrintsSequentially<I, K(!new), V(!new), O>(
    inputs: seq<I>, mapf: I -> seq<KeyValue<K, V>>, less: (K, K) -> bool, reducef: (K, seq<V>) -> O,
    out: seq<Line<K, O>>)
  {
    exists sorted ::
      && SortedByKey(sorted, less)
      && multiset(sorted) == multiset(Flat(MapOutputs(inputs, mapf)))
      && Printed(out, sorted, reducef) && InKeyOrder(out, less)
  }

  /** main of mrsequential: map every input, sort, scan. */
  method Sequential<I, K(==, !new), V(!new), O>(
    inputs: seq<I>, mapf: I -> seq<KeyValue<K, V>>, less: (K, K) -> bool, reducef: (K, seq<V>) -> O)
    returns (out: seq<Line<K, O>>)
    requires TotalOrder(less)
    ensures PrintsSequentially(inputs, mapf, less, reducef, out)
  {
    var intermediate := MapAll(inputs, mapf);
    intermediate := SortByKey(intermediate, less);
    out := Scan(intermediate, less, reducef);
  }

  /** For a reduce function that ignores the order of values, that is the output of the job on the pairs as
      the map function gave them. */
  lemma SequentialPrintsTheJob<I, K(!new), V(!new), O>(
    inputs: seq<I>, mapf: I -> seq<KeyValue<K, V>>, less: (K, K) -> bool, reducef: (K, seq<V>) -> O,
    out: seq<Line<K, O>>)
    requires PrintsSequentially(inputs, mapf, less, reducef, out) && OrderInsensitive(reducef)
    ensures Printed(out, Flat(MapOutputs(inputs, mapf)), reducef)
  {
    var kvs := Flat(MapOutputs(inputs, mapf));
    var sorted :| SortedByKey(sorted, less) && multiset(sorted) == multiset(kvs)
      && Printed(out, sorted, reducef) && InKeyOrder(out, less);
    PrintedPermutation(sorted, kvs, reducef, out);
  }

  lemma PrintedPermutation<K(!new), V(!new), O>(
    a: seq<KeyValue<K, V>>, b: seq<KeyValue<K, V>>, reducef: (K, seq<V>) -> O, out: seq<Line<K, O>>)
    requires multiset(a) == multiset(b) && OrderInsensitive(reducef) && Printed(out, a, reducef)
    ensures Printed(out, b, reducef)
  {
    ExpectedOfPermutation(a, b, reducef);
  }

  lemma SameSize<T>(a: seq<T>, b: seq<T>)
    requires multiset(a) == multiset(b)
    ensures |a| == |b|
  {
    assert |a| == |multiset(a)| == |multiset(b)| == |b|;
  }

  lemma SameFronts<T>(a: seq<T>, b: seq<T>)
    requires multiset(a) == multiset(b) && |a| == |b| > 0 && a[|a| - 1] == b[|b| - 1]
    ensures multiset(a[..|a| - 1]) == multiset(b[..|b| - 1])
  {
    var n := |a| - 1;
    assert a == a[..n] + [a[n]] && b == b[..n] + [b[n]];
    assert multiset(a[..n]) == multiset(a) - multiset{a[n]};
    assert multiset(b[..n]) == multiset(b) - multiset{b[n]};
  }

  /** Lines in the order of their keys are determined by what they are. */
  lemma {:induction false} OrderIsUnique<K(!new), O>(a: seq<Line<K, O>>, b: seq<Line<K, O>>, less: (K, K) -> bool)
    requires TotalOrder(less) && InKeyOrder(a, less) && InKeyOrder(b, less) && multiset(a) == multiset(b)
    ensures a == b
    decreases |a|
  {
    SameSize(a, b);
    if a != [] {
      var n := |a| - 1;
      SameLast(a, b, less);
      SameFronts(a, b);
      OrderIsUnique(a[..n], b[..n], less);
      assert a == a[..n] + [a[n]] && b == b[..n] + [b[n]];
    }
  }

  lemma SameLast<K(!new), O>(a: seq<Line<K, O>>, b: seq<Line<K, O>>, less: (K, K) -> bool)
    requires TotalOrder(less) && InKeyOrder(a, less) && InKeyOrder(b, less)
    requires multiset(a) == multiset(b) && |a| == |b| > 0
    ensures a[|a| - 1] == b[|b| - 1]
  {
    var n := |a| - 1;
    assert a[n] in multiset(b) && b[n] in multiset(a);
    var i :| 0 <= i < |b| && b[i] == a[n];
    var j :| 0 <= j < |a| && a[j] == b[n];
    assert i < n ==> less(b[i].key, b[n].key);
    assert j < n ==> less(a[j].key, a[n].key);
  }

  /** What the sequential program prints is determined by inputs, map and reduce function. */
  lemma SequentialIsDetermined<I, K(!new), V(!new), O>(
    inputs: seq<I>, mapf: I -> seq<KeyValue<K, V>>, less: (K, K) -> bool, reducef: (K, seq<V>) -> O,
    out: seq<Line<K, O>>, out': seq<Line<K, O>>)
    requires TotalOrder(less) && OrderInsensitive(reducef)
    requires PrintsSequentially(inputs, mapf, less, reducef, out)
    requires PrintsSequentially(inputs, mapf, less, reducef, out')
    ensures out == out'
  {
    SequentialPrintsTheJob(inputs, mapf, less, reducef, out);
    SequentialPrintsTheJob(inputs, mapf, less, reducef, out');
    OrderIsUnique(out, out', less);
  }
}
