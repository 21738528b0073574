/** What the key/value model means, without its step: the value of a key is that of the last put on it, followed
    by everything appended since; a history is linearizable if some order that keeps real time explains what
    every get, and every append that returns a value, returned. */
module KvMeaning {
  import opened Linearizability
  import opened KvModel

  predicate PutOn<K(==)>(op: KvOp<K>, key: K) {
    op.input.key == key && op.input.op == 1
  }

  predicate AppendOn<K(==)>(op: KvOp<K>, key: K) {
    op.input.key == key && op.input.op >= 2
  }

  /** The operation returned the value of its key: a get, or an append with a return value. */
  predicate Reads<K>(op: KvOp<K>) {
    op.input.op == 0 || op.input.op >= 3
  }

  /** The position of the last put on the key, or -1. */
  ghost function LastPut<K>(ops: seq<KvOp<K>>, key: K): (p: int)
    ensures -1 <= p < |ops|
  {
    if ops == [] then -1
    else
      var n := |ops| - 1;
      if PutOn(ops[n], key) then n else LastPut(ops[..n], key)
  }

  lemma {:induction false} LastPutIsLast<K>(ops: seq<KvOp<K>>, key: K)
    ensures var p := LastPut(ops, key);
      && (p >= 0 ==> PutOn(ops[p], key)) && forall i :: p < i < |ops| ==> !PutOn(ops[i], key)
  {
    if ops != [] { LastPutIsLast(ops[..|ops| - 1], key); }
  }

  /** Everything appended to the key, in order. */
  ghost function Appended<K>(ops: seq<KvOp<K>>, key: K): string {
    if ops == [] then ""
    else
      var n := |ops| - 1;
      Appended(ops[..n], key) + if AppendOn(ops[n], key) then ops[n].input.value else ""
  }

  /** The value of the key after the operations. */
  ghost function ValueOf<K>(ops: seq<KvOp<K>>, key: K): string {
    var p := LastPut(ops, key);
    (if p == -1 then "" else ops[p].input.value) + Appended(ops[p + 1..], key)
  }

  lemma ValueAfterPut<K>(ops: seq<KvOp<K>>, op: KvOp<K>, key: K)
    requires PutOn(op, key)
    ensures ValueOf(ops + [op], key) == op.input.value
  {
    var all := ops + [op];
    assert LastPut(all, key) == |ops|;
    assert all[|ops| + 1..] == [];
  }

  lemma AppendedSnoc<K>(ops: seq<KvOp<K>>, op: KvOp<K>, key: K)
    ensures Appended(ops + [op], key) == Appended(ops, key) + if AppendOn(op, key) then op.input.value else ""
  {
    assert (ops + [op])[..|ops|] == ops;
  }

  lemma ValueAfterOther<K>(ops: seq<KvOp<K>>, op: KvOp<K>, key: K)
    requires !PutOn(op, key)
    ensures ValueOf(ops + [op], key) == ValueOf(ops, key) + if AppendOn(op, key) then op.input.value else ""
  {
    var all, p := ops + [op], LastPut(ops, key);
    assert all[..|ops|] == ops;
    assert LastPut(all, key) == p;
    assert all[p + 1..] == ops[p + 1..] + [op];
    AppendedSnoc(ops[p + 1..], op, key);
  }

  /** The operations in the order `q`. */
  ghost function InOrder<K>(ops: seq<KvOp<K>>, q: seq<nat>): (r: seq<KvOp<K>>)
    requires InRange(q, |ops|)
    ensures |r| == |q| && forall i :: 0 <= i < |q| ==> r[i] == ops[q[i]]
  {
    seq(|q|, i requires 0 <= i < |q| => ops[q[i]])
  }

  /** What operation `i` returned is the value its key had before it. */
  ghost predicate ReadsRight<K>(ops: seq<KvOp<K>>, i: nat)
    requires i < |ops|
  {
    Reads(ops[i]) ==> ops[i].output.value == ValueOf(ops[..i], ops[i].input.key)
  }

  ghost predicate AllReadRight<K(!new)>(ops: seq<KvOp<K>>) {
    forall i: nat {:trigger ReadsRight(ops, i)} :: i < |ops| ==> ReadsRight(ops, i)
  }

  lemma AllReadRightSnoc<K(!new)>(ops: seq<KvOp<K>>, op: KvOp<K>)
    ensures AllReadRight(ops + [op]) <==>
      AllReadRight(ops) && (Reads(op) ==> op.output.value == ValueOf(ops, op.input.key))
  {
    var all := ops + [op];
    forall i: nat | i < |ops| ensures ReadsRight(all, i) <==> ReadsRight(ops, i) {
      assert all[..i] == ops[..i];
    }
    assert all[..|ops|] == ops;
    assert ReadsRight(all, |ops|) <==> (Reads(op) ==> op.output.value == ValueOf(ops, op.input.key));
  }

  ghost predicate HoldsValues<K(!new)>(m: map<K, string>, ops: seq<KvOp<K>>) {
    forall key: K :: Lookup(m, key) == ValueOf(ops, key)
  }

  lemma ValueAfter<K>(ops: seq<KvOp<K>>, op: KvOp<K>, key: K)
    ensures ValueOf(ops + [op], key) ==
      if PutOn(op, key) then op.input.value
      else if AppendOn(op, key) then ValueOf(ops, key) + op.input.value
      else ValueOf(ops, key)
  {
    if PutOn(op, key) {
      ValueAfterPut(ops, op, key);
    } else {
      ValueAfterOther(ops, op, key);
      assert ValueOf(ops, key) + "" == ValueOf(ops, key);
    }
  }

  /** One step on a map, seen at one key whose value it was `was`. */
  lemma StepAtKey<K(!new)>(m: map<K, string>, op: KvOp<K>, key: K, was: string)
    requires Lookup(m, key) == was
    ensures Lookup(MapStep(m, op.input, op.output).1, key) ==
      if PutOn(op, key) then op.input.value else if AppendOn(op, key) then was + op.input.value else was
    ensures key == op.input.key ==>
      (MapStep(m, op.input, op.output).0 <==> (Reads(op) ==> op.output.value == was))
  {}

  lemma StepMeans<K(!new)>(m: map<K, string>, before: seq<KvOp<K>>, op: KvOp<K>)
    requires HoldsValues(m, before)
    ensures MapStep(m, op.input, op.output).0 <==>
      (Reads(op) ==> op.output.value == ValueOf(before, op.input.key))
    ensures HoldsValues(MapStep(m, op.input, op.output).1, before + [op])
  {
    StepAtKey(m, op, op.input.key, ValueOf(before, op.input.key));
    forall key: K
      ensures Lookup(MapStep(m, op.input, op.output).1, key) == ValueOf(before + [op], key)
    {
      StepAtKey(m, op, key, ValueOf(before, key));
      ValueAfter(before, op, key);
    }
  }

  function Next<K(==)>(was: Option<map<K, string>>, op: KvOp<K>): Option<map<K, string>> {
    if was.None? then None
    else
      var (ok, m) := MapStep(was.value, op.input, op.output);
      if ok then Some(m) else None
  }

  lemma ReplayLast<K(!new)>(ops: seq<KvOp<K>>, q: seq<nat>)
    requires InRange(q, |ops|) && q != []
    ensures Replay(MapModel(), ops, q) == Next(Replay(MapModel(), ops, q[..|q| - 1]), ops[q[|q| - 1]])
  {}

  /** What the map is after the operations: nothing if some read was wrong, else the values of the keys. */
  ghost predicate MapAfter<K(!new)>(m: Option<map<K, string>>, ops: seq<KvOp<K>>) {
    (m.Some? <==> AllReadRight(ops)) && (m.Some? ==> HoldsValues(m.value, ops))
  }

  lemma MapAfterNext<K(!new)>(was: Option<map<K, string>>, before: seq<KvOp<K>>, op: KvOp<K>)
    requires MapAfter(was, before)
    ensures MapAfter(Next(was, op), before + [op])
  {
    AllReadRightSnoc(before, op);
    if was.Some? { StepMeans(was.value, before, op); }
  }

  /** A sequence of operations runs through the map if and only if every read returned the value of the last
      put on its key with everything appended since; and that is what the map then holds. */
  lemma {:induction false} ReplayMeans<K(!new)>(ops: seq<KvOp<K>>, q: seq<nat>)
    requires InRange(q, |ops|)
    ensures MapAfter(Replay(MapModel(), ops, q), InOrder(ops, q))
  {
    if q == [] {
      assert InOrder(ops, q) == [];
    } else {
      var n := |q| - 1;
      ReplayMeans(ops, q[..n]);
      ReplayLast(ops, q);
      MapAfterNext(Replay(MapModel(), ops, q[..n]), InOrder(ops, q[..n]), ops[q[n]]);
      assert InOrder(ops, q) == InOrder(ops, q[..n]) + [ops[q[n]]];
    }
  }

  /** The order explains the history: it has every operation once, keeps real time, and every read returned
      the value of the last put on its key with everything appended since. */
  ghost predicate Explains<K(!new)>(ops: seq<KvOp<K>>, q: seq<nat>) {
    && |q| == |ops| && InRange(q, |ops|) && Distinct(q) && RespectsRealTime(ops, q)
    && AllReadRight(InOrder(ops, q))
  }

  /** A history is linearizable against the map if and only if some order explains it. */
  lemma LinearizableMeans<K(!new)>(ops: seq<KvOp<K>>)
    ensures Linearizable(MapModel(), ops) <==> exists q: seq<nat> :: Explains(ops, q)
  {
    forall q: seq<nat> ensures Linearization(MapModel(), ops, q) <==> Explains(ops, q) {
      if InRange(q, |ops|) { ReplayMeans(ops, q); }
    }
  }
}
