/** What the Porcupine checker decides: histories of timed operations, sequential models, and the
    meaning of "linearizable". Nothing here mentions how the checker searches. */
module Linearizability {

  datatype Option<T> = None | Some(value: T)

  /** One completed operation; `call` and `ret` are the invocation and response times. */
  datatype Operation<I, O> = Operation(clientId: int, input: I, call: int, output: O, ret: int)

  /** A sequential specification: the initial state, and a step that says whether the system could
      take this input and give this output, and what the state is afterwards. */
  datatype Model<!S, !I, !O> = Model(init: S, step: (S, I, O) -> (bool, S))

  /** Operation `a` was over before operation `b` began. */
  predicate Precedes<I, O>(ops: seq<Operation<I, O>>, a: nat, b: nat)
    requires a < |ops| && b < |ops|
  {
    ops[a].ret < ops[b].call
  }

  ghost predicate WellTimed<I, O>(ops: seq<Operation<I, O>>) {
    forall i :: 0 <= i < |ops| ==> ops[i].call <= ops[i].ret
  }

  ghost predicate InRange(q: seq<nat>, n: nat) {
    forall i :: 0 <= i < |q| ==> q[i] < n
  }

  /** No element occurs in the part before it. */
  ghost predicate Distinct(q: seq<nat>) {
    q == [] || (q[|q| - 1] !in Ids(q[..|q| - 1]) && Distinct(q[..|q| - 1]))
  }

  lemma {:induction false} DistinctPrefix(q: seq<nat>, k: nat)
    requires Distinct(q) && k <= |q|
    ensures Distinct(q[..k])
    ensures k < |q| ==> q[k] !in Ids(q[..k])
  {
    if k == |q| {
      assert q[..k] == q;
    } else {
      var front := q[..|q| - 1];
      DistinctPrefix(front, k);
      assert front[..k] == q[..k];
    }
  }

  ghost function Ids(q: seq<nat>): set<nat> {
    if q == [] then {} else Ids(q[..|q| - 1]) + {q[|q| - 1]}
  }

  lemma {:induction false} IdsMembers(q: seq<nat>)
    ensures forall x: nat :: x in Ids(q) <==> x in q
  {
    if q != [] {
      IdsMembers(q[..|q| - 1]);
      assert q == q[..|q| - 1] + [q[|q| - 1]];
    }
  }

  lemma {:induction false} PairwiseDistinct(q: seq<nat>)
    requires forall i, j :: 0 <= i < j < |q| ==> q[i] != q[j]
    ensures Distinct(q)
  {
    if q != [] {
      PairwiseDistinct(q[..|q| - 1]);
      IdsMembers(q[..|q| - 1]);
    }
  }

  lemma DistinctPairs(q: seq<nat>, i: nat, j: nat)
    requires Distinct(q) && i < j < |q|
    ensures q[i] != q[j]
  {
    DistinctPrefix(q, j);
    IdsMembers(q[..j]);
    assert q[..j][i] == q[i];
  }

  lemma IdsSnoc(q: seq<nat>, c: nat)
    ensures Ids(q + [c]) == Ids(q) + {c}
  {
    assert (q + [c])[..|q|] == q;
  }

  predicate IdBelow(id: nat, n: nat) {
    id < n
  }

  /** The ids of a history of `n` operations. */
  ghost function AllIds(n: nat): set<nat> {
    set id: nat | id < n && IdBelow(id, n)
  }

  lemma {:induction false} AllIdsCardinality(n: nat)
    ensures |AllIds(n)| == n
  {
    if n == 0 {
      assert AllIds(0) == {};
    } else {
      AllIdsCardinality(n - 1);
      assert AllIds(n) == AllIds(n - 1) + {n - 1};
    }
  }

  /** The state after running the operations `q` one after the other, if every step is allowed. */
  ghost function Replay<S, I, O>(model: Model<S, I, O>, ops: seq<Operation<I, O>>, q: seq<nat>): Option<S>
    requires InRange(q, |ops|)
  {
    if q == [] then Some(model.init)
    else
      match Replay(model, ops, q[..|q| - 1])
      case None => None
      case Some(s) =>
        var op := ops[q[|q| - 1]];
        var (ok, s') := model.step(s, op.input, op.output);
        if ok then Some(s') else None
  }

  ghost predicate RespectsRealTime<I, O>(ops: seq<Operation<I, O>>, order: seq<nat>)
    requires InRange(order, |ops|)
  {
    forall i, j {:trigger Precedes(ops, order[j], order[i])} ::
      0 <= i < j < |order| ==> !Precedes(ops, order[j], order[i])
  }

  /** `order` is a permutation of all operations that keeps real-time order and that the sequential
      model accepts. */
  ghost predicate Linearization<S, I, O>(model: Model<S, I, O>, ops: seq<Operation<I, O>>, order: seq<nat>) {
    && |order| == |ops|
    && InRange(order, |ops|)
    && Distinct(order)
    && RespectsRealTime(ops, order)
    && Replay(model, ops, order).Some?
  }

  ghost predicate Linearizable<S, I, O>(model: Model<S, I, O>, ops: seq<Operation<I, O>>) {
    exists order: seq<nat> :: Linearization(model, ops, order)
  }

  /** `q` linearizes some of the operations: whatever precedes a member of `q` in real time stands
      before it in `q`, and the model accepts the steps. */
  ghost predicate PartialLinearization<S, I, O>(model: Model<S, I, O>, ops: seq<Operation<I, O>>, q: seq<nat>) {
    && InRange(q, |ops|)
    && Distinct(q)
    && (forall a: nat, j {:trigger Precedes(ops, a, q[j])} ::
          a < |ops| && 0 <= j < |q| && Precedes(ops, a, q[j]) ==> a in Ids(q[..j]))
    && Replay(model, ops, q).Some?
  }

  lemma IdsInRange(q: seq<nat>, n: nat)
    requires InRange(q, n)
    ensures Ids(q) <= AllIds(n)
  {
    IdsMembers(q);
  }

  lemma {:induction false} DistinctCovers(q: seq<nat>, n: nat)
    requires InRange(q, n) && Distinct(q) && |q| == n
    ensures Ids(q) == AllIds(n)
  {
    DistinctCardinality(q);
    IdsInRange(q, n);
    AllIdsCardinality(n);
    SubsetOfEqualSize(Ids(q), AllIds(n));
  }

  lemma {:induction false} DistinctCardinality(q: seq<nat>)
    requires Distinct(q)
    ensures |Ids(q)| == |q|
  {
    if q != [] {
      var front, x := q[..|q| - 1], q[|q| - 1];
      DistinctCardinality(front);
    }
  }

  lemma SubsetOfEqualSize<T>(a: set<T>, b: set<T>)
    requires a <= b && |a| == |b|
    ensures a == b
  {
    if x :| x in b && x !in a {
      SubsetNoLarger(a, b - {x});
      assert false;
    }
  }

  lemma {:induction false} SubsetNoLarger<T>(a: set<T>, b: set<T>)
    requires a <= b
    ensures |a| <= |b|
  {
    if a != {} {
      var x :| x in a;
      SubsetNoLarger(a - {x}, b - {x});
    }
  }

  /** What a search may answer: the truth, or no after it was told to give up. */
  predicate Truthful(legal: bool, killed: bool, ok: bool) {
    if killed then !ok else ok == legal
  }

  /** A linearization is exactly a partial linearization of every operation. */
  lemma CompletePartialLinearization<S, I, O>(model: Model<S, I, O>, ops: seq<Operation<I, O>>, q: seq<nat>)
    requires WellTimed(ops)
    ensures Linearization(model, ops, q) <==> PartialLinearization(model, ops, q) && |q| == |ops|
  {
    if Linearization(model, ops, q) {
      DistinctCovers(q, |ops|);
      forall a: nat, j | a < |ops| && 0 <= j < |q| && Precedes(ops, a, q[j])
        ensures a in Ids(q[..j])
      {
        IdsMembers(q);
        IdsMembers(q[..j]);
        assert a in Ids(q);
        var i :| 0 <= i < |q| && q[i] == a;
        assert !(j < i);
        assert q[..j][i] == a;
      }
    }
    if PartialLinearization(model, ops, q) && |q| == |ops| {
      forall i, j | 0 <= i < j < |q|
        ensures !Precedes(ops, q[j], q[i])
      {
        DistinctPrefix(q, j);
        IdsMembers(q[..j]);
        IdsMembers(q[..i]);
        assert q[j] !in Ids(q[..i]);
      }
    }
  }
}
