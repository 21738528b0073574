/** The key/value model of the tests: its sequential step, its partition by key, and the locality
    theorem that Model.Partition promises: a history is linearizable against the whole map exactly when
    the part for every key is linearizable against the single-key step. */
module KvModel {
  import opened Linearizability
  import opened Sorting

  /** `op`: 0 get, 1 put, 2 append, else append returning the old value. */
  datatype KvInput<K> = KvInput(op: nat, key: K, value: string)
  datatype KvOutput = KvOutput(value: string)

  type KvOp<K> = Operation<KvInput<K>, KvOutput>

  function KvStep<K>(st: string, inp: KvInput<K>, out: KvOutput): (bool, string) {
    if inp.op == 0 then (out.value == st, st)
    else if inp.op == 1 then (true, inp.value)
    else if inp.op == 2 then (true, st + inp.value)
    else (out.value == st, st + inp.value)
  }

  /** What KvModel checks one key against. */
  function KeyModel<K>(): Model<string, KvInput<K>, KvOutput> {
    Model("", (st, inp, out) => KvStep(st, inp, out))
  }

  function Lookup<K(==)>(m: map<K, string>, key: K): string {
    if key in m then m[key] else ""
  }

  function MapStep<K(==)>(m: map<K, string>, inp: KvInput<K>, out: KvOutput): (bool, map<K, string>) {
    var (ok, st) := KvStep(Lookup(m, inp.key), inp, out);
    (ok, m[inp.key := st])
  }

  /** The whole key/value map. */
  function MapModel<K(==)>(): Model<map<K, string>, KvInput<K>, KvOutput> {
    Model(map[], (m, inp, out) => MapStep(m, inp, out))
  }

  // ---------- the operations on one key ----------

  /** The members of `q` that are operations on `key`, in the order of `q`. */
  ghost function OnKey<K(!new)>(ops: seq<KvOp<K>>, q: seq<nat>, key: K): (r: seq<nat>)
    requires InRange(q, |ops|)
    ensures InRange(r, |ops|)
  {
    if q == [] then []
    else
      var n := |q| - 1;
      OnKey(ops, q[..n], key) + if ops[q[n]].input.key == key then [q[n]] else []
  }

  lemma {:induction false} OnKeyIds<K(!new)>(ops: seq<KvOp<K>>, q: seq<nat>, key: K)
    requires InRange(q, |ops|)
    ensures forall x: nat :: x in Ids(OnKey(ops, q, key)) <==> x in Ids(q) && x < |ops| && ops[x].input.key == key
  {
    if q != [] {
      var n := |q| - 1;
      OnKeyIds(ops, q[..n], key);
      var r := OnKey(ops, q[..n], key);
      IdsSnoc(r, q[n]);
      assert ops[q[n]].input.key != key ==> r + [] == r;
    }
  }

  lemma {:induction false} OnKeyDistinct<K(!new)>(ops: seq<KvOp<K>>, q: seq<nat>, key: K)
    requires InRange(q, |ops|) && Distinct(q)
    ensures Distinct(OnKey(ops, q, key))
  {
    if q != [] {
      var n := |q| - 1;
      OnKeyDistinct(ops, q[..n], key);
      OnKeyIds(ops, q[..n], key);
      var r := OnKey(ops, q[..n], key);
      assert (r + [q[n]])[..|r|] == r;
      assert ops[q[n]].input.key != key ==> r + [] == r;
    }
  }

  /** Real-time order, one element at a time: the last one does not precede any before it. */
  ghost predicate Ordered<K(!new)>(ops: seq<KvOp<K>>, q: seq<nat>)
    requires InRange(q, |ops|)
  {
    q == [] ||
    var n := |q| - 1;
    && Ordered(ops, q[..n])
    && forall x: nat :: x in Ids(q[..n]) && x < |ops| ==> !Precedes(ops, q[n], x)
  }

  lemma {:induction false} OrderedIsRealTime<K(!new)>(ops: seq<KvOp<K>>, q: seq<nat>)
    requires InRange(q, |ops|)
    ensures Ordered(ops, q) <==> RespectsRealTime(ops, q)
  {
    if q != [] {
      var n := |q| - 1;
      var front := q[..n];
      OrderedIsRealTime(ops, front);
      IdsMembers(front);
      if Ordered(ops, q) {
        forall i, j | 0 <= i < j < |q| ensures !Precedes(ops, q[j], q[i]) {
          if j < n {
            assert !Precedes(ops, front[j], front[i]);
          } else {
            assert front[i] in Ids(front);
          }
        }
      }
      if RespectsRealTime(ops, q) {
        forall i, j | 0 <= i < j < |front| ensures !Precedes(ops, front[j], front[i]) {
          assert !Precedes(ops, q[j], q[i]);
        }
        forall x: nat | x in Ids(front) && x < |ops| ensures !Precedes(ops, q[n], x) {
          var i :| 0 <= i < |front| && front[i] == x;
          assert !Precedes(ops, q[n], q[i]);
        }
      }
    }
  }

  lemma {:induction false} OnKeyOrdered<K(!new)>(ops: seq<KvOp<K>>, q: seq<nat>, key: K)
    requires InRange(q, |ops|) && Ordered(ops, q)
    ensures Ordered(ops, OnKey(ops, q, key))
  {
    if q != [] {
      var n := |q| - 1;
      OnKeyOrdered(ops, q[..n], key);
      OnKeyIds(ops, q[..n], key);
      var r := OnKey(ops, q[..n], key);
      assert (r + [q[n]])[..|r|] == r;
      assert ops[q[n]].input.key != key ==> r + [] == r;
    }
  }

  ghost function KeyReplay<K(!new)>(ops: seq<KvOp<K>>, q: seq<nat>, key: K): Option<string>
    requires InRange(q, |ops|)
  {
    Replay(KeyModel(), ops, OnKey(ops, q, key))
  }

  lemma KeyReplaySnoc<K(!new)>(ops: seq<KvOp<K>>, q: seq<nat>, key: K)
    requires InRange(q, |ops|) && q != []
    ensures var n := |q| - 1;
            KeyReplay(ops, q, key) ==
            if ops[q[n]].input.key != key then KeyReplay(ops, q[..n], key)
            else if KeyReplay(ops, q[..n], key).None? then None
            else
              var (ok, st) := KvStep(KeyReplay(ops, q[..n], key).value, ops[q[n]].input, ops[q[n]].output);
              if ok then Some(st) else None
  {
    var n := |q| - 1;
    var r := OnKey(ops, q[..n], key);
    assert (r + [q[n]])[..|r|] == r;
    assert ops[q[n]].input.key != key ==> r + [] == r;
  }

  /** The map accepts a sequence of operations exactly when every key accepts its own, and the map then
      holds what the keys do. */
  lemma {:induction false} MapReplay<K(!new)>(ops: seq<KvOp<K>>, q: seq<nat>)
    requires InRange(q, |ops|)
    ensures Replay(MapModel(), ops, q).Some? <==> forall key: K :: KeyReplay(ops, q, key).Some?
    ensures Replay(MapModel(), ops, q).Some? ==>
              forall key: K :: KeyReplay(ops, q, key) == Some(Lookup(Replay(MapModel(), ops, q).value, key))
  {
    if q == [] {
      forall key: K ensures KeyReplay(ops, q, key) == Some("") {
      }
    } else {
      var n := |q| - 1;
      MapReplay(ops, q[..n]);
      forall key: K
        ensures Replay(MapModel(), ops, q).Some? ==>
          KeyReplay(ops, q, key) == Some(Lookup(Replay(MapModel(), ops, q).value, key))
        ensures KeyReplay(ops, q, key).Some? ==> KeyReplay(ops, q[..n], key).Some?
      {
        KeyReplaySnoc(ops, q, key);
      }
      KeyReplaySnoc(ops, q, ops[q[n]].input.key);
    }
  }

  // ---------- merging the orders of the keys ----------

  /** `q` puts the operations on `key` in an order that keeps real time. */
  ghost predicate OrderFor<K(!new)>(ops: seq<KvOp<K>>, key: K, q: seq<nat>) {
    && InRange(q, |ops|)
    && Distinct(q)
    && Ordered(ops, q)
    && forall x: nat :: x in Ids(q) ==> x < |ops| && ops[x].input.key == key
  }

  /** `pool` is the set of all operations that the orders of the keys mention. */
  ghost predicate Pool<K(!new)>(ops: seq<KvOp<K>>, orders: map<K, seq<nat>>, pool: set<nat>) {
    && (forall key :: key in orders ==> OrderFor(ops, key, orders[key]))
    && (forall x: nat :: x in pool <==> x < |ops| && ops[x].input.key in orders && x in Ids(orders[ops[x].input.key]))
  }

  lemma {:induction false} LatestCall<K(!new)>(ops: seq<KvOp<K>>, pool: set<nat>) returns (y: nat)
    requires pool != {} && forall x: nat :: x in pool ==> x < |ops|
    ensures y in pool && forall x: nat :: x in pool ==> ops[x].call <= ops[y].call
    decreases |pool|
  {
    var w :| w in pool;
    var rest := pool - {w};
    assert forall x: nat :: x in pool ==> x == w || x in rest;
    if rest == {} {
      y := w;
    } else {
      var z := LatestCall(ops, rest);
      y := if ops[z].call > ops[w].call then z else w;
    }
  }

  /** The last operation of the key that was called last precedes nothing in the pool. */
  lemma LastPrecedesNothing<K(!new)>(ops: seq<KvOp<K>>, q: seq<nat>, y: nat, x: nat)
    requires WellTimed(ops) && InRange(q, |ops|) && Ordered(ops, q) && q != []
    requires y in Ids(q) && y < |ops| && x < |ops| && ops[x].call <= ops[y].call
    ensures !Precedes(ops, q[|q| - 1], x)
  {
    var n := |q| - 1;
    if y != q[n] {
      assert y in Ids(q[..n]);
      assert !Precedes(ops, q[n], y);
    }
  }

  lemma PoolWithoutLast<K(!new)>(ops: seq<KvOp<K>>, orders: map<K, seq<nat>>, pool: set<nat>, key: K)
    requires Pool(ops, orders, pool) && key in orders && orders[key] != []
    ensures var q := orders[key]; var n := |q| - 1;
            Pool(ops, orders[key := q[..n]], pool - {q[n]}) && q[n] in pool
  {
    var q := orders[key];
    var n := |q| - 1;
    assert q[n] in Ids(q);
    assert Ids(q[..n]) == Ids(q) - {q[n]};
    assert OrderFor(ops, key, q[..n]);
  }

  lemma OnKeySnoc<K(!new)>(ops: seq<KvOp<K>>, front: seq<nat>, x: nat, key: K)
    requires InRange(front, |ops|) && x < |ops|
    ensures OnKey(ops, front + [x], key) == OnKey(ops, front, key) + if ops[x].input.key == key then [x] else []
  {
    assert (front + [x])[..|front|] == front;
  }

  /** The merged order with the last operation of the key that was called last put at its end. */
  lemma MergeLast<K(!new)>(ops: seq<KvOp<K>>, mine: seq<nat>, pool: set<nat>, y: nat, front: seq<nat>)
    requires WellTimed(ops) && InRange(mine, |ops|) && Ordered(ops, mine) && mine != []
    requires y in Ids(mine) && y < |ops| && forall z: nat :: z in pool ==> z < |ops| && ops[z].call <= ops[y].call
    requires InRange(front, |ops|) && Distinct(front) && Ordered(ops, front)
    requires mine[|mine| - 1] in pool && Ids(front) == pool - {mine[|mine| - 1]}
    ensures var q := front + [mine[|mine| - 1]];
            InRange(q, |ops|) && Distinct(q) && Ordered(ops, q) && Ids(q) == pool
  {
    var x := mine[|mine| - 1];
    assert (front + [x])[..|front|] == front;
    forall z: nat | z in Ids(front) && z < |ops| ensures !Precedes(ops, x, z) {
      LastPrecedesNothing(ops, mine, y, z);
    }
  }

  /** On every key of `orders`, `q` is the order given there. */
  ghost predicate Projects<K(!new)>(ops: seq<KvOp<K>>, q: seq<nat>, orders: map<K, seq<nat>>)
    requires InRange(q, |ops|)
  {
    forall k {:trigger OnKey(ops, q, k)} :: k in orders ==> OnKey(ops, q, k) == orders[k]
  }

  lemma MergedKeys<K(!new)>(
      ops: seq<KvOp<K>>, orders: map<K, seq<nat>>, key: K, mine: seq<nat>, x: nat, front: seq<nat>)
    requires InRange(front, |ops|) && x < |ops| && ops[x].input.key == key
    requires key in orders && orders[key] == mine + [x] && Projects(ops, front, orders[key := mine])
    ensures InRange(front + [x], |ops|) && Projects(ops, front + [x], orders)
  {
    forall k | k in orders ensures OnKey(ops, front + [x], k) == orders[k] {
      OnKeySnoc(ops, front, x, k);
      assert OnKey(ops, front, k) == orders[key := mine][k];
    }
  }

  lemma LastSplits(q: seq<nat>)
    requires q != []
    ensures q == q[..|q| - 1] + [q[|q| - 1]]
  {
  }

  lemma LastIsMember(q: seq<nat>)
    requires q != []
    ensures q[|q| - 1] in Ids(q)
  {
  }

  lemma PoolMember<K(!new)>(ops: seq<KvOp<K>>, orders: map<K, seq<nat>>, pool: set<nat>, y: nat)
    requires Pool(ops, orders, pool) && y in pool
    ensures y < |ops| && ops[y].input.key in orders
    ensures var mine := orders[ops[y].input.key]; OrderFor(ops, ops[y].input.key, mine) && y in Ids(mine) && mine != []
  {
  }

  /** Orders of the single keys that keep real time can be merged into one that does. */
  lemma {:induction false} Merge<K(!new)>(
      ops: seq<KvOp<K>>, orders: map<K, seq<nat>>, pool: set<nat>)
      returns (q: seq<nat>)
    requires WellTimed(ops) && Pool(ops, orders, pool)
    ensures InRange(q, |ops|) && Distinct(q) && Ordered(ops, q) && Ids(q) == pool
    ensures Projects(ops, q, orders)
    decreases |pool|
  {
    if pool == {} {
      q := [];
      forall key | key in orders ensures orders[key] == [] {
        if orders[key] != [] {
          PoolWithoutLast(ops, orders, pool, key);
          assert false;
        }
      }
    } else {
      var y := LatestCall(ops, pool);
      PoolMember(ops, orders, pool, y);
      var key := ops[y].input.key;
      var mine := orders[key];
      var x := mine[|mine| - 1];
      PoolWithoutLast(ops, orders, pool, key);
      var front := Merge(ops, orders[key := mine[..|mine| - 1]], pool - {x});
      MergeLast(ops, mine, pool, y, front);
      LastSplits(mine);
      LastIsMember(mine);
      MergedKeys(ops, orders, key, mine[..|mine| - 1], x, front);
      q := front + [x];
    }
  }

  // ---------- locality ----------

  ghost function Keys<K(!new)>(ops: seq<KvOp<K>>): set<K> {
    set i | 0 <= i < |ops| :: ops[i].input.key
  }

  /** `q` linearizes exactly the operations on `key`. */
  ghost predicate KeyLinearization<K(!new)>(ops: seq<KvOp<K>>, key: K, q: seq<nat>) {
    && OrderFor(ops, key, q)
    && (forall x: nat :: x < |ops| && ops[x].input.key == key ==> x in Ids(q))
    && Replay(KeyModel(), ops, q).Some?
  }

  lemma MapGivesKeys<K(!new)>(ops: seq<KvOp<K>>, q: seq<nat>, key: K)
    requires Linearization(MapModel(), ops, q)
    ensures KeyLinearization(ops, key, OnKey(ops, q, key))
  {
    OrderedIsRealTime(ops, q);
    OnKeyDistinct(ops, q, key);
    OnKeyOrdered(ops, q, key);
    OnKeyIds(ops, q, key);
    DistinctCovers(q, |ops|);
    MapReplay(ops, q);
    assert KeyReplay(ops, q, key).Some?;
  }

  lemma NothingOnKey<K(!new)>(ops: seq<KvOp<K>>, q: seq<nat>, key: K)
    requires InRange(q, |ops|) && forall x: nat :: x in Ids(q) && x < |ops| ==> ops[x].input.key != key
    ensures OnKey(ops, q, key) == []
  {
    OnKeyIds(ops, q, key);
    var r := OnKey(ops, q, key);
    assert r == [] || r[|r| - 1] in Ids(r);
  }

  lemma KeysGiveMap<K(!new)>(ops: seq<KvOp<K>>, orders: map<K, seq<nat>>)
    requires WellTimed(ops) && orders.Keys == Keys(ops)
    requires forall key :: key in orders ==> KeyLinearization(ops, key, orders[key])
    ensures Linearizable(MapModel(), ops)
  {
    var pool := AllIds(|ops|);
    forall x: nat | x < |ops| ensures ops[x].input.key in orders && x in Ids(orders[ops[x].input.key]) {
      assert ops[x].input.key in Keys(ops);
    }
    var q := Merge(ops, orders, pool);
    DistinctCardinality(q);
    AllIdsCardinality(|ops|);
    OrderedIsRealTime(ops, q);
    forall key: K ensures KeyReplay(ops, q, key).Some? {
      if key !in orders {
        NothingOnKey(ops, q, key);
      }
    }
    MapReplay(ops, q);
    assert Linearization(MapModel(), ops, q);
  }

  // ---------- the partition ----------

  /** The operations on `key`, in history order. */
  function Group<K(==)>(ops: seq<KvOp<K>>, key: K): seq<KvOp<K>> {
    if ops == [] then []
    else
      var n := |ops| - 1;
      Group(ops[..n], key) + if ops[n].input.key == key then [ops[n]] else []
  }

  /** Their positions in the history. */
  ghost function Positions<K(!new)>(ops: seq<KvOp<K>>, key: K): seq<nat> {
    if ops == [] then []
    else
      var n := |ops| - 1;
      Positions(ops[..n], key) + if ops[n].input.key == key then [n] else []
  }

  lemma {:induction false} PositionsOfGroup<K(!new)>(ops: seq<KvOp<K>>, key: K)
    ensures |Positions(ops, key)| == |Group(ops, key)| && InRange(Positions(ops, key), |ops|)
    ensures forall i :: 0 <= i < |Group(ops, key)| ==> Group(ops, key)[i] == ops[Positions(ops, key)[i]]
  {
    if ops != [] {
      PositionsOfGroup(ops[..|ops| - 1], key);
    }
  }

  lemma {:induction false} PositionsOnKey<K(!new)>(ops: seq<KvOp<K>>, key: K)
    ensures Distinct(Positions(ops, key))
    ensures forall x: nat :: x in Ids(Positions(ops, key)) <==> x < |ops| && ops[x].input.key == key
  {
    if ops != [] {
      var n := |ops| - 1;
      PositionsOnKey(ops[..n], key);
      var r := Positions(ops[..n], key);
      if ops[n].input.key == key {
        IdsSnoc(r, n);
        assert (r + [n])[..|r|] == r;
      } else {
        assert r + [] == r;
      }
    }
  }

  ghost function Through(at: seq<nat>, q: seq<nat>): (r: seq<nat>)
    requires InRange(q, |at|)
    ensures |r| == |q| && forall i :: 0 <= i < |q| ==> r[i] == at[q[i]]
  {
    seq(|q|, i requires 0 <= i < |q| => at[q[i]])
  }

  ghost predicate PartOf<K(!new)>(ops: seq<KvOp<K>>, part: seq<KvOp<K>>, at: seq<nat>) {
    && |at| == |part|
    && InRange(at, |ops|)
    && Distinct(at)
    && forall i :: 0 <= i < |part| ==> part[i] == ops[at[i]]
  }

  lemma {:induction false} ReplayThrough<K(!new)>(ops: seq<KvOp<K>>, part: seq<KvOp<K>>, at: seq<nat>, q: seq<nat>)
    requires PartOf(ops, part, at) && InRange(q, |part|)
    ensures Replay(KeyModel(), part, q) == Replay(KeyModel(), ops, Through(at, q))
  {
    if q != [] {
      var n := |q| - 1;
      ReplayThrough(ops, part, at, q[..n]);
      assert Through(at, q)[..n] == Through(at, q[..n]);
    }
  }

  lemma RealTimeThrough<K(!new)>(ops: seq<KvOp<K>>, part: seq<KvOp<K>>, at: seq<nat>, q: seq<nat>)
    requires PartOf(ops, part, at) && InRange(q, |part|)
    ensures RespectsRealTime(part, q) <==> RespectsRealTime(ops, Through(at, q))
  {
    var r := Through(at, q);
    forall i, j | 0 <= i < j < |q| ensures Precedes(part, q[j], q[i]) <==> Precedes(ops, r[j], r[i]) {
    }
  }

  lemma DistinctThrough(at: seq<nat>, q: seq<nat>)
    requires Distinct(at) && InRange(q, |at|)
    ensures Distinct(q) <==> Distinct(Through(at, q))
  {
    var r := Through(at, q);
    if Distinct(q) {
      forall i, j | 0 <= i < j < |r| ensures r[i] != r[j] {
        DistinctPairs(q, i, j);
        if q[i] < q[j] { DistinctPairs(at, q[i], q[j]); } else { DistinctPairs(at, q[j], q[i]); }
      }
      PairwiseDistinct(r);
    }
    if Distinct(r) {
      forall i, j | 0 <= i < j < |q| ensures q[i] != q[j] {
        DistinctPairs(r, i, j);
      }
      PairwiseDistinct(q);
    }
  }

  /** A linearization of the group, read in the history. */
  lemma GroupToKey<K(!new)>(ops: seq<KvOp<K>>, key: K, q: seq<nat>)
    requires Linearization(KeyModel(), Group(ops, key), q)
    ensures InRange(q, |Positions(ops, key)|)
    ensures KeyLinearization(ops, key, Through(Positions(ops, key), q))
  {
    var part, at := Group(ops, key), Positions(ops, key);
    PositionsOfGroup(ops, key);
    PositionsOnKey(ops, key);
    var r := Through(at, q);
    ReplayThrough(ops, part, at, q);
    RealTimeThrough(ops, part, at, q);
    DistinctThrough(at, q);
    OrderedIsRealTime(ops, r);
    DistinctCovers(q, |part|);
    SameMembers(at, q);
  }

  /** Reading a permutation through `at` gives the same members. */
  lemma SameMembers(at: seq<nat>, q: seq<nat>)
    requires InRange(q, |at|) && Ids(q) == AllIds(|at|)
    ensures Ids(Through(at, q)) == Ids(at)
  {
    var r := Through(at, q);
    IdsMembers(r);
    IdsMembers(at);
    IdsMembers(q);
    forall x: nat ensures x in Ids(r) <==> x in Ids(at) {
      if x in Ids(r) {
        var i :| 0 <= i < |r| && r[i] == x;
        assert at[q[i]] == x;
      }
      if x in Ids(at) {
        var k :| 0 <= k < |at| && at[k] == x;
        assert k in Ids(q);
        var i :| 0 <= i < |q| && q[i] == k;
        assert r[i] == x;
      }
    }
  }

  ghost function IndexIn(at: seq<nat>, x: nat): (i: nat)
    requires x in at
    ensures i < |at| && at[i] == x
  {
    var i :| 0 <= i < |at| && at[i] == x;
    i
  }

  /** A linearization of a key's operations, read in the group. */
  lemma KeyToGroup<K(!new)>(ops: seq<KvOp<K>>, key: K, r: seq<nat>) returns (q: seq<nat>)
    requires KeyLinearization(ops, key, r)
    ensures Linearization(KeyModel(), Group(ops, key), q)
  {
    var part, at := Group(ops, key), Positions(ops, key);
    PositionsOfGroup(ops, key);
    PositionsOnKey(ops, key);
    q := IndicesIn(at, r);
    ReplayThrough(ops, part, at, q);
    RealTimeThrough(ops, part, at, q);
    DistinctThrough(at, q);
    OrderedIsRealTime(ops, r);
    assert Ids(r) == Ids(at);
    DistinctCardinality(at);
    DistinctCardinality(r);
  }

  ghost function IndicesIn(at: seq<nat>, r: seq<nat>): (q: seq<nat>)
    requires forall x: nat :: x in Ids(r) ==> x in Ids(at)
    ensures InRange(q, |at|) && Through(at, q) == r
  {
    IdsMembers(at);
    IdsMembers(r);
    assert forall i :: 0 <= i < |r| ==> r[i] in Ids(r);
    var q := seq(|r|, i requires 0 <= i < |r| => IndexIn(at, r[i]));
    assert InRange(q, |at|);
    assert Through(at, q) == r;
    q
  }

  /** Locality: a history is linearizable against the whole map exactly when the group of every key is
      linearizable against the single-key step. */
  lemma Locality<K(!new)>(ops: seq<KvOp<K>>)
    requires WellTimed(ops)
    ensures Linearizable(MapModel(), ops) <==> forall key ::
      key in Keys(ops) ==> Linearizable(KeyModel(), Group(ops, key))
  {
    if Linearizable(MapModel(), ops) {
      var q :| Linearization(MapModel(), ops, q);
      forall key | key in Keys(ops) ensures Linearizable(KeyModel(), Group(ops, key)) {
        MapGivesKeys(ops, q, key);
        var r := KeyToGroup(ops, key, OnKey(ops, q, key));
      }
    }
    if forall key :: key in Keys(ops) ==> Linearizable(KeyModel(), Group(ops, key)) {
      forall key | key in Keys(ops) ensures exists r :: KeyLinearization(ops, key, r) {
        var q :| Linearization(KeyModel(), Group(ops, key), q);
        GroupToKey(ops, key, q);
      }
      KeysGiveMap(ops, map key | key in Keys(ops) :: KeyOrder(ops, key));
    }
  }

  ghost function KeyOrder<K(!new)>(ops: seq<KvOp<K>>, key: K): (r: seq<nat>)
    requires exists r :: KeyLinearization(ops, key, r)
    ensures KeyLinearization(ops, key, r)
  {
    var r :| KeyLinearization(ops, key, r);
    r
  }

  // ---------- KvModel.Partition ----------

  /** One part for each key, in the order of the keys: the operations on it, in history order. */
  ghost predicate Partitioned(history: seq<KvOp<string>>, keys: seq<string>, parts: seq<seq<KvOp<string>>>) {
    && SortedBy(keys, StringLess)
    && (forall key :: key in Keys(history) <==> key in keys)
    && multiset(keys) == multiset(Keys(history))
    && |parts| == |keys|
    && forall i :: 0 <= i < |parts| ==> parts[i] == Group(history, keys[i])
  }

  ghost predicate Grouped(history: seq<KvOp<string>>, m: map<string, seq<KvOp<string>>>) {
    m.Keys == Keys(history) && forall key :: key in m ==> m[key] == Group(history, key)
  }

  lemma GroupedNext(history: seq<KvOp<string>>, m: map<string, seq<KvOp<string>>>, v: KvOp<string>)
    requires Grouped(history, m)
    ensures Grouped(history + [v], m[v.input.key := (if v.input.key in m then m[v.input.key] else []) + [v]])
  {
    var h, key := history + [v], v.input.key;
    assert h[..|history|] == history;
    forall k ensures k in Keys(h) <==> k in Keys(history) || k == key {
      if k in Keys(history) {
        var i :| 0 <= i < |history| && history[i].input.key == k;
        assert h[i].input.key == k;
      }
      assert h[|history|].input.key == key;
    }
    if key !in m { NoGroup(history, key); }
    forall k | k in m && k != key ensures Group(h, k) == m[k] {
      assert Group(history, k) + [] == Group(history, k);
    }
  }

  lemma {:induction false} NoGroup<K(!new)>(ops: seq<KvOp<K>>, key: K)
    requires key !in Keys(ops)
    ensures Group(ops, key) == []
  {
    if ops != [] {
      var n := |ops| - 1;
      assert ops[n].input.key in Keys(ops);
      assert forall k :: k in Keys(ops[..n]) ==> k in Keys(ops);
      NoGroup(ops[..n], key);
    }
  }

  method GroupByKey(history: seq<KvOp<string>>) returns (m: map<string, seq<KvOp<string>>>)
    ensures Grouped(history, m)
  {
    m := map[];
    for i := 0 to |history|
      invariant Grouped(history[..i], m)
    {
      var v := history[i];
      var key := v.input.key;
      GroupedNext(history[..i], m, v);
      assert history[..i + 1] == history[..i] + [v];
      m := m[key := (if key in m then m[key] else []) + [v]];
    }
    assert history[..|history|] == history;
  }

  /** The keys of a map in whatever order it gives them. */
  method ListKeys<K(==)>(keySet: set<K>) returns (keys: seq<K>)
    ensures multiset(keys) == multiset(keySet)
  {
    keys := [];
    var left := keySet;
    while left != {}
      invariant left <= keySet && multiset(keys) + multiset(left) == multiset(keySet)
      decreases left
    {
      var k :| k in left;
      keys, left := keys + [k], left - {k};
    }
  }

  method Partition(history: seq<KvOp<string>>) returns (parts: seq<seq<KvOp<string>>>, ghost order: seq<string>)
    ensures Partitioned(history, order, parts)
  {
    var m := GroupByKey(history);
    var keys := ListKeys(m.Keys);
    StringsAreWeaklyOrdered();
    keys := Sort(keys, StringLess);
    SameElements(keys, Keys(history));
    parts := [];
    for i := 0 to |keys|
      invariant |parts| == i && forall k :: 0 <= k < i ==> parts[k] == Group(history, keys[k])
    {
      assert keys[i] in Keys(history);
      parts := parts + [m[keys[i]]];
    }
    order := keys;
  }

  lemma SameElements<T>(s: seq<T>, elements: set<T>)
    requires multiset(s) == multiset(elements)
    ensures forall x :: x in elements <==> x in s
  {
    forall x ensures x in elements <==> x in s {
      assert x in multiset(s) <==> x in s;
    }
  }

  /** What Model.Partition promises of it. */
  lemma PartitionIsLocal(history: seq<KvOp<string>>, keys: seq<string>, parts: seq<seq<KvOp<string>>>)
    requires WellTimed(history) && Partitioned(history, keys, parts)
    ensures Linearizable(MapModel(), history) <==> forall i :: 0 <= i < |parts| ==> Linearizable(KeyModel(), parts[i])
  {
    Locality(history);
    forall i | 0 <= i < |parts| ensures parts[i] == Group(history, keys[i]) && keys[i] in Keys(history) {
      assert keys[i] in keys;
    }
    if forall i :: 0 <= i < |parts| ==> Linearizable(KeyModel(), parts[i]) {
      forall key | key in Keys(history) ensures Linearizable(KeyModel(), Group(history, key)) {
        var i :| 0 <= i < |keys| && keys[i] == key;
        assert Linearizable(KeyModel(), parts[i]);
      }
    }
  }

  /** Every part keeps the times of its operations. */
  lemma PartsAreWellTimed(history: seq<KvOp<string>>, keys: seq<string>, parts: seq<seq<KvOp<string>>>, i: nat)
    requires WellTimed(history) && Partitioned(history, keys, parts) && i < |parts|
    ensures WellTimed(parts[i])
  {
    PositionsOfGroup(history, keys[i]);
  }
}
