/** The search of checkSingle, seen as values: what its variables mean at every loop head, and that
    each of the three ways round the loop keeps that meaning. The central fact is about the set of
    configurations that were cached and then backtracked out of: it is closed under every legal
    next step, so a configuration found in the cache need not be searched again. */
module Search {
  import opened Linearizability
  import opened History

  /** The operations linearized so far and the model state they lead to: a cache entry. */
  datatype Config<S> = Config(done: set<nat>, state: S)

  /** An element of the `calls` stack: the operation chosen and the state before it. */
  datatype Frame<S> = Frame(id: nat, state: S)

  /** The variables of checkSingle. `explored` is not in the program: it is the part of the cache
      that was backtracked out of. */
  datatype View<S(==)> = View(
    calls: seq<Frame<S>>,
    state: S,
    cursor: nat,
    cache: set<Config<S>>,
    explored: set<Config<S>>,
    longest: seq<Option<seq<nat>>>)

  ghost function Order<S>(calls: seq<Frame<S>>): (q: seq<nat>)
    ensures |q| == |calls|
    ensures forall i :: 0 <= i < |q| ==> q[i] == calls[i].id
  {
    seq(|calls|, i requires 0 <= i < |calls| => calls[i].id)
  }

  ghost function Done<S>(v: View<S>): set<nat> {
    Ids(Order(v.calls))
  }

  ghost function StateAt<S>(v: View<S>, k: nat): S
    requires k <= |v.calls|
  {
    if k < |v.calls| then v.calls[k].state else v.state
  }

  /** The configuration `k` calls deep on the current path. */
  ghost function ConfigAt<S>(v: View<S>, k: nat): Config<S>
    requires k <= |v.calls|
  {
    Config(Ids(Order(v.calls)[..k]), StateAt(v, k))
  }

  ghost function PathConfigs<S>(v: View<S>): set<Config<S>> {
    set k | 0 < k <= |v.calls| :: ConfigAt(v, k)
  }

  /** `c` may come next: it is not linearized, and nothing still to be linearized precedes it. */
  ghost predicate Candidate<I, O>(ops: seq<Operation<I, O>>, done: set<nat>, c: nat) {
    && c < |ops|
    && c !in done
    && forall a: nat :: a < |ops| && a !in done ==> !Precedes(ops, a, c)
  }

  ghost function Next<S, I, O>(
      model: Model<S, I, O>, ops: seq<Operation<I, O>>, cfg: Config<S>, c: nat): Option<Config<S>>
    requires c < |ops|
  {
    var (ok, s) := model.step(cfg.state, ops[c].input, ops[c].output);
    if ok then Some(Config(cfg.done + {c}, s)) else None
  }

  /** The first entry at or after `i` that is still in the list. */
  ghost function NextLive<I, O>(h: seq<Entry<I, O>>, done: set<nat>, i: nat): (j: nat)
    requires i <= |h|
    ensures i <= j <= |h|
    ensures j < |h| ==> h[j].id !in done
    ensures forall k :: i <= k < j ==> h[k].id in done
    decreases |h| - i
  {
    if i == |h| || h[i].id !in done then i else NextLive(h, done, i + 1)
  }

  // ---------- the invariant ----------

  /** The stack is a partial linearization, with the states it passes through. */
  ghost predicate PathOk<S, I, O>(model: Model<S, I, O>, ops: seq<Operation<I, O>>, v: View<S>) {
    var q := Order(v.calls);
    && PartialLinearization(model, ops, q)
    && forall k :: 0 <= k <= |q| ==> Replay(model, ops, q[..k]) == Some(StateAt(v, k))
  }

  /** The cursor is on an entry still in the list, with no return still in the list before it. */
  ghost predicate CursorOk<S, I, O>(h: seq<Entry<I, O>>, v: View<S>) {
    && v.cursor <= |h|
    && (v.cursor < |h| ==> h[v.cursor].id !in Done(v))
    && forall i :: 0 <= i < v.cursor && h[i].ReturnEntry? ==> h[i].id in Done(v)
  }

  /** Every legal step of `cfg` by an operation called before `limit` leads to an explored configuration. */
  ghost predicate Tried<S, I, O>(model: Model<S, I, O>, ops: seq<Operation<I, O>>,
                                 explored: set<Config<S>>, cfg: Config<S>, limit: int) {
    forall c: nat :: Candidate(ops, cfg.done, c) && ops[c].call < limit && Next(model, ops, cfg, c).Some?
      ==> Next(model, ops, cfg, c).value in explored
  }

  ghost function Limit<S, I, O>(ops: seq<Operation<I, O>>, v: View<S>, k: nat): int
    requires k <= |v.calls|
    requires InRange(Order(v.calls), |ops|)
  {
    if k < |v.calls| then ops[Order(v.calls)[k]].call else v.cursor
  }

  ghost predicate AllTried<S, I, O>(model: Model<S, I, O>, ops: seq<Operation<I, O>>, v: View<S>)
    requires InRange(Order(v.calls), |ops|)
  {
    forall k :: 0 <= k <= |v.calls| ==> Tried(model, ops, v.explored, ConfigAt(v, k), Limit(ops, v, k))
  }

  /** Explored configurations are incomplete, and every legal step from one leads to another. */
  ghost predicate Closed<S, I, O>(model: Model<S, I, O>, ops: seq<Operation<I, O>>, explored: set<Config<S>>) {
    forall cfg :: cfg in explored ==>
      && cfg.done < AllIds(|ops|)
      && Tried(model, ops, explored, cfg, 2 * |ops|)
  }

  ghost predicate LongestSound<S, I, O>(
      model: Model<S, I, O>, ops: seq<Operation<I, O>>, longest: seq<Option<seq<nat>>>) {
    && |longest| == |ops|
    && forall id :: 0 <= id < |longest| && longest[id].Some? ==>
         PartialLinearization(model, ops, longest[id].value) && id in Ids(longest[id].value)
  }

  ghost predicate Covered(longest: seq<Option<seq<nat>>>, done: set<nat>, id: nat) {
    id < |longest| && longest[id].Some? && |longest[id].value| >= |done|
  }

  /** For every explored configuration, each member has a recorded linearization at least as long. */
  ghost predicate LongestCovers<S>(explored: set<Config<S>>, longest: seq<Option<seq<nat>>>) {
    forall cfg, id: nat :: cfg in explored && id in cfg.done ==> Covered(longest, cfg.done, id)
  }

  /** All configurations that can be reached in at most `k` steps, legal or not: a finite set. */
  ghost function Configs<S, I, O>(model: Model<S, I, O>, ops: seq<Operation<I, O>>, k: nat): set<Config<S>> {
    if k == 0 then {Config({}, model.init)}
    else
      var prev := Configs(model, ops, k - 1);
      prev + (set cfg, c | cfg in prev && c in AllIds(|ops|) && Next(model, ops, cfg, c).Some? ::
        Next(model, ops, cfg, c).value)
  }

  /** What holds at every loop head of checkSingle. */
  ghost predicate Inv<S, I, O>(model: Model<S, I, O>, h: seq<Entry<I, O>>, computePartial: bool, v: View<S>)
    requires WellFormed(h)
  {
    var ops := OpsOf(h);
    && PathOk(model, ops, v)
    && CursorOk(h, v)
    && v.cache == v.explored + PathConfigs(v)
    && v.cache <= Configs(model, ops, |ops|)
    && Closed(model, ops, v.explored)
    && AllTried(model, ops, v)
    && LongestSound(model, ops, v.longest)
    && (computePartial ==> LongestCovers(v.explored, v.longest))
  }

  // ---------- configurations ----------

  lemma {:induction false} ConfigsGrow<S, I, O>(model: Model<S, I, O>, ops: seq<Operation<I, O>>, k: nat, m: nat)
    requires k <= m
    ensures Configs(model, ops, k) <= Configs(model, ops, m)
    decreases m
  {
    if k < m { ConfigsGrow(model, ops, k, m - 1); }
  }

  lemma NextInConfigs<S, I, O>(model: Model<S, I, O>, ops: seq<Operation<I, O>>, k: nat, cfg: Config<S>, c: nat)
    requires cfg in Configs(model, ops, k) && c < |ops| && Next(model, ops, cfg, c).Some?
    ensures Next(model, ops, cfg, c).value in Configs(model, ops, k + 1)
  {
    assert c in AllIds(|ops|);
  }

  /** Adding a candidate to a partial linearization. */
  lemma SnocPartial<S, I, O>(model: Model<S, I, O>, ops: seq<Operation<I, O>>, q: seq<nat>, c: nat, s: S)
    requires PartialLinearization(model, ops, q) && Candidate(ops, Ids(q), c)
    requires model.step(Replay(model, ops, q).value, ops[c].input, ops[c].output) == (true, s)
    ensures PartialLinearization(model, ops, q + [c])
    ensures Replay(model, ops, q + [c]) == Some(s)
    ensures Ids(q + [c]) == Ids(q) + {c}
  {
    var r := q + [c];
    assert r[..|q|] == q;
    forall a: nat, j | a < |ops| && 0 <= j < |r| && Precedes(ops, a, r[j]) ensures a in Ids(r[..j]) {
      if j < |q| {
        assert r[..j] == q[..j];
        assert Precedes(ops, a, q[j]);
      }
    }
  }

  /** The last operation of a partial linearization was a candidate, and its step legal. */
  lemma UnsnocPartial<S, I, O>(model: Model<S, I, O>, ops: seq<Operation<I, O>>, q: seq<nat>)
    requires PartialLinearization(model, ops, q) && q != []
    ensures var front, c := q[..|q| - 1], q[|q| - 1];
            && PartialLinearization(model, ops, front)
            && Candidate(ops, Ids(front), c)
            && Ids(q) == Ids(front) + {c}
            && Next(model, ops, Config(Ids(front), Replay(model, ops, front).value), c)
                 == Some(Config(Ids(q), Replay(model, ops, q).value))
  {
    var front, c := q[..|q| - 1], q[|q| - 1];
    forall a: nat, j | a < |ops| && 0 <= j < |front| && Precedes(ops, a, front[j]) ensures a in Ids(front[..j]) {
      assert front[..j] == q[..j];
      assert Precedes(ops, a, q[j]);
    }
  }

  lemma {:induction false} ReplayedConfig<S, I, O>(model: Model<S, I, O>, ops: seq<Operation<I, O>>, q: seq<nat>)
    requires PartialLinearization(model, ops, q)
    ensures Config(Ids(q), Replay(model, ops, q).value) in Configs(model, ops, |q|)
    decreases |q|
  {
    if q == [] {
      assert Ids(q) == {};
    } else {
      var front, c := q[..|q| - 1], q[|q| - 1];
      UnsnocPartial(model, ops, q);
      ReplayedConfig(model, ops, front);
      NextInConfigs(model, ops, |front|, Config(Ids(front), Replay(model, ops, front).value), c);
    }
  }

  lemma PartialIsBounded<S, I, O>(model: Model<S, I, O>, ops: seq<Operation<I, O>>, q: seq<nat>)
    requires PartialLinearization(model, ops, q)
    ensures |q| <= |ops|
    ensures Config(Ids(q), Replay(model, ops, q).value) in Configs(model, ops, |ops|)
  {
    DistinctCardinality(q);
    IdsInRange(q, |ops|);
    AllIdsCardinality(|ops|);
    SubsetNoLarger(Ids(q), AllIds(|ops|));
    ReplayedConfig(model, ops, q);
    ConfigsGrow(model, ops, |q|, |ops|);
  }

  /** A configuration one step beyond the path is not on the path. */
  lemma BeyondPath<S>(v: View<S>, cfg: Config<S>)
    requires Distinct(Order(v.calls)) && |cfg.done| > |v.calls|
    ensures cfg !in PathConfigs(v)
  {
    forall k | 0 < k <= |v.calls| ensures ConfigAt(v, k) != cfg {
      DistinctPrefix(Order(v.calls), k);
      DistinctCardinality(Order(v.calls)[..k]);
    }
  }

  /** A call under the cursor may come next. */
  lemma CursorIsCandidate<S, I, O>(h: seq<Entry<I, O>>, v: View<S>)
    requires WellFormed(h) && CursorOk(h, v) && v.cursor < |h| && h[v.cursor].CallEntry?
    ensures Candidate(OpsOf(h), Done(v), h[v.cursor].id)
    ensures OpsOf(h)[h[v.cursor].id].call == v.cursor
  {
    PositionsAreUnique(h, v.cursor);
  }

  /** With a return under the cursor, every candidate was called before the cursor. */
  lemma ReturnClosesWindow<S, I, O>(h: seq<Entry<I, O>>, v: View<S>, c: nat)
    requires WellFormed(h) && CursorOk(h, v) && v.cursor < |h| && h[v.cursor].ReturnEntry?
    requires Candidate(OpsOf(h), Done(v), c)
    ensures OpsOf(h)[c].call < v.cursor
  {
    var a := h[v.cursor].id;
    PositionsAreUnique(h, v.cursor);
    assert !Precedes(OpsOf(h), a, c);
  }

  /** An operation that is not linearized and not called before `i` is called no earlier than the
      first entry left at or after `i`. */
  lemma NotDoneIsLater<I, O>(h: seq<Entry<I, O>>, done: set<nat>, i: nat, c: nat)
    requires WellFormed(h) && i <= |h| && c < |h| / 2
    ensures i <= OpsOf(h)[c].call && c !in done ==> NextLive(h, done, i) <= OpsOf(h)[c].call
  {
  }

  lemma {:induction false} TopStep<S, I, O>(model: Model<S, I, O>, ops: seq<Operation<I, O>>, v: View<S>)
    requires PathOk(model, ops, v) && v.calls != []
    ensures var d := |v.calls|; var c := v.calls[d - 1].id;
            Next(model, ops, ConfigAt(v, d - 1), c) == Some(ConfigAt(v, d))
  {
    var d, q := |v.calls|, Order(v.calls);
    TakeOneMore(q, d);
    IdsSnoc(q[..d - 1], q[d - 1]);
  }

  lemma TakeOneMore(q: seq<nat>, d: nat)
    requires 0 < d <= |q|
    ensures q[..d] == q[..d - 1] + [q[d - 1]] && q[..d][..d - 1] == q[..d - 1]
  {}

  lemma TopIsCandidate<S, I, O>(model: Model<S, I, O>, ops: seq<Operation<I, O>>, v: View<S>)
    requires PathOk(model, ops, v) && v.calls != []
    ensures var d := |v.calls|; Candidate(ops, Ids(Order(v.calls)[..d - 1]), v.calls[d - 1].id)
  {
    var d, q := |v.calls|, Order(v.calls);
    assert q[..d] == q;
    UnsnocPartial(model, ops, q);
  }

  // ---------- the loop keeps the invariant ----------

  ghost function InitialView<S, I, O>(model: Model<S, I, O>, h: seq<Entry<I, O>>): View<S>
    requires WellFormed(h)
  {
    View([], model.init, 0, {}, {}, seq(|h| / 2, _ => None))
  }

  lemma InitialInv<S, I, O>(model: Model<S, I, O>, h: seq<Entry<I, O>>, computePartial: bool)
    requires WellFormed(h)
    ensures Inv(model, h, computePartial, InitialView(model, h))
  {
    var ops := OpsOf(h);
    forall c: nat | Candidate(ops, {}, c) ensures ops[c].call >= 0 {
    }
  }

  /** The step that fails, or whose configuration is in the cache, is skipped. */
  ghost function SkipView<S, I, O>(h: seq<Entry<I, O>>, v: View<S>): View<S>
    requires v.cursor < |h|
  {
    v.(cursor := NextLive(h, Done(v), v.cursor + 1))
  }

  lemma SkipTried<S, I, O>(model: Model<S, I, O>, h: seq<Entry<I, O>>, v: View<S>, c: nat)
    requires WellFormed(h) && CursorOk(h, v) && v.cursor < |h| && h[v.cursor].CallEntry?
    requires Distinct(Order(v.calls))
    requires v.cache == v.explored + PathConfigs(v)
    requires c < |OpsOf(h)| && Candidate(OpsOf(h), Done(v), c) && OpsOf(h)[c].call < SkipView(h, v).cursor
    requires var cfg := Config(Done(v), v.state);
             && Tried(model, OpsOf(h), v.explored, cfg, v.cursor)
             && (c == h[v.cursor].id ==> Next(model, OpsOf(h), cfg, c).Some? ==>
                 Next(model, OpsOf(h), cfg, c).value in v.cache)
    ensures var next := Next(model, OpsOf(h), Config(Done(v), v.state), c); next.Some? ==> next.value in v.explored
  {
    var ops, next := OpsOf(h), Next(model, OpsOf(h), Config(Done(v), v.state), c);
    NotDoneIsLater(h, Done(v), v.cursor + 1, c);
    assert ops[c].call <= v.cursor;
    if ops[c].call == v.cursor && next.Some? {
      assert c == h[v.cursor].id;
      BeyondPathNext(v, c, next.value.state);
    }
  }

  lemma BeyondPathNext<S>(v: View<S>, c: nat, s: S)
    requires Distinct(Order(v.calls)) && c !in Done(v)
    ensures Config(Done(v) + {c}, s) !in PathConfigs(v)
  {
    DistinctCardinality(Order(v.calls));
    BeyondPath(v, Config(Done(v) + {c}, s));
  }

  lemma SkipTopTried<S, I, O>(model: Model<S, I, O>, h: seq<Entry<I, O>>, v: View<S>)
    requires WellFormed(h) && CursorOk(h, v) && v.cursor < |h| && h[v.cursor].CallEntry?
    requires Distinct(Order(v.calls)) && v.cache == v.explored + PathConfigs(v)
    requires Tried(model, OpsOf(h), v.explored, Config(Done(v), v.state), v.cursor)
    requires var next := Next(model, OpsOf(h), Config(Done(v), v.state), h[v.cursor].id);
             next.None? || next.value in v.cache
    ensures Tried(model, OpsOf(h), v.explored, Config(Done(v), v.state), SkipView(h, v).cursor)
  {
    var ops, cfg := OpsOf(h), Config(Done(v), v.state);
    forall c: nat | Candidate(ops, cfg.done, c) && ops[c].call < SkipView(h, v).cursor && Next(model, ops, cfg, c).Some?
      ensures Next(model, ops, cfg, c).value in v.explored
    {
      SkipTried(model, h, v, c);
    }
  }

  lemma SkipAllTried<S, I, O>(model: Model<S, I, O>, h: seq<Entry<I, O>>, v: View<S>)
    requires WellFormed(h) && CursorOk(h, v) && v.cursor < |h| && h[v.cursor].CallEntry?
    requires Distinct(Order(v.calls)) && InRange(Order(v.calls), |OpsOf(h)|)
    requires v.cache == v.explored + PathConfigs(v)
    requires AllTried(model, OpsOf(h), v)
    requires var next := Next(model, OpsOf(h), ConfigAt(v, |v.calls|), h[v.cursor].id);
             next.None? || next.value in v.cache
    ensures AllTried(model, OpsOf(h), SkipView(h, v))
  {
    var ops, v', d := OpsOf(h), SkipView(h, v), |v.calls|;
    PathTop(v);
    assert Tried(model, ops, v.explored, ConfigAt(v, d), Limit(ops, v, d));
    SkipTopTried(model, h, v);
    forall k | 0 <= k <= d ensures Tried(model, ops, v'.explored, ConfigAt(v', k), Limit(ops, v', k)) {
      assert ConfigAt(v', k) == ConfigAt(v, k);
      assert Tried(model, ops, v.explored, ConfigAt(v, k), Limit(ops, v, k));
    }
  }

  lemma SkipCursor<S, I, O>(h: seq<Entry<I, O>>, v: View<S>)
    requires WellFormed(h) && CursorOk(h, v) && v.cursor < |h| && h[v.cursor].CallEntry?
    ensures CursorOk(h, SkipView(h, v))
    ensures v.cursor < SkipView(h, v).cursor < |h|
  {
    CallBeforeReturn(h, h[v.cursor].id);
    PositionsAreUnique(h, v.cursor);
  }

  lemma SkipKeepsInv<S, I, O>(model: Model<S, I, O>, h: seq<Entry<I, O>>, computePartial: bool, v: View<S>)
    requires WellFormed(h) && Inv(model, h, computePartial, v)
    requires v.cursor < |h| && h[v.cursor].CallEntry?
    requires var next := Next(model, OpsOf(h), ConfigAt(v, |v.calls|), h[v.cursor].id);
             next.None? || next.value in v.cache
    ensures Inv(model, h, computePartial, SkipView(h, v))
    ensures v.cursor < SkipView(h, v).cursor < |h|
  {
    SkipAllTried(model, h, v);
    SkipCursor(h, v);
    SamePath(model, OpsOf(h), v, SkipView(h, v));
  }

  lemma PathTop<S>(v: View<S>)
    ensures ConfigAt(v, |v.calls|) == Config(Done(v), v.state)
  {
    assert Order(v.calls)[..|v.calls|] == Order(v.calls);
  }

  lemma SamePath<S, I, O>(model: Model<S, I, O>, ops: seq<Operation<I, O>>, v: View<S>, v': View<S>)
    requires PathOk(model, ops, v) && v'.calls == v.calls && v'.state == v.state
    ensures PathOk(model, ops, v') && PathConfigs(v') == PathConfigs(v)
  {
    assert forall k :: 0 <= k <= |v.calls| ==> StateAt(v', k) == StateAt(v, k);
    assert forall k :: 0 < k <= |v.calls| ==> ConfigAt(v', k) == ConfigAt(v, k);
  }

  /** A legal step to a configuration not in the cache is taken. */
  ghost function PushView<S, I, O>(h: seq<Entry<I, O>>, v: View<S>, s: S): View<S>
    requires v.cursor < |h| && h[v.cursor].id >= 0
  {
    var id := h[v.cursor].id;
    View(v.calls + [Frame(id, v.state)], s, NextLive(h, Done(v) + {id}, 0),
         v.cache + {Config(Done(v) + {id}, s)}, v.explored, v.longest)
  }

  lemma PushedPath<S, I, O>(model: Model<S, I, O>, ops: seq<Operation<I, O>>, v: View<S>, id: nat, s: S, v': View<S>)
    requires PathOk(model, ops, v) && Candidate(ops, Done(v), id)
    requires Next(model, ops, Config(Done(v), v.state), id) == Some(Config(Done(v) + {id}, s))
    requires v'.calls == v.calls + [Frame(id, v.state)] && v'.state == s
    ensures PathOk(model, ops, v')
    ensures Order(v'.calls) == Order(v.calls) + [id]
    ensures Done(v') == Done(v) + {id}
    ensures forall k :: 0 <= k <= |v.calls| ==> ConfigAt(v', k) == ConfigAt(v, k)
    ensures ConfigAt(v', |v'.calls|) == Config(Done(v) + {id}, s)
  {
    var d, q, q' := |v.calls|, Order(v.calls), Order(v'.calls);
    assert q' == q + [id];
    assert q[..d] == q && q'[..d + 1] == q';
    assert forall k :: 0 <= k <= d ==> q'[..k] == q[..k];
    assert Replay(model, ops, q[..d]) == Some(v.state);
    SnocPartial(model, ops, q, id, s);
    forall k | 0 <= k <= d + 1 ensures Replay(model, ops, q'[..k]) == Some(StateAt(v', k)) {
      if k <= d { assert Replay(model, ops, q[..k]) == Some(StateAt(v, k)); }
    }
  }

  lemma PushedPathConfigs<S>(v: View<S>, v': View<S>, cfg: Config<S>)
    requires |v'.calls| == |v.calls| + 1
    requires forall k :: 0 <= k <= |v.calls| ==> ConfigAt(v', k) == ConfigAt(v, k)
    requires ConfigAt(v', |v'.calls|) == cfg
    ensures PathConfigs(v') == PathConfigs(v) + {cfg}
  {
    var d := |v.calls|;
    forall k | 0 < k <= d + 1 ensures ConfigAt(v', k) in PathConfigs(v) + {cfg} {
      if k <= d { assert ConfigAt(v', k) == ConfigAt(v, k); }
    }
    forall c | c in PathConfigs(v) ensures c in PathConfigs(v') {
      var k :| 0 < k <= d && c == ConfigAt(v, k);
      assert c == ConfigAt(v', k);
    }
  }

  lemma PushedTried<S, I, O>(model: Model<S, I, O>, h: seq<Entry<I, O>>, v: View<S>, v': View<S>)
    requires WellFormed(h) && InRange(Order(v.calls), |OpsOf(h)|) && AllTried(model, OpsOf(h), v)
    requires v.cursor < |h| && h[v.cursor].CallEntry? && Order(v'.calls) == Order(v.calls) + [h[v.cursor].id]
    requires forall k :: 0 <= k <= |v.calls| ==> ConfigAt(v', k) == ConfigAt(v, k)
    requires v'.explored == v.explored && v'.cursor == NextLive(h, Done(v'), 0)
    ensures InRange(Order(v'.calls), |OpsOf(h)|) && AllTried(model, OpsOf(h), v')
  {
    var ops, d := OpsOf(h), |v.calls|;
    PositionsAreUnique(h, v.cursor);
    PathTop(v');
    forall k | 0 <= k <= d + 1 ensures Tried(model, ops, v'.explored, ConfigAt(v', k), Limit(ops, v', k)) {
      if k <= d {
        assert Tried(model, ops, v.explored, ConfigAt(v, k), Limit(ops, v, k));
        assert Limit(ops, v', k) == Limit(ops, v, k);
      } else {
        forall c: nat | Candidate(ops, Done(v'), c) ensures ops[c].call >= v'.cursor {
          NotDoneIsLater(h, Done(v'), 0, c);
        }
      }
    }
  }

  lemma PushKeepsInv<S, I, O>(model: Model<S, I, O>, h: seq<Entry<I, O>>, computePartial: bool, v: View<S>, s: S)
    requires WellFormed(h) && Inv(model, h, computePartial, v)
    requires v.cursor < |h| && h[v.cursor].CallEntry?
    requires var cfg := Config(Done(v) + {h[v.cursor].id}, s);
             Next(model, OpsOf(h), Config(Done(v), v.state), h[v.cursor].id) == Some(cfg) && cfg !in v.cache
    ensures Inv(model, h, computePartial, PushView(h, v, s))
    ensures v.cache < PushView(h, v, s).cache
  {
    var ops, v' := OpsOf(h), PushView(h, v, s);
    var id := h[v.cursor].id;
    var cfg := Config(Done(v) + {id}, s);
    CursorIsCandidate(h, v);
    PushedPath(model, ops, v, id, s, v');
    PathTop(v');
    assert Order(v'.calls)[..|v'.calls|] == Order(v'.calls);
    PartialIsBounded(model, ops, Order(v'.calls));
    PushedPathConfigs(v, v', cfg);
    PushedTried(model, h, v, v');
  }

  /** The recorded linearizations after the stack `q` met a return entry. */
  ghost function UpdateLongest(longest: seq<Option<seq<nat>>>, q: seq<nat>): (r: seq<Option<seq<nat>>>)
    ensures |r| == |longest|
    ensures forall id :: 0 <= id < |r| ==>
              r[id] == if id in Ids(q) && (longest[id].None? || |q| > |longest[id].value|) then Some(q) else longest[id]
  {
    seq(|longest|, id requires 0 <= id < |longest| =>
      if id in Ids(q) && (longest[id].None? || |q| > |longest[id].value|) then Some(q) else longest[id])
  }

  /** With a return under the cursor nothing is left to try here: the top call is undone. */
  ghost function PopView<S, I, O>(h: seq<Entry<I, O>>, computePartial: bool, v: View<S>): View<S>
    requires WellFormed(h) && v.calls != [] && InRange(Order(v.calls), |h| / 2)
  {
    var d, q := |v.calls|, Order(v.calls);
    View(v.calls[..d - 1], v.calls[d - 1].state, NextLive(h, Ids(q[..d - 1]), CallPos(h, q[d - 1]) + 1),
         v.cache, v.explored + {ConfigAt(v, d)}, if computePartial then UpdateLongest(v.longest, q) else v.longest)
  }

  lemma TriedMore<S, I, O>(
      model: Model<S, I, O>, ops: seq<Operation<I, O>>, explored: set<Config<S>>, more: set<Config<S>>,
      cfg: Config<S>, limit: int)
    requires Tried(model, ops, explored, cfg, limit) && explored <= more
    ensures Tried(model, ops, more, cfg, limit)
  {
  }

  lemma PoppedPath<S, I, O>(model: Model<S, I, O>, ops: seq<Operation<I, O>>, v: View<S>, v': View<S>)
    requires PathOk(model, ops, v) && v.calls != []
    requires v'.calls == v.calls[..|v.calls| - 1] && v'.state == v.calls[|v.calls| - 1].state
    ensures PathOk(model, ops, v')
    ensures Order(v'.calls) == Order(v.calls)[..|v.calls| - 1]
    ensures forall k :: 0 <= k < |v.calls| ==> ConfigAt(v', k) == ConfigAt(v, k)
  {
    var d, q, q' := |v.calls|, Order(v.calls), Order(v'.calls);
    assert q' == q[..d - 1];
    assert forall k :: 0 <= k < d ==> q'[..k] == q[..k];
    assert q'[..d - 1] == q';
    assert Replay(model, ops, q[..d - 1]).Some?;
  }

  /** The configuration being left is explored: every legal step from it is. */
  lemma LeavingIsExplored<S, I, O>(model: Model<S, I, O>, h: seq<Entry<I, O>>, v: View<S>)
    requires WellFormed(h) && PathOk(model, OpsOf(h), v) && CursorOk(h, v) && AllTried(model, OpsOf(h), v)
    requires v.cursor < |h| && h[v.cursor].ReturnEntry?
    ensures var cfg := ConfigAt(v, |v.calls|);
            cfg.done < AllIds(|OpsOf(h)|) && Tried(model, OpsOf(h), v.explored, cfg, |h|)
  {
    var ops, d := OpsOf(h), |v.calls|;
    var cfg := ConfigAt(v, d);
    assert Order(v.calls)[..d] == Order(v.calls);
    IdsInRange(Order(v.calls), |ops|);
    assert h[v.cursor].id in AllIds(|ops|) && h[v.cursor].id !in cfg.done;
    assert Tried(model, ops, v.explored, cfg, Limit(ops, v, d));
    forall c: nat | Candidate(ops, cfg.done, c) ensures ops[c].call < v.cursor {
      ReturnClosesWindow(h, v, c);
    }
  }

  /** Coming back to a configuration after its step by `id` was explored. */
  lemma TriedThrough<S, I, O>(
      model: Model<S, I, O>, h: seq<Entry<I, O>>, explored: set<Config<S>>, cfg: Config<S>, id: nat)
    requires WellFormed(h) && id < |OpsOf(h)|
    requires Tried(model, OpsOf(h), explored, cfg, CallPos(h, id))
    requires var next := Next(model, OpsOf(h), cfg, id); next.Some? && next.value in explored
    ensures Tried(model, OpsOf(h), explored, cfg, NextLive(h, cfg.done, CallPos(h, id) + 1))
  {
    var ops, i := OpsOf(h), CallPos(h, id) + 1;
    forall c: nat | Candidate(ops, cfg.done, c) && ops[c].call < NextLive(h, cfg.done, i)
      ensures ops[c].call < CallPos(h, id) || c == id
    {
      NotDoneIsLater(h, cfg.done, i, c);
    }
  }

  lemma PoppedTried<S, I, O>(model: Model<S, I, O>, h: seq<Entry<I, O>>, v: View<S>, v': View<S>)
    requires WellFormed(h) && PathOk(model, OpsOf(h), v) && AllTried(model, OpsOf(h), v) && v.calls != []
    requires Order(v'.calls) == Order(v.calls)[..|v.calls| - 1]
    requires forall k :: 0 <= k < |v.calls| ==> ConfigAt(v', k) == ConfigAt(v, k)
    requires v'.explored == v.explored + {ConfigAt(v, |v.calls|)}
    requires v'.cursor == NextLive(h, Done(v'), CallPos(h, v.calls[|v.calls| - 1].id) + 1)
    ensures AllTried(model, OpsOf(h), v')
  {
    var ops, d := OpsOf(h), |v.calls|;
    forall k | 0 <= k <= d - 1 ensures Tried(model, ops, v'.explored, ConfigAt(v', k), Limit(ops, v', k)) {
      assert Tried(model, ops, v.explored, ConfigAt(v, k), Limit(ops, v, k));
      TriedMore(model, ops, v.explored, v'.explored, ConfigAt(v, k), Limit(ops, v, k));
      if k == d - 1 {
        TopStep(model, ops, v);
        PathTop(v');
        TriedThrough(model, h, v'.explored, ConfigAt(v', k), v.calls[d - 1].id);
      }
    }
  }

  lemma PoppedCursor<S, I, O>(model: Model<S, I, O>, h: seq<Entry<I, O>>, v: View<S>, v': View<S>)
    requires WellFormed(h) && PathOk(model, OpsOf(h), v) && v.calls != []
    requires Order(v'.calls) == Order(v.calls)[..|v.calls| - 1]
    requires v'.cursor == NextLive(h, Done(v'), CallPos(h, v.calls[|v.calls| - 1].id) + 1)
    ensures CursorOk(h, v') && v'.cursor < |h|
  {
    var ops, id := OpsOf(h), v.calls[|v.calls| - 1].id;
    TopIsCandidate(model, ops, v);
    CallBeforeReturn(h, id);
    forall i | 0 <= i < v'.cursor && h[i].ReturnEntry? ensures h[i].id in Done(v') {
      PositionsAreUnique(h, i);
      assert i < CallPos(h, id) <==> Precedes(ops, h[i].id, id);
    }
  }

  lemma PoppedClosed<S, I, O>(
      model: Model<S, I, O>, ops: seq<Operation<I, O>>, explored: set<Config<S>>, cfg: Config<S>)
    requires Closed(model, ops, explored)
    requires cfg.done < AllIds(|ops|) && Tried(model, ops, explored, cfg, 2 * |ops|)
    ensures Closed(model, ops, explored + {cfg})
  {
    forall c | c in explored + {cfg}
      ensures c.done < AllIds(|ops|) && Tried(model, ops, explored + {cfg}, c, 2 * |ops|)
    {
      TriedMore(model, ops, explored, explored + {cfg}, c, 2 * |ops|);
    }
  }

  lemma UpdateIsSound<S, I, O>(
      model: Model<S, I, O>, ops: seq<Operation<I, O>>, longest: seq<Option<seq<nat>>>, q: seq<nat>)
    requires LongestSound(model, ops, longest) && PartialLinearization(model, ops, q)
    ensures LongestSound(model, ops, UpdateLongest(longest, q))
  {
  }

  lemma UpdateCoversOne(longest: seq<Option<seq<nat>>>, q: seq<nat>, done: set<nat>, id: nat)
    requires InRange(q, |longest|) && Distinct(q) && id in done
    requires done == Ids(q) || Covered(longest, done, id)
    ensures Covered(UpdateLongest(longest, q), done, id)
  {
    DistinctCardinality(q);
    IdsInRange(q, |longest|);
    assert done == Ids(q) ==> id in AllIds(|longest|);
  }

  lemma UpdateCovers<S>(explored: set<Config<S>>, longest: seq<Option<seq<nat>>>, q: seq<nat>, s: S)
    requires LongestCovers(explored, longest) && InRange(q, |longest|) && Distinct(q)
    ensures LongestCovers(explored + {Config(Ids(q), s)}, UpdateLongest(longest, q))
  {
    forall cfg, id: nat | cfg in explored + {Config(Ids(q), s)} && id in cfg.done
      ensures Covered(UpdateLongest(longest, q), cfg.done, id)
    {
      assert cfg in explored ==> Covered(longest, cfg.done, id);
      UpdateCoversOne(longest, q, cfg.done, id);
    }
  }

  lemma LongestAfterPop<S, I, O>(model: Model<S, I, O>, ops: seq<Operation<I, O>>, v: View<S>)
    requires PathOk(model, ops, v)
    requires LongestSound(model, ops, v.longest) && LongestCovers(v.explored, v.longest)
    ensures var longest := UpdateLongest(v.longest, Order(v.calls));
            && LongestSound(model, ops, longest)
            && LongestCovers(v.explored + {ConfigAt(v, |v.calls|)}, longest)
  {
    PathTop(v);
    UpdateIsSound(model, ops, v.longest, Order(v.calls));
    UpdateCovers(v.explored, v.longest, Order(v.calls), v.state);
  }

  lemma PopKeepsInv<S, I, O>(model: Model<S, I, O>, h: seq<Entry<I, O>>, computePartial: bool, v: View<S>)
    requires WellFormed(h) && Inv(model, h, computePartial, v)
    requires v.cursor < |h| && h[v.cursor].ReturnEntry? && v.calls != []
    ensures Inv(model, h, computePartial, PopView(h, computePartial, v))
    ensures PopView(h, computePartial, v).cursor < |h|
  {
    PoppedPath(model, OpsOf(h), v, PopView(h, computePartial, v));
    PopKeepsInvAux(model, h, computePartial, v, PopView(h, computePartial, v));
  }

  lemma PopKeepsInvAux<S, I, O>(
      model: Model<S, I, O>, h: seq<Entry<I, O>>, computePartial: bool, v: View<S>, v': View<S>)
    requires WellFormed(h) && Inv(model, h, computePartial, v)
    requires v.cursor < |h| && h[v.cursor].ReturnEntry? && v.calls != []
    requires PathOk(model, OpsOf(h), v') && Order(v'.calls) == Order(v.calls)[..|v.calls| - 1]
    requires forall k :: 0 <= k < |v.calls| ==> ConfigAt(v', k) == ConfigAt(v, k)
    requires v'.cursor == NextLive(h, Done(v'), CallPos(h, v.calls[|v.calls| - 1].id) + 1)
    requires v'.explored == v.explored + {ConfigAt(v, |v.calls|)} && v'.cache == v.cache
    requires v'.longest == if computePartial then UpdateLongest(v.longest, Order(v.calls)) else v.longest
    ensures Inv(model, h, computePartial, v') && v'.cursor < |h|
  {
    var ops, cfg := OpsOf(h), ConfigAt(v, |v.calls|);
    PoppedTried(model, h, v, v');
    PoppedCursor(model, h, v, v');
    LeavingIsExplored(model, h, v);
    PoppedClosed(model, ops, v.explored, cfg);
    PushedPathConfigs(v', v, cfg);
    MoveAcross(v.explored, PathConfigs(v'), cfg);
    if computePartial {
      LongestAfterPop(model, ops, v);
    }
  }

  lemma MoveAcross<T>(a: set<T>, b: set<T>, x: T)
    ensures a + (b + {x}) == (a + {x}) + b
  {
  }

  // ---------- what the two ways out of the loop mean ----------

  /** Nothing is left in the list: the stack is a linearization. */
  lemma EmptyListIsLinearization<S, I, O>(model: Model<S, I, O>, h: seq<Entry<I, O>>, v: View<S>)
    requires WellFormed(h) && PathOk(model, OpsOf(h), v)
    requires NextLive(h, Done(v), 0) == |h|
    ensures Linearization(model, OpsOf(h), Order(v.calls))
  {
    var ops, q := OpsOf(h), Order(v.calls);
    forall id: nat | id < |ops| ensures id in Ids(q) {
      assert h[CallPos(h, id)].id in Done(v);
    }
    IdsInRange(q, |ops|);
    assert Ids(q) == AllIds(|ops|);
    AllIdsCardinality(|ops|);
    DistinctCardinality(q);
    OpsAreWellTimed(h);
    CompletePartialLinearization(model, ops, q);
  }

  ghost predicate Exhausted<S, I, O>(h: seq<Entry<I, O>>, v: View<S>) {
    v.calls == [] && v.cursor < |h| && h[v.cursor].ReturnEntry?
  }

  /** When the search gives up, every partial linearization was explored, in whatever order. */
  lemma {:induction false} EverythingExplored<S, I, O>(
      model: Model<S, I, O>, h: seq<Entry<I, O>>, computePartial: bool, v: View<S>, q: seq<nat>)
    requires WellFormed(h) && Inv(model, h, computePartial, v) && Exhausted(h, v)
    requires PartialLinearization(model, OpsOf(h), q) && q != []
    ensures Config(Ids(q), Replay(model, OpsOf(h), q).value) in v.explored
    decreases |q|
  {
    var ops := OpsOf(h);
    var front, c := q[..|q| - 1], q[|q| - 1];
    var cfg := Config(Ids(front), Replay(model, ops, front).value);
    UnsnocPartial(model, ops, q);
    if front == [] {
      LeavingIsExplored(model, h, v);
      assert cfg == ConfigAt(v, 0);
    } else {
      EverythingExplored(model, h, computePartial, v, front);
      assert Tried(model, ops, v.explored, cfg, 2 * |ops|);
    }
  }

  lemma ExhaustedIsIllegal<S, I, O>(model: Model<S, I, O>, h: seq<Entry<I, O>>, computePartial: bool, v: View<S>)
    requires WellFormed(h) && Inv(model, h, computePartial, v) && Exhausted(h, v)
    ensures !Linearizable(model, OpsOf(h))
  {
    var ops := OpsOf(h);
    OpsAreWellTimed(h);
    forall q: seq<nat> ensures !Linearization(model, ops, q) {
      if Linearization(model, ops, q) {
        CompletePartialLinearization(model, ops, q);
        EverythingExplored(model, h, computePartial, v, q);
        DistinctCovers(q, |ops|);
        assert false;
      }
    }
  }

  /** Each recorded linearization contains its operation and none that contains it is longer; where
      nothing is recorded there is none. */
  ghost predicate LongestMaximal<S, I, O>(
      model: Model<S, I, O>, ops: seq<Operation<I, O>>, longest: seq<Option<seq<nat>>>) {
    && LongestSound(model, ops, longest)
    && forall q: seq<nat>, id: nat :: PartialLinearization(model, ops, q) && id in Ids(q) ==>
         id < |longest| && longest[id].Some? && |q| <= |longest[id].value|
  }

  lemma ExhaustedIsMaximal<S, I, O>(model: Model<S, I, O>, h: seq<Entry<I, O>>, v: View<S>)
    requires WellFormed(h) && Inv(model, h, true, v) && Exhausted(h, v)
    ensures LongestMaximal(model, OpsOf(h), v.longest)
  {
    forall q: seq<nat>, id: nat | PartialLinearization(model, OpsOf(h), q) && id in Ids(q)
      ensures id < |v.longest| && v.longest[id].Some? && |q| <= |v.longest[id].value|
    {
      EverythingExplored(model, h, true, v, q);
      DistinctCardinality(q);
      assert Covered(v.longest, Ids(q), id);
    }
  }

  /** No linearization passes through an explored configuration: skipping one found in the cache
      loses nothing. */
  lemma {:induction false} ExploredIsDead<S, I, O>(model: Model<S, I, O>, ops: seq<Operation<I, O>>,
                                                  explored: set<Config<S>>, q: seq<nat>, r: seq<nat>)
    requires Closed(model, ops, explored)
    requires forall i :: 0 <= i < |ops| ==> ops[i].call < 2 * |ops|
    requires PartialLinearization(model, ops, q)
    requires Config(Ids(q), Replay(model, ops, q).value) in explored
    requires q <= r && PartialLinearization(model, ops, r)
    ensures |r| < |ops|
    ensures Config(Ids(r), Replay(model, ops, r).value) in explored
    decreases |r|
  {
    if |q| < |r| {
      var front := r[..|r| - 1];
      UnsnocPartial(model, ops, r);
      ExploredIsDead(model, ops, explored, q, front);
      var cfg := Config(Ids(front), Replay(model, ops, front).value);
      assert Tried(model, ops, explored, cfg, 2 * |ops|);
    } else {
      assert q == r;
    }
    PartialIsBounded(model, ops, r);
    if |r| == |ops| {
      DistinctCovers(r, |ops|);
      assert false;
    }
  }
}
