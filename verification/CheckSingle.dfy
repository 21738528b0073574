/** checkSingle itself: the backtracking search over the linked list, bitset, cache and stack, proved to
    decide linearizability, to terminate, and to report longest partial linearizations. */
module CheckSingle {
  import opened Linearizability
  import opened History
  import opened Search
  import opened LinkedHistory
  import Bitset
  import Cache

  datatype CallsEntry<S, I, O> = CallsEntry(entry: Node<I, O>, state: S)

  // ---------- the list at a loop head ----------

  /** The cells still in the list: the head, and the entries of operations not yet linearized. */
  ghost predicate InList<I, O>(h: seq<Entry<I, O>>, done: set<nat>, j: nat) {
    j == 0 || (j <= |h| && h[j - 1].id !in done)
  }

  ghost function LiveCells<I, O>(h: seq<Entry<I, O>>, done: set<nat>): set<nat> {
    set j: nat | j <= |h| && InList(h, done, j)
  }

  lemma LiveCellsNext<I, O>(h: seq<Entry<I, O>>, done: set<nat>, i: nat)
    requires i <= |h|
    ensures NextIn(LiveCells(h, done), |h| + 1, i + 1) == NextLive(h, done, i) + 1
  {
    var live, j := LiveCells(h, done), NextLive(h, done, i);
    forall k: nat | i + 1 <= k < j + 1 ensures k !in live {
      assert h[k - 1].id in done;
    }
    NextIsUnique(live, |h| + 1, i + 1, j + 1);
  }

  lemma LiveCellsWithout<I, O>(h: seq<Entry<I, O>>, done: set<nat>, id: nat)
    requires WellFormed(h) && id < |h| / 2 && id !in done
    ensures LiveCells(h, done + {id}) == LiveCells(h, done) - {CallPos(h, id) + 1} - {ReturnPos(h, id) + 1}
    ensures CallPos(h, id) + 1 in LiveCells(h, done) && ReturnPos(h, id) + 1 in LiveCells(h, done)
  {
    forall i: nat | i < |h| ensures h[i].id == id <==> i == CallPos(h, id) || i == ReturnPos(h, id) {
      PositionsAreUnique(h, i);
    }
  }

  /** Operation `id`, taken out when `done` were, still has the pointers with which it was taken out. */
  ghost predicate FrameLeft<I, O>(
      h: seq<Entry<I, O>>, cells: seq<Node<I, O>>, p: Pointers<I, O>, done: set<nat>, id: nat)
    requires WellFormed(h) && |cells| == |h| + 1 && |p.next| == |p.prev| == |cells| && id < |h| / 2
  {
    LeftAt(cells, p, LiveCells(h, done), CallPos(h, id) + 1, ReturnPos(h, id) + 1)
  }

  /** The list holds exactly the entries not linearized, and the stack's cells can be put back. */
  ghost predicate ListMatches<I, O>(h: seq<Entry<I, O>>, cells: seq<Node<I, O>>, p: Pointers<I, O>, q: seq<nat>)
    requires WellFormed(h)
  {
    && |cells| == |h| + 1
    && |p.next| == |p.prev| == |cells|
    && InRange(q, |h| / 2)
    && ListOf(cells, p, LiveCells(h, Ids(q)))
    && forall k: nat {:trigger FrameLeft(h, cells, p, Ids(q[..k]), q[k])} ::
        k < |q| ==> FrameLeft(h, cells, p, Ids(q[..k]), q[k])
  }

  lemma NextCell<I, O>(h: seq<Entry<I, O>>, cells: seq<Node<I, O>>, p: Pointers<I, O>, q: seq<nat>, j: nat)
    requires WellFormed(h) && ListMatches(h, cells, p, q)
    requires j in LiveCells(h, Ids(q))
    ensures j <= |h| && p.next[j] == CellAt(cells, NextLive(h, Ids(q), j) + 1)
  {
    assert PointsInto(cells, p, LiveCells(h, Ids(q)), j);
    LiveCellsNext(h, Ids(q), j);
  }

  ghost function LiftOf<I, O>(
      h: seq<Entry<I, O>>, cells: seq<Node<I, O>>, p: Pointers<I, O>, done: set<nat>, id: nat): (p': Pointers<I, O>)
    requires WellFormed(h) && id < |h| / 2 && |p.next| == |p.prev| == |cells| == |h| + 1
    ensures |p'.next| == |p'.prev| == |cells|
  {
    CallBeforeReturn(h, id);
    Lifted(cells, p, LiveCells(h, done), CallPos(h, id) + 1, ReturnPos(h, id) + 1)
  }

  ghost function UnliftOf<I, O>(
      h: seq<Entry<I, O>>, cells: seq<Node<I, O>>, p: Pointers<I, O>, done: set<nat>, id: nat): (p': Pointers<I, O>)
    requires WellFormed(h) && id < |h| / 2 && |p.next| == |p.prev| == |cells| == |h| + 1
    ensures |p'.next| == |p'.prev| == |cells|
  {
    CallBeforeReturn(h, id);
    Unlifted(cells, p, LiveCells(h, done), CallPos(h, id) + 1, ReturnPos(h, id) + 1)
  }

  lemma PushList<I, O>(h: seq<Entry<I, O>>, cells: seq<Node<I, O>>, p: Pointers<I, O>, done: set<nat>, id: nat)
    requires WellFormed(h) && |cells| == |h| + 1 && id < |h| / 2 && id !in done
    requires ListOf(cells, p, LiveCells(h, done))
    ensures var p' := LiftOf(h, cells, p, done, id);
            ListOf(cells, p', LiveCells(h, done + {id})) && FrameLeft(h, cells, p', done, id)
  {
    CallBeforeReturn(h, id);
    LiveCellsWithout(h, done, id);
    LiftRemoves(cells, p, LiveCells(h, done), CallPos(h, id) + 1, ReturnPos(h, id) + 1);
  }

  lemma PopList<I, O>(h: seq<Entry<I, O>>, cells: seq<Node<I, O>>, p: Pointers<I, O>, done: set<nat>, id: nat)
    requires WellFormed(h) && |cells| == |h| + 1 && id < |h| / 2 && id !in done
    requires ListOf(cells, p, LiveCells(h, done + {id})) && FrameLeft(h, cells, p, done, id)
    ensures ListOf(cells, UnliftOf(h, cells, p, done, id), LiveCells(h, done))
  {
    CallBeforeReturn(h, id);
    LiveCellsWithout(h, done, id);
    UnliftInserts(cells, p, LiveCells(h, done), CallPos(h, id) + 1, ReturnPos(h, id) + 1);
  }

  /** Lifting or unlifting `id` leaves an operation that is already out of the list as it was. */
  lemma FrameStays<I, O>(
      h: seq<Entry<I, O>>, cells: seq<Node<I, O>>, p: Pointers<I, O>, done: set<nat>, id: nat, done': set<nat>,
      id': nat)
    requires WellFormed(h) && |p.next| == |p.prev| == |cells| == |h| + 1 && id < |h| / 2 && id !in done
    requires id' < |h| / 2 && id' in done && FrameLeft(h, cells, p, done', id')
    ensures FrameLeft(h, cells, LiftOf(h, cells, p, done, id), done', id')
    ensures FrameLeft(h, cells, UnliftOf(h, cells, p, done, id), done', id')
  {
    CallBeforeReturn(h, id);
    LiveCellsWithout(h, done, id);
    LiftKeepsLeft(cells, p, LiveCells(h, done), CallPos(h, id) + 1, ReturnPos(h, id) + 1,
                  LiveCells(h, done'), CallPos(h, id') + 1, ReturnPos(h, id') + 1);
  }

  lemma PushMatches<I, O>(h: seq<Entry<I, O>>, cells: seq<Node<I, O>>, p: Pointers<I, O>, q: seq<nat>, id: nat)
    requires WellFormed(h) && ListMatches(h, cells, p, q) && id < |h| / 2 && id !in Ids(q)
    ensures ListMatches(h, cells, LiftOf(h, cells, p, Ids(q), id), q + [id])
  {
    var p', q' := LiftOf(h, cells, p, Ids(q), id), q + [id];
    PushList(h, cells, p, Ids(q), id);
    IdsSnoc(q, id);
    IdsMembers(q);
    forall k: nat | k < |q'| ensures FrameLeft(h, cells, p', Ids(q'[..k]), q'[k]) {
      assert q'[..k] == q[..k];
      if k < |q| {
        assert FrameLeft(h, cells, p, Ids(q[..k]), q[k]);
        FrameStays(h, cells, p, Ids(q), id, Ids(q[..k]), q[k]);
      } else {
        assert q[..k] == q;
      }
    }
  }

  lemma PopMatches<I, O>(h: seq<Entry<I, O>>, cells: seq<Node<I, O>>, p: Pointers<I, O>, q: seq<nat>, id: nat)
    requires WellFormed(h) && ListMatches(h, cells, p, q + [id]) && id < |h| / 2 && id !in Ids(q)
    ensures FrameLeft(h, cells, p, Ids(q), id)
    ensures ListMatches(h, cells, UnliftOf(h, cells, p, Ids(q), id), q)
  {
    var p', r := UnliftOf(h, cells, p, Ids(q), id), q + [id];
    IdsSnoc(q, id);
    IdsMembers(q);
    assert r[..|q|] == q && r[|q|] == id;
    assert FrameLeft(h, cells, p, Ids(r[..|q|]), r[|q|]);
    PopList(h, cells, p, Ids(q), id);
    forall k: nat | k < |q| ensures FrameLeft(h, cells, p', Ids(q[..k]), q[k]) {
      assert r[..k] == q[..k] && r[k] == q[k];
      assert FrameLeft(h, cells, p, Ids(r[..k]), r[k]);
      FrameStays(h, cells, p, Ids(q), id, Ids(q[..k]), q[k]);
    }
  }

  // ---------- the list on the heap ----------

  /** Cell `i + 1` stands for entry `i` of the history. */
  ghost predicate CellFor<I, O>(h: seq<Entry<I, O>>, cells: seq<Node<I, O>>, i: nat)
    requires WellFormed(h) && |cells| == |h| + 1 && i < |h|
  {
    var cell := cells[i + 1];
    && cell.id == h[i].id
    && match h[i]
       case ReturnEntry(_, _, _, output) => cell.value == Output(output) && cell.matching == null
       case CallEntry(id, _, _, input) => cell.value == Input(input) && cell.matching == cells[ReturnPos(h, id) + 1]
  }

  ghost predicate CellsFor<I, O>(h: seq<Entry<I, O>>, cells: seq<Node<I, O>>)
    requires WellFormed(h)
  {
    && |cells| == |h| + 1
    && AllDistinct(cells)
    && forall i: nat {:trigger CellFor(h, cells, i)} :: i < |h| ==> CellFor(h, cells, i)
  }

  /** The linked list on the heap, with the operations `q` taken out in this order. */
  ghost predicate HeapList<I, O>(h: seq<Entry<I, O>>, cells: seq<Node<I, O>>, q: seq<nat>)
    requires WellFormed(h)
    reads cells
  {
    CellsFor(h, cells) && ListMatches(h, cells, PointersOf(cells), q)
  }

  lemma ChainIsList<I, O>(h: seq<Entry<I, O>>, cells: seq<Node<I, O>>)
    requires WellFormed(h) && |cells| == |h| + 1 && Chain(cells)
    ensures ListMatches(h, cells, PointersOf(cells), [])
  {
    var live, p := LiveCells(h, Ids([])), PointersOf(cells);
    assert forall j: nat :: j < |cells| ==> j in live;
    forall j: nat | j < |cells| ensures PointsInto(cells, p, live, j) {
      assert cells[j].next == CellAt(cells, j + 1) && cells[j].prev == CellAt(cells, j - 1);
      NextIsUnique(live, |cells|, j + 1, j + 1);
      PrevIsUnique(live, j, j - 1);
    }
  }

  lemma NodesAreCells<I, O>(h: seq<Entry<I, O>>, head: Node<I, O>, nodes: seq<Node<I, O>>)
    requires WellFormed(h) && |nodes| == |h| && StandsFor(h, 0, nodes) && AllDistinct([head] + nodes)
    ensures CellsFor(h, [head] + nodes)
  {
    var cells := [head] + nodes;
    forall i: nat | i < |h| ensures CellFor(h, cells, i) {
      assert NodeFor(h, 0, nodes, i);
    }
  }

  /** Builds the list and its head. */
  method BuildList<I, O>(history: seq<Entry<I, O>>)
    returns (head: Node<I, O>, entry: Node?<I, O>, n: nat, ghost cells: seq<Node<I, O>>)
    requires WellFormed(history)
    ensures n == |history| / 2
    ensures |cells| == |history| + 1 && head == cells[0] && entry == CellAt(cells, 1)
    ensures forall j :: 0 <= j < |cells| ==> fresh(cells[j])
    ensures HeapList(history, cells, [])
  {
    ghost var nodes;
    entry, nodes := MakeLinkedEntries(history);
    var length := Length(entry, nodes);
    n := length / 2;
    head := AddHead(entry, history, nodes);
    cells := [head] + nodes;
  }

  /** headEntry, inserted before the first entry */
  method AddHead<I, O>(
      entry: Node?<I, O>, ghost history: seq<Entry<I, O>>, ghost nodes: seq<Node<I, O>>)
      returns (head: Node<I, O>)
    requires WellFormed(history) && |nodes| == |history| && Chain(nodes) && StandsFor(history, 0, nodes)
    requires entry == if nodes == [] then null else nodes[0]
    modifies nodes
    ensures fresh(head) && HeapList(history, [head] + nodes, [])
  {
    head := new Node<I, O>(Nothing, null, -1);
    AddFirst(head, entry, nodes);
    NodesAreCells(history, head, nodes);
    ChainIsList(history, [head] + nodes);
  }

  lemma MayLift<I, O>(h: seq<Entry<I, O>>, cells: seq<Node<I, O>>, p: Pointers<I, O>, q: seq<nat>, id: nat)
    requires WellFormed(h) && ListMatches(h, cells, p, q) && id < |h| / 2 && id !in Ids(q)
    ensures var live, c, r := LiveCells(h, Ids(q)), CallPos(h, id) + 1, ReturnPos(h, id) + 1;
      && 0 < c < r < |cells| && c in live && r in live && 0 in live
      && ListMatches(h, cells, Lifted(cells, p, live, c, r), q + [id])
  {
    CallBeforeReturn(h, id);
    LiveCellsWithout(h, Ids(q), id);
    PushMatches(h, cells, p, q, id);
  }

  lemma MayUnlift<I, O>(h: seq<Entry<I, O>>, cells: seq<Node<I, O>>, p: Pointers<I, O>, q: seq<nat>, id: nat)
    requires WellFormed(h) && ListMatches(h, cells, p, q + [id]) && id < |h| / 2 && id !in Ids(q)
    ensures var live, c, r := LiveCells(h, Ids(q)), CallPos(h, id) + 1, ReturnPos(h, id) + 1;
      && 0 < c < r < |cells| && c in live && r in live && 0 in live
      && LeftAt(cells, p, live, c, r) && ListMatches(h, cells, Unlifted(cells, p, live, c, r), q)
  {
    CallBeforeReturn(h, id);
    LiveCellsWithout(h, Ids(q), id);
    PopMatches(h, cells, p, q, id);
  }

  /** lift(entry) */
  method TakeOut<I, O>(
      entry: Node<I, O>, ghost h: seq<Entry<I, O>>, ghost cells: seq<Node<I, O>>, ghost q: seq<nat>, ghost id: nat)
    requires WellFormed(h) && HeapList(h, cells, q)
    requires id < |h| / 2 && id !in Ids(q) && entry == cells[CallPos(h, id) + 1]
    modifies cells
    ensures HeapList(h, cells, q + [id])
  {
    MayLift(h, cells, PointersOf(cells), q, id);
    assert CellFor(h, cells, CallPos(h, id));
    Lift(entry, cells, LiveCells(h, Ids(q)), CallPos(h, id) + 1, ReturnPos(h, id) + 1);
  }

  /** unlift(entry) */
  method PutBack<I, O>(
      entry: Node<I, O>, ghost h: seq<Entry<I, O>>, ghost cells: seq<Node<I, O>>, ghost q: seq<nat>, ghost id: nat)
    requires WellFormed(h) && HeapList(h, cells, q + [id])
    requires id < |h| / 2 && id !in Ids(q) && entry == cells[CallPos(h, id) + 1]
    modifies cells
    ensures HeapList(h, cells, q)
  {
    MayUnlift(h, cells, PointersOf(cells), q, id);
    assert CellFor(h, cells, CallPos(h, id));
    Unlift(entry, cells, LiveCells(h, Ids(q)), CallPos(h, id) + 1, ReturnPos(h, id) + 1);
  }

  /** entry.next, for an entry in the list */
  method Following<I, O>(
      entry: Node<I, O>, ghost h: seq<Entry<I, O>>, ghost cells: seq<Node<I, O>>, ghost q: seq<nat>, ghost j: nat)
    returns (next: Node?<I, O>)
    requires WellFormed(h) && HeapList(h, cells, q)
    requires j in LiveCells(h, Ids(q)) && entry == cells[j]
    ensures j <= |h| && next == CellAt(cells, NextLive(h, Ids(q), j) + 1)
  {
    NextCell(h, cells, PointersOf(cells), q, j);
    next := entry.next;
  }

  // ---------- the stack and the recorded linearizations ----------

  /** The stack holds call entries, and stands for the frames of the view. */
  ghost predicate StackOf<S, I, O>(
      h: seq<Entry<I, O>>, cells: seq<Node<I, O>>, calls: seq<CallsEntry<S, I, O>>, fs: seq<Frame<S>>)
    requires WellFormed(h) && |cells| == |h| + 1
  {
    && |fs| == |calls|
    && forall k :: 0 <= k < |calls| ==>
         && fs[k].id == calls[k].entry.id
         && fs[k].state == calls[k].state
         && fs[k].id < |h| / 2
         && calls[k].entry == cells[CallPos(h, fs[k].id) + 1]
  }

  /** seq := the ids on the stack */
  method IdsOfCalls<S, I, O>(calls: seq<CallsEntry<S, I, O>>, ghost fs: seq<Frame<S>>) returns (ids: seq<nat>)
    requires |fs| == |calls| && forall k :: 0 <= k < |calls| ==> calls[k].entry.id == fs[k].id
    ensures ids == Order(fs)
  {
    ids := [];
    for i := 0 to |calls|
      invariant ids == Order(fs)[..i]
    {
      ids := ids + [calls[i].entry.id];
    }
  }

  /** Records the stack for each of its operations that has no longer one. */
  method RecordLongest<S, I, O>(
      longest: seq<Option<seq<nat>>>, calls: seq<CallsEntry<S, I, O>>, ghost fs: seq<Frame<S>>)
    returns (longest': seq<Option<seq<nat>>>)
    requires |fs| == |calls| && InRange(Order(fs), |longest|)
    requires forall k :: 0 <= k < |calls| ==> calls[k].entry.id == fs[k].id
    ensures longest' == UpdateLongest(longest, Order(fs))
  {
    ghost var q := Order(fs);
    var callsLen := |calls|;
    var made: Option<seq<nat>> := None;
    longest' := longest;
    for k := 0 to |calls|
      invariant made.Some? ==> made.value == q
      invariant longest' == UpdatedBy(longest, q, k)
    {
      var id: nat := calls[k].entry.id;
      assert id == q[k];
      UpdatedByNext(longest, q, k);
      if longest'[id].None? || callsLen > |longest'[id].value| {
        if made.None? {
          var ids := IdsOfCalls(calls, fs);
          made := Some(ids);
        }
        longest' := longest'[id := made];
      }
    }
    assert q[..|q|] == q;
  }

  /** The recorded linearizations after the first `k` operations of `q` were looked at. */
  ghost function UpdatedBy(longest: seq<Option<seq<nat>>>, q: seq<nat>, k: nat): (r: seq<Option<seq<nat>>>)
    requires k <= |q|
    ensures |r| == |longest|
    ensures forall id :: 0 <= id < |r| ==>
              r[id] ==
                if id in Ids(q[..k]) && (longest[id].None? || |q| > |longest[id].value|) then Some(q) else longest[id]
  {
    seq(|longest|, id requires 0 <= id < |longest| =>
      if id in Ids(q[..k]) && (longest[id].None? || |q| > |longest[id].value|) then Some(q) else longest[id])
  }

  lemma UpdatedByNext(longest: seq<Option<seq<nat>>>, q: seq<nat>, k: nat)
    requires k < |q| && q[k] < |longest|
    ensures var id, r := q[k], UpdatedBy(longest, q, k);
            UpdatedBy(longest, q, k + 1) ==
            if r[id].None? || |q| > |r[id].value| then r[id := Some(q)] else r
  {
    var id, r, r' := q[k], UpdatedBy(longest, q, k), UpdatedBy(longest, q, k + 1);
    assert q[..k + 1] == q[..k] + [id];
    IdsSnoc(q[..k], id);
    assert r' == if r[id].None? || |q| > |r[id].value| then r[id := Some(q)] else r;
  }

  // ---------- the search ----------

  /** The linked list, the cursor and the bitset when the operations `q` are linearized. */
  ghost predicate HeapState<I, O>(h: seq<Entry<I, O>>, cells: seq<Node<I, O>>, q: seq<nat>, cursor: nat,
                                  entry: Node?<I, O>, linearized: array<Bitset.Word>)
    requires WellFormed(h)
    reads cells, linearized
  {
    && HeapList(h, cells, q)
    && cursor <= |h|
    && entry == CellAt(cells, cursor + 1)
    && linearized.Length == Bitset.Chunks(|h| / 2)
    && Bitset.Contents(linearized[..]) == Ids(q)
  }

  ghost predicate CacheOf<S>(cache: Cache.Table<S>, chunks: nat, cfgs: set<Config<S>>) {
    Cache.Valid(cache, chunks) && Cache.Entries(cache) == cfgs
  }

  /** The cursor is on the call of an operation not yet linearized. */
  ghost predicate AtCall<S, I, O>(h: seq<Entry<I, O>>, v: View<S>)
    requires WellFormed(h)
  {
    v.cursor < |h| && h[v.cursor].CallEntry? && h[v.cursor].id !in Done(v) && CallPos(h, h[v.cursor].id) == v.cursor
  }

  /** What one round of the loop makes of a call under the cursor. */
  ghost function TryView<S, I, O>(model: Model<S, I, O>, h: seq<Entry<I, O>>, v: View<S>): View<S>
    requires WellFormed(h) && v.cursor < |h|
  {
    var id := h[v.cursor].id;
    var op := OpsOf(h)[id];
    var (ok, s) := model.step(v.state, op.input, op.output);
    if ok && Config(Done(v) + {id}, s) !in v.cache then PushView(h, v, s) else SkipView(h, v)
  }

  lemma ChunksSuffice(n: nat, id: nat)
    requires id < n
    ensures id < Bitset.WORD * Bitset.Chunks(n)
  {
  }

  lemma CursorIsLive<S, I, O>(h: seq<Entry<I, O>>, v: View<S>)
    requires WellFormed(h) && AtCall(h, v)
    ensures v.cursor + 1 in LiveCells(h, Done(v))
  {}

  /** The parts of the state on the heap. */
  lemma PartsOfHeapState<I, O>(
      h: seq<Entry<I, O>>, cells: seq<Node<I, O>>, q: seq<nat>, cursor: nat, entry: Node?<I, O>,
      linearized: array<Bitset.Word>)
    requires WellFormed(h) && HeapList(h, cells, q) && cursor <= |h| && entry == CellAt(cells, cursor + 1)
    requires linearized.Length == Bitset.Chunks(|h| / 2) && Bitset.Contents(linearized[..]) == Ids(q)
    ensures HeapState(h, cells, q, cursor, entry, linearized)
  {}

  /** entry = entry.next */
  method Advance<S, I, O>(entry: Node<I, O>, linearized: array<Bitset.Word>,
                          ghost h: seq<Entry<I, O>>, ghost cells: seq<Node<I, O>>, ghost v: View<S>)
    returns (next: Node?<I, O>)
    requires WellFormed(h) && AtCall(h, v) && HeapState(h, cells, Order(v.calls), v.cursor, entry, linearized)
    ensures HeapState(h, cells, Order(v.calls), SkipView(h, v).cursor, next, linearized)
  {
    CursorIsLive(h, v);
    next := Following(entry, h, cells, Order(v.calls), v.cursor + 1);
    PartsOfHeapState(h, cells, Order(v.calls), SkipView(h, v).cursor, next, linearized);
  }

  /** linearized.set(entry.id); lift(entry); entry = headEntry.next */
  method Linearize<I, O>(head: Node<I, O>, entry: Node<I, O>, linearized: array<Bitset.Word>,
                         ghost h: seq<Entry<I, O>>, ghost cells: seq<Node<I, O>>, ghost q: seq<nat>, ghost cursor: nat,
                         ghost id: nat)
    returns (next: Node?<I, O>)
    requires WellFormed(h) && HeapState(h, cells, q, cursor, entry, linearized) && head == cells[0]
    requires id < |h| / 2 && id !in Ids(q) && cursor == CallPos(h, id) && entry.id == id
    modifies cells, linearized
    ensures HeapState(h, cells, q + [id], NextLive(h, Ids(q + [id]), 0), next, linearized)
  {
    ChunksSuffice(|h| / 2, id);
    IdsSnoc(q, id);
    assert 0 in LiveCells(h, Ids(q + [id]));
    Bitset.Set(linearized, entry.id);
    ghost var words := linearized[..];
    assert Bitset.Contents(words) == Ids(q + [id]);
    TakeOut(entry, h, cells, q, id);
    assert linearized[..] == words;
    next := Following(head, h, cells, q + [id], 0);
    PartsOfHeapState(h, cells, q + [id], NextLive(h, Ids(q + [id]), 0), next, linearized);
  }

  lemma PushedStack<S, I, O>(h: seq<Entry<I, O>>, cells: seq<Node<I, O>>, calls: seq<CallsEntry<S, I, O>>, v: View<S>,
                             entry: Node<I, O>, state: S, v': View<S>)
    requires WellFormed(h) && |cells| == |h| + 1 && AtCall(h, v) && StackOf(h, cells, calls, v.calls)
    requires entry == cells[v.cursor + 1] && entry.id == h[v.cursor].id
    requires v'.calls == v.calls + [Frame(h[v.cursor].id, state)]
    ensures StackOf(h, cells, calls + [CallsEntry(entry, state)], v'.calls)
    ensures Order(v'.calls) == Order(v.calls) + [h[v.cursor].id]
    ensures Done(v') == Done(v) + {h[v.cursor].id}
  {
    assert Order(v'.calls) == Order(v.calls) + [h[v.cursor].id];
    IdsSnoc(Order(v.calls), h[v.cursor].id);
  }

  /** The cache entry for linearizing `id` next, and whether the cache has it. */
  method Probe<S(==)>(
      linearized: array<Bitset.Word>, cache: Cache.Table<S>, id: nat, newState: S, ghost n: nat,
      ghost cfgs: set<Config<S>>)
    returns (newCacheEntry: Cache.CacheEntry<S>, found: bool)
    requires linearized.Length == Bitset.Chunks(n) && id < n && CacheOf(cache, linearized.Length, cfgs)
    ensures |newCacheEntry.linearized| == linearized.Length && newCacheEntry.state == newState
    ensures Bitset.Contents(newCacheEntry.linearized) == Bitset.Contents(linearized[..]) + {id}
    ensures found <==> Config(Bitset.Contents(linearized[..]) + {id}, newState) in cfgs
  {
    ChunksSuffice(n, id);
    var newLinearized := Bitset.Clone(linearized);
    Bitset.Set(newLinearized, id);
    newCacheEntry := Cache.CacheEntry(newLinearized[..], newState);
    found := Cache.CacheContains(cache, newCacheEntry, linearized.Length);
  }

  /** hash := newLinearized.hash(); cache[hash] = append(cache[hash], newCacheEntry) */
  method Remember<S>(
      cache: Cache.Table<S>, newCacheEntry: Cache.CacheEntry<S>, ghost chunks: nat, ghost cfgs: set<Config<S>>)
    returns (cache': Cache.Table<S>)
    requires CacheOf(cache, chunks, cfgs) && |newCacheEntry.linearized| == chunks
    ensures CacheOf(cache', chunks, cfgs + {Cache.ConfigOf(newCacheEntry)})
  {
    var hash := Bitset.Hash(newCacheEntry.linearized);
    cache' := Cache.Insert(cache, hash, newCacheEntry);
    Cache.InsertAdds(cache, newCacheEntry, chunks);
  }

  /** The branch that takes the step. */
  method Push<S, I, O>(
    head: Node<I, O>, entry: Node<I, O>, state: S, calls: seq<CallsEntry<S, I, O>>,
    linearized: array<Bitset.Word>, cache: Cache.Table<S>, newCacheEntry: Cache.CacheEntry<S>,
    ghost h: seq<Entry<I, O>>, ghost cells: seq<Node<I, O>>, ghost v: View<S>, ghost v': View<S>)
    returns (entry': Node?<I, O>, calls': seq<CallsEntry<S, I, O>>, cache': Cache.Table<S>)
    requires WellFormed(h) && AtCall(h, v) && entry.id == h[v.cursor].id
    requires HeapState(h, cells, Order(v.calls), v.cursor, entry, linearized) && head == cells[0]
    requires StackOf(h, cells, calls, v.calls) && CacheOf(cache, linearized.Length, v.cache)
    requires |newCacheEntry.linearized| == linearized.Length
    requires v'.calls == v.calls + [Frame(h[v.cursor].id, state)]
    requires v'.cache == v.cache + {Cache.ConfigOf(newCacheEntry)}
    requires v'.cursor == NextLive(h, Done(v'), 0)
    modifies cells, linearized
    ensures HeapState(h, cells, Order(v'.calls), v'.cursor, entry', linearized)
    ensures StackOf(h, cells, calls', v'.calls) && CacheOf(cache', linearized.Length, v'.cache)
  {
    cache' := Remember(cache, newCacheEntry, linearized.Length, v.cache);
    calls' := calls + [CallsEntry(entry, state)];
    PushedStack(h, cells, calls, v, entry, state, v');
    entry' := Linearize(head, entry, linearized, h, cells, Order(v.calls), v.cursor, h[v.cursor].id);
  }

  /** model.Step with the call's input and the output of its return */
  method AskModel<S, I, O>(
      model: Model<S, I, O>, entry: Node<I, O>, state: S,
      ghost h: seq<Entry<I, O>>, ghost cells: seq<Node<I, O>>, ghost cursor: nat)
    returns (ok: bool, newState: S)
    requires WellFormed(h) && CellsFor(h, cells) && cursor < |h| && h[cursor].CallEntry? && entry == cells[cursor + 1]
    requires CallPos(h, h[cursor].id) == cursor
    ensures entry.id == h[cursor].id
    ensures var op := OpsOf(h)[h[cursor].id]; (ok, newState) == model.step(state, op.input, op.output)
  {
    assert CellFor(h, cells, cursor);
    assert CellFor(h, cells, ReturnPos(h, h[cursor].id));
    var matching := entry.matching;  // the return entry
    var (o, s) := model.step(state, entry.value.input, matching.value.output);
    return o, s;
  }

  /** One round of the loop with a call under the cursor. */
  method TryCall<S(==), I, O>(
    model: Model<S, I, O>, head: Node<I, O>, entry: Node<I, O>, state: S, calls: seq<CallsEntry<S, I, O>>,
    linearized: array<Bitset.Word>, cache: Cache.Table<S>,
    ghost h: seq<Entry<I, O>>, ghost cells: seq<Node<I, O>>, ghost v: View<S>, ghost v': View<S>)
    returns (entry': Node?<I, O>, state': S, calls': seq<CallsEntry<S, I, O>>, cache': Cache.Table<S>)
    requires WellFormed(h) && AtCall(h, v) && v' == TryView(model, h, v)
    requires HeapState(h, cells, Order(v.calls), v.cursor, entry, linearized) && head == cells[0]
    requires StackOf(h, cells, calls, v.calls) && state == v.state && CacheOf(cache, linearized.Length, v.cache)
    modifies cells, linearized
    ensures HeapState(h, cells, Order(v'.calls), v'.cursor, entry', linearized)
    ensures StackOf(h, cells, calls', v'.calls) && state' == v'.state && CacheOf(cache', linearized.Length, v'.cache)
  {
    var ok, newState := AskModel(model, entry, state, h, cells, v.cursor);
    state', calls', cache' := state, calls, cache;
    if ok {
      var newCacheEntry, found := Probe(linearized, cache, entry.id, newState, |h| / 2, v.cache);
      if !found {
        assert v' == PushView(h, v, newState);
        PushedStack(h, cells, calls, v, entry, state, v');
        state' := newState;
        entry', calls', cache' := Push(head, entry, state, calls, linearized, cache, newCacheEntry, h, cells, v, v');
      } else {
        assert v' == SkipView(h, v);
        entry' := Advance(entry, linearized, h, cells, v);
      }
    } else {
      assert v' == SkipView(h, v);
      entry' := Advance(entry, linearized, h, cells, v);
    }
  }

  /** unlift(entry) and entry.next */
  method Reinsert<I, O>(
      entry: Node<I, O>, ghost h: seq<Entry<I, O>>, ghost cells: seq<Node<I, O>>, ghost q: seq<nat>, ghost id: nat)
    returns (next: Node?<I, O>)
    requires WellFormed(h) && HeapList(h, cells, q + [id])
    requires id < |h| / 2 && id !in Ids(q) && entry == cells[CallPos(h, id) + 1]
    modifies cells
    ensures HeapList(h, cells, q)
    ensures NextLive(h, Ids(q), CallPos(h, id) + 1) <= |h|
    ensures next == CellAt(cells, NextLive(h, Ids(q), CallPos(h, id) + 1) + 1)
  {
    assert CallPos(h, id) + 1 in LiveCells(h, Ids(q));
    PutBack(entry, h, cells, q, id);
    next := Following(entry, h, cells, q, CallPos(h, id) + 1);
  }

  /** linearized.clear(entry.id) */
  method ClearBit<I, O>(
      id: nat, linearized: array<Bitset.Word>,
      ghost h: seq<Entry<I, O>>, ghost cells: seq<Node<I, O>>, ghost q: seq<nat>)
    requires WellFormed(h) && HeapList(h, cells, q) && linearized.Length == Bitset.Chunks(|h| / 2)
    requires Bitset.Contents(linearized[..]) == Ids(q + [id]) && id < |h| / 2 && id !in Ids(q)
    modifies linearized
    ensures HeapList(h, cells, q) && Bitset.Contents(linearized[..]) == Ids(q)
  {
    ChunksSuffice(|h| / 2, id);
    IdsSnoc(q, id);
    Bitset.Clear(linearized, id);
  }

  /** unlift(entry), linearized.clear(entry.id), and entry.next */
  method Delinearize<I, O>(entry: Node<I, O>, linearized: array<Bitset.Word>,
                           ghost h: seq<Entry<I, O>>, ghost cells: seq<Node<I, O>>, ghost q: seq<nat>, ghost id: nat)
    returns (next: Node?<I, O>)
    requires WellFormed(h) && HeapList(h, cells, q + [id]) && linearized.Length == Bitset.Chunks(|h| / 2)
    requires Bitset.Contents(linearized[..]) == Ids(q + [id])
    requires id < |h| / 2 && id !in Ids(q) && entry == cells[CallPos(h, id) + 1] && entry.id == id
    modifies cells, linearized
    ensures HeapState(h, cells, q, NextLive(h, Ids(q), CallPos(h, id) + 1), next, linearized)
  {
    next := Reinsert(entry, h, cells, q, id);
    ClearBit(entry.id, linearized, h, cells, q);
    PartsOfHeapState(h, cells, q, NextLive(h, Ids(q), CallPos(h, id) + 1), next, linearized);
  }

  lemma PoppedStack<S, I, O>(
      h: seq<Entry<I, O>>, cells: seq<Node<I, O>>, calls: seq<CallsEntry<S, I, O>>, v: View<S>, v': View<S>, id: nat)
    requires WellFormed(h) && |cells| == |h| + 1 && StackOf(h, cells, calls, v.calls) && v.calls != []
    requires Distinct(Order(v.calls))
    requires v'.calls == v.calls[..|v.calls| - 1] && id == v.calls[|v.calls| - 1].id
    ensures StackOf(h, cells, calls[..|calls| - 1], v'.calls)
    ensures Order(v'.calls) == Order(v.calls)[..|v.calls| - 1]
    ensures Order(v.calls) == Order(v'.calls) + [id]
    ensures id !in Done(v') && Done(v') == Done(v) - {id}
  {
    var d, q := |v.calls|, Order(v.calls);
    assert Order(v'.calls) == q[..d - 1];
    assert q == q[..d - 1] + [id];
  }

  /** One round of the loop with a return under the cursor and calls to undo. */
  method Backtrack<S, I, O>(calls: seq<CallsEntry<S, I, O>>, linearized: array<Bitset.Word>,
                            ghost h: seq<Entry<I, O>>, ghost cells: seq<Node<I, O>>, ghost v: View<S>,
                            ghost entry: Node?<I, O>, ghost v': View<S>)
    returns (entry': Node?<I, O>, state': S, calls': seq<CallsEntry<S, I, O>>)
    requires WellFormed(h) && v.calls != [] && Distinct(Order(v.calls))
    requires HeapState(h, cells, Order(v.calls), v.cursor, entry, linearized) && StackOf(h, cells, calls, v.calls)
    requires v'.calls == v.calls[..|v.calls| - 1] && v'.state == v.calls[|v.calls| - 1].state
    requires v'.cursor == NextLive(h, Done(v'), CallPos(h, v.calls[|v.calls| - 1].id) + 1)
    modifies cells, linearized
    ensures HeapState(h, cells, Order(v'.calls), v'.cursor, entry', linearized)
    ensures StackOf(h, cells, calls', v'.calls) && state' == v'.state
  {
    ghost var q', id := Order(v'.calls), v.calls[|v.calls| - 1].id;
    PoppedStack(h, cells, calls, v, v', id);
    assert Order(v.calls) == q' + [id];
    var callsTop := calls[|calls| - 1];
    state' := callsTop.state;
    calls' := calls[..|calls| - 1];
    entry' := Delinearize(callsTop.entry, linearized, h, cells, q', id);
  }

  // ---------- one round keeps the invariant and makes progress ----------

  /** How many configurations are still to be found. */
  ghost function Unseen<S, I, O>(model: Model<S, I, O>, h: seq<Entry<I, O>>, cache: set<Config<S>>): nat
    requires WellFormed(h)
  {
    |Configs(model, OpsOf(h), |OpsOf(h)|) - cache|
  }

  lemma UnseenDrops<S, I, O>(model: Model<S, I, O>, h: seq<Entry<I, O>>, cache: set<Config<S>>, cache': set<Config<S>>)
    requires WellFormed(h) && cache < cache' <= Configs(model, OpsOf(h), |OpsOf(h)|)
    ensures Unseen(model, h, cache') < Unseen(model, h, cache)
  {
    var all := Configs(model, OpsOf(h), |OpsOf(h)|);
    var cfg :| cfg in cache' && cfg !in cache;
    assert all - cache' <= (all - cache) - {cfg};
    SubsetNoLarger(all - cache', (all - cache) - {cfg});
  }

  /** The loop's variant goes down, as a lexicographic triple. */
  ghost predicate Progress<S, I, O>(model: Model<S, I, O>, h: seq<Entry<I, O>>, v: View<S>, v': View<S>)
    requires WellFormed(h)
  {
    || Unseen(model, h, v'.cache) < Unseen(model, h, v.cache)
    || (v'.cache == v.cache && |v'.calls| < |v.calls|)
    || (v'.cache == v.cache && v'.calls == v.calls && v.cursor < v'.cursor)
  }

  lemma TryKeepsInv<S, I, O>(model: Model<S, I, O>, h: seq<Entry<I, O>>, computePartial: bool, v: View<S>)
    requires WellFormed(h) && Inv(model, h, computePartial, v) && AtCall(h, v)
    ensures Inv(model, h, computePartial, TryView(model, h, v))
    ensures Progress(model, h, v, TryView(model, h, v))
    ensures TryView(model, h, v).longest == v.longest
  {
    var id := h[v.cursor].id;
    var op := OpsOf(h)[id];
    var (ok, s) := model.step(v.state, op.input, op.output);
    PathTop(v);
    if ok && Config(Done(v) + {id}, s) !in v.cache {
      PushKeepsInv(model, h, computePartial, v, s);
      UnseenDrops(model, h, v.cache, PushView(h, v, s).cache);
    } else {
      SkipKeepsInv(model, h, computePartial, v);
    }
  }

  lemma LiveCursor<S, I, O>(model: Model<S, I, O>, h: seq<Entry<I, O>>, computePartial: bool, v: View<S>)
    requires WellFormed(h) && Inv(model, h, computePartial, v) && NextLive(h, Done(v), 0) < |h|
    ensures v.cursor < |h| && h[v.cursor].id !in Done(v)
    ensures h[v.cursor].CallEntry? ==> AtCall(h, v)
    ensures Distinct(Order(v.calls)) && InRange(Order(v.calls), |h| / 2) && |v.longest| == |h| / 2
  {
    var i := NextLive(h, Done(v), 0);
    assert h[ReturnPos(h, h[i].id)].ReturnEntry?;
    if v.cursor < |h| { PositionsAreUnique(h, v.cursor); }
  }

  /** The program's variables stand for the view `v`. */
  ghost predicate Represents<S, I, O>(
    h: seq<Entry<I, O>>, cells: seq<Node<I, O>>, v: View<S>,
    entry: Node?<I, O>, state: S, calls: seq<CallsEntry<S, I, O>>,
    linearized: array<Bitset.Word>, cache: Cache.Table<S>, longest: seq<Option<seq<nat>>>)
    requires WellFormed(h)
    reads cells, linearized
  {
    && HeapState(h, cells, Order(v.calls), v.cursor, entry, linearized)
    && StackOf(h, cells, calls, v.calls)
    && state == v.state
    && CacheOf(cache, linearized.Length, v.cache)
    && longest == v.longest
  }

  lemma MatchingTellsCalls<I, O>(
      h: seq<Entry<I, O>>, cells: seq<Node<I, O>>, q: seq<nat>, cursor: nat, entry: Node?<I, O>,
      linearized: array<Bitset.Word>)
    requires WellFormed(h) && HeapState(h, cells, q, cursor, entry, linearized) && cursor < |h|
    ensures entry != null && (entry.matching != null <==> h[cursor].CallEntry?)
  {
    assert CellFor(h, cells, cursor);
  }

  /** One round of the loop. */
  method Round<S(==), I, O>(
    model: Model<S, I, O>, computePartial: bool, head: Node<I, O>, entry: Node<I, O>, state: S,
    calls: seq<CallsEntry<S, I, O>>,
    linearized: array<Bitset.Word>, cache: Cache.Table<S>, longest: seq<Option<seq<nat>>>,
    ghost h: seq<Entry<I, O>>, ghost cells: seq<Node<I, O>>, ghost v: View<S>)
    returns (exhausted: bool, entry': Node?<I, O>, state': S, calls': seq<CallsEntry<S, I, O>>,
             cache': Cache.Table<S>, longest': seq<Option<seq<nat>>>, ghost v': View<S>)
    requires WellFormed(h) && AtCall(h, v) == (entry.matching != null)
    requires v.cursor < |h| && Distinct(Order(v.calls)) && InRange(Order(v.calls), |h| / 2) && |v.longest| == |h| / 2
    requires Represents(h, cells, v, entry, state, calls, linearized, cache, longest) && head == cells[0]
    modifies cells, linearized
    ensures exhausted <==> !AtCall(h, v) && v.calls == []
    ensures v' == if exhausted then v else if AtCall(h, v) then TryView(model, h, v) else PopView(h, computePartial, v)
    ensures Represents(h, cells, v', entry', state', calls', linearized, cache', longest')
  {
    exhausted, entry', state', calls', cache', longest', v' := false, entry, state, calls, cache, longest, v;
    if entry.matching != null {
      v' := TryView(model, h, v);
      entry', state', calls', cache' := TryCall(model, head, entry, state, calls, linearized, cache, h, cells, v, v');
    } else if |calls| == 0 {
      exhausted := true;
    } else {
      v' := PopView(h, computePartial, v);
      if computePartial {
        longest' := RecordLongest(longest, calls, v.calls);
      }
      assert Order(v'.calls) == Order(v.calls)[..|v.calls| - 1];
      entry', state', calls' := Backtrack(calls, linearized, h, cells, v, entry, v');
    }
  }

  /** headEntry.next */
  method First<S, I, O>(head: Node<I, O>, entry: Node?<I, O>, linearized: array<Bitset.Word>,
                        ghost h: seq<Entry<I, O>>, ghost cells: seq<Node<I, O>>, ghost v: View<S>)
    returns (first: Node?<I, O>)
    requires WellFormed(h) && HeapState(h, cells, Order(v.calls), v.cursor, entry, linearized) && head == cells[0]
    ensures first != null <==> NextLive(h, Done(v), 0) < |h|
  {
    assert 0 in LiveCells(h, Done(v));
    first := Following(head, h, cells, Order(v.calls), 0);
  }

  lemma RoundKeepsInv<S, I, O>(
      model: Model<S, I, O>, h: seq<Entry<I, O>>, computePartial: bool, v: View<S>, v': View<S>)
    requires WellFormed(h) && Inv(model, h, computePartial, v)
    requires v.cursor < |h| && (h[v.cursor].CallEntry? ==> AtCall(h, v)) && (AtCall(h, v) || v.calls != [])
    requires InRange(Order(v.calls), |h| / 2)
    requires v' == if AtCall(h, v) then TryView(model, h, v) else PopView(h, computePartial, v)
    ensures Inv(model, h, computePartial, v') && Progress(model, h, v, v')
  {
    if AtCall(h, v) {
      TryKeepsInv(model, h, computePartial, v);
    } else {
      PopKeepsInv(model, h, computePartial, v);
    }
  }

  /** When nothing is left to try, nothing was missed. */
  lemma GaveUp<S, I, O>(model: Model<S, I, O>, h: seq<Entry<I, O>>, computePartial: bool, v: View<S>)
    requires WellFormed(h) && Inv(model, h, computePartial, v)
    requires v.cursor < |h| && (h[v.cursor].CallEntry? ==> AtCall(h, v)) && !AtCall(h, v) && v.calls == []
    ensures !Linearizable(model, OpsOf(h))
    ensures computePartial ==> LongestMaximal(model, OpsOf(h), v.longest)
  {
    ExhaustedIsIllegal(model, h, computePartial, v);
    if computePartial { ExhaustedIsMaximal(model, h, v); }
  }

  /** A linearization is the longest partial linearization of each of its operations. */
  lemma LinearizationIsMaximal<S, I, O>(
      model: Model<S, I, O>, ops: seq<Operation<I, O>>, q: seq<nat>, longest: seq<Option<seq<nat>>>)
    requires WellTimed(ops) && Linearization(model, ops, q)
    requires |longest| == |ops| && forall id :: 0 <= id < |longest| ==> longest[id] == Some(q)
    ensures LongestMaximal(model, ops, longest)
  {
    CompletePartialLinearization(model, ops, q);
    DistinctCovers(q, |ops|);
    forall r: seq<nat>, id: nat | PartialLinearization(model, ops, r) && id in Ids(r)
      ensures id < |longest| && longest[id].Some? && |r| <= |longest[id].value|
    {
      PartialIsBounded(model, ops, r);
      IdsInRange(r, |ops|);
    }
  }

  /** The result when nothing is left in the list. */
  method Finish<S, I, O>(calls: seq<CallsEntry<S, I, O>>, n: nat,
                         ghost model: Model<S, I, O>, ghost h: seq<Entry<I, O>>, ghost cells: seq<Node<I, O>>,
                         ghost v: View<S>)
    returns (longest: seq<Option<seq<nat>>>)
    requires WellFormed(h) && PathOk(model, OpsOf(h), v) && NextLive(h, Done(v), 0) == |h| && n == |h| / 2
    requires |cells| == |h| + 1 && StackOf(h, cells, calls, v.calls)
    ensures Linearization(model, OpsOf(h), Order(v.calls)) && longest == seq(|h| / 2, _ => Some(Order(v.calls)))
    ensures LongestMaximal(model, OpsOf(h), longest)
  {
    var all := IdsOfCalls(calls, v.calls);
    longest := seq(n, _ => Some(all));
    EmptyListIsLinearization(model, h, v);
    OpsAreWellTimed(h);
    LinearizationIsMaximal(model, OpsOf(h), Order(v.calls), longest);
  }

  /** Builds the list and the other variables. */
  method Start<S, I, O>(model: Model<S, I, O>, history: seq<Entry<I, O>>, computePartial: bool)
    returns (head: Node<I, O>, entry: Node?<I, O>, n: nat, linearized: array<Bitset.Word>, cache: Cache.Table<S>,
             calls: seq<CallsEntry<S, I, O>>, longest: seq<Option<seq<nat>>>, ghost cells: seq<Node<I, O>>,
             ghost v: View<S>)
    requires WellFormed(history)
    ensures n == |history| / 2 && |cells| == |history| + 1 && head == cells[0]
    ensures fresh(linearized) && forall j :: 0 <= j < |cells| ==> fresh(cells[j])
    ensures Inv(model, history, computePartial, v)
    ensures Represents(history, cells, v, entry, model.init, calls, linearized, cache, longest)
  {
    head, entry, n, cells := BuildList(history);
    linearized := Bitset.NewBitset(n);
    cache, calls := map[], [];
    longest := seq(n, _ => None);
    v := InitialView(model, history);
    InitialInv(model, history, computePartial);
  }

  /** What holds at every loop head of CheckSingle. */
  ghost predicate LoopHead<S, I, O>(
    model: Model<S, I, O>, h: seq<Entry<I, O>>, computePartial: bool, head: Node<I, O>, cells: seq<Node<I, O>>,
    v: View<S>,
    entry: Node?<I, O>, state: S, calls: seq<CallsEntry<S, I, O>>,
    linearized: array<Bitset.Word>, cache: Cache.Table<S>, longest: seq<Option<seq<nat>>>, first: Node?<I, O>)
    requires WellFormed(h)
    reads cells, linearized
  {
    && |cells| == |h| + 1 && head == cells[0]
    && Inv(model, h, computePartial, v)
    && Represents(h, cells, v, entry, state, calls, linearized, cache, longest)
    && (first != null <==> NextLive(h, Done(v), 0) < |h|)
  }

  /** The body of the loop, and the loop test after it. */
  method Iterate<S(==), I, O>(
    model: Model<S, I, O>, computePartial: bool, head: Node<I, O>, entry: Node?<I, O>, state: S,
    calls: seq<CallsEntry<S, I, O>>,
    linearized: array<Bitset.Word>, cache: Cache.Table<S>, longest: seq<Option<seq<nat>>>, ghost first: Node<I, O>,
    ghost h: seq<Entry<I, O>>, ghost cells: seq<Node<I, O>>, ghost v: View<S>)
    returns (exhausted: bool, entry': Node?<I, O>, state': S, calls': seq<CallsEntry<S, I, O>>,
             cache': Cache.Table<S>, longest': seq<Option<seq<nat>>>, first': Node?<I, O>, ghost v': View<S>)
    requires WellFormed(h)
    requires LoopHead(model, h, computePartial, head, cells, v, entry, state, calls, linearized, cache, longest, first)
    modifies cells, linearized
    ensures exhausted ==> !Linearizable(model, OpsOf(h)) && LongestSound(model, OpsOf(h), longest')
    ensures exhausted && computePartial ==> LongestMaximal(model, OpsOf(h), longest')
    ensures !exhausted ==>
      LoopHead(model, h, computePartial, head, cells, v', entry', state', calls', linearized, cache', longest', first')
    ensures !exhausted ==> Progress(model, h, v, v')
  {
    LiveCursor(model, h, computePartial, v);
    MatchingTellsCalls(h, cells, Order(v.calls), v.cursor, entry, linearized);
    exhausted, entry', state', calls', cache', longest', v' :=
      Round(model, computePartial, head, entry, state, calls, linearized, cache, longest, h, cells, v);
    first' := null;
    if exhausted {
      GaveUp(model, h, computePartial, v);
    } else {
      RoundKeepsInv(model, h, computePartial, v, v');
      first' := First(head, entry', linearized, h, cells, v');
    }
  }

  /** Decides whether the entry list `history` is linearizable. `kill(k)` is whether the kill flag is
      set when it is read for the k-th time, `killed` whether it was found set. */
  method CheckSingle<S(==), I, O>(
      model: Model<S, I, O>, history: seq<Entry<I, O>>, computePartial: bool, kill: nat -> bool)
    returns (ok: bool, longest: seq<Option<seq<nat>>>, ghost killed: bool)
    requires WellFormed(history)
    ensures killed ==> exists k: nat :: kill(k)
    ensures Truthful(Linearizable(model, OpsOf(history)), killed, ok)
    ensures ok ==> exists q :: Linearization(model, OpsOf(history), q) && longest == seq(|history| / 2, _ => Some(q))
    ensures !killed && computePartial ==> LongestMaximal(model, OpsOf(history), longest)
    ensures LongestSound(model, OpsOf(history), longest)
  {
    ghost var h := history;
    var head, entry, n, linearized, cache, calls;
    ghost var cells, v;
    head, entry, n, linearized, cache, calls, longest, cells, v := Start(model, history, computePartial);
    var state := model.init;
    var rounds := 0;
    var first := First(head, entry, linearized, h, cells, v);
    while first != null
      invariant LoopHead(
          model, h, computePartial, head, cells, v, entry, state, calls, linearized, cache, longest, first)
      invariant fresh(linearized) && forall j :: 0 <= j < |cells| ==> fresh(cells[j])
      decreases Unseen(model, h, v.cache), |v.calls|, |h| - v.cursor
    {
      if kill(rounds) {
        return false, longest, true;
      }
      rounds := rounds + 1;
      var exhausted;
      exhausted, entry, state, calls, cache, longest, first, v :=
        Iterate(model, computePartial, head, entry, state, calls, linearized, cache, longest, first, h, cells, v);
      if exhausted {
        return false, longest, false;
      }
    }
    longest := Finish(calls, n, model, h, cells, v);
    ok, killed := true, false;
  }
}
