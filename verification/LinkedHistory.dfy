/** The doubly linked list of entries that checkSingle searches: building it, and taking an operation
    out and putting it back. The list is described by the set of history positions that are still in
    it; a node that was taken out keeps its own pointers, which is what lets it be put back. */
module LinkedHistory {
  import opened Linearizability
  import opened History

  datatype Value<I, O> = Nothing | Input(input: I) | Output(output: O)

  class Node<I, O> {
    const value: Value<I, O>
    const matching: Node?<I, O>  // the return entry of a call; null for a return
    const id: int
    var next: Node?<I, O>
    var prev: Node?<I, O>

    constructor (value: Value<I, O>, matching: Node?<I, O>, id: int)
      ensures this.value == value && this.matching == matching && this.id == id
      ensures next == null && prev == null
    {
      this.value, this.matching, this.id := value, matching, id;
      next, prev := null, null;
    }
  }

  // ---------- positions ----------

  /** The first position of `live` at or after `i`, or `n` if there is none. */
  ghost function NextIn(live: set<nat>, n: nat, i: nat): (j: nat)
    requires i <= n
    ensures i <= j <= n
    ensures j < n ==> j in live
    decreases n - i
  {
    if i == n || i in live then i else NextIn(live, n, i + 1)
  }

  /** The last position of `live` before `i`, or -1 if there is none. */
  ghost function PrevIn(live: set<nat>, i: nat): (j: int)
    ensures -1 <= j < i
    ensures j >= 0 ==> j in live
  {
    if i == 0 then -1 else if i - 1 in live then i - 1 else PrevIn(live, i - 1)
  }

  lemma {:induction false} NextIsFirst(live: set<nat>, n: nat, i: nat)
    requires i <= n
    ensures forall k: nat :: i <= k < NextIn(live, n, i) ==> k !in live
    decreases n - i
  {
    if i < n && i !in live { NextIsFirst(live, n, i + 1); }
  }

  lemma {:induction false} PrevIsLast(live: set<nat>, i: nat)
    ensures forall k: nat :: PrevIn(live, i) < k < i ==> k !in live
  {
    if i > 0 && i - 1 !in live { PrevIsLast(live, i - 1); }
  }

  lemma NextIsUnique(live: set<nat>, n: nat, i: nat, j: nat)
    requires i <= j <= n && (j < n ==> j in live)
    requires forall k: nat :: i <= k < j ==> k !in live
    ensures NextIn(live, n, i) == j
  {
    NextIsFirst(live, n, i);
    var found := NextIn(live, n, i);
    assert found < j ==> found !in live;
    assert j < found ==> j !in live;
  }

  lemma PrevIsUnique(live: set<nat>, i: nat, j: int)
    requires -1 <= j < i && (j >= 0 ==> j in live)
    requires forall k: nat :: j < k < i ==> k !in live
    ensures PrevIn(live, i) == j
  {
    PrevIsLast(live, i);
    var found := PrevIn(live, i);
    assert found > j ==> found !in live;
    assert j > found ==> j !in live;
  }

  /** `next` and `prev` are inverse to each other. */
  lemma NextPrevInverse(live: set<nat>, n: nat, k: nat, i: nat)
    requires k < n && k in live && i < n && i in live
    ensures NextIn(live, n, k + 1) == i <==> PrevIn(live, i) == k
  {
    NextIsFirst(live, n, k + 1);
    PrevIsLast(live, i);
    if NextIn(live, n, k + 1) == i { PrevIsUnique(live, i, k); }
    if PrevIn(live, i) == k { NextIsUnique(live, n, k + 1, i); }
  }

  /** Taking `i` out only changes the `next` of the position before it ... */
  lemma NextWithout(live: set<nat>, n: nat, k: nat, i: nat)
    requires k < n && k in live && k != i && i < n && i in live
    ensures NextIn(live - {i}, n, k + 1) ==
      if k == PrevIn(live, i) then NextIn(live, n, i + 1) else NextIn(live, n, k + 1)
  {
    NextPrevInverse(live, n, k, i);
    NextIsFirst(live, n, k + 1);
    NextIsFirst(live, n, i + 1);
    NextIsUnique(live - {i}, n, k + 1, if k == PrevIn(live, i) then NextIn(live, n, i + 1) else NextIn(live, n, k + 1));
  }

  /** ... and the `prev` of the position after it. */
  lemma PrevWithout(live: set<nat>, n: nat, k: nat, i: nat)
    requires k < n && k in live && k != i && i < n && i in live
    ensures PrevIn(live - {i}, k) == if k == NextIn(live, n, i + 1) then PrevIn(live, i) else PrevIn(live, k)
  {
    NextPrevInverse(live, n, i, k);
    PrevIsLast(live, k);
    PrevIsLast(live, i);
    PrevIsUnique(live - {i}, k, if k == NextIn(live, n, i + 1) then PrevIn(live, i) else PrevIn(live, k));
  }

  // ---------- pointers as values ----------

  /** All `next` and `prev` pointers of the cells of a list: its head and one node per entry. */
  datatype Pointers<I, O> = Pointers(next: seq<Node?<I, O>>, prev: seq<Node?<I, O>>)

  ghost function PointersOf<I, O>(cells: seq<Node<I, O>>): (p: Pointers<I, O>)
    reads cells
    ensures |p.next| == |p.prev| == |cells|
    ensures forall i :: 0 <= i < |cells| ==> p.next[i] == cells[i].next && p.prev[i] == cells[i].prev
  {
    Pointers(seq(|cells|, i requires 0 <= i < |cells| reads cells => cells[i].next),
             seq(|cells|, i requires 0 <= i < |cells| reads cells => cells[i].prev))
  }

  ghost function CellAt<I, O>(cells: seq<Node<I, O>>, i: int): Node?<I, O>
    requires -1 <= i <= |cells|
  {
    if i == -1 || i == |cells| then null else cells[i]
  }

  /** Cell `i` points to its neighbours in the list of the positions `live`. */
  ghost predicate PointsInto<I, O>(cells: seq<Node<I, O>>, p: Pointers<I, O>, live: set<nat>, i: nat)
    requires |p.next| == |p.prev| == |cells| && i < |cells|
  {
    && p.next[i] == CellAt(cells, NextIn(live, |cells|, i + 1))
    && p.prev[i] == CellAt(cells, PrevIn(live, i))
  }

  /** The list from the head is exactly the cells at the positions `live`, in history order, with
      `next` and `prev` inverse to each other. */
  ghost predicate ListOf<I, O>(cells: seq<Node<I, O>>, p: Pointers<I, O>, live: set<nat>) {
    && |p.next| == |p.prev| == |cells|
    && 0 in live
    && (forall i: nat :: i in live ==> i < |cells|)
    && forall i: nat {:trigger PointsInto(cells, p, live, i)} ::
         i < |cells| && i in live ==> PointsInto(cells, p, live, i)
  }

  /** The pointers after cell `i` was bypassed by its neighbours. */
  ghost function Bypassed<I, O>(p: Pointers<I, O>, before: int, i: nat, after: int): Pointers<I, O>
    requires |p.next| == |p.prev| && 0 <= before < i < after <= |p.next|
  {
    Pointers(p.next[before := p.next[i]], if after < |p.prev| then p.prev[after := p.prev[i]] else p.prev)
  }

  lemma {:induction false} HeadIsBefore(live: set<nat>, i: nat)
    requires 0 in live && i > 0
    ensures PrevIn(live, i) >= 0
  {
    if i > 1 { HeadIsBefore(live, i - 1); }
  }

  lemma BypassRemoves<I, O>(cells: seq<Node<I, O>>, p: Pointers<I, O>, live: set<nat>, i: nat)
    requires ListOf(cells, p, live) && i in live && i > 0
    ensures PrevIn(live, i) >= 0
    ensures var p' := Bypassed(p, PrevIn(live, i), i, NextIn(live, |cells|, i + 1));
            ListOf(cells, p', live - {i}) && PointsInto(cells, p', live, i)
  {
    HeadIsBefore(live, i);
    var n := |cells|;
    var p' := Bypassed(p, PrevIn(live, i), i, NextIn(live, n, i + 1));
    assert PointsInto(cells, p, live, i);
    forall k: nat | k < n && k in live - {i} ensures PointsInto(cells, p', live - {i}, k) {
      assert PointsInto(cells, p, live, k);
      NextWithout(live, n, k, i);
      PrevWithout(live, n, k, i);
    }
  }

  /** The pointers after the neighbours of cell `i` point to it again. */
  ghost function Restored<I, O>(
      cells: seq<Node<I, O>>, p: Pointers<I, O>, before: int, i: nat, after: int): Pointers<I, O>
    requires |p.next| == |p.prev| == |cells| && 0 <= before < i < after <= |cells|
  {
    Pointers(p.next[before := cells[i]], if after < |cells| then p.prev[after := cells[i]] else p.prev)
  }

  lemma RestoreNextAt(live: set<nat>, n: nat, i: nat, k: nat)
    requires 0 < i < n && i in live && k < n && k in live && k != i
    ensures NextIn(live, n, k + 1) == if PrevIn(live, i) == k then i else NextIn(live - {i}, n, k + 1)
  {
    NextWithout(live, n, k, i);
    NextPrevInverse(live, n, k, i);
  }

  lemma RestorePrevAt(live: set<nat>, n: nat, i: nat, k: nat)
    requires 0 < i < n && i in live && k < n && k in live && k != i
    ensures PrevIn(live, k) == if NextIn(live, n, i + 1) == k then i else PrevIn(live - {i}, k)
  {
    PrevWithout(live, n, k, i);
    NextPrevInverse(live, n, i, k);
  }

  lemma RestoreInsertsAt<I, O>(cells: seq<Node<I, O>>, p: Pointers<I, O>, live: set<nat>, i: nat, k: nat)
    requires |p.next| == |p.prev| == |cells| && 0 < i < |cells| && i in live && 0 in live
    requires k < |cells| && k in live && k != i && PointsInto(cells, p, live - {i}, k)
    ensures PrevIn(live, i) >= 0
    ensures PointsInto(cells, Restored(cells, p, PrevIn(live, i), i, NextIn(live, |cells|, i + 1)), live, k)
  {
    HeadIsBefore(live, i);
    RestoreNextAt(live, |cells|, i, k);
    RestorePrevAt(live, |cells|, i, k);
    RestoredPointers(cells, p, PrevIn(live, i), i, NextIn(live, |cells|, i + 1), k,
                     NextIn(live - {i}, |cells|, k + 1), PrevIn(live - {i}, k));
  }

  /** Only the neighbours of a restored cell change: they point to it. */
  lemma RestoredPointers<I, O>(
      cells: seq<Node<I, O>>, p: Pointers<I, O>, before: int, i: nat, after: int, k: nat, next: int, prev: int)
    requires |p.next| == |p.prev| == |cells| && 0 <= before < i < after <= |cells| && k < |cells| && k != i
    requires -1 <= next <= |cells| && -1 <= prev <= |cells|
    requires p.next[k] == CellAt(cells, next) && p.prev[k] == CellAt(cells, prev)
    ensures Restored(cells, p, before, i, after).next[k] == CellAt(cells, if before == k then i else next)
    ensures Restored(cells, p, before, i, after).prev[k] == CellAt(cells, if after == k then i else prev)
  {}

  lemma RestoreInserts<I, O>(cells: seq<Node<I, O>>, p: Pointers<I, O>, live: set<nat>, i: nat)
    requires 0 < i < |cells| && i in live
    requires ListOf(cells, p, live - {i}) && PointsInto(cells, p, live, i)
    ensures PrevIn(live, i) >= 0
    ensures ListOf(cells, Restored(cells, p, PrevIn(live, i), i, NextIn(live, |cells|, i + 1)), live)
  {
    HeadIsBefore(live, i);
    var n := |cells|;
    var p' := Restored(cells, p, PrevIn(live, i), i, NextIn(live, n, i + 1));
    forall k: nat | k < n && k in live ensures PointsInto(cells, p', live, k) {
      if k != i {
        assert PointsInto(cells, p, live - {i}, k);
        RestoreInsertsAt(cells, p, live, i, k);
      }
    }
    assert forall k: nat :: k in live ==> k in live - {i} || k == i;
  }

  // ---------- lift and unlift ----------

  ghost predicate Apart<I, O>(cells: seq<Node<I, O>>, i: int, j: int)
    requires 0 <= i < j < |cells|
  {
    cells[i] != cells[j]
  }

  ghost predicate AllDistinct<I, O>(cells: seq<Node<I, O>>) {
    forall i, j {:trigger Apart(cells, i, j)} :: 0 <= i < j < |cells| ==> Apart(cells, i, j)
  }

  lemma AllDistinctPairs<I, O>(cells: seq<Node<I, O>>)
    requires AllDistinct(cells)
    ensures forall i, j :: 0 <= i < j < |cells| ==> cells[i] != cells[j]
  {
    forall i, j | 0 <= i < j < |cells| ensures cells[i] != cells[j] {
      assert Apart(cells, i, j);
    }
  }

  ghost predicate Linked<I, O>(cells: seq<Node<I, O>>, live: set<nat>)
    reads cells
  {
    AllDistinct(cells) && ListOf(cells, PointersOf(cells), live)
  }

  /** entry.prev.next = entry.next, and back */
  method Unlink<I, O>(x: Node<I, O>, ghost cells: seq<Node<I, O>>, ghost before: nat, ghost i: nat, ghost after: nat)
    requires AllDistinct(cells) && before < i < after <= |cells|
    requires x == cells[i] && x.prev == cells[before] && x.next == CellAt(cells, after)
    modifies cells
    ensures PointersOf(cells) == old(Bypassed(PointersOf(cells), before, i, after))
  {
    AllDistinctPairs(cells);
    ghost var q := Bypassed(PointersOf(cells), before, i, after);
    x.prev.next := x.next;
    if x.next != null {
      x.next.prev := x.prev;
    }
    assert PointersOf(cells).next == q.next;
    assert PointersOf(cells).prev == q.prev;
  }

  /** entry.prev.next = entry, and back */
  method Relink<I, O>(x: Node<I, O>, ghost cells: seq<Node<I, O>>, ghost before: nat, ghost i: nat, ghost after: nat)
    requires AllDistinct(cells) && before < i < after <= |cells|
    requires x == cells[i] && x.prev == cells[before] && x.next == CellAt(cells, after)
    modifies cells
    ensures PointersOf(cells) == old(Restored(cells, PointersOf(cells), before, i, after))
  {
    AllDistinctPairs(cells);
    ghost var q := Restored(cells, PointersOf(cells), before, i, after);
    x.prev.next := x;
    if x.next != null {
      x.next.prev := x;
    }
    assert PointersOf(cells).next == q.next;
    assert PointersOf(cells).prev == q.prev;
  }

  ghost function Removed<I, O>(cells: seq<Node<I, O>>, p: Pointers<I, O>, live: set<nat>, i: nat): (p': Pointers<I, O>)
    requires |p.next| == |p.prev| == |cells| && 0 < i < |cells| && 0 in live
    ensures |p'.next| == |p'.prev| == |cells|
  {
    HeadIsBefore(live, i);
    Bypassed(p, PrevIn(live, i), i, NextIn(live, |cells|, i + 1))
  }

  ghost function Inserted<I, O>(cells: seq<Node<I, O>>, p: Pointers<I, O>, live: set<nat>, i: nat): (p': Pointers<I, O>)
    requires |p.next| == |p.prev| == |cells| && 0 < i < |cells| && 0 in live
    ensures |p'.next| == |p'.prev| == |cells|
  {
    HeadIsBefore(live, i);
    Restored(cells, p, PrevIn(live, i), i, NextIn(live, |cells|, i + 1))
  }

  /** The pointers after the call at `c`, then its return at `r`, were taken out. */
  ghost function Lifted<I, O>(
      cells: seq<Node<I, O>>, p: Pointers<I, O>, live: set<nat>, c: nat, r: nat): (p': Pointers<I, O>)
    requires |p.next| == |p.prev| == |cells| && 0 < c < r < |cells| && 0 in live
    ensures |p'.next| == |p'.prev| == |cells|
  {
    Removed(cells, Removed(cells, p, live, c), live - {c}, r)
  }

  /** The pointers after the return at `r`, then the call at `c`, were put back. */
  ghost function Unlifted<I, O>(
      cells: seq<Node<I, O>>, p: Pointers<I, O>, live: set<nat>, c: nat, r: nat): (p': Pointers<I, O>)
    requires |p.next| == |p.prev| == |cells| && 0 < c < r < |cells| && 0 in live
    ensures |p'.next| == |p'.prev| == |cells|
  {
    Inserted(cells, Inserted(cells, p, live - {c}, r), live, c)
  }

  /** The pointers with which the call at `c` and its return at `r` were left when they were taken out. */
  ghost predicate LeftAt<I, O>(cells: seq<Node<I, O>>, p: Pointers<I, O>, live: set<nat>, c: nat, r: nat)
    requires |p.next| == |p.prev| == |cells| && c < |cells| && r < |cells|
  {
    PointsInto(cells, p, live, c) && PointsInto(cells, p, live - {c}, r)
  }

  lemma LiftRemoves<I, O>(cells: seq<Node<I, O>>, p: Pointers<I, O>, live: set<nat>, c: nat, r: nat)
    requires ListOf(cells, p, live) && c in live && r in live && 0 < c < r
    ensures ListOf(cells, Lifted(cells, p, live, c, r), live - {c} - {r})
    ensures LeftAt(cells, Lifted(cells, p, live, c, r), live, c, r)
  {
    BypassRemoves(cells, p, live, c);
    var p1 := Removed(cells, p, live, c);
    BypassRemoves(cells, p1, live - {c}, r);
  }

  lemma UnliftInserts<I, O>(cells: seq<Node<I, O>>, p: Pointers<I, O>, live: set<nat>, c: nat, r: nat)
    requires 0 < c < r < |cells| && c in live && r in live
    requires ListOf(cells, p, live - {c} - {r}) && LeftAt(cells, p, live, c, r)
    ensures ListOf(cells, Unlifted(cells, p, live, c, r), live)
  {
    RestoreInserts(cells, p, live - {c}, r);
    var p1 := Inserted(cells, p, live - {c}, r);
    assert PointsInto(cells, p1, live, c);
    RestoreInserts(cells, p1, live, c);
  }

  lemma InsertUndoesRemove<I, O>(cells: seq<Node<I, O>>, p: Pointers<I, O>, live: set<nat>, i: nat)
    requires ListOf(cells, p, live) && i in live && 0 < i
    ensures Inserted(cells, Removed(cells, p, live, i), live, i) == p
  {
    var n := |cells|;
    HeadIsBefore(live, i);
    var before, after := PrevIn(live, i), NextIn(live, n, i + 1);
    NextPrevInverse(live, n, before, i);
    assert PointsInto(cells, p, live, before);
    if after < n {
      NextPrevInverse(live, n, i, after);
      assert PointsInto(cells, p, live, after);
    }
    var p' := Inserted(cells, Removed(cells, p, live, i), live, i);
    assert p'.next == p.next && p'.prev == p.prev;
  }

  /** unlift after lift restores every pointer, also when call and return are adjacent. */
  lemma UnliftUndoesLift<I, O>(cells: seq<Node<I, O>>, p: Pointers<I, O>, live: set<nat>, c: nat, r: nat)
    requires ListOf(cells, p, live) && c in live && r in live && 0 < c < r
    ensures Unlifted(cells, Lifted(cells, p, live, c, r), live, c, r) == p
  {
    BypassRemoves(cells, p, live, c);
    InsertUndoesRemove(cells, Removed(cells, p, live, c), live - {c}, r);
    InsertUndoesRemove(cells, p, live, c);
  }

  datatype Pair = Pair(call: nat, ret: nat)

  ghost predicate Liftable(pairs: seq<Pair>, live: set<nat>) {
    pairs == [] ||
    (0 < pairs[0].call < pairs[0].ret && pairs[0].call in live && pairs[0].ret in live &&
     Liftable(pairs[1..], live - {pairs[0].call} - {pairs[0].ret}))
  }

  /** Lift all the pairs, then unlift them in the reverse order. */
  ghost function LiftThenUnlift<I, O>(
      cells: seq<Node<I, O>>, p: Pointers<I, O>, live: set<nat>, pairs: seq<Pair>): (p': Pointers<I, O>)
    requires ListOf(cells, p, live) && Liftable(pairs, live)
    ensures |p'.next| == |p'.prev| == |cells|
    decreases pairs
  {
    if pairs == [] then p
    else
      var c, r := pairs[0].call, pairs[0].ret;
      LiftRemoves(cells, p, live, c, r);
      Unlifted(cells, LiftThenUnlift(cells, Lifted(cells, p, live, c, r), live - {c} - {r}, pairs[1..]), live, c, r)
  }

  /** Any nest of lifts undone in the reverse order restores every pointer. */
  lemma {:induction false} NestedLiftsRestore<I, O>(
      cells: seq<Node<I, O>>, p: Pointers<I, O>, live: set<nat>, pairs: seq<Pair>)
    requires ListOf(cells, p, live) && Liftable(pairs, live)
    ensures LiftThenUnlift(cells, p, live, pairs) == p
    decreases pairs
  {
    if pairs != [] {
      var c, r := pairs[0].call, pairs[0].ret;
      LiftRemoves(cells, p, live, c, r);
      NestedLiftsRestore(cells, Lifted(cells, p, live, c, r), live - {c} - {r}, pairs[1..]);
      UnliftUndoesLift(cells, p, live, c, r);
    }
  }

  method Lift<I, O>(entry: Node<I, O>, ghost cells: seq<Node<I, O>>, ghost live: set<nat>, ghost c: nat, ghost r: nat)
    requires Linked(cells, live) && c in live && r in live && 0 < c < r
    requires entry == cells[c] && entry.matching == cells[r]
    modifies cells
    ensures PointersOf(cells) == old(Lifted(cells, PointersOf(cells), live, c, r))
  {
    ghost var p := PointersOf(cells);
    assert PointsInto(cells, p, live, c);
    BypassRemoves(cells, p, live, c);
    Unlink(entry, cells, PrevIn(live, c), c, NextIn(live, |cells|, c + 1));
    var match_ := entry.matching;
    assert PointsInto(cells, PointersOf(cells), live - {c}, r);
    HeadIsBefore(live - {c}, r);
    Unlink(match_, cells, PrevIn(live - {c}, r), r, NextIn(live - {c}, |cells|, r + 1));
  }

  method Unlift<I, O>(entry: Node<I, O>, ghost cells: seq<Node<I, O>>, ghost live: set<nat>, ghost c: nat, ghost r: nat)
    requires 0 < c < r < |cells| && c in live && r in live && 0 in live
    requires AllDistinct(cells) && LeftAt(cells, PointersOf(cells), live, c, r)
    requires entry == cells[c] && entry.matching == cells[r]
    modifies cells
    ensures PointersOf(cells) == old(Unlifted(cells, PointersOf(cells), live, c, r))
  {
    HeadIsBefore(live - {c}, r);
    HeadIsBefore(live, c);
    var match_ := entry.matching;
    Relink(match_, cells, PrevIn(live - {c}, r), r, NextIn(live - {c}, |cells|, r + 1));
    assert PointsInto(cells, PointersOf(cells), live, c);
    Relink(entry, cells, PrevIn(live, c), c, NextIn(live, |cells|, c + 1));
  }

  /** Lifting and unlifting leave the pointers of every cell outside the list alone. */
  lemma LiftKeepsOthers<I, O>(cells: seq<Node<I, O>>, p: Pointers<I, O>, live: set<nat>, c: nat, r: nat, k: nat)
    requires |p.next| == |p.prev| == |cells| && 0 < c < r < |cells| && 0 in live && r in live
    requires k < |cells| && k !in live
    ensures var p' := Lifted(cells, p, live, c, r); p'.next[k] == p.next[k] && p'.prev[k] == p.prev[k]
    ensures var p' := Unlifted(cells, p, live, c, r); p'.next[k] == p.next[k] && p'.prev[k] == p.prev[k]
  {
  }

  lemma LiftKeepsLeft<I, O>(cells: seq<Node<I, O>>, p: Pointers<I, O>, live: set<nat>, c: nat, r: nat,
                            live': set<nat>, c': nat, r': nat)
    requires |p.next| == |p.prev| == |cells| && 0 < c < r < |cells| && 0 in live && r in live
    requires c' < |cells| && c' !in live && r' < |cells| && r' !in live && LeftAt(cells, p, live', c', r')
    ensures LeftAt(cells, Lifted(cells, p, live, c, r), live', c', r')
    ensures LeftAt(cells, Unlifted(cells, p, live, c, r), live', c', r')
  {
    LiftKeepsOthers(cells, p, live, c, r, c');
    LiftKeepsOthers(cells, p, live, c, r, r');
  }

  // ---------- building the list ----------

  method InsertBefore<I, O>(n: Node<I, O>, mark: Node?<I, O>)
    requires n != mark && (mark != null ==> mark.prev != n && mark.prev != mark)
    modifies n, mark, if mark == null then null else mark.prev
    ensures mark == null ==> n.next == old(n.next) && n.prev == old(n.prev)
    ensures mark != null ==> n.next == mark && mark.prev == n && mark.next == old(mark.next)
    ensures mark != null && old(mark.prev) == null ==> n.prev == old(n.prev)
    ensures mark != null && old(mark.prev) != null ==>
      n.prev == old(mark.prev) && n.prev.next == n && n.prev.prev == old(mark.prev.prev)
  {
    if mark != null {
      var beforeMark := mark.prev;
      mark.prev := n;
      n.next := mark;
      if beforeMark != null {
        n.prev := beforeMark;
        beforeMark.next := n;
      }
    }
  }

  /** Consecutive nodes point to each other. */
  ghost predicate Chain<I, O>(nodes: seq<Node<I, O>>)
    reads nodes
  {
    && AllDistinct(nodes)
    && (forall i {:trigger nodes[i].next} :: 0 <= i < |nodes| ==> nodes[i].next == CellAt(nodes, i + 1))
    && (forall i {:trigger nodes[i].prev} :: 0 <= i < |nodes| ==> nodes[i].prev == CellAt(nodes, i - 1))
  }

  /** Inserts a new node before the first. */
  method AddFirst<I, O>(n: Node<I, O>, root: Node?<I, O>, ghost nodes: seq<Node<I, O>>)
    requires Chain(nodes) && n !in nodes && n.next == null && n.prev == null
    requires root == if nodes == [] then null else nodes[0]
    modifies n, nodes
    ensures Chain([n] + nodes)
  {
    AllDistinctPairs(nodes);
    InsertBefore(n, root);
    assert forall i :: 1 <= i < |nodes| ==> nodes[i].prev == nodes[i - 1];
    assert forall i :: 0 <= i < |nodes| ==> nodes[i].next == CellAt(nodes, i + 1);
    ghost var all := [n] + nodes;
    assert forall i :: 0 <= i < |nodes| ==> all[i + 1] == nodes[i];
    forall i | 0 <= i < |all| ensures all[i].next == CellAt(all, i + 1) && all[i].prev == CellAt(all, i - 1) {
      if i > 0 {
        assert all[i] == nodes[i - 1];
        if i > 1 { assert all[i - 1] == nodes[i - 2]; }
      }
    }
  }

  /** Node `k` stands for entry `i + k` of the history. */
  ghost predicate StandsFor<I, O>(h: seq<Entry<I, O>>, i: nat, nodes: seq<Node<I, O>>)
    requires WellFormed(h) && i + |nodes| == |h|
  {
    forall k: nat :: k < |nodes| ==> NodeFor(h, i, nodes, k)
  }

  ghost predicate NodeFor<I, O>(h: seq<Entry<I, O>>, i: nat, nodes: seq<Node<I, O>>, k: nat)
    requires WellFormed(h) && i + |nodes| == |h| && k < |nodes|
  {
    var node, entry := nodes[k], h[i + k];
    && node.id == entry.id
    && match entry
       case ReturnEntry(_, _, _, output) => node.value == Output(output) && node.matching == null
       case CallEntry(id, _, _, input) =>
         var r := ReturnPos(h, id) - i;
         node.value == Input(input) && k < r < |nodes| && node.matching == nodes[r]
  }

  lemma StandsForAlsoFirst<I, O>(h: seq<Entry<I, O>>, i: nat, nodes: seq<Node<I, O>>, n: Node<I, O>)
    requires WellFormed(h) && 0 < i && i + |nodes| == |h| && StandsFor(h, i, nodes)
    requires n.id == h[i - 1].id
    requires h[i - 1].ReturnEntry? ==> n.value == Output(h[i - 1].output) && n.matching == null
    requires h[i - 1].CallEntry? ==> n.value == Input(h[i - 1].input)
    requires h[i - 1].CallEntry? ==> var r := ReturnPos(h, h[i - 1].id); i <= r && n.matching == nodes[r - i]
    ensures StandsFor(h, i - 1, [n] + nodes)
  {
    var all, j := [n] + nodes, i - 1;
    forall k: nat | k < |all| ensures NodeFor(h, j, all, k) {
      if k > 0 {
        assert NodeFor(h, i, nodes, k - 1);
      }
    }
  }

  /** `matches` finds the return node of every operation whose return was reached. */
  ghost predicate FindsReturns<I, O>(h: seq<Entry<I, O>>, i: nat, nodes: seq<Node<I, O>>, matches: map<int, Node<I, O>>)
    requires WellFormed(h) && i + |nodes| == |h|
  {
    forall id: nat {:trigger id in matches} ::
      id < |h| / 2 && ReturnPos(h, id) >= i ==> id in matches && matches[id] == nodes[ReturnPos(h, id) - i]
  }

  lemma FindsReturnsAlsoFirst<I, O>(
      h: seq<Entry<I, O>>, i: nat, nodes: seq<Node<I, O>>, matches: map<int, Node<I, O>>, n: Node<I, O>)
    requires WellFormed(h) && 0 < i && i + |nodes| == |h| && FindsReturns(h, i, nodes, matches)
    ensures FindsReturns(h, i - 1, [n] + nodes, if h[i - 1].ReturnEntry? then matches[h[i - 1].id := n] else matches)
  {
    PositionsAreUnique(h, i - 1);
    forall id: nat | id < |h| / 2 && ReturnPos(h, id) >= i
      ensures id in matches && ([n] + nodes)[ReturnPos(h, id) - (i - 1)] == matches[id]
    {
    }
  }

  method MakeLinkedEntries<I, O>(entries: seq<Entry<I, O>>) returns (root: Node?<I, O>, ghost nodes: seq<Node<I, O>>)
    requires WellFormed(entries)
    ensures |nodes| == |entries| && forall k :: 0 <= k < |nodes| ==> fresh(nodes[k])
    ensures Chain(nodes) && StandsFor(entries, 0, nodes)
    ensures root == if nodes == [] then null else nodes[0]
  {
    root, nodes := null, [];
    var matches: map<int, Node<I, O>> := map[];
    var i := |entries|;
    while i > 0
      invariant 0 <= i <= |entries| && |nodes| == |entries| - i
      invariant forall k :: 0 <= k < |nodes| ==> fresh(nodes[k])
      invariant Chain(nodes)
      invariant StandsFor(entries, i, nodes)
      invariant root == if nodes == [] then null else nodes[0]
      invariant FindsReturns(entries, i, nodes, matches)
    {
      var elem := entries[i - 1];
      ghost var was := matches;
      PositionsAreUnique(entries, i - 1);
      CallBeforeReturn(entries, elem.id);
      var entry;
      if elem.ReturnEntry? {
        entry := new Node<I, O>(Output(elem.output), null, elem.id);
        matches := matches[elem.id := entry];
      } else {
        entry := new Node<I, O>(Input(elem.input), if elem.id in matches then matches[elem.id] else null, elem.id);
      }
      StandsForAlsoFirst(entries, i, nodes, entry);
      FindsReturnsAlsoFirst(entries, i, nodes, was, entry);
      AddFirst(entry, root, nodes);
      root, nodes := entry, [entry] + nodes;
      i := i - 1;
    }
  }

  method Length<I, O>(n: Node?<I, O>, ghost nodes: seq<Node<I, O>>) returns (l: nat)
    requires Chain(nodes) && n == if nodes == [] then null else nodes[0]
    ensures l == |nodes|
  {
    l := 0;
    var n := n;
    while n != null
      invariant l <= |nodes| && n == if l == |nodes| then null else nodes[l]
      decreases |nodes| - l
    {
      n := n.next;
      l := l + 1;
    }
  }
}
