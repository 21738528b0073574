/** Entry lists: the time-ordered calls and returns that checkSingle works on, and the operations
    they stand for. */
module History {
  import opened Linearizability

  /** A call entry carries the operation's input, a return entry its output. */
  datatype Entry<I, O> =
    | CallEntry(id: int, time: int, clientId: int, input: I)
    | ReturnEntry(id: int, time: int, clientId: int, output: O)

  ghost predicate IsCall<I, O>(h: seq<Entry<I, O>>, i: int, id: nat) {
    0 <= i < |h| && h[i].CallEntry? && h[i].id == id
  }

  ghost predicate IsReturn<I, O>(h: seq<Entry<I, O>>, i: int, id: nat) {
    0 <= i < |h| && h[i].ReturnEntry? && h[i].id == id
  }

  ghost predicate HasCallAndReturn<I, O>(h: seq<Entry<I, O>>, id: nat) {
    (exists i :: IsCall(h, i, id)) && (exists i :: IsReturn(h, i, id))
  }

  ghost predicate SameOperation<I, O>(h: seq<Entry<I, O>>, i: int, j: int) {
    0 <= i < j < |h| && h[i].id == h[j].id
  }

  /** Every id below |h|/2 has exactly one call and, after it, exactly one return. */
  ghost predicate WellFormed<I, O>(h: seq<Entry<I, O>>) {
    && |h| % 2 == 0
    && (forall i :: 0 <= i < |h| ==> 0 <= h[i].id < |h| / 2)
    && (forall i, j {:trigger SameOperation(h, i, j)} ::
        SameOperation(h, i, j) ==> h[i].CallEntry? && h[j].ReturnEntry?)
    && (forall id: nat :: id < |h| / 2 ==> HasCallAndReturn(h, id))
  }

  ghost function CallPos<I, O>(h: seq<Entry<I, O>>, id: nat): (i: nat)
    requires WellFormed(h) && id < |h| / 2
    ensures IsCall(h, i, id)
  {
    assert HasCallAndReturn(h, id);
    var i :| IsCall(h, i, id);
    i
  }

  ghost function ReturnPos<I, O>(h: seq<Entry<I, O>>, id: nat): (i: nat)
    requires WellFormed(h) && id < |h| / 2
    ensures IsReturn(h, i, id)
  {
    assert HasCallAndReturn(h, id);
    var i :| IsReturn(h, i, id);
    i
  }

  ghost function OpAt<I, O>(h: seq<Entry<I, O>>, id: nat): Operation<I, O>
    requires WellFormed(h) && id < |h| / 2
  {
    var c, r := CallPos(h, id), ReturnPos(h, id);
    Operation(h[c].clientId, h[c].input, c, h[r].output, r)
  }

  /** The operations of an entry list, timed by their positions in the list. */
  ghost function OpsOf<I, O>(h: seq<Entry<I, O>>): (ops: seq<Operation<I, O>>)
    requires WellFormed(h)
    ensures |ops| == |h| / 2
    ensures forall id :: 0 <= id < |ops| ==> ops[id] == OpAt(h, id)
  {
    seq(|h| / 2, id requires 0 <= id < |h| / 2 => OpAt(h, id))
  }

  lemma PositionsAreUnique<I, O>(h: seq<Entry<I, O>>, i: nat)
    requires WellFormed(h) && i < |h|
    ensures h[i].CallEntry? ==> CallPos(h, h[i].id) == i
    ensures h[i].ReturnEntry? ==> ReturnPos(h, h[i].id) == i
    ensures CallPos(h, h[i].id) <= i <= ReturnPos(h, h[i].id)
  {
    var c, r := CallPos(h, h[i].id), ReturnPos(h, h[i].id);
    assert SameOperation(h, c, i) || SameOperation(h, i, c) || i == c;
    assert SameOperation(h, r, i) || SameOperation(h, i, r) || i == r;
  }

  lemma CallBeforeReturn<I, O>(h: seq<Entry<I, O>>, id: nat)
    requires WellFormed(h) && id < |h| / 2
    ensures CallPos(h, id) < ReturnPos(h, id)
  {
    PositionsAreUnique(h, CallPos(h, id));
  }

  lemma OpsAreWellTimed<I, O>(h: seq<Entry<I, O>>)
    requires WellFormed(h)
    ensures WellTimed(OpsOf(h))
  {
    forall id | 0 <= id < |OpsOf(h)| ensures OpsOf(h)[id].call <= OpsOf(h)[id].ret {
      CallBeforeReturn(h, id);
    }
  }
}
