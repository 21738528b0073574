/** Turning operations and events into entry lists: makeEntries, renumber and convertEntries. */
module Entries {
  import opened Linearizability
  import opened History
  import opened Sorting

  // ---------- makeEntries ----------

  /** byTime.Less: earlier first, and calls before returns at the same time. */
  predicate Less<I, O>(a: Entry<I, O>, b: Entry<I, O>) {
    if a.time != b.time then a.time < b.time else a.CallEntry? && b.ReturnEntry?
  }

  lemma LessIsWeakOrder<I(!new), O(!new)>()
    ensures WeakOrder(Less<I, O>)
  {}

  function CallOf<I, O>(op: Operation<I, O>, id: nat): Entry<I, O> {
    CallEntry(id, op.call, op.clientId, op.input)
  }

  function ReturnOf<I, O>(op: Operation<I, O>, id: nat): Entry<I, O> {
    ReturnEntry(id, op.ret, op.clientId, op.output)
  }

  function EntryAt<I, O>(ops: seq<Operation<I, O>>, k: nat): Entry<I, O>
    requires k < 2 * |ops|
  {
    if k % 2 == 0 then CallOf(ops[k / 2], k / 2) else ReturnOf(ops[k / 2], k / 2)
  }

  /** The call and the return of every operation, in the order of the operations. */
  function Unsorted<I, O>(ops: seq<Operation<I, O>>): (es: seq<Entry<I, O>>)
    ensures |es| == 2 * |ops|
    ensures forall k :: 0 <= k < |es| ==> es[k] == EntryAt(ops, k)
  {
    if ops == [] then []
    else
      var n := |ops| - 1;
      Unsorted(ops[..n]) + [CallOf(ops[n], n), ReturnOf(ops[n], n)]
  }

  /** `es` is what sort.Sort may make of the entries of `ops`: some sorted permutation. */
  ghost predicate EntriesOf<I, O>(ops: seq<Operation<I, O>>, es: seq<Entry<I, O>>) {
    SortedBy(es, Less) && multiset(es) == multiset(Unsorted(ops))
  }

  lemma SameLength<T>(a: seq<T>, b: seq<T>)
    requires multiset(a) == multiset(b)
    ensures |a| == |b|
  {
    assert |multiset(a)| == |a| && |multiset(b)| == |b|;
  }

  lemma ElementOfBoth<T>(a: seq<T>, b: seq<T>, i: nat)
    requires multiset(a) == multiset(b) && i < |a|
    ensures a[i] in b
  {
    assert a[i] in multiset(a);
  }

  lemma TwiceInMultiset<T>(s: seq<T>, i: nat, j: nat)
    requires i < j < |s| && s[i] == s[j]
    ensures multiset(s)[s[i]] >= 2
  {
    assert s == s[..j] + s[j..];
    assert s[..j][i] == s[i] && s[j..][0] == s[i];
    assert s[i] in s[..j] && s[i] in s[j..];
    assert multiset(s) == multiset(s[..j]) + multiset(s[j..]);
  }

  lemma {:induction false} OnceInMultiset<T>(s: seq<T>, x: T)
    requires forall i, j :: 0 <= i < j < |s| ==> s[i] != s[j]
    ensures multiset(s)[x] <= 1
  {
    if s != [] {
      var n := |s| - 1;
      assert s == s[..n] + [s[n]];
      OnceInMultiset(s[..n], x);
      assert s[n] !in s[..n];
      assert multiset(s) == multiset(s[..n]) + multiset{s[n]};
      assert multiset(s[..n])[s[n]] == 0;
    }
  }

  /** Every entry of a sorted permutation is the call or the return of the operation it names. */
  lemma EntryIsOf<I, O>(ops: seq<Operation<I, O>>, es: seq<Entry<I, O>>, i: nat)
    requires multiset(es) == multiset(Unsorted(ops)) && i < |es|
    ensures |es| == 2 * |ops| && 0 <= es[i].id < |ops|
    ensures es[i] == if es[i].CallEntry? then CallOf(ops[es[i].id], es[i].id) else ReturnOf(ops[es[i].id], es[i].id)
  {
    var raw := Unsorted(ops);
    SameLength(es, raw);
    ElementOfBoth(es, raw, i);
    var k :| 0 <= k < |raw| && raw[k] == es[i];
  }

  /** Every entry is the call or the return of the operation it names, with that operation's client, its time
      and its input or output. */
  lemma EntriesTellTheOperations<I, O>(ops: seq<Operation<I, O>>, es: seq<Entry<I, O>>, i: nat)
    requires EntriesOf(ops, es) && i < |es|
    ensures 0 <= es[i].id < |ops| && es[i].clientId == ops[es[i].id].clientId
    ensures es[i].CallEntry? ==> es[i].time == ops[es[i].id].call && es[i].input == ops[es[i].id].input
    ensures es[i].ReturnEntry? ==> es[i].time == ops[es[i].id].ret && es[i].output == ops[es[i].id].output
  {
    EntryIsOf(ops, es, i);
  }

  lemma EntryOccurs<I, O>(ops: seq<Operation<I, O>>, raw: seq<Entry<I, O>>, es: seq<Entry<I, O>>, id: nat)
    requires |raw| == 2 * |ops| && forall k :: 0 <= k < |raw| ==> raw[k] == EntryAt(ops, k)
    requires multiset(es) == multiset(raw) && id < |ops|
    ensures CallOf(ops[id], id) in es && ReturnOf(ops[id], id) in es
  {
    var c, r := 2 * id, 2 * id + 1;
    assert c % 2 == 0 && c / 2 == id && r % 2 == 1 && r / 2 == id;
    assert EntryAt(ops, c) == CallOf(ops[id], id) && EntryAt(ops, r) == ReturnOf(ops[id], id);
    ElementOfBoth(raw, es, c);
    ElementOfBoth(raw, es, r);
  }

  lemma EntriesAreDistinct<I, O>(ops: seq<Operation<I, O>>, es: seq<Entry<I, O>>, i: nat, j: nat)
    requires multiset(es) == multiset(Unsorted(ops)) && i < j < |es|
    ensures es[i] != es[j]
  {
    var raw := Unsorted(ops);
    forall a, b | 0 <= a < b < |raw| ensures raw[a] != raw[b] {
      assert raw[a] == EntryAt(ops, a) && raw[b] == EntryAt(ops, b);
    }
    OnceInMultiset(raw, es[i]);
    if es[i] == es[j] {
      TwiceInMultiset(es, i, j);
    }
  }

  /** A sorted permutation of the entries of operations that end no earlier than they begin is a
      well-formed history. */
  lemma SortedIsWellFormed<I, O>(ops: seq<Operation<I, O>>, es: seq<Entry<I, O>>)
    requires EntriesOf(ops, es) && WellTimed(ops)
    ensures |es| == 2 * |ops| && WellFormed(es)
  {
    SameLength(es, Unsorted(ops));
    forall i | 0 <= i < |es| ensures 0 <= es[i].id < |es| / 2 {
      EntryIsOf(ops, es, i);
    }
    forall i, j | SameOperation(es, i, j) ensures es[i].CallEntry? && es[j].ReturnEntry? {
      EntryIsOf(ops, es, i);
      EntryIsOf(ops, es, j);
      EntriesAreDistinct(ops, es, i, j);
      assert !Less(es[j], es[i]);
    }
    forall id: nat | id < |es| / 2 ensures HasCallAndReturn(es, id) {
      EntryOccurs(ops, Unsorted(ops), es, id);
      var c :| 0 <= c < |es| && es[c] == CallOf(ops[id], id);
      var r :| 0 <= r < |es| && es[r] == ReturnOf(ops[id], id);
      assert IsCall(es, c, id) && IsReturn(es, r, id);
    }
  }

  /** Two lists of operations with the same inputs and outputs and the same real-time order. */
  ghost predicate SameOperations<I, O>(a: seq<Operation<I, O>>, b: seq<Operation<I, O>>) {
    && |a| == |b|
    && (forall i :: 0 <= i < |a| ==> a[i].input == b[i].input && a[i].output == b[i].output)
    && (forall i: nat, j: nat {:trigger Precedes(a, i, j)} {:trigger Precedes(b, i, j)} ::
          i < |a| && j < |a| ==> (Precedes(a, i, j) <==> Precedes(b, i, j)))
  }

  lemma {:induction false} SameReplay<S, I, O>(
      model: Model<S, I, O>, a: seq<Operation<I, O>>, b: seq<Operation<I, O>>, q: seq<nat>)
    requires |a| == |b| && InRange(q, |a|)
    requires forall i :: 0 <= i < |a| ==> a[i].input == b[i].input && a[i].output == b[i].output
    ensures Replay(model, a, q) == Replay(model, b, q)
  {
    if q != [] { SameReplay(model, a, b, q[..|q| - 1]); }
  }

  lemma SameLinearizations<S, I, O>(model: Model<S, I, O>, a: seq<Operation<I, O>>, b: seq<Operation<I, O>>)
    requires SameOperations(a, b)
    ensures forall q: seq<nat> :: Linearization(model, a, q) <==> Linearization(model, b, q)
    ensures Linearizable(model, a) <==> Linearizable(model, b)
  {
    forall q: seq<nat> ensures Linearization(model, a, q) <==> Linearization(model, b, q) {
      if InRange(q, |a|) { SameReplay(model, a, b, q); }
    }
  }

  /** The order of the entries is the real-time order of the operations: a return stands before a call
      exactly when it happened strictly earlier, however the sort places equal entries. */
  lemma SortedKeepsRealTime<I, O>(ops: seq<Operation<I, O>>, es: seq<Entry<I, O>>)
    requires EntriesOf(ops, es) && WellTimed(ops) && WellFormed(es) && |es| == 2 * |ops|
    ensures SameOperations(ops, OpsOf(es))
  {
    var ops' := OpsOf(es);
    forall id: nat | id < |ops|
      ensures es[CallPos(es, id)] == CallOf(ops[id], id) && es[ReturnPos(es, id)] == ReturnOf(ops[id], id)
    {
      EntryIsOf(ops, es, CallPos(es, id));
      EntryIsOf(ops, es, ReturnPos(es, id));
    }
    forall a: nat, b: nat | a < |ops| && b < |ops| ensures Precedes(ops, a, b) <==> Precedes(ops', a, b) {
      var r, c := ReturnPos(es, a), CallPos(es, b);
      assert es[r] == ReturnOf(ops[a], a) && es[c] == CallOf(ops[b], b);
      assert r < c ==> !Less(es[c], es[r]);
      assert c < r ==> !Less(es[r], es[c]);
    }
  }

  /** makeEntries gives a well-formed history that is linearizable exactly when the operations are. */
  lemma EntriesKeepLinearizability<S, I, O>(model: Model<S, I, O>, ops: seq<Operation<I, O>>, es: seq<Entry<I, O>>)
    requires EntriesOf(ops, es) && WellTimed(ops)
    ensures WellFormed(es) && |es| == 2 * |ops|
    ensures Linearizable(model, OpsOf(es)) <==> Linearizable(model, ops)
  {
    SortedIsWellFormed(ops, es);
    SortedKeepsRealTime(ops, es);
    SameLinearizations(model, ops, OpsOf(es));
  }

  method MakeEntries<I(!new), O(!new)>(history: seq<Operation<I, O>>) returns (entries: seq<Entry<I, O>>)
    ensures EntriesOf(history, entries)
  {
    entries := [];
    for id := 0 to |history|
      invariant entries == Unsorted(history[..id])
    {
      var elem := history[id];
      entries := entries + [CallEntry(id, elem.call, elem.clientId, elem.input)];
      entries := entries + [ReturnEntry(id, elem.ret, elem.clientId, elem.output)];
      assert history[..id + 1][..id] == history[..id];
    }
    assert history[..|history|] == history;
    LessIsWeakOrder<I, O>();
    entries := Sort(entries, Less);
  }

  // ---------- renumber and convertEntries ----------

  datatype Event<I, O> =
    | CallEvent(clientId: int, id: int, input: I)
    | ReturnEvent(clientId: int, id: int, output: O)

  function WithId<I, O>(e: Event<I, O>, id: int): Event<I, O> {
    match e
    case CallEvent(clientId, _, input) => CallEvent(clientId, id, input)
    case ReturnEvent(clientId, _, output) => ReturnEvent(clientId, id, output)
  }

  function EntryOfEvent<I, O>(e: Event<I, O>, time: int): Entry<I, O> {
    match e
    case CallEvent(clientId, id, input) => CallEntry(id, time, clientId, input)
    case ReturnEvent(clientId, id, output) => ReturnEntry(id, time, clientId, output)
  }

  /** The ids of the events `es` replaced by the numbers that `m` gives them, which are 0 .. |m| - 1. */
  ghost predicate Numbered<I, O>(events: seq<Event<I, O>>, es: seq<Event<I, O>>, m: map<int, nat>) {
    && |es| == |events|
    && (forall i :: 0 <= i < |es| ==> events[i].id in m && es[i] == WithId(events[i], m[events[i].id]))
    && Injective(m)
    && (forall n: nat :: n < |m| ==> Used(es, n))
  }

  ghost predicate Injective(m: map<int, nat>) {
    && (forall a :: a in m ==> m[a] < |m|)
    && (forall a, b :: a in m && b in m && a != b ==> m[a] != m[b])
  }

  lemma NextNumber(m: map<int, nat>, x: int)
    requires Injective(m) && x !in m
    ensures Injective(m[x := |m|]) && |m[x := |m|]| == |m| + 1
  {
    assert m[x := |m|].Keys == m.Keys + {x};
  }

  ghost predicate Used<I, O>(es: seq<Event<I, O>>, n: int) {
    exists i :: 0 <= i < |es| && es[i].id == n
  }

  method Renumber<I, O>(events: seq<Event<I, O>>) returns (e: seq<Event<I, O>>, ghost m: map<int, nat>)
    ensures Numbered(events, e, m)
  {
    e := [];
    var numbers: map<int, nat> := map[];  // renumbering
    var id := 0;
    for i := 0 to |events|
      invariant id == |numbers| && Numbered(events[..i], e, numbers)
    {
      var v := events[i];
      ghost var was := numbers;
      if v.id in numbers {
        e := e + [WithId(v, numbers[v.id])];
      } else {
        e := e + [WithId(v, id)];
        numbers := numbers[v.id := id];
        id := id + 1;
      }
      NumberedNext(events, i, e, was, numbers);
    }
    assert events[..|events|] == events;
    m := numbers;
  }

  lemma NumberedNext<I, O>(events: seq<Event<I, O>>, i: nat, es: seq<Event<I, O>>, m: map<int, nat>, m': map<int, nat>)
    requires i < |events| && |es| == i + 1 && Numbered(events[..i], es[..i], m)
    requires m' == if events[i].id in m then m else m[events[i].id := |m|]
    requires es[i] == WithId(events[i], m'[events[i].id])
    ensures Numbered(events[..i + 1], es, m')
  {
    var evs := events[..i + 1];
    if events[i].id !in m { NextNumber(m, events[i].id); }
    forall k | 0 <= k < |es| ensures evs[k].id in m' && es[k] == WithId(evs[k], m'[evs[k].id]) {
      if k < i {
        assert es[..i][k] == es[k] && events[..i][k] == evs[k];
      }
    }
    forall n: nat | n < |m'| ensures Used(es, n) {
      if n < |m| {
        assert Used(es[..i], n);
        var k :| 0 <= k < i && es[..i][k].id == n;
        assert es[k].id == n;
      } else {
        assert es[i].id == n;
      }
    }
  }

  method ConvertEntries<I, O>(events: seq<Event<I, O>>) returns (entries: seq<Entry<I, O>>)
    ensures Converted(events, entries)
  {
    entries := [];
    for i := 0 to |events|
      invariant |entries| == i && forall k :: 0 <= k < i ==> entries[k] == EntryOfEvent(events[k], k)
    {
      entries := entries + [EntryOfEvent(events[i], i)];
    }
  }

  ghost predicate EventPair<I, O>(events: seq<Event<I, O>>, i: int, j: int) {
    0 <= i < j < |events| && events[i].id == events[j].id
  }

  /** Every id occurs twice: a call and, later, a return. */
  ghost predicate Complete<I, O>(events: seq<Event<I, O>>) {
    && (forall i, j {:trigger EventPair(events, i, j)} ::
        EventPair(events, i, j) ==> events[i].CallEvent? && events[j].ReturnEvent?)
    && (forall i :: 0 <= i < |events| ==> HasPartner(events, i))
  }

  ghost predicate HasPartner<I, O>(events: seq<Event<I, O>>, i: int) {
    (exists j :: EventPair(events, i, j)) || (exists j :: EventPair(events, j, i))
  }

  ghost predicate IsEntryOf<I, O>(es: seq<Entry<I, O>>, i: int, id: nat, call: bool) {
    if call then IsCall(es, i, id) else IsReturn(es, i, id)
  }

  ghost predicate HasEntry<I, O>(es: seq<Entry<I, O>>, id: nat, call: bool) {
    exists i: nat :: IsEntryOf(es, i, id, call)
  }

  ghost function EntryPos<I, O>(es: seq<Entry<I, O>>, id: nat, call: bool): (i: nat)
    requires HasEntry(es, id, call)
    ensures IsEntryOf(es, i, id, call)
  {
    var i: nat :| IsEntryOf(es, i, id, call);
    i
  }

  /** As many entries of one kind as there are ids, if each id has exactly one. */
  lemma OnePerId<I, O>(es: seq<Entry<I, O>>, n: nat, call: bool, at: set<nat>)
    requires forall id: nat :: id < n ==> HasEntry(es, id, call)
    requires forall i: nat :: i in at <==> i < |es| && es[i].CallEntry? == call
    requires forall i: nat :: i < |es| ==> 0 <= es[i].id < n
    requires forall i: nat, j: nat :: i < j < |es| && es[i].id == es[j].id ==> es[i].CallEntry? != es[j].CallEntry?
    ensures |at| == n
  {
    var pos: seq<nat> := seq(n, id requires 0 <= id < n => EntryPos(es, id, call));
    assert forall id :: 0 <= id < n ==> IsEntryOf(es, pos[id], id, call);
    PairwiseDistinct(pos);
    DistinctCardinality(pos);
    IdsMembers(pos);
    forall i: nat ensures i in Ids(pos) <==> i in at {
      if i in at {
        var j := pos[es[i].id];
        assert IsEntryOf(es, j, es[i].id, call);
        assert i == j;
      }
    }
    assert Ids(pos) == at;
  }

  lemma PartnerOf<I, O>(events: seq<Event<I, O>>, i: nat) returns (j: nat)
    requires Complete(events) && i < |events|
    ensures j < |events| && events[j].id == events[i].id && events[j].CallEvent? != events[i].CallEvent?
  {
    assert HasPartner(events, i);
    if k :| EventPair(events, i, k) {
      j := k;
    } else {
      j :| EventPair(events, j, i);
    }
  }

  ghost predicate Converted<I, O>(es: seq<Event<I, O>>, entries: seq<Entry<I, O>>) {
    |entries| == |es| && forall i :: 0 <= i < |es| ==> entries[i] == EntryOfEvent(es[i], i)
  }

  /** Renumbering keeps which events belong together. */
  lemma SameEntriesSameEvents<I, O>(
      events: seq<Event<I, O>>, es: seq<Event<I, O>>, m: map<int, nat>, entries: seq<Entry<I, O>>, i: nat, j: nat)
    requires Numbered(events, es, m) && Converted(es, entries) && i < |es| && j < |es|
    ensures entries[i].id == entries[j].id <==> events[i].id == events[j].id
    ensures entries[i].CallEntry? == events[i].CallEvent? && 0 <= entries[i].id < |m|
  {
  }

  /** An entry tells what its event does: the same kind, client and input or output, at the event's place; and
      two entries name one operation exactly when their events do. */
  lemma EntriesTellTheEvents<I, O>(
      events: seq<Event<I, O>>, es: seq<Event<I, O>>, m: map<int, nat>, entries: seq<Entry<I, O>>, i: nat, j: nat)
    requires Numbered(events, es, m) && Converted(es, entries) && i < |events| && j < |events|
    ensures |entries| == |events| && entries[i].time == i && entries[i].clientId == events[i].clientId
    ensures events[i].CallEvent? ==> entries[i].CallEntry? && entries[i].input == events[i].input
    ensures events[i].ReturnEvent? ==> entries[i].ReturnEntry? && entries[i].output == events[i].output
    ensures entries[i].id == entries[j].id <==> events[i].id == events[j].id
  {
    SameEntriesSameEvents(events, es, m, entries, i, j);
  }

  lemma NumbersAreCalledAndReturned<I, O>(
      events: seq<Event<I, O>>, es: seq<Event<I, O>>, m: map<int, nat>, entries: seq<Entry<I, O>>, id: nat)
    requires Complete(events) && Numbered(events, es, m) && Converted(es, entries) && id < |m|
    ensures HasEntry(entries, id, true) && HasEntry(entries, id, false) && HasCallAndReturn(entries, id)
  {
    assert Used(es, id);
    var i :| 0 <= i < |es| && es[i].id == id;
    var j := PartnerOf(events, i);
    SameEntriesSameEvents(events, es, m, entries, i, j);
    SameEntriesSameEvents(events, es, m, entries, j, i);
    var c, r := if events[i].CallEvent? then i else j, if events[i].CallEvent? then j else i;
    assert IsCall(entries, c, id) && IsReturn(entries, r, id);
    assert IsEntryOf(entries, c, id, true) && IsEntryOf(entries, r, id, false);
  }

  lemma TwoPerId<I, O>(entries: seq<Entry<I, O>>, n: nat)
    requires forall i: nat :: i < |entries| ==> 0 <= entries[i].id < n
    requires forall id: nat :: id < n ==> HasEntry(entries, id, true)
    requires forall id: nat :: id < n ==> HasEntry(entries, id, false)
    requires forall i, j {:trigger SameOperation(entries, i, j)} ::
      SameOperation(entries, i, j) ==> entries[i].CallEntry? && entries[j].ReturnEntry?
    ensures |entries| == 2 * n
  {
    forall i: nat, j: nat | i < j < |entries| && entries[i].id == entries[j].id
      ensures entries[i].CallEntry? != entries[j].CallEntry?
    {
      assert SameOperation(entries, i, j);
    }
    var calls := set i: nat | i < |entries| && entries[i].CallEntry?;
    var rets := set i: nat | i < |entries| && entries[i].ReturnEntry?;
    OnePerId(entries, n, true, calls);
    OnePerId(entries, n, false, rets);
    assert calls + rets == AllIds(|entries|) && calls !! rets;
    AllIdsCardinality(|entries|);
  }

  /** checkEvents normalises every complete list of events into a well-formed history. */
  lemma RenumberedIsWellFormed<I, O>(
      events: seq<Event<I, O>>, es: seq<Event<I, O>>, m: map<int, nat>, entries: seq<Entry<I, O>>)
    requires Complete(events) && Numbered(events, es, m) && Converted(es, entries)
    ensures WellFormed(entries) && |entries| == 2 * |m|
  {
    forall i, j | SameOperation(entries, i, j) ensures entries[i].CallEntry? && entries[j].ReturnEntry? {
      SameEntriesSameEvents(events, es, m, entries, i, j);
      SameEntriesSameEvents(events, es, m, entries, j, i);
      assert EventPair(events, i, j);
    }
    forall i: nat | i < |entries| ensures 0 <= entries[i].id < |m| {
      SameEntriesSameEvents(events, es, m, entries, i, i);
    }
    forall id: nat | id < |m|
      ensures HasEntry(entries, id, true) && HasEntry(entries, id, false) && HasCallAndReturn(entries, id)
    {
      NumbersAreCalledAndReturned(events, es, m, entries, id);
    }
    TwoPerId(entries, |m|);
  }

  // ---------- the operations of an event list ----------

  /** The positions of the calls, in order. */
  ghost function Calls<I, O>(events: seq<Event<I, O>>): seq<nat> {
    if events == [] then []
    else
      var n := |events| - 1;
      Calls(events[..n]) + if events[n].CallEvent? then [n] else []
  }

  lemma {:induction false} CallsAreCalls<I, O>(events: seq<Event<I, O>>)
    ensures Distinct(Calls(events))
    ensures forall p: nat :: p in Ids(Calls(events)) <==> p < |events| && events[p].CallEvent?
  {
    if events != [] {
      var n := |events| - 1;
      var front := Calls(events[..n]);
      CallsAreCalls(events[..n]);
      if events[n].CallEvent? {
        IdsSnoc(front, n);
        assert (front + [n])[..|front|] == front;
      } else {
        assert Calls(events) == front;
      }
    }
  }

  lemma CallAt<I, O>(events: seq<Event<I, O>>, k: nat)
    requires k < |Calls(events)|
    ensures Calls(events)[k] < |events| && events[Calls(events)[k]].CallEvent?
  {
    CallsAreCalls(events);
    IdsMembers(Calls(events));
    assert Calls(events)[k] in Ids(Calls(events));
  }

  /** The return with the id of the call at `c`. */
  ghost function ReturnFor<I, O>(events: seq<Event<I, O>>, c: nat): (r: nat)
    requires Complete(events) && c < |events| && events[c].CallEvent?
    ensures EventPair(events, c, r) && events[r].ReturnEvent?
  {
    assert HasPartner(events, c);
    assert !exists j :: EventPair(events, j, c);
    var r :| EventPair(events, c, r);
    r
  }

  ghost function EventOp<I, O>(events: seq<Event<I, O>>, c: nat): Operation<I, O>
    requires Complete(events) && c < |events| && events[c].CallEvent?
  {
    var r := ReturnFor(events, c);
    Operation(events[c].clientId, events[c].input, c, events[r].output, r)
  }

  /** The operations of a complete event list: the calls in order, each with the return of the same id,
      timed by their positions. Nothing here is renumbered or converted. */
  ghost function EventOps<I, O>(events: seq<Event<I, O>>): (ops: seq<Operation<I, O>>)
    requires Complete(events)
    ensures |ops| == |Calls(events)|
  {
    seq(|Calls(events)|, k requires 0 <= k < |Calls(events)| =>
      CallAt(events, k);
      EventOp(events, Calls(events)[k]))
  }

  // ---------- the order in which operations are listed does not matter ----------

  /** `b` lists the operations of `a` in the order `pi`. */
  ghost predicate Reordered<I, O>(a: seq<Operation<I, O>>, b: seq<Operation<I, O>>, pi: seq<nat>) {
    && |a| == |b| == |pi| && InRange(pi, |a|) && Distinct(pi)
    && forall k :: 0 <= k < |b| ==> b[k] == a[pi[k]]
  }

  ghost function Through(pi: seq<nat>, q: seq<nat>): (r: seq<nat>)
    requires InRange(q, |pi|)
    ensures |r| == |q| && forall k :: 0 <= k < |q| ==> r[k] == pi[q[k]]
  {
    seq(|q|, k requires 0 <= k < |q| => pi[q[k]])
  }

  lemma {:induction false} ReorderedReplay<S, I, O>(
      model: Model<S, I, O>, a: seq<Operation<I, O>>, b: seq<Operation<I, O>>, pi: seq<nat>, q: seq<nat>)
    requires Reordered(a, b, pi) && InRange(q, |b|)
    ensures Replay(model, a, Through(pi, q)) == Replay(model, b, q)
  {
    if q != [] {
      var n := |q| - 1;
      ReorderedReplay(model, a, b, pi, q[..n]);
      assert Through(pi, q)[..n] == Through(pi, q[..n]);
    }
  }

  lemma ThroughIsDistinct(pi: seq<nat>, q: seq<nat>)
    requires InRange(q, |pi|) && Distinct(pi) && Distinct(q)
    ensures Distinct(Through(pi, q))
  {
    var r := Through(pi, q);
    forall i, j | 0 <= i < j < |r| ensures r[i] != r[j] {
      DistinctPairs(q, i, j);
      if q[i] < q[j] { DistinctPairs(pi, q[i], q[j]); } else { DistinctPairs(pi, q[j], q[i]); }
    }
    PairwiseDistinct(r);
  }

  lemma ReorderedIsLinearizable<S, I, O>(
      model: Model<S, I, O>, a: seq<Operation<I, O>>, b: seq<Operation<I, O>>, pi: seq<nat>)
    requires Reordered(a, b, pi) && Linearizable(model, b)
    ensures Linearizable(model, a)
  {
    var q :| Linearization(model, b, q);
    var r := Through(pi, q);
    ReorderedReplay(model, a, b, pi, q);
    ThroughIsDistinct(pi, q);
    forall i, j | 0 <= i < j < |r| ensures !Precedes(a, r[j], r[i]) {
      assert !Precedes(b, q[j], q[i]);
    }
    assert Linearization(model, a, r);
  }

  ghost function PlaceOf(pi: seq<nat>, x: nat): (k: nat)
    requires x in Ids(pi)
    ensures k < |pi| && pi[k] == x
  {
    IdsMembers(pi);
    var k :| 0 <= k < |pi| && pi[k] == x;
    k
  }

  lemma Unreordered<I, O>(a: seq<Operation<I, O>>, b: seq<Operation<I, O>>, pi: seq<nat>) returns (back: seq<nat>)
    requires Reordered(a, b, pi)
    ensures Reordered(b, a, back)
  {
    DistinctCovers(pi, |a|);
    back := seq(|a|, x requires 0 <= x < |a| => PlaceOf(pi, x));
    forall i, j | 0 <= i < j < |back| ensures back[i] != back[j] {
      assert pi[back[i]] == i && pi[back[j]] == j;
    }
    PairwiseDistinct(back);
  }

  /** Entry operation `m[id]` is the operation of the call with this id. */
  lemma CallIsNumbered<I, O>(
      events: seq<Event<I, O>>, es: seq<Event<I, O>>, m: map<int, nat>, entries: seq<Entry<I, O>>, c: nat)
    requires Complete(events) && Numbered(events, es, m) && Converted(es, entries)
    requires c < |events| && events[c].CallEvent? && WellFormed(entries) && |entries| == 2 * |m|
    ensures events[c].id in m && m[events[c].id] < |entries| / 2
    ensures EventOp(events, c) == OpAt(entries, m[events[c].id])
  {
    var r := ReturnFor(events, c);
    SameEntriesSameEvents(events, es, m, entries, c, r);
    SameEntriesSameEvents(events, es, m, entries, r, c);
    PositionsAreUnique(entries, c);
    PositionsAreUnique(entries, r);
  }

  lemma CallsHaveDifferentIds<I, O>(events: seq<Event<I, O>>, i: nat, j: nat)
    requires Complete(events) && i < j < |Calls(events)|
    ensures Calls(events)[i] < |events| && Calls(events)[j] < |events|
    ensures events[Calls(events)[i]].id != events[Calls(events)[j]].id
  {
    var a, b := Calls(events)[i], Calls(events)[j];
    CallsAreCalls(events);
    CallAt(events, i);
    CallAt(events, j);
    DistinctPairs(Calls(events), i, j);
    assert !EventPair(events, a, b) && !EventPair(events, b, a);
  }

  lemma AsManyCalls<I, O>(
      events: seq<Event<I, O>>, es: seq<Event<I, O>>, m: map<int, nat>, entries: seq<Entry<I, O>>)
    requires Complete(events) && Numbered(events, es, m) && Converted(es, entries)
    ensures |Calls(events)| == |m|
  {
    CallsAreCalls(events);
    DistinctCardinality(Calls(events));
    forall i: nat | i < |entries| ensures 0 <= entries[i].id < |m| {
      SameEntriesSameEvents(events, es, m, entries, i, i);
    }
    forall id: nat | id < |m| ensures HasEntry(entries, id, true) {
      NumbersAreCalledAndReturned(events, es, m, entries, id);
    }
    forall i: nat, j: nat | i < j < |entries| && entries[i].id == entries[j].id
      ensures entries[i].CallEntry? != entries[j].CallEntry?
    {
      SameEntriesSameEvents(events, es, m, entries, i, j);
      SameEntriesSameEvents(events, es, m, entries, j, i);
      assert EventPair(events, i, j);
    }
    OnePerId(entries, |m|, true, Ids(Calls(events)));
  }

  /** Renumbering and converting keep what the events say: the entries have the operations of the events,
      so one is linearizable exactly when the other is. */
  lemma EventsKeepLinearizability<S, I, O>(
      model: Model<S, I, O>, events: seq<Event<I, O>>, es: seq<Event<I, O>>, m: map<int, nat>,
      entries: seq<Entry<I, O>>)
    requires Complete(events) && Numbered(events, es, m) && Converted(es, entries)
    ensures WellFormed(entries)
    ensures Linearizable(model, OpsOf(entries)) <==> Linearizable(model, EventOps(events))
  {
    RenumberedIsWellFormed(events, es, m, entries);
    var a, b := OpsOf(entries), EventOps(events);
    var pi := EntryOrder(events, es, m, entries);
    var back := Unreordered(a, b, pi);
    if Linearizable(model, b) { ReorderedIsLinearizable(model, a, b, pi); }
    if Linearizable(model, a) { ReorderedIsLinearizable(model, b, a, back); }
  }

  /** The number of the call at `k` in the list of calls. */
  ghost function NumberAt<I, O>(events: seq<Event<I, O>>, m: map<int, nat>, k: nat): nat
    requires k < |Calls(events)| && forall i :: 0 <= i < |events| ==> events[i].id in m
  {
    CallAt(events, k);
    m[events[Calls(events)[k]].id]
  }

  lemma NumberedOp<I, O>(
      events: seq<Event<I, O>>, es: seq<Event<I, O>>, m: map<int, nat>, entries: seq<Entry<I, O>>, k: nat)
    requires Complete(events) && Numbered(events, es, m) && Converted(es, entries) && k < |Calls(events)|
    requires WellFormed(entries) && |entries| == 2 * |m|
    ensures NumberAt(events, m, k) < |m| && EventOps(events)[k] == OpAt(entries, NumberAt(events, m, k))
  {
    CallAt(events, k);
    CallIsNumbered(events, es, m, entries, Calls(events)[k]);
  }

  lemma NumbersDiffer<I, O>(events: seq<Event<I, O>>, es: seq<Event<I, O>>, m: map<int, nat>, i: nat, j: nat)
    requires Complete(events) && Numbered(events, es, m) && i < j < |Calls(events)|
    ensures NumberAt(events, m, i) != NumberAt(events, m, j)
  {
    CallsHaveDifferentIds(events, i, j);
  }

  /** The numbers of the calls, in the order of the calls. */
  lemma EntryOrder<I, O>(
      events: seq<Event<I, O>>, es: seq<Event<I, O>>, m: map<int, nat>, entries: seq<Entry<I, O>>)
      returns (pi: seq<nat>)
    requires Complete(events) && Numbered(events, es, m) && Converted(es, entries)
    requires WellFormed(entries) && |entries| == 2 * |m|
    ensures Reordered(OpsOf(entries), EventOps(events), pi)
  {
    AsManyCalls(events, es, m, entries);
    pi := seq(|m|, k requires 0 <= k < |m| => NumberAt(events, m, k));
    forall k: nat | k < |m| ensures pi[k] < |m| && EventOps(events)[k] == OpAt(entries, pi[k]) {
      NumberedOp(events, es, m, entries, k);
    }
    forall i, j | 0 <= i < j < |m| ensures pi[i] != pi[j] {
      NumbersDiffer(events, es, m, i, j);
    }
    PairwiseDistinct(pi);
  }
}
