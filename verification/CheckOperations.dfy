/** checkOperations for the key/value model, end to end: partition by key, make the entries of every
    part, check the parts in parallel. The verdict is about the whole map. */
module CheckOperations {
  import opened Linearizability
  import opened History
  import opened Entries
  import opened KvModel
  import CP = CheckParallel
  import CheckSingle

  type KvEntry = Entry<KvInput<string>, KvOutput>

  /** `entries` is what checkOperations hands to checkParallel for `history`. */
  ghost predicate Prepared(
      history: seq<KvOp<string>>, keys: seq<string>, parts: seq<seq<KvOp<string>>>, entries: seq<seq<KvEntry>>) {
    && Partitioned(history, keys, parts)
    && |entries| == |parts|
    && forall i :: 0 <= i < |parts| ==> EntriesOf(parts[i], entries[i])
  }

  /** The true answers for entry lists that a search can take. */
  ghost predicate SearchAnswers<S, I, O>(model: Model<S, I, O>, entries: seq<seq<Entry<I, O>>>, legal: seq<bool>) {
    && |legal| == |entries|
    && forall i {:trigger entries[i]} ::
        0 <= i < |entries| && WellFormed(entries[i]) ==> (legal[i] <==> Linearizable(model, OpsOf(entries[i])))
  }

  /** All parts are legal exactly when the history is linearizable against the whole map. */
  lemma PartsDecide(
      history: seq<KvOp<string>>, keys: seq<string>, parts: seq<seq<KvOp<string>>>, entries: seq<seq<KvEntry>>,
      legal: seq<bool>)
    requires WellTimed(history) && Prepared(history, keys, parts, entries) && SearchAnswers(KeyModel(), entries, legal)
    ensures (forall i :: 0 <= i < |legal| ==> legal[i]) <==> Linearizable(MapModel(), history)
  {
    PartitionIsLocal(history, keys, parts);
    forall i | 0 <= i < |parts| ensures legal[i] <==> Linearizable(KeyModel(), parts[i]) {
      PartsAreWellTimed(history, keys, parts, i);
      EntriesKeepLinearizability(KeyModel(), parts[i], entries[i]);
    }
  }

  /** For every order in which the searches finish and a timeout at any moment: the verdict Ok means
      that the history is linearizable against the key/value map, Illegal that it is not, and without a
      timeout it is one of the two. */
  lemma CheckOperationsIsCorrect(history: seq<KvOp<string>>, keys: seq<string>, parts: seq<seq<KvOp<string>>>,
                                 entries: seq<seq<KvEntry>>, c: CP.Config, run: seq<CP.State>)
    requires WellTimed(history) && Prepared(history, keys, parts, entries)
    requires SearchAnswers(KeyModel(), entries, c.legal)
    requires CP.IsRun(c, run) && CP.Returned(c, run[|run| - 1])
    ensures var verdict := CP.Result(run[|run| - 1]);
            && (verdict == CP.Ok ==> Linearizable(MapModel(), history))
            && (verdict == CP.Illegal ==> !Linearizable(MapModel(), history))
            && (verdict == CP.Unknown ==> c.hasTimeout)
  {
    PartsDecide(history, keys, parts, entries, c.legal);
    CP.VerdictIsSound(c, run);
  }

  /** What one goroutine does for its part when nothing kills it. */
  method CheckPart(part: seq<KvOp<string>>) returns (result: bool, ghost sub: seq<KvEntry>)
    requires WellTimed(part)
    ensures EntriesOf(part, sub) && WellFormed(sub)
    ensures result <==> Linearizable(KeyModel(), OpsOf(sub))
    ensures result <==> Linearizable(KeyModel(), part)
  {
    var entries := MakeEntries(part);
    EntriesKeepLinearizability(KeyModel(), part, entries);
    var longest;
    ghost var killed;
    result, longest, killed := CheckSingle.CheckSingle(KeyModel(), entries, false, _ => false);
    sub := entries;
  }

  /** The schedule in which the searches run one after the other and nothing times out. */
  method CheckOperations(history: seq<KvOp<string>>) returns (verdict: CP.Verdict)
    requires WellTimed(history) && history != []
    ensures verdict == if Linearizable(MapModel(), history) then CP.Ok else CP.Illegal
  {
    ghost var keys, sub;
    var parts, ok, result;
    parts, keys := Partition(history);
    ok := true;
    for i := 0 to |parts|
      invariant ok <==> forall k :: 0 <= k < i ==> Linearizable(KeyModel(), parts[k])
    {
      PartsAreWellTimed(history, keys, parts, i);
      result, sub := CheckPart(parts[i]);
      ok := ok && result;
    }
    PartitionIsLocal(history, keys, parts);
    verdict := if ok then CP.Ok else CP.Illegal;
  }

  /** `entries` is what checkEvents makes of one partition. */
  ghost predicate Normalized<I(!new), O(!new)>(events: seq<Event<I, O>>, entries: seq<Entry<I, O>>) {
    exists es, m :: Numbered(events, es, m) && Converted(es, entries)
  }

  /** What checkEvents hands to checkParallel for a list of partitions. */
  ghost predicate EventsPrepared<I(!new), O(!new)>(
      partitions: seq<seq<Event<I, O>>>, entries: seq<seq<Entry<I, O>>>) {
    && |entries| == |partitions|
    && forall i {:trigger partitions[i]} :: 0 <= i < |partitions| ==> Normalized(partitions[i], entries[i])
  }

  /** Every id is called once and later returned once. */
  ghost predicate AllComplete<I, O>(partitions: seq<seq<Event<I, O>>>) {
    forall i {:trigger partitions[i]} :: 0 <= i < |partitions| ==> Complete(partitions[i])
  }

  /** The operations that the events of every partition pair up to, by their own ids, are linearizable. */
  ghost predicate AllLinearizable<S, I, O>(model: Model<S, I, O>, partitions: seq<seq<Event<I, O>>>) {
    forall i {:trigger partitions[i]} ::
      0 <= i < |partitions| ==> Complete(partitions[i]) && Linearizable(model, EventOps(partitions[i]))
  }

  /** The answers about the entries are the answers about the operations of the events. */
  lemma EventsDecide<S, I(!new), O(!new)>(
      model: Model<S, I, O>, partitions: seq<seq<Event<I, O>>>, entries: seq<seq<Entry<I, O>>>, legal: seq<bool>)
    requires AllComplete(partitions) && EventsPrepared(partitions, entries) && SearchAnswers(model, entries, legal)
    ensures (forall i :: 0 <= i < |legal| ==> legal[i]) <==> AllLinearizable(model, partitions)
  {
    forall i | 0 <= i < |partitions|
      ensures Complete(partitions[i]) && (legal[i] <==> Linearizable(model, EventOps(partitions[i])))
    {
      assert Normalized(partitions[i], entries[i]);
      var es, m :| Numbered(partitions[i], es, m) && Converted(es, entries[i]);
      EventsKeepLinearizability(model, partitions[i], es, m, entries[i]);
    }
  }

  /** For every list of partitions, whatever ids their events came with, every schedule and timeout: the
      verdict is Ok only if the operations of every partition are linearizable, Illegal only if those of
      some partition are not, and without a timeout it is one of the two. */
  lemma CheckEventsIsCorrect<S, I(!new), O(!new)>(
      model: Model<S, I, O>, partitions: seq<seq<Event<I, O>>>, entries: seq<seq<Entry<I, O>>>, c: CP.Config,
      run: seq<CP.State>)
    requires AllComplete(partitions) && EventsPrepared(partitions, entries) && SearchAnswers(model, entries, c.legal)
    requires CP.IsRun(c, run) && CP.Returned(c, run[|run| - 1])
    ensures var verdict := CP.Result(run[|run| - 1]);
      && (verdict == CP.Ok ==> AllLinearizable(model, partitions))
      && (verdict == CP.Illegal ==> !AllLinearizable(model, partitions))
      && (verdict == CP.Unknown ==> c.hasTimeout)
  {
    EventsDecide(model, partitions, entries, c.legal);
    CP.VerdictIsSound(c, run);
  }

  /** What one goroutine does for its events when nothing kills it. */
  method CheckEventPart<S(==), I, O>(model: Model<S, I, O>, events: seq<Event<I, O>>) returns (result: bool)
    requires Complete(events)
    ensures result <==> Linearizable(model, EventOps(events))
  {
    ghost var m, killed;
    var es, entries, longest;
    es, m := Renumber(events);
    entries := ConvertEntries(es);
    EventsKeepLinearizability(model, events, es, m, entries);
    result, longest, killed := CheckSingle.CheckSingle(model, entries, false, _ => false);
  }

  /** checkEvents in the schedule in which the searches run one after the other and nothing times out. By
      default there is one partition, the whole list. */
  method CheckEvents<S(==), I, O>(model: Model<S, I, O>, partitions: seq<seq<Event<I, O>>>)
    returns (verdict: CP.Verdict)
    requires AllComplete(partitions) && partitions != []
    ensures verdict == if AllLinearizable(model, partitions) then CP.Ok else CP.Illegal
  {
    var ok := true;
    for i := 0 to |partitions|
      invariant ok <==> AllLinearizable(model, partitions[..i])
    {
      var result := CheckEventPart(model, partitions[i]);
      OneMorePartition(model, partitions, i);
      ok := ok && result;
    }
    assert partitions[..|partitions|] == partitions;
    verdict := if ok then CP.Ok else CP.Illegal;
  }

  lemma OneMorePartition<S, I, O>(model: Model<S, I, O>, partitions: seq<seq<Event<I, O>>>, i: nat)
    requires AllComplete(partitions) && i < |partitions|
    ensures AllLinearizable(model, partitions[..i + 1]) <==>
      AllLinearizable(model, partitions[..i]) && Linearizable(model, EventOps(partitions[i]))
  {
    var now, next := partitions[..i], partitions[..i + 1];
    assert next[i] == partitions[i];
    assert forall k {:trigger now[k]} {:trigger next[k]} :: 0 <= k < i ==> now[k] == next[k];
  }
}
