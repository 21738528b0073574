/** What the server's own test does: run clerks against the server, then give the finished calls to the
    linearizability checker. The two halves of this project meet here. */
module KvTested {
  import opened Linearizability
  import opened KvModel
  import KS = KvSystem
  import CO = CheckOperations
  import CP = CheckParallel

  lemma RecordedTimes(clients: set<int>, run: seq<KS.Event<string>>)
    requires KS.IsRun(clients, run)
    ensures WellTimed(KS.Before(clients, run, |run|).history)
  {
    KS.RunKeepsRunInv(clients, run, |run|);
    var s := KS.Before(clients, run, |run|);
    forall i | 0 <= i < |s.history| ensures s.history[i].call <= s.history[i].ret {
      assert KS.FinishedOk(s, i);
    }
  }

  /** The checker never calls the calls of such a run illegal, whatever is lost on the network, however
      its own searches are scheduled and whenever it times out; without a timeout it says Ok. */
  lemma CheckerAcceptsServer(
      clients: set<int>, run: seq<KS.Event<string>>, keys: seq<string>, parts: seq<seq<KvOp<string>>>,
      entries: seq<seq<CO.KvEntry>>, c: CP.Config, search: seq<CP.State>)
    requires KS.IsRun(clients, run) && KS.PutsRunOnce(clients, run) && KS.Quiet(KS.Before(clients, run, |run|))
    requires CO.Prepared(KS.Before(clients, run, |run|).history, keys, parts, entries)
    requires CO.SearchAnswers(KeyModel(), entries, c.legal)
    requires CP.IsRun(c, search) && CP.Returned(c, search[|search| - 1])
    ensures CP.Result(search[|search| - 1]) != CP.Illegal
    ensures !c.hasTimeout ==> CP.Result(search[|search| - 1]) == CP.Ok
  {
    RecordedTimes(clients, run);
    var ops := KS.RunsAreLinearizable(clients, run);
    CO.CheckOperationsIsCorrect(KS.Before(clients, run, |run|).history, keys, parts, entries, c, search);
  }
}
