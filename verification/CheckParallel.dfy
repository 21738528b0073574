/** checkParallel: one goroutine per partition sends its answer over a channel, the main loop collects
    them, may stop early or time out, and tells the others to give up through the kill flag. Modelled as
    a state machine whose steps interleave in any order. */
module CheckParallel {
  import opened Linearizability

  datatype Verdict = Unknown | Ok | Illegal

  /** `legal[i]` is the true answer for partition i; the rest are checkParallel's parameters. */
  datatype Config = Config(legal: seq<bool>, computeInfo: bool, hasTimeout: bool)

  datatype State = State(
    kill: bool,
    sent: seq<nat>,      // the partitions whose goroutines have sent, in the order of sending
    results: seq<bool>,  // what they sent
    count: nat,          // how many answers main has taken from the channel
    ok: bool,
    timedOut: bool,
    collecting: bool,    // main is in its first loop
    decided: nat)        // how many answers went into `ok`

  datatype Action = Send(partition: nat, result: bool) | Receive | TimeOut | Drain

  function Init(): State {
    State(false, [], [], 0, true, false, true, 0)
  }

  /** A search that was not told to give up answers truthfully, and it can only have been told so once
      the kill flag is set. */
  predicate MaySend(c: Config, s: State, i: nat, r: bool) {
    i < |c.legal| && i !in s.sent && (Truthful(c.legal[i], false, r) || (s.kill && Truthful(c.legal[i], true, r)))
  }

  predicate Enabled(c: Config, s: State, a: Action) {
    match a
    case Send(i, r) => MaySend(c, s, i, r)
    case Receive => s.collecting && s.count < |s.results|
    case TimeOut => s.collecting && c.hasTimeout
    case Drain => !s.collecting && c.computeInfo && s.count < |c.legal| && s.count < |s.results|
  }

  function Step(c: Config, s: State, a: Action): State
    requires Enabled(c, s, a)
  {
    match a
    case Send(i, r) => s.(sent := s.sent + [i], results := s.results + [r])
    case Receive =>
      var ok := s.ok && s.results[s.count];
      var s' := s.(count := s.count + 1, ok := ok, decided := s.decided + 1);
      if !ok && !c.computeInfo then s'.(kill := true, collecting := false)
      else if s.count + 1 >= |c.legal| then s'.(collecting := false)
      else s'
    case TimeOut => s.(timedOut := true, kill := true, collecting := false)
    case Drain => s.(count := s.count + 1)
  }

  /** A run: every state follows from the one before by some enabled action. */
  ghost predicate IsRun(c: Config, run: seq<State>) {
    && run != []
    && run[0] == Init()
    && forall i :: 0 <= i < |run| - 1 ==> Follows(c, run[i], run[i + 1])
  }

  ghost predicate Follows(c: Config, s: State, s': State) {
    exists a :: Enabled(c, s, a) && s' == Step(c, s, a)
  }

  /** checkParallel has returned: main left its loop and, for the info, waited for everybody. */
  predicate Returned(c: Config, s: State) {
    !s.collecting && (c.computeInfo ==> s.count >= |c.legal|)
  }

  function Result(s: State): Verdict {
    if !s.ok then Illegal else if s.timedOut then Unknown else Ok
  }

  ghost predicate TrueUpTo(c: Config, s: State, n: nat) {
    && n <= |s.results| == |s.sent|
    && InRange(s.sent, |c.legal|)
    && forall j :: 0 <= j < n ==> s.results[j] == c.legal[s.sent[j]]
  }

  ghost predicate Inv(c: Config, s: State) {
    && Distinct(s.sent)
    && s.decided <= s.count <= |s.results|
    && TrueUpTo(c, s, s.decided)
    && (!s.kill ==> TrueUpTo(c, s, |s.results|))
    && (s.ok <==> forall j :: 0 <= j < s.decided ==> s.results[j])
    && (s.collecting ==> !s.kill && !s.timedOut && s.count == s.decided && (s.count < |c.legal| || |c.legal| == 0))
    && (!s.collecting && !s.timedOut ==> !s.ok || (s.decided == |c.legal| && s.decided > 0))
    && (s.timedOut ==> c.hasTimeout)
    && StopsOk(c, s)
  }

  /** The searches are told to give up exactly after a timeout, or when an illegal partition decides the
      verdict and nobody asked for the info of the others. */
  predicate StopsOk(c: Config, s: State) {
    && (s.kill <==> s.timedOut || (!s.collecting && !s.ok && !c.computeInfo))
    && (s.collecting && !c.computeInfo ==> s.ok)
    && (!s.collecting && !s.timedOut && (s.ok || c.computeInfo) ==> s.decided == |c.legal|)
  }

  lemma SendKeepsTrue(c: Config, s: State, i: nat, r: bool, n: nat)
    requires TrueUpTo(c, s, n) && MaySend(c, s, i, r)
    ensures var s' := Step(c, s, Send(i, r));
      TrueUpTo(c, s', n) && (n == |s.results| && r == c.legal[i] ==> TrueUpTo(c, s', n + 1))
  {
    var s' := Step(c, s, Send(i, r));
    assert forall j :: 0 <= j < |s.sent| ==> s'.sent[j] == s.sent[j] && s'.results[j] == s.results[j];
  }

  lemma SendIsDistinct(s: State, i: nat)
    requires Distinct(s.sent) && i !in s.sent
    ensures Distinct(s.sent + [i])
  {
    IdsMembers(s.sent);
    assert (s.sent + [i])[..|s.sent|] == s.sent;
  }

  lemma SendKeepsInv(c: Config, s: State, i: nat, r: bool)
    requires Inv(c, s) && MaySend(c, s, i, r)
    ensures Inv(c, Step(c, s, Send(i, r)))
  {
    SendIsDistinct(s, i);
    SendKeepsTrue(c, s, i, r, s.decided);
    if !s.kill { SendKeepsTrue(c, s, i, r, |s.results|); }
    var s' := Step(c, s, Send(i, r));
    assert forall j :: 0 <= j < s.decided ==> s'.results[j] == s.results[j];
  }

  lemma ReceiveKeepsInv(c: Config, s: State)
    requires Inv(c, s) && Enabled(c, s, Receive)
    ensures Inv(c, Step(c, s, Receive))
  {
    SentIsBounded(c, s);
  }

  lemma StepKeepsInv(c: Config, s: State, a: Action)
    requires Inv(c, s) && Enabled(c, s, a)
    ensures Inv(c, Step(c, s, a))
  {
    match a {
      case Send(i, r) => SendKeepsInv(c, s, i, r);
      case Receive => ReceiveKeepsInv(c, s);
      case TimeOut =>
      case Drain =>
    }
  }

  lemma SentIsBounded(c: Config, s: State)
    requires Distinct(s.sent) && InRange(s.sent, |c.legal|)
    ensures |s.sent| <= |c.legal|
  {
    DistinctCardinality(s.sent);
    IdsInRange(s.sent, |c.legal|);
    AllIdsCardinality(|c.legal|);
    SubsetNoLarger(Ids(s.sent), AllIds(|c.legal|));
  }

  lemma PrefixIsRun(c: Config, run: seq<State>)
    requires IsRun(c, run) && |run| > 1
    ensures IsRun(c, run[..|run| - 1])
  {
    var n := |run| - 1;
    forall i | 0 <= i < n - 1 ensures Follows(c, run[..n][i], run[..n][i + 1]) {
      assert Follows(c, run[i], run[i + 1]);
    }
  }

  lemma {:induction false} RunKeepsInv(c: Config, run: seq<State>)
    requires IsRun(c, run)
    ensures Inv(c, run[|run| - 1])
    decreases |run|
  {
    var n := |run| - 1;
    if n > 0 {
      PrefixIsRun(c, run);
      RunKeepsInv(c, run[..n]);
      assert Follows(c, run[n - 1], run[n]);
      var a :| Enabled(c, run[n - 1], a) && run[n] == Step(c, run[n - 1], a);
      StepKeepsInv(c, run[n - 1], a);
    }
  }

  ghost predicate AllLegal(c: Config) {
    forall i :: 0 <= i < |c.legal| ==> c.legal[i]
  }

  /** In whatever order the answers arrive and whenever the timeout strikes: Ok is only reported when
      every partition is legal, Illegal only when some partition truly is not, and Unknown only after a
      timeout. */
  lemma VerdictIsSound(c: Config, run: seq<State>)
    requires IsRun(c, run) && Returned(c, run[|run| - 1])
    ensures var s := run[|run| - 1];
            && (Result(s) == Ok ==> AllLegal(c))
            && (Result(s) == Illegal ==> !AllLegal(c))
            && (Result(s) == Unknown ==> c.hasTimeout)
  {
    var s := run[|run| - 1];
    RunKeepsInv(c, run);
    if Result(s) == Ok {
      SentIsBounded(c, s);
      DistinctCovers(s.sent, |c.legal|);
      IdsMembers(s.sent);
      forall i | 0 <= i < |c.legal| ensures c.legal[i] {
        assert i in Ids(s.sent);
        var j :| 0 <= j < |s.sent| && s.sent[j] == i;
        assert s.results[j] == c.legal[s.sent[j]];
      }
    }
    if Result(s) == Illegal {
      var j :| 0 <= j < s.decided && !s.results[j];
      assert !c.legal[s.sent[j]];
    }
  }

  /** Main took, into its verdict, the answer of a partition that is not legal. */
  ghost predicate FoundIllegal(c: Config, s: State) {
    exists j {:trigger s.sent[j]} :: 0 <= j < s.decided && j < |s.sent| && s.sent[j] < |c.legal| && !c.legal[s.sent[j]]
  }

  /** The verdict, exactly: an illegal partition that was found makes it Illegal also after a timeout; else it
      is Unknown after a timeout and Ok without one. */
  lemma VerdictIsExact(c: Config, run: seq<State>)
    requires IsRun(c, run)
    ensures var s := run[|run| - 1];
      && (Result(s) == Illegal <==> FoundIllegal(c, s))
      && (Result(s) == Unknown <==> s.timedOut && !FoundIllegal(c, s))
  {
    var s := run[|run| - 1];
    RunKeepsInv(c, run);
    if !s.ok {
      var j :| 0 <= j < s.decided && !s.results[j];
      assert !c.legal[s.sent[j]];
    }
    if FoundIllegal(c, s) {
      var j :| 0 <= j < s.decided && j < |s.sent| && s.sent[j] < |c.legal| && !c.legal[s.sent[j]];
      assert s.results[j] == c.legal[s.sent[j]];
    }
  }

  /** Without a timeout the verdict decides legality. */
  lemma VerdictDecides(c: Config, run: seq<State>)
    requires IsRun(c, run) && Returned(c, run[|run| - 1]) && !c.hasTimeout
    ensures Result(run[|run| - 1]) == if AllLegal(c) then Ok else Illegal
  {
    VerdictIsSound(c, run);
  }

  /** With no partition and no timeout, main waits for ever. */
  lemma NothingToCollect(c: Config, run: seq<State>)
    requires IsRun(c, run) && c.legal == [] && !c.hasTimeout
    ensures !Returned(c, run[|run| - 1])
  {
    RunKeepsInv(c, run);
    var s := run[|run| - 1];
    if !s.collecting {
      assert s.decided <= |s.sent|;
      SentIsBounded(c, s);
      assert false;
    }
  }

  ghost predicate CanMove(c: Config, s: State) {
    exists a :: Enabled(c, s, a)
  }

  /** While an answer is missing, some goroutine can send the truth or an answer is waiting. */
  lemma AnswerOnTheWay(c: Config, s: State)
    requires Inv(c, s) && s.count < |c.legal|
    ensures s.count < |s.results| || exists i: nat :: i < |c.legal| && Enabled(c, s, Send(i, c.legal[i]))
  {
    if s.count >= |s.results| {
      IdsMembers(s.sent);
      if forall i: nat :: i < |c.legal| ==> i in Ids(s.sent) {
        DistinctCardinality(s.sent);
        AllIdsCardinality(|c.legal|);
        SubsetNoLarger(AllIds(|c.legal|), Ids(s.sent));
        assert false;
      }
      var i: nat :| i < |c.legal| && i !in Ids(s.sent);
      assert Enabled(c, s, Send(i, c.legal[i]));
    }
  }

  /** With a partition or a timeout, checkParallel is never stuck: until it has returned, while collecting
      and while waiting for everybody, some step is possible. */
  lemma NeverStuck(c: Config, run: seq<State>)
    requires IsRun(c, run) && (c.legal != [] || c.hasTimeout) && !Returned(c, run[|run| - 1])
    ensures CanMove(c, run[|run| - 1])
  {
    RunKeepsInv(c, run);
    var s := run[|run| - 1];
    if c.legal == [] {
      assert Enabled(c, s, TimeOut);
    } else {
      AnswerOnTheWay(c, s);
      if s.count < |s.results| {
        assert Enabled(c, s, Receive) || Enabled(c, s, Drain);
      }
    }
  }

  /** How many steps were taken, if every send, every answer taken and the timeout are steps. */
  function Taken(s: State): nat {
    |s.sent| + s.count + if s.timedOut then 1 else 0
  }

  lemma StepIsTaken(c: Config, s: State, a: Action)
    requires Inv(c, s) && Enabled(c, s, a)
    ensures Taken(Step(c, s, a)) == Taken(s) + 1
  {}

  lemma {:induction false} RunIsTaken(c: Config, run: seq<State>)
    requires IsRun(c, run)
    ensures Taken(run[|run| - 1]) == |run| - 1
    decreases |run|
  {
    var n := |run| - 1;
    if n > 0 {
      PrefixIsRun(c, run);
      RunIsTaken(c, run[..n]);
      RunKeepsInv(c, run[..n]);
      assert Follows(c, run[n - 1], run[n - 1 + 1]);
      var a :| Enabled(c, run[n - 1], a) && run[n] == Step(c, run[n - 1], a);
      StepIsTaken(c, run[n - 1], a);
    }
  }

  /** Every run is finite: each partition sends once, each answer is taken once, and one timeout. With
      NeverStuck and NothingToCollect, checkParallel returns exactly if there is a partition or a timeout. */
  lemma RunsAreBounded(c: Config, run: seq<State>)
    requires IsRun(c, run)
    ensures |run| <= 2 * |c.legal| + 2
  {
    RunIsTaken(c, run);
    RunKeepsInv(c, run);
    SentIsBounded(c, run[|run| - 1]);
  }

  /** No step is possible any more. */
  ghost predicate Ended(c: Config, run: seq<State>)
    requires run != []
  {
    !CanMove(c, run[|run| - 1])
  }

  /** Every run that can go no further has returned if and only if there is a partition or a timeout. */
  lemma ReturnsExactly(c: Config, run: seq<State>)
    requires IsRun(c, run) && Ended(c, run)
    ensures Returned(c, run[|run| - 1]) <==> c.legal != [] || c.hasTimeout
  {
    if c.legal != [] || c.hasTimeout {
      if !Returned(c, run[|run| - 1]) { NeverStuck(c, run); }
    } else {
      NothingToCollect(c, run);
    }
  }

  /** In every run, the kill flag is set if and only if there was a timeout, or an illegal partition was found
      and no info is wanted, and then main stops at once; otherwise every answer goes into the verdict. */
  lemma KilledExactly(c: Config, run: seq<State>)
    requires IsRun(c, run)
    ensures StopsOk(c, run[|run| - 1])
  {
    RunKeepsInv(c, run);
  }

  /** Once set, the kill flag stays set. */
  lemma {:induction false} KillStays(c: Config, run: seq<State>, i: nat, j: nat)
    requires IsRun(c, run) && i <= j < |run| && run[i].kill
    ensures run[j].kill
    decreases j
  {
    if i < j {
      KillStays(c, run, i, j - 1);
      assert Follows(c, run[j - 1], run[j - 1 + 1]);
    }
  }

  /** Whatever a search answers whose readings of the kill flag were taken at moments of the run so far,
      its goroutine may send. */
  lemma SearchMaySend(
      c: Config, run: seq<State>, now: nat, i: nat, kill: nat -> bool, at: nat -> nat, ok: bool, killed: bool)
    requires IsRun(c, run) && now < |run| && i < |c.legal| && i !in run[now].sent
    requires forall k: nat {:trigger kill(k)} :: kill(k) ==> at(k) <= now && run[at(k)].kill
    requires (killed ==> exists k: nat :: kill(k)) && Truthful(c.legal[i], killed, ok)
    ensures MaySend(c, run[now], i, ok)
  {
    if killed {
      var k: nat :| kill(k);
      KillStays(c, run, at(k), now);
    }
  }
}
