/** The conditions of the safety theorems are exact. Every electing tally is in its term if and only if at
    every moment every leader has won the round of its own term. And, if no command is proposed twice, a
    run is regular if and only if at every moment that holds and every entry of every log stands where the
    leader of its term put it, behind the same entries. */
module RaftExact {
  import opened Raft
  import opened RaftCluster
  import opened RaftLogs
  import opened RaftSafety

  // ---------- tallies ----------

  /** A candidate that is still in the term of a round has not won it. */
  predicate Undecided(n: nat, servers: seq<Server>, round: Round) {
    && round.args.candidate < |servers|
    && var s := servers[round.args.candidate];
      s.role == Candidate && s.term == round.args.term ==> !Won(n, round)
  }

  predicate AllUndecided(n: nat, c: Cluster) {
    forall r {:trigger c.rounds[r]} :: 0 <= r < |c.rounds| ==> Undecided(n, c.servers, c.rounds[r])
  }

  /** A server that is a candidate in the same term after the step was one before, and was not elected. */
  lemma StillCandidate(n: nat, c: Cluster, a: Action, i: nat)
    requires Inv(n, c) && Enabled(c, a) && i < n
    ensures |Step(c, a).servers| == n && c.servers[i].term <= Step(c, a).servers[i].term
    ensures var s, s' := c.servers[i], Step(c, a).servers[i];
      s'.role == Candidate && s'.term == s.term ==> s.role == Candidate
  {
    StepAdvances(n, c, a, i);
    if a.DeliverAppend? {
      assert AppendRequestOk(c.servers, c.elected, a.appendRequest);
      assert HadLeader(c.elected, a.appendRequest.args.term);
    }
    CandidateStays(c, a, i);
  }

  lemma CollectDecides(n: nat, c: Cluster, r: nat)
    requires Inv(n, c) && Enabled(c, Collect(r)) && Won(n, Counted(c.rounds[r]))
    ensures CollectVote(c, r).servers[c.rounds[r].args.candidate].role != Candidate
  {}

  lemma RoundStaysUndecided(n: nat, c: Cluster, a: Action, r: nat)
    requires n >= 2 && Inv(n, c) && AllUndecided(n, c) && Enabled(c, a) && r < |c.rounds| && r < |Step(c, a).rounds|
    ensures Undecided(n, Step(c, a).servers, Step(c, a).rounds[r])
  {
    var round := c.rounds[r];
    assert RoundOk(c.servers, c.cast, round) && Undecided(n, c.servers, round);
    TalliesMove(c, a, r);
    StillCandidate(n, c, a, round.args.candidate);
    if a.Collect? && a.round == r && Won(n, Counted(round)) { CollectDecides(n, c, r); }
  }

  lemma NewRoundIsUndecided(n: nat, c: Cluster, a: Action, r: nat)
    requires n >= 2 && Inv(n, c) && Enabled(c, a) && |c.rounds| <= r < |Step(c, a).rounds|
    ensures Undecided(n, Step(c, a).servers, Step(c, a).rounds[r])
  {
    TalliesMove(c, a, r);
    StepKeepsInv(n, c, a);
    assert RoundOk(Step(c, a).servers, Step(c, a).cast, Step(c, a).rounds[r]);
  }

  lemma {:induction false} RunKeepsUndecided(n: nat, run: seq<Action>)
    requires n >= 2 && IsRun(n, run)
    ensures AllUndecided(n, After(n, run))
    decreases |run|
  {
    if run != [] {
      var c, a := After(n, run[..|run| - 1]), run[|run| - 1];
      RunKeepsUndecided(n, run[..|run| - 1]);
      RunKeepsInv(n, run[..|run| - 1]);
      forall r: nat | r < |Step(c, a).rounds| ensures Undecided(n, Step(c, a).servers, Step(c, a).rounds[r]) {
        if r < |c.rounds| { RoundStaysUndecided(n, c, a, r); } else { NewRoundIsUndecided(n, c, a, r); }
      }
    }
  }

  /** A tally outside its term makes a leader that has not won its term. */
  lemma StaleTallyIsUncrowned(n: nat, c: Cluster, r: nat)
    requires Inv(n, c) && AllUndecided(n, c) && Enabled(c, Collect(r)) && Elects(c, r)
    requires ElectedOk(CollectVote(c, r))
    ensures TallyInTerm(c, Collect(r))
  {
    var i := c.rounds[r].args.candidate;
    var c', reign := CollectVote(c, r), Reign(c.servers[i].term, i);
    assert reign in c'.elected && Crowned(n, c'.rounds, reign);
    var q :| 0 <= q < |c'.rounds| && WonBy(n, c'.rounds[q], reign);
    assert q < |c.rounds| && Undecided(n, c.servers, c.rounds[q]);
  }

  ghost predicate LeadersWon(n: nat, run: seq<Action>, k: nat)
    requires IsRun(n, run) && k <= |run|
  {
    PrefixIsRun(n, run, k);
    ElectedOk(After(n, run[..k]))
  }

  lemma {:induction false} PrefixInTerm(n: nat, run: seq<Action>, k: nat)
    requires IsRun(n, run) && InTerm(n, run) && k <= |run|
    ensures IsRun(n, run[..k]) && InTerm(n, run[..k])
    decreases |run|
  {
    if k == |run| {
      assert run[..k] == run;
    } else {
      var front := run[..|run| - 1];
      PrefixInTerm(n, front, k);
      assert front[..k] == run[..k];
    }
  }

  /** The last step of a run whose leaders have all won their terms has its tally in term. */
  lemma LastTallyInTerm(n: nat, run: seq<Action>)
    requires IsRun(n, run) && run != [] && ElectedOk(After(n, run))
    ensures TallyInTerm(After(n, run[..|run| - 1]), run[|run| - 1])
  {
    var c, a := After(n, run[..|run| - 1]), run[|run| - 1];
    if a.Collect? && Elects(c, a.round) {
      RunKeepsInv(n, run[..|run| - 1]);
      RunKeepsUndecided(n, run[..|run| - 1]);
      StaleTallyIsUncrowned(n, c, a.round);
    }
  }

  lemma {:induction false} WinnersAreInTerm(n: nat, run: seq<Action>)
    requires IsRun(n, run) && forall k: nat :: k <= |run| ==> LeadersWon(n, run, k)
    ensures InTerm(n, run)
    decreases |run|
  {
    if run != [] {
      var l := |run| - 1;
      forall k: nat | k <= l ensures LeadersWon(n, run[..l], k) {
        assert LeadersWon(n, run, k);
        assert run[..l][..k] == run[..k];
      }
      WinnersAreInTerm(n, run[..l]);
      assert LeadersWon(n, run, |run|) && run[..|run|] == run;
      LastTallyInTerm(n, run);
    }
  }

  /** Every electing tally of a run is taken in its round's term if and only if at every moment of the run
      every leader there was has won the round of its own term. */
  lemma InTermIsExact(n: nat, run: seq<Action>)
    requires IsRun(n, run)
    ensures InTerm(n, run) <==> forall k: nat :: k <= |run| ==> LeadersWon(n, run, k)
  {
    if InTerm(n, run) {
      forall k: nat | k <= |run| ensures LeadersWon(n, run, k) {
        PrefixInTerm(n, run, k);
        RunKeepsLeaders(n, run[..k]);
      }
    } else if forall k: nat :: k <= |run| ==> LeadersWon(n, run, k) {
      WinnersAreInTerm(n, run);
    }
  }

  // ---------- appends ----------

  function UsedBy(a: Action): set<int> {
    if a.Propose? then {a.command} else {}
  }

  /** The commands proposed in the run. */
  function Proposed(run: seq<Action>): set<int> {
    if run == [] then {} else Proposed(run[..|run| - 1]) + UsedBy(run[|run| - 1])
  }

  /** No command is proposed that was proposed before. */
  predicate DistinctCommands(run: seq<Action>) {
    run != [] ==> DistinctCommands(run[..|run| - 1]) && UsedBy(run[|run| - 1]) !! Proposed(run[..|run| - 1])
  }

  /** Behind its first entry, the log holds proposed commands, each once. */
  predicate CommandsOk(log: seq<LogEntry>, used: set<int>) {
    && (forall k {:trigger log[k]} :: 1 <= k < |log| ==> log[k].command in used)
    && (forall k, l {:trigger log[k], log[l]} :: 1 <= k < l < |log| ==> log[k].command != log[l].command)
  }

  predicate AllCommandsOk(c: Cluster, used: set<int>) {
    && (forall i {:trigger c.servers[i]} :: 0 <= i < |c.servers| ==> CommandsOk(c.servers[i].log, used))
    && (forall t {:trigger t in c.logs} :: t in c.logs ==> CommandsOk(c.logs[t], used))
  }

  /** The leader's new entry. */
  predicate ProposedAt(c: Cluster, a: Action, v: nat)
    requires v < |c.servers|
  {
    a.Propose? && a.server == v && c.servers[v].role == Leader
  }

  predicate AppendedAt(c: Cluster, a: Action, v: nat)
    requires Enabled(c, a) && v < |c.servers|
  {
    a.DeliverAppend? && a.appendRequest.to == v && Accepts(c.servers[v], a.appendRequest.args)
  }

  lemma LogStays(c: Cluster, a: Action, v: nat)
    requires Enabled(c, a) && v < |c.servers|
    ensures |Step(c, a).servers| == |c.servers|
    ensures !ProposedAt(c, a, v) && !AppendedAt(c, a, v) ==> Step(c, a).servers[v].log == c.servers[v].log
    ensures ProposedAt(c, a, v) ==>
      Step(c, a).servers[v].log == c.servers[v].log + [LogEntry(a.command, c.servers[v].term)]
    ensures AppendedAt(c, a, v) ==> Step(c, a).servers[v].log == AppendEntries(c.servers[v], a.appendRequest.args).0.log
  {
    if a.DeliverAppend? { RefusedLogStays(c.servers[a.appendRequest.to], a.appendRequest.args); }
  }

  lemma NewCommandOk(log: seq<LogEntry>, used: set<int>, e: LogEntry)
    requires CommandsOk(log, used) && e.command !in used
    ensures CommandsOk(log + [e], used + {e.command})
  {}

  lemma PrefixCommandsOk(log: seq<LogEntry>, used: set<int>, k: nat)
    requires CommandsOk(log, used) && k <= |log|
    ensures CommandsOk(log[..k], used)
  {}

  lemma AppendedCommandsOk(logs: Logs, s: Server, args: AppendArgs, used: set<int>)
    requires LogFrom(logs, s.log) && MessageFrom(logs, args) && LogFrom(logs, logs[args.term])
    requires args.prevLogIndex < |s.log| && s.log[args.prevLogIndex].term == args.prevLogTerm && !Repeats(s.log, args)
    requires CommandsOk(s.log, used) && CommandsOk(logs[args.term], used)
    ensures CommandsOk(Appended(s, args).log, used)
  {
    AcceptedAgrees(logs, s, args);
    if args.entries != [] { PrefixCommandsOk(logs[args.term], used, args.prevLogIndex + |args.entries| + 1); }
  }

  lemma AcceptedCommandsOk(c: Cluster, m: AppendRequest, used: set<int>)
    requires LogsInv(c) && AllCommandsOk(c, used) && m in c.appendRequests && m.to < |c.servers|
    requires m.args.prevLogIndex >= 0
    requires Accepts(c.servers[m.to], m.args) && !Repeats(c.servers[m.to].log, m.args)
    ensures CommandsOk(AppendEntries(c.servers[m.to], m.args).0.log, used)
  {
    var s := c.servers[m.to];
    assert MessageFrom(c.logs, m.args) && ServerLogOk(c.logs, s) && LeaderLogOk(c.logs, c.elected, m.args.term);
    AcceptedLog(s, m.args);
    AppendedCommandsOk(c.logs, s, m.args, used);
  }

  lemma ServerCommandsStayOk(c: Cluster, a: Action, used: set<int>, v: nat)
    requires LogsInv(c) && AllCommandsOk(c, used) && Enabled(c, a) && Regular(c, a) && UsedBy(a) !! used
    requires v < |c.servers|
    ensures |Step(c, a).servers| == |c.servers| && CommandsOk(Step(c, a).servers[v].log, used + UsedBy(a))
  {
    LogStays(c, a, v);
    DeliverIsPossible(c, a);
    if ProposedAt(c, a, v) {
      NewCommandOk(c.servers[v].log, used, LogEntry(a.command, c.servers[v].term));
    } else if AppendedAt(c, a, v) {
      AcceptedCommandsOk(c, a.appendRequest, used);
    }
  }

  lemma LeaderCommandsStayOk(c: Cluster, a: Action, logs': Logs, used: set<int>, t: int)
    requires AllCommandsOk(c, used) && Enabled(c, a) && UsedBy(a) !! used && t in logs'
    requires logs' == c.logs || Proposes(c, a, logs') || Crowns(c, a, logs')
    ensures CommandsOk(logs'[t], used + UsedBy(a))
  {
    if Proposes(c, a, logs') {
      NewCommandOk(c.servers[a.server].log, used, LogEntry(a.command, c.servers[a.server].term));
    }
  }

  lemma {:induction false} RunKeepsCommands(n: nat, run: seq<Action>)
    requires IsRun(n, run) && RegularRun(n, run) && DistinctCommands(run)
    ensures AllCommandsOk(After(n, run), Proposed(run))
    decreases |run|
  {
    if run != [] {
      var l := |run| - 1;
      var c, a, used := After(n, run[..l]), run[l], Proposed(run[..l]);
      RunKeepsLogs(n, run[..l]);
      RunKeepsCommands(n, run[..l]);
      StepKeepsCommands(n, c, a, used);
    }
  }

  lemma StepKeepsCommands(n: nat, c: Cluster, a: Action, used: set<int>)
    requires InvInTerm(n, c) && LogsInv(c) && AllCommandsOk(c, used) && Enabled(c, a) && Regular(c, a)
    requires UsedBy(a) !! used
    ensures AllCommandsOk(Step(c, a), used + UsedBy(a))
  {
    StepKeepsInv(n, c, a);
    forall v: nat | v < n ensures CommandsOk(Step(c, a).servers[v].log, used + UsedBy(a)) {
      ServerCommandsStayOk(c, a, used, v);
    }
    LogsChange(n, c, a);
    forall t | t in Step(c, a).logs ensures CommandsOk(Step(c, a).logs[t], used + UsedBy(a)) {
      LeaderCommandsStayOk(c, a, Step(c, a).logs, used, t);
    }
  }

  /** The entry at which the log and the append overlap is the same in both. */
  lemma RepeatedEntry(c: Cluster, m: AppendRequest)
    requires LogsInv(c) && m in c.appendRequests && m.to < |c.servers| && m.args.prevLogIndex >= 0
    requires Accepts(c.servers[m.to], m.args) && Repeats(c.servers[m.to].log, m.args)
    ensures c.servers[m.to].log[m.args.prevLogIndex + 1] == m.args.entries[0]
  {
    var s, t, x := c.servers[m.to], m.args.term, m.args.prevLogIndex + 1;
    assert MessageFrom(c.logs, m.args) && ServerLogOk(c.logs, s) && LeaderLogOk(c.logs, c.elected, t);
    assert m.args.entries[0] == c.logs[t][x];
    SameTermSameEntry(c.logs, s.log, c.logs[t], x);
  }

  lemma SameTermSameEntry(logs: Logs, a: seq<LogEntry>, b: seq<LogEntry>, x: int)
    requires LogFrom(logs, a) && LogFrom(logs, b) && 1 <= x < |a| && x < |b| && a[x].term == b[x].term
    ensures a[x] == b[x]
  {
    assert EntryFrom(logs, a, x) && EntryFrom(logs, b, x);
    AgreeAt(a, logs[a[x].term], x, x);
    AgreeAt(b, logs[b[x].term], x, x);
  }

  /** A repeated append leaves an entry that no leader put where it stands. */
  lemma RepeatIsMisplaced(c: Cluster, m: AppendRequest, used: set<int>)
    requires LogsInv(c) && AllCommandsOk(c, used) && m in c.appendRequests && m.to < |c.servers|
    requires m.args.prevLogIndex >= 0
    requires Accepts(c.servers[m.to], m.args) && Repeats(c.servers[m.to].log, m.args)
    ensures !LogFrom(c.logs, AppendEntries(c.servers[m.to], m.args).0.log)
  {
    var s, x := c.servers[m.to], m.args.prevLogIndex + 1;
    var log := AppendEntries(s, m.args).0.log;
    var k := |s.log|;
    RepeatedEntry(c, m);
    AcceptedLog(s, m.args);
    assert log == s.log + m.args.entries;
    assert log[x] == log[k] == m.args.entries[0];
    TwiceIsMisplaced(c, log, used, x, k);
  }

  /** No leader's log has a command twice, so no log that comes from leaders has. */
  lemma TwiceIsMisplaced(c: Cluster, log: seq<LogEntry>, used: set<int>, x: int, k: int)
    requires AllCommandsOk(c, used) && 1 <= x < k < |log| && log[x] == log[k]
    ensures !LogFrom(c.logs, log)
  {
    if LogFrom(c.logs, log) {
      assert EntryFrom(c.logs, log, k);
      TwiceInPrefix(log, c.logs[log[k].term], x, k);
    }
  }

  lemma TwiceInPrefix(a: seq<LogEntry>, b: seq<LogEntry>, x: int, k: int)
    requires Agree(a, b, k) && 0 <= x < k && a[x] == a[k]
    ensures b[x] == b[k]
  {
    assert b[x] == b[..k + 1][x] == a[..k + 1][x];
    assert b[k] == b[..k + 1][k] == a[..k + 1][k];
  }

  // ---------- regular runs ----------

  ghost predicate LogsFromLeaders(c: Cluster) {
    forall i {:trigger c.servers[i]} :: 0 <= i < |c.servers| ==> LogFrom(c.logs, c.servers[i].log)
  }

  /** After `k` steps every leader has won its term, and every entry of every log was put there, behind
      the same entries, by the leader of its term. */
  ghost predicate SafeAt(n: nat, run: seq<Action>, k: nat)
    requires IsRun(n, run) && k <= |run|
  {
    PrefixIsRun(n, run, k);
    ElectedOk(After(n, run[..k])) && LogsFromLeaders(After(n, run[..k]))
  }

  lemma LogsInvIsFromLeaders(c: Cluster)
    requires LogsInv(c)
    ensures LogsFromLeaders(c)
  {
    forall i | 0 <= i < |c.servers| ensures LogFrom(c.logs, c.servers[i].log) {
      assert ServerLogOk(c.logs, c.servers[i]);
    }
  }

  lemma AppendKeepsLeaderLogs(n: nat, c: Cluster, m: AppendRequest)
    requires InvInTerm(n, c) && Enabled(c, DeliverAppend(m)) && Accepts(c.servers[m.to], m.args)
    ensures AnswerAppend(c, m).logs == c.logs && |AnswerAppend(c, m).servers| == n
    ensures AnswerAppend(c, m).servers[m.to].log == AppendEntries(c.servers[m.to], m.args).0.log
  {
    LeadersTakeNoAppends(n, c, m);
  }

  lemma LastStepIsRegular(n: nat, run: seq<Action>)
    requires IsRun(n, run) && run != [] && RegularRun(n, run[..|run| - 1]) && DistinctCommands(run)
    requires ElectedOk(After(n, run)) && LogsFromLeaders(After(n, run))
    ensures RegularRun(n, run)
  {
    var l := |run| - 1;
    var c, a := After(n, run[..l]), run[l];
    LastTallyInTerm(n, run);
    RunKeepsLogs(n, run[..l]);
    RunKeepsCommands(n, run[..l]);
    if a.DeliverAppend? && Accepts(c.servers[a.appendRequest.to], a.appendRequest.args)
      && Repeats(c.servers[a.appendRequest.to].log, a.appendRequest.args)
    {
      RepeatIsMisplaced(c, a.appendRequest, Proposed(run[..l]));
      AppendKeepsLeaderLogs(n, c, a.appendRequest);
      assert false;
    }
  }

  lemma {:induction false} SafeIsRegular(n: nat, run: seq<Action>)
    requires IsRun(n, run) && DistinctCommands(run) && forall k: nat :: k <= |run| ==> SafeAt(n, run, k)
    ensures RegularRun(n, run)
    decreases |run|
  {
    if run != [] {
      var l := |run| - 1;
      forall k: nat | k <= l ensures SafeAt(n, run[..l], k) {
        assert SafeAt(n, run, k);
        assert run[..l][..k] == run[..k];
      }
      SafeIsRegular(n, run[..l]);
      assert SafeAt(n, run, |run|) && run[..|run|] == run;
      LastStepIsRegular(n, run);
    }
  }

  lemma {:induction false} RegularPrefix(n: nat, run: seq<Action>, k: nat)
    requires IsRun(n, run) && RegularRun(n, run) && k <= |run|
    ensures IsRun(n, run[..k]) && RegularRun(n, run[..k])
    decreases |run|
  {
    if k == |run| {
      assert run[..k] == run;
    } else {
      var front := run[..|run| - 1];
      RegularPrefix(n, front, k);
      assert front[..k] == run[..k];
    }
  }

  /** A run in which no command is proposed twice is regular if and only if at every moment every leader
      has won its term and every entry of every log stands where its leader put it. The one direction
      holds of every run. */
  lemma RegularIsExact(n: nat, run: seq<Action>)
    requires IsRun(n, run)
    ensures RegularRun(n, run) ==> forall k: nat :: k <= |run| ==> SafeAt(n, run, k)
    ensures DistinctCommands(run) && (forall k: nat :: k <= |run| ==> SafeAt(n, run, k)) ==> RegularRun(n, run)
  {
    if RegularRun(n, run) {
      forall k: nat | k <= |run| ensures SafeAt(n, run, k) {
        RegularPrefix(n, run, k);
        RunKeepsLogs(n, run[..k]);
        LogsInvIsFromLeaders(After(n, run[..k]));
      }
    } else if DistinctCommands(run) && forall k: nat :: k <= |run| ==> SafeAt(n, run, k) {
      SafeIsRegular(n, run);
    }
  }
}
