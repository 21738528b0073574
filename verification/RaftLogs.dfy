/** The logs of a Raft cluster. AppendEntries puts the entries it received behind its log unless the first
    of them conflicts, even when they are there already. In the runs where that does not happen the logs
    match: two logs with the same term at an index are the same up to it. */
module RaftLogs {
  import opened Raft
  import opened RaftCluster

  // ---------- when an append does what it should ----------

  /** The entries start at an index where the log has an entry of the same term. */
  predicate Repeats(log: seq<LogEntry>, args: AppendArgs)
    requires args.prevLogIndex >= 0
  {
    args.entries != [] && |log| > args.prevLogIndex + 1 && log[args.prevLogIndex + 1].term == args.entries[0].term
  }

  /** An accepted append with entries leaves exactly the log up to the previous index with the entries
      behind it, if and only if it repeats nothing. */
  lemma AppendIsExact(s: Server, args: AppendArgs)
    requires 0 <= args.prevLogIndex < |s.log| && args.entries != []
    ensures Appended(s, args).log == s.log[..args.prevLogIndex + 1] + args.entries <==> !Repeats(s.log, args)
  {
    if !Repeats(s.log, args) && |s.log| == args.prevLogIndex + 1 {
      assert s.log[..args.prevLogIndex + 1] == s.log;
    }
  }

  predicate Accepts(s: Server, args: AppendArgs)
    requires args.prevLogIndex >= 0
  {
    args.term >= s.term && Matches(s, args)
  }

  /** No tally is stale, and no accepted append repeats entries. */
  predicate Regular(c: Cluster, a: Action)
    requires Enabled(c, a)
  {
    && TallyInTerm(c, a)
    && (a.DeliverAppend? && Accepts(c.servers[a.appendRequest.to], a.appendRequest.args) ==>
        !Repeats(c.servers[a.appendRequest.to].log, a.appendRequest.args))
  }

  predicate RegularRun(n: nat, run: seq<Action>)
    requires IsRun(n, run)
    decreases |run|
  {
    run != [] ==> RegularRun(n, run[..|run| - 1]) && Regular(After(n, run[..|run| - 1]), run[|run| - 1])
  }

  lemma {:induction false} RegularIsInTerm(n: nat, run: seq<Action>)
    requires IsRun(n, run) && RegularRun(n, run)
    ensures InTerm(n, run)
    decreases |run|
  {
    if run != [] { RegularIsInTerm(n, run[..|run| - 1]); }
  }

  // ---------- logs come from leaders ----------

  type Logs = map<int, seq<LogEntry>>

  /** The logs are the same up to and including index `k`. */
  predicate Agree(a: seq<LogEntry>, b: seq<LogEntry>, k: int) {
    0 <= k < |a| && k < |b| && a[..k + 1] == b[..k + 1]
  }

  predicate EntryFrom(logs: Logs, log: seq<LogEntry>, k: int)
    requires 0 <= k < |log|
  {
    log[k].term in logs && Agree(log, logs[log[k].term], k)
  }

  predicate SortedTerms(log: seq<LogEntry>) {
    forall a, b {:trigger log[a], log[b]} :: 0 <= a <= b < |log| ==> log[a].term <= log[b].term
  }

  /** Every entry came with everything before it from the leader of its term. */
  predicate LogFrom(logs: Logs, log: seq<LogEntry>) {
    && log != [] && log[0] == LogEntry(0, 0) && SortedTerms(log)
    && forall k {:trigger log[k]} :: 1 <= k < |log| ==> EntryFrom(logs, log, k)
  }

  function Last(log: seq<LogEntry>): LogEntry
    requires log != []
  {
    log[|log| - 1]
  }

  /** The append was cut out of its leader's log. */
  predicate MessageFrom(logs: Logs, args: AppendArgs) {
    && args.term in logs && 0 <= args.prevLogIndex
    && args.prevLogIndex + |args.entries| < |logs[args.term]|
    && args.entries == logs[args.term][args.prevLogIndex + 1..args.prevLogIndex + 1 + |args.entries|]
    && args.prevLogTerm == logs[args.term][args.prevLogIndex].term
  }

  ghost predicate HadLeader(elected: set<Reign>, term: int) {
    exists i: nat {:trigger Reign(term, i)} :: Reign(term, i) in elected
  }

  predicate ServerLogOk(logs: Logs, s: Server) {
    && LogFrom(logs, s.log) && Last(s.log).term <= s.term
    && (s.role == Leader ==> s.term in logs && logs[s.term] == s.log)
  }

  ghost predicate LeaderLogOk(logs: Logs, elected: set<Reign>, term: int)
    requires term in logs
  {
    LogFrom(logs, logs[term]) && Last(logs[term]).term <= term && HadLeader(elected, term)
  }

  ghost predicate LogsInv(c: Cluster) {
    && (forall i {:trigger c.servers[i]} :: 0 <= i < |c.servers| ==> ServerLogOk(c.logs, c.servers[i]))
    && (forall t {:trigger t in c.logs} :: t in c.logs ==> LeaderLogOk(c.logs, c.elected, t))
    && (forall m {:trigger m in c.appendRequests} :: m in c.appendRequests ==> MessageFrom(c.logs, m.args))
  }

  // ---------- leaders' logs only grow ----------

  predicate Grown(logs: Logs, logs': Logs) {
    forall t {:trigger t in logs} {:trigger t in logs'} :: t in logs ==> t in logs' && logs[t] <= logs'[t]
  }

  lemma AgreeGrows(log: seq<LogEntry>, h: seq<LogEntry>, h': seq<LogEntry>, k: int)
    requires Agree(log, h, k) && h <= h'
    ensures Agree(log, h', k)
  {
    assert h'[..k + 1] == h[..k + 1];
  }

  lemma LogFromGrows(logs: Logs, logs': Logs, log: seq<LogEntry>)
    requires LogFrom(logs, log) && Grown(logs, logs')
    ensures LogFrom(logs', log)
  {
    forall k | 1 <= k < |log| ensures EntryFrom(logs', log, k) {
      assert EntryFrom(logs, log, k);
      AgreeGrows(log, logs[log[k].term], logs'[log[k].term], k);
    }
  }

  lemma MessageFromGrows(logs: Logs, logs': Logs, args: AppendArgs)
    requires MessageFrom(logs, args) && Grown(logs, logs')
    ensures MessageFrom(logs', args)
  {
    var h, h' := logs[args.term], logs'[args.term];
    assert h == h'[..|h|];
  }

  lemma PrefixFrom(logs: Logs, h: seq<LogEntry>, p: nat)
    requires LogFrom(logs, h) && 1 <= p <= |h|
    ensures LogFrom(logs, h[..p])
  {
    var log := h[..p];
    forall k | 1 <= k < p ensures EntryFrom(logs, log, k) {
      assert EntryFrom(logs, h, k);
      assert log[..k + 1] == h[..k + 1];
    }
  }

  // ---------- one server changes ----------

  lemma PutKeepsLogs(c: Cluster, i: nat, s: Server)
    requires LogsInv(c) && i < |c.servers|
    requires Grown(c.logs, Put(c, i, s).logs) && ServerLogOk(Put(c, i, s).logs, s)
    requires forall j {:trigger c.servers[j]} ::
      0 <= j < |c.servers| && j != i && c.servers[j].role == Leader && s.role == Leader ==> c.servers[j].term != s.term
    ensures LogsInv(Put(c, i, s))
  {
    var c' := Put(c, i, s);
    forall j | 0 <= j < |c.servers| ensures ServerLogOk(c'.logs, c'.servers[j]) {
      if j != i {
        assert ServerLogOk(c.logs, c.servers[j]);
        LogFromGrows(c.logs, c'.logs, c.servers[j].log);
      }
    }
    forall t | t in c'.logs ensures LeaderLogOk(c'.logs, c'.elected, t) {
      if t in c.logs {
        assert LeaderLogOk(c.logs, c.elected, t);
        LogFromGrows(c.logs, c'.logs, c.logs[t]);
      }
      if s.role == Leader && t == s.term { assert Reign(t, i) in c'.elected; }
    }
    forall m | m in c.appendRequests ensures MessageFrom(c'.logs, m.args) {
      MessageFromGrows(c.logs, c'.logs, m.args);
    }
  }

  /** No other server leads the term. */
  predicate OnlyLeader(c: Cluster, i: nat, term: int) {
    forall j {:trigger c.servers[j]} ::
      0 <= j < |c.servers| && j != i && c.servers[j].role == Leader ==> c.servers[j].term != term
  }

  lemma LeaderIsOnly(n: nat, c: Cluster, i: nat)
    requires InvInTerm(n, c) && i < n && c.servers[i].role == Leader
    ensures OnlyLeader(c, i, c.servers[i].term)
  {
    forall j: nat | j < n && j != i && c.servers[j].role == Leader ensures c.servers[j].term != c.servers[i].term {
      if c.servers[j].term == c.servers[i].term {
        ReignsAreUnique(n, c, Reign(c.servers[i].term, i), Reign(c.servers[j].term, j));
      }
    }
  }

  /** The server keeps its log and does not become leader. */
  predicate KeepsLog(s: Server, s': Server) {
    s'.log == s.log && s.term <= s'.term && (s'.role == Leader ==> s.role == Leader && s'.term == s.term)
  }

  lemma KeepLogKeepsLogs(n: nat, c: Cluster, i: nat, s: Server)
    requires InvInTerm(n, c) && LogsInv(c) && i < n && KeepsLog(c.servers[i], s)
    ensures LogsInv(Put(c, i, s)) && Put(c, i, s).logs == c.logs
  {
    assert ServerLogOk(c.logs, c.servers[i]);
    assert s.role == Leader ==> c.logs[s.term := s.log] == c.logs;
    if s.role == Leader { LeaderIsOnly(n, c, i); }
    PutKeepsLogs(c, i, s);
  }

  lemma ExtendedFrom(logs: Logs, log: seq<LogEntry>, e: LogEntry)
    requires LogFrom(logs, log) && e.term in logs && logs[e.term] == log + [e] && Last(log).term <= e.term
    ensures LogFrom(logs, log + [e])
  {
    var log' := log + [e];
    forall k | 1 <= k < |log'| ensures EntryFrom(logs, log', k) {
      if k < |log| {
        assert EntryFrom(logs, log, k);
        assert log'[..k + 1] == log[..k + 1];
      }
    }
  }

  lemma ProposeKeepsLogs(n: nat, c: Cluster, i: nat, command: int)
    requires InvInTerm(n, c) && LogsInv(c) && i < n
    ensures LogsInv(Put(c, i, Raft.Propose(c.servers[i], command)))
    ensures Grown(c.logs, Put(c, i, Raft.Propose(c.servers[i], command)).logs)
  {
    var s := c.servers[i];
    if s.role == Leader {
      var e := LogEntry(command, s.term);
      var s' := Raft.Propose(s, command);
      var c' := Put(c, i, s');
      assert ServerLogOk(c.logs, s);
      assert s.log <= s.log + [e];
      LogFromGrows(c.logs, c'.logs, s.log);
      ExtendedFrom(c'.logs, s.log, e);
      LeaderIsOnly(n, c, i);
      PutKeepsLogs(c, i, s');
    } else {
      KeepLogKeepsLogs(n, c, i, s);
    }
  }

  /** A server that wins its term is the first to lead it. */
  lemma WinnerIsFirst(n: nat, c: Cluster, r: nat)
    requires InvInTerm(n, c) && LogsInv(c) && Enabled(c, Collect(r)) && Elects(c, r) && TallyInTerm(c, Collect(r))
    ensures var i := c.rounds[r].args.candidate;
      !HadLeader(c.elected, c.servers[i].term) && c.servers[i].term !in c.logs
  {
    var i := c.rounds[r].args.candidate;
    var t := c.servers[i].term;
    var c' := CollectVote(c, r);
    CollectKeepsInv(n, c, r);
    StepKeepsCrowns(n, c, Collect(r));
    assert Reign(t, i) in c'.elected;
    if j: nat :| Reign(t, j) in c.elected {
      ReignsAreUnique(n, c', Reign(t, j), Reign(t, i));
      assert false;
    }
  }

  lemma ElectionKeepsLogs(n: nat, c: Cluster, r: nat)
    requires InvInTerm(n, c) && LogsInv(c) && Enabled(c, Collect(r)) && Elects(c, r) && TallyInTerm(c, Collect(r))
    ensures LogsInv(CollectVote(c, r)) && Grown(c.logs, CollectVote(c, r).logs)
  {
    var i := c.rounds[r].args.candidate;
    var s := BecomeLeader(c.servers[i], n);
    WinnerIsFirst(n, c, r);
    assert ServerLogOk(c.logs, c.servers[i]);
    LogFromGrows(c.logs, Put(c, i, s).logs, s.log);
    forall j: nat | j < n && c.servers[j].role == Leader ensures c.servers[j].term != s.term {
      assert Recorded(c.cast, c.elected, j, c.servers[j]);
    }
    PutKeepsLogs(c, i, s);
  }

  // ---------- appends ----------

  /** If the previous entry matches, the log is the leader's up to there. */
  lemma MatchAgrees(logs: Logs, log: seq<LogEntry>, args: AppendArgs)
    requires LogFrom(logs, log) && MessageFrom(logs, args) && LogFrom(logs, logs[args.term])
    requires args.prevLogIndex < |log| && log[args.prevLogIndex].term == args.prevLogTerm
    ensures Agree(log, logs[args.term], args.prevLogIndex)
  {
    var k, h := args.prevLogIndex, logs[args.term];
    if k > 0 {
      assert EntryFrom(logs, log, k) && EntryFrom(logs, h, k);
    } else {
      assert log[..1] == [log[0]] && h[..1] == [h[0]];
    }
  }

  /** An accepted append that repeats nothing leaves a log that agrees with the leader's up to the last
      entry sent; with entries, it is the leader's log up to there. */
  lemma AcceptedAgrees(logs: Logs, s: Server, args: AppendArgs)
    requires LogFrom(logs, s.log) && MessageFrom(logs, args) && LogFrom(logs, logs[args.term])
    requires args.prevLogIndex < |s.log| && s.log[args.prevLogIndex].term == args.prevLogTerm && !Repeats(s.log, args)
    ensures var log := Appended(s, args).log;
      && Agree(log, logs[args.term], args.prevLogIndex + |args.entries|)
      && (if args.entries == [] then log == s.log else log == logs[args.term][..args.prevLogIndex + |args.entries| + 1])
  {
    var h, p := logs[args.term], args.prevLogIndex;
    MatchAgrees(logs, s.log, args);
    if args.entries != [] {
      AppendIsExact(s, args);
      assert h[..p + 1 + |args.entries|] == h[..p + 1] + args.entries;
    }
  }

  lemma AcceptedFrom(logs: Logs, s: Server, args: AppendArgs)
    requires LogFrom(logs, s.log) && MessageFrom(logs, args) && LogFrom(logs, logs[args.term])
    requires args.prevLogIndex < |s.log| && s.log[args.prevLogIndex].term == args.prevLogTerm && !Repeats(s.log, args)
    requires Last(s.log).term <= args.term && Last(logs[args.term]).term <= args.term
    ensures LogFrom(logs, Appended(s, args).log) && Last(Appended(s, args).log).term <= args.term
  {
    AcceptedAgrees(logs, s, args);
    if args.entries != [] {
      var h, p := logs[args.term], args.prevLogIndex + |args.entries|;
      PrefixFrom(logs, h, p + 1);
      assert h[p].term <= h[|h| - 1].term;
    }
  }

  /** What AppendEntries leaves of a server that does not lead the append's term. */
  lemma AppendEntriesLogOk(logs: Logs, s: Server, args: AppendArgs)
    requires ServerLogOk(logs, s) && MessageFrom(logs, args) && LogFrom(logs, logs[args.term])
    requires Last(logs[args.term]).term <= args.term
    requires Accepts(s, args) && !Repeats(s.log, args) && AppendEntries(s, args).0.role != Leader
    ensures ServerLogOk(logs, AppendEntries(s, args).0)
  {
    var s1 := if args.term > s.term then s.(term := args.term, votedFor := NOBODY, role := Follower) else s;
    AcceptedFrom(logs, s1, args);
  }

  lemma AnswerAppendKeepsLogs(n: nat, c: Cluster, m: AppendRequest)
    requires InvInTerm(n, c) && LogsInv(c) && m in c.appendRequests && m.to < n && m.args.prevLogIndex >= 0
    requires Accepts(c.servers[m.to], m.args) ==> !Repeats(c.servers[m.to].log, m.args)
    ensures LogsInv(Put(c, m.to, AppendEntries(c.servers[m.to], m.args).0))
    ensures Put(c, m.to, AppendEntries(c.servers[m.to], m.args).0).logs == c.logs
  {
    var s := c.servers[m.to];
    if Accepts(s, m.args) {
      assert ServerLogOk(c.logs, s) && MessageFrom(c.logs, m.args) && LeaderLogOk(c.logs, c.elected, m.args.term);
      LeadersTakeNoAppends(n, c, m);
      AppendEntriesLogOk(c.logs, s, m.args);
      PutKeepsLogs(c, m.to, AppendEntries(s, m.args).0);
    } else {
      RefusalKeepsLog(s, m.args);
      KeepLogKeepsLogs(n, c, m.to, AppendEntries(s, m.args).0);
    }
  }

  lemma RefusalKeepsLog(s: Server, args: AppendArgs)
    requires args.prevLogIndex >= 0 && !Accepts(s, args)
    ensures KeepsLog(s, AppendEntries(s, args).0)
  {}

  lemma LeadersTakeNoAppends(n: nat, c: Cluster, m: AppendRequest)
    requires InvInTerm(n, c) && m in c.appendRequests && m.args.term >= c.servers[m.to].term && m.args.prevLogIndex >= 0
    ensures AppendEntries(c.servers[m.to], m.args).0.role != Leader
  {
    var s := c.servers[m.to];
    assert AppendRequestOk(c.servers, c.elected, m);
    if s.role == Leader && m.args.term == s.term {
      ReignsAreUnique(n, c, Reign(s.term, m.to), Reign(m.args.term, m.args.leader));
    }
  }

  lemma HeartbeatFrom(logs: Logs, s: Server, me: nat, peer: nat)
    requires CanSend(s, peer) && s.term in logs && logs[s.term] == s.log
    ensures MessageFrom(logs, Heartbeat(s, me, peer))
    ensures Heartbeat(s, me, peer).prevLogIndex + |Heartbeat(s, me, peer).entries| == |s.log| - 1
  {
    var next := s.nextIndex[peer];
    assert s.log[next..] == s.log[next..|s.log|];
  }

  lemma SendKeepsLogs(n: nat, c: Cluster, i: nat, peer: nat)
    requires InvInTerm(n, c) && LogsInv(c) && Enabled(c, Send(i, peer))
    ensures LogsInv(Step(c, Send(i, peer)))
  {
    assert ServerLogOk(c.logs, c.servers[i]);
    HeartbeatFrom(c.logs, c.servers[i], i, peer);
    AddRequest(c, AppendRequest(peer, Heartbeat(c.servers[i], i, peer)));
  }

  lemma AddRequest(c: Cluster, m: AppendRequest)
    requires LogsInv(c) && MessageFrom(c.logs, m.args)
    ensures LogsInv(c.(appendRequests := c.appendRequests + {m}))
  {}

  lemma VotingKeepsLog(s: Server, i: nat, args: VoteArgs, reply: VoteReply)
    requires s.log != []
    ensures KeepsLog(s, KickOff(s, i).0) && KeepsLog(s, RequestVote(s, args).0)
    ensures KeepsLog(s, VoteReplied(s, args, reply).0)
  {}

  lemma RepliedKeepsLog(s: Server, peer: nat, args: AppendArgs, reply: AppendReply)
    requires CanTake(s, peer)
    ensures KeepsLog(s, AppendReplied(s, peer, args, reply).0)
  {}

  /** Only the servers and the requests matter. */
  lemma SameLogs(c: Cluster, c': Cluster)
    requires LogsInv(c) && c'.servers == c.servers && c'.logs == c.logs && c'.elected == c.elected
    requires c'.appendRequests == c.appendRequests
    ensures LogsInv(c')
  {}

  lemma VoteStepsKeepLogs(n: nat, c: Cluster, a: Action)
    requires InvInTerm(n, c) && LogsInv(c) && Enabled(c, a)
    requires (a.StartElection? || a.DeliverVoteRequest? || a.TakeVoteAnswer?)
    ensures LogsInv(Step(c, a)) && Step(c, a).logs == c.logs
  {
    var none := VoteReply(0, false);
    match a {
      case StartElection(i) =>
        VotingKeepsLog(c.servers[i], i, VoteArgs(0, 0, 0, 0), none);
        var s := KickOff(c.servers[i], i).0;
        KeepLogKeepsLogs(n, c, i, s);
        SameLogs(Put(c, i, s), Step(c, a));
      case DeliverVoteRequest(m) =>
        VotingKeepsLog(c.servers[m.to], m.to, m.args, none);
        var s := RequestVote(c.servers[m.to], m.args).0;
        KeepLogKeepsLogs(n, c, m.to, s);
        SameLogs(Put(c, m.to, s), Step(c, a));
      case TakeVoteAnswer(r, m) =>
        var i := m.args.candidate;
        VotingKeepsLog(c.servers[i], i, m.args, m.reply);
        var s := VoteReplied(c.servers[i], m.args, m.reply).0;
        KeepLogKeepsLogs(n, c, i, s);
        SameLogs(Put(c, i, s), Step(c, a));
    }
  }

  lemma StepKeepsLogs(n: nat, c: Cluster, a: Action)
    requires InvInTerm(n, c) && LogsInv(c) && Enabled(c, a) && Regular(c, a)
    ensures LogsInv(Step(c, a)) && Grown(c.logs, Step(c, a).logs)
  {
    match a {
      case StartElection(_) => VoteStepsKeepLogs(n, c, a);
      case DeliverVoteRequest(_) => VoteStepsKeepLogs(n, c, a);
      case TakeVoteAnswer(_, _) => VoteStepsKeepLogs(n, c, a);
      case Collect(r) => if Elects(c, r) { ElectionKeepsLogs(n, c, r); }
      case Propose(i, command) => ProposeKeepsLogs(n, c, i, command);
      case Send(i, peer) => SendKeepsLogs(n, c, i, peer);
      case DeliverAppend(m) =>
        AnswerAppendKeepsLogs(n, c, m);
        SameLogs(Put(c, m.to, AppendEntries(c.servers[m.to], m.args).0), Step(c, a));
      case TakeAppendAnswer(m) =>
        RepliedKeepsLog(c.servers[m.args.leader], m.from, m.args, m.reply);
        KeepLogKeepsLogs(n, c, m.args.leader, AppendReplied(c.servers[m.args.leader], m.from, m.args, m.reply).0);
    }
  }

  lemma {:induction false} RunKeepsLogs(n: nat, run: seq<Action>)
    requires IsRun(n, run) && RegularRun(n, run)
    ensures InvInTerm(n, After(n, run)) && LogsInv(After(n, run))
    decreases |run|
  {
    RegularIsInTerm(n, run);
    RunKeepsLeaders(n, run);
    if run != [] {
      var k := |run| - 1;
      RunKeepsLogs(n, run[..k]);
      StepKeepsLogs(n, After(n, run[..k]), run[k]);
    }
  }

  /** Log Matching: in every regular run, two logs with entries of the same term at the same index are
      the same up to that index. */
  lemma LogsMatch(n: nat, run: seq<Action>, i: nat, j: nat, k: nat)
    requires IsRun(n, run) && RegularRun(n, run) && i < |After(n, run).servers| && j < |After(n, run).servers|
    requires k < |After(n, run).servers[i].log| && k < |After(n, run).servers[j].log|
    requires After(n, run).servers[i].log[k].term == After(n, run).servers[j].log[k].term
    ensures After(n, run).servers[i].log[..k + 1] == After(n, run).servers[j].log[..k + 1]
  {
    RunKeepsLogs(n, run);
    AgreeingTerms(After(n, run), i, j, k);
  }

  lemma AgreeingTerms(c: Cluster, i: nat, j: nat, k: nat)
    requires LogsInv(c) && i < |c.servers| && j < |c.servers| && k < |c.servers[i].log| && k < |c.servers[j].log|
    requires c.servers[i].log[k].term == c.servers[j].log[k].term
    ensures c.servers[i].log[..k + 1] == c.servers[j].log[..k + 1]
  {
    var a, b := c.servers[i].log, c.servers[j].log;
    assert ServerLogOk(c.logs, c.servers[i]) && ServerLogOk(c.logs, c.servers[j]);
    if k == 0 {
      assert a[..1] == [a[0]] && b[..1] == [b[0]];
    } else {
      assert EntryFrom(c.logs, a, k) && EntryFrom(c.logs, b, k);
    }
  }
}
