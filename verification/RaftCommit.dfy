/** State Machine Safety: in every regular run, no two servers ever commit different entries at the same
    index, and what a server has committed never changes. */
module RaftCommit {
  import opened Raft
  import opened RaftCluster
  import opened RaftLogs
  import opened RaftSafety

  // ---------- the invariant ----------

  /** The entry `k` of term `t` is chosen and vouches for the log up to `idx`. */
  ghost predicate Certifies(c: Cluster, t: int, k: int, term: int, log: seq<LogEntry>, idx: int) {
    Chosen(c, t, k) && t <= term && idx <= k && Agree(log, c.logs[t], idx)
  }

  ghost predicate Certified(c: Cluster, term: int, log: seq<LogEntry>, idx: int) {
    && 0 <= idx < |log|
    && (idx == 0 || exists t, k {:trigger Certifies(c, t, k, term, log, idx)} :: Certifies(c, t, k, term, log, idx))
  }

  ghost predicate MatchesAreAcks(c: Cluster, i: nat, s: Server) {
    s.role == Leader ==> forall j: nat {:trigger s.matchIndex[j]} ::
      j < |s.matchIndex| && s.matchIndex[j] > 0 ==> Acked(c, j, s.term, s.matchIndex[j])
  }

  ghost predicate ServerCommits(c: Cluster, i: nat, s: Server) {
    Certified(c, s.term, s.log, s.commitIndex) && MatchesAreAcks(c, i, s)
  }

  ghost predicate MessageCommits(c: Cluster, args: AppendArgs) {
    && args.term in c.logs && args.leaderCommit <= args.prevLogIndex + |args.entries|
    && Certified(c, args.term, c.logs[args.term], args.leaderCommit)
  }

  ghost predicate CommitInv(c: Cluster) {
    && (forall i: nat {:trigger c.servers[i]} :: i < |c.servers| ==> ServerCommits(c, i, c.servers[i]))
    && (forall m {:trigger m in c.appendRequests} :: m in c.appendRequests ==> MessageCommits(c, m.args))
  }

  // ---------- what is chosen stays chosen ----------

  ghost predicate LaterAcks(c: Cluster, c': Cluster) {
    Later(c, c') && c.elected <= c'.elected && c.appendAnswers <= c'.appendAnswers
  }

  lemma AckedStays(c: Cluster, c': Cluster, v: nat, t: int, k: int)
    requires LaterAcks(c, c') && Acked(c, v, t, k)
    ensures Acked(c', v, t, k)
  {
    if Reign(t, v) !in c.elected {
      var m :| m in c.appendAnswers && AckOf(m, v, t, k);
      assert m in c'.appendAnswers;
    }
  }

  lemma ChosenStays(c: Cluster, c': Cluster, t: int, k: int)
    requires LaterAcks(c, c') && Chosen(c, t, k)
    ensures Chosen(c', t, k)
  {
    MadeStays(c.logs, c'.logs, t, k);
    var q :| Majority(|c.servers|, q) && AllAcked(c, q, t, k);
    forall v | v in q ensures Acked(c', v, t, k) {
      AckedStays(c, c', v, t, k);
    }
    assert AllAcked(c', q, t, k);
  }

  /** A certificate stays good for a later term and for any log that agrees up to the index. */
  lemma CertificateStays(
      c: Cluster, c': Cluster, term: int, log: seq<LogEntry>, idx: int, term': int, log': seq<LogEntry>)
    requires LaterAcks(c, c') && Certified(c, term, log, idx) && term <= term' && Agree(log', log, idx)
    ensures Certified(c', term', log', idx)
  {
    if idx > 0 {
      var t, k :| Certifies(c, t, k, term, log, idx);
      ChosenStays(c, c', t, k);
      AgreeThrough(log', log, c.logs[t], idx);
      AgreeGrows(log', c.logs[t], c'.logs[t], idx);
      assert Certifies(c', t, k, term', log', idx);
    }
  }

  lemma StepIsLaterAcks(n: nat, c: Cluster, a: Action)
    requires InvInTerm(n, c) && LogsInv(c) && Enabled(c, a) && Regular(c, a)
    ensures LaterAcks(c, Step(c, a))
  {
    StepIsLater(n, c, a);
    StepKeepsElected(c, a);
    AnswersStay(c, a);
  }

  // ---------- appends ----------

  /** An accepted append keeps everything the server had committed. */
  lemma AppendKeepsCommitted(c: Cluster, m: AppendRequest)
    requires LogsInv(c) && LeadersHold(c) && m in c.appendRequests && m.to < |c.servers| && m.args.prevLogIndex >= 0
    requires Accepts(c.servers[m.to], m.args) && !Repeats(c.servers[m.to].log, m.args)
    requires var s := c.servers[m.to]; Certified(c, s.term, s.log, s.commitIndex)
    ensures var s := c.servers[m.to]; Agree(AppendEntries(s, m.args).0.log, s.log, s.commitIndex)
  {
    var s, u := c.servers[m.to], m.args.term;
    MessageTermIsLed(c, m);
    if s.commitIndex == 0 {
      ZeroAgrees(c, m);
    } else {
      var t, k :| Certifies(c, t, k, s.term, s.log, s.commitIndex);
      ChosenIsNotLost(c, t, k);
      LeaderHolds(c, u, t, k);
      AgreeShorter(c.logs[u], c.logs[t], k, s.commitIndex);
      AppendHolds(c, m, c.logs[t], s.commitIndex);
    }
  }

  lemma ZeroAgrees(c: Cluster, m: AppendRequest)
    requires LogsInv(c) && m in c.appendRequests && m.to < |c.servers| && m.args.prevLogIndex >= 0
    requires Accepts(c.servers[m.to], m.args) && !Repeats(c.servers[m.to].log, m.args)
    ensures Agree(AppendEntries(c.servers[m.to], m.args).0.log, c.servers[m.to].log, 0)
  {
    AcceptedHolds(c, m, 0);
    assert ServerLogOk(c.logs, c.servers[m.to]);
    assert LeaderLogOk(c.logs, c.elected, m.args.term);
    AgreeAtZero(c.logs, c.logs[m.args.term], c.servers[m.to].log);
  }

  lemma AcceptedCommit(s: Server, args: AppendArgs)
    requires args.prevLogIndex >= 0 && Accepts(s, args)
    ensures var s' := AppendEntries(s, args).0;
      && s'.term == args.term && s'.log != []
      && s'.commitIndex == if args.leaderCommit > s.commitIndex
         then (if args.leaderCommit < |s'.log| - 1 then args.leaderCommit else |s'.log| - 1) else s.commitIndex
  {}

  /** The leader's commit index vouches for the log the append leaves. */
  lemma AppendCertifies(c: Cluster, c': Cluster, m: AppendRequest)
    requires LaterAcks(c, c') && LogsInv(c) && m in c.appendRequests && m.to < |c.servers| && m.args.prevLogIndex >= 0
    requires Accepts(c.servers[m.to], m.args) && !Repeats(c.servers[m.to].log, m.args) && MessageCommits(c, m.args)
    ensures Certified(c', m.args.term, AppendEntries(c.servers[m.to], m.args).0.log, m.args.leaderCommit)
  {
    AcceptedHolds(c, m, m.args.leaderCommit);
    var log' := AppendEntries(c.servers[m.to], m.args).0.log;
    CertificateStays(c, c', m.args.term, c.logs[m.args.term], m.args.leaderCommit, m.args.term, log');
  }

  lemma CertifiedEitherWay(c: Cluster, c': Cluster, s: Server, s': Server, leaderCommit: int)
    requires LaterAcks(c, c') && Certified(c, s.term, s.log, s.commitIndex) && s.term <= s'.term
    requires Agree(s'.log, s.log, s.commitIndex)
    requires Certified(c', s'.term, s'.log, leaderCommit)
    requires s'.commitIndex == if leaderCommit > s.commitIndex
      then (if leaderCommit < |s'.log| - 1 then leaderCommit else |s'.log| - 1) else s.commitIndex
    ensures Certified(c', s'.term, s'.log, s'.commitIndex) && s'.commitIndex >= s.commitIndex
  {
    CertificateStays(c, c', s.term, s.log, s.commitIndex, s'.term, s'.log);
  }

  lemma AcceptCommits(c: Cluster, c': Cluster, m: AppendRequest, s': Server)
    requires LaterAcks(c, c') && LogsInv(c) && LeadersHold(c) && m in c.appendRequests && m.to < |c.servers|
    requires m.args.prevLogIndex >= 0
    requires Accepts(c.servers[m.to], m.args) && !Repeats(c.servers[m.to].log, m.args) && MessageCommits(c, m.args)
    requires var s := c.servers[m.to]; Certified(c, s.term, s.log, s.commitIndex)
    requires s' == AppendEntries(c.servers[m.to], m.args).0
    ensures Certified(c', s'.term, s'.log, s'.commitIndex) && s'.commitIndex >= c.servers[m.to].commitIndex
    ensures Agree(s'.log, c.servers[m.to].log, c.servers[m.to].commitIndex)
  {
    AppendKeepsCommitted(c, m);
    AppendCertifies(c, c', m);
    AcceptedCommit(c.servers[m.to], m.args);
    CertifiedEitherWay(c, c', c.servers[m.to], s', m.args.leaderCommit);
  }

  // ---------- steps that commit nothing ----------

  predicate SameMatches(s: Server, s': Server) {
    s'.role == Leader ==>
      (s.role == Leader && s.term == s'.term && s'.matchIndex == s.matchIndex)
      || forall j {:trigger s'.matchIndex[j]} :: 0 <= j < |s'.matchIndex| ==> s'.matchIndex[j] == 0
  }

  predicate Quiet(s: Server, s': Server) {
    s.log <= s'.log && s'.commitIndex == s.commitIndex && s.term <= s'.term && SameMatches(s, s')
  }

  lemma QuietCommits(c: Cluster, c': Cluster, i: nat, s: Server, s': Server)
    requires LaterAcks(c, c') && ServerCommits(c, i, s) && Quiet(s, s')
    ensures ServerCommits(c', i, s') && Agree(s'.log, s.log, s.commitIndex)
  {
    assert s'.log[..s.commitIndex + 1] == s.log[..s.commitIndex + 1];
    CertificateStays(c, c', s.term, s.log, s.commitIndex, s'.term, s'.log);
    if s'.role == Leader {
      forall j: nat | j < |s'.matchIndex| && s'.matchIndex[j] > 0 ensures Acked(c', j, s'.term, s'.matchIndex[j]) {
        AckedStays(c, c', j, s'.term, s'.matchIndex[j]);
      }
    }
  }

  lemma VotingIsQuiet(n: nat, s: Server, i: nat, args: VoteArgs, reply: VoteReply)
    requires s.log != []
    ensures Quiet(s, KickOff(s, i).0) && Quiet(s, RequestVote(s, args).0) && Quiet(s, VoteReplied(s, args, reply).0)
    ensures Quiet(s, BecomeLeader(s, n))
  {}

  lemma RefusingIsQuiet(s: Server, args: AppendArgs)
    requires args.prevLogIndex >= 0 && !Accepts(s, args)
    ensures Quiet(s, AppendEntries(s, args).0)
  {}

  lemma FailureIsQuiet(s: Server, peer: nat, args: AppendArgs, reply: AppendReply)
    requires CanTake(s, peer) && (!reply.success || args.term != s.term)
    ensures Quiet(s, AppendReplied(s, peer, args, reply).0)
  {}

  // ---------- a successful answer ----------

  /** Every peer whose match index reaches `k` has acknowledged it. */
  lemma HoldersAcked(n: nat, c: Cluster, i: nat, s: Server, k: int)
    requires s.role == Leader && MatchesAreAcks(c, i, s) && |s.matchIndex| == n && i < n && k >= 1
    requires Reign(s.term, i) in c.elected
    ensures HeldBy(s.matchIndex, i, k) <= Servers(n) && AllAcked(c, HeldBy(s.matchIndex, i, k), s.term, k)
  {
    forall v | v in HeldBy(s.matchIndex, i, k) ensures v < n && Acked(c, v, s.term, k) {
      if v != i { AckedLess(c, v, s.term, s.matchIndex[v], k); }
    }
  }

  lemma AckedLess(c: Cluster, v: nat, t: int, l: int, k: int)
    requires Acked(c, v, t, l) && k <= l
    ensures Acked(c, v, t, k)
  {
    if Reign(t, v) !in c.elected {
      var m :| m in c.appendAnswers && AckOf(m, v, t, l);
      assert AckOf(m, v, t, k);
    }
  }

  lemma MajorityChooses(n: nat, c: Cluster, i: nat, s: Server, k: int)
    requires |c.servers| == n && s.role == Leader && MatchesAreAcks(c, i, s) && |s.matchIndex| == n && i < n
    requires Reign(s.term, i) in c.elected
    requires s.term in c.logs && c.logs[s.term] == s.log && k >= 1 && Committed(s, i, k)
    ensures Certifies(c, s.term, k, s.term, s.log, k)
  {
    HoldersAcked(n, c, i, s, k);
    assert AllAcked(c, HeldBy(s.matchIndex, i, k), s.term, k);
    assert Majority(n, HeldBy(s.matchIndex, i, k));
  }

  lemma SuccessMatches(c: Cluster, m: AppendAnswer, s: Server, s': Server)
    requires MatchesAreAcks(c, m.args.leader, s) && m in c.appendAnswers && m.reply.success && m.args.term == s.term
    requires s'.role == s.role && s'.term == s.term && m.from < |s.matchIndex|
    requires s'.matchIndex == s.matchIndex[m.from := m.args.prevLogIndex + |m.args.entries|]
    ensures MatchesAreAcks(c, m.args.leader, s')
  {
    assert AckOf(m, m.from, s.term, m.args.prevLogIndex + |m.args.entries|);
  }

  lemma SuccessIsCertified(n: nat, c: Cluster, i: nat, s: Server, s': Server)
    requires |c.servers| == n && s'.role == Leader && MatchesAreAcks(c, i, s') && |s'.matchIndex| == n && i < n
    requires Reign(s.term, i) in c.elected
    requires s.term in c.logs && c.logs[s.term] == s.log && Certified(c, s.term, s.log, s.commitIndex)
    requires CommitsLargest(s, s', i)
    ensures Certified(c, s'.term, s'.log, s'.commitIndex) && s'.commitIndex >= s.commitIndex
  {
    if s'.commitIndex != s.commitIndex {
      MajorityChooses(n, c, i, s', s'.commitIndex);
    }
  }

  lemma SuccessCommits(n: nat, c: Cluster, m: AppendAnswer, s': Server)
    requires Inv(n, c) && LogsInv(c) && m in c.appendAnswers && m.reply.success && m.args.leader < n
    requires m.args.term == c.servers[m.args.leader].term && ServerCommits(c, m.args.leader, c.servers[m.args.leader])
    requires CanTake(c.servers[m.args.leader], m.from)
    requires s' == AppendReplied(c.servers[m.args.leader], m.from, m.args, m.reply).0
    ensures ServerCommits(c, m.args.leader, s')
    ensures s'.log == c.servers[m.args.leader].log && s'.commitIndex >= c.servers[m.args.leader].commitIndex
    ensures s'.term == c.servers[m.args.leader].term
  {
    AnswererIsOther(n, c, m);
    LeaderIsRecorded(n, c, m.args.leader);
    SuccessCommitsHere(n, c, m, c.servers[m.args.leader], s');
  }

  lemma SuccessCommitsHere(n: nat, c: Cluster, m: AppendAnswer, s: Server, s': Server)
    requires |c.servers| == n && ServerOk(n, m.args.leader, s) && s.role == Leader && m.from < n
    requires m.from != m.args.leader
    requires Reign(s.term, m.args.leader) in c.elected && s.term in c.logs && c.logs[s.term] == s.log
    requires m in c.appendAnswers && m.reply.success && m.args.term == s.term && ServerCommits(c, m.args.leader, s)
    requires s' == AppendReplied(s, m.from, m.args, m.reply).0
    ensures ServerCommits(c, m.args.leader, s') && s'.log == s.log && s'.commitIndex >= s.commitIndex
    ensures s'.term == s.term
  {
    SuccessCommitsLargest(n, m.args.leader, s, m.from, m.args, m.reply);
    SuccessKeepsRole(s, m.from, m.args, m.reply);
    SuccessMatches(c, m, s, s');
    SuccessIsCertified(n, c, m.args.leader, s, s');
  }

  lemma SuccessKeepsRole(s: Server, peer: nat, args: AppendArgs, reply: AppendReply)
    requires CanTake(s, peer) && reply.success && args.term == s.term
    ensures AppendReplied(s, peer, args, reply).0.role == s.role
  {}

  lemma AnswererIsOther(n: nat, c: Cluster, m: AppendAnswer)
    requires Inv(n, c) && m in c.appendAnswers && m.args.leader < n && m.args.term == c.servers[m.args.leader].term
    ensures m.from < n && m.from != m.args.leader && c.servers[m.args.leader].role == Leader
  {
    assert AppendAnswerOk(c.appendRequests, m);
    assert AppendRequestOk(c.servers, c.elected, AppendRequest(m.from, m.args));
    assert ReignOk(c.servers[Reign(m.args.term, m.args.leader).leader], m.args.term);
  }

  // ---------- every step keeps what is committed ----------

  predicate TakesAppend(c: Cluster, a: Action, i: nat)
    requires Enabled(c, a) && i < |c.servers|
  {
    a.DeliverAppend? && a.appendRequest.to == i && Accepts(c.servers[i], a.appendRequest.args)
  }

  predicate TakesSuccess(c: Cluster, a: Action, i: nat)
    requires i < |c.servers|
  {
    && a.TakeAppendAnswer? && a.appendAnswer.args.leader == i
    && a.appendAnswer.reply.success && a.appendAnswer.args.term == c.servers[i].term
  }

  /** Only an accepted append and a successful answer touch commit and match indices. */
  lemma OthersAreQuiet(c: Cluster, a: Action, i: nat)
    requires Enabled(c, a) && i < |c.servers| && !TakesAppend(c, a, i) && !TakesSuccess(c, a, i)
    ensures |Step(c, a).servers| == |c.servers| && Quiet(c.servers[i], Step(c, a).servers[i])
  {
    var none, nobody := VoteReply(0, false), VoteArgs(0, 0, 0, 0);
    match a {
      case StartElection(j) => VotingIsQuiet(0, c.servers[j], j, nobody, none);
      case DeliverVoteRequest(m) => VotingIsQuiet(0, c.servers[m.to], m.to, m.args, none);
      case TakeVoteAnswer(r, m) => VoteReplyIsQuiet(c.servers[m.args.candidate], m.args, m.reply);
      case Collect(r) => LeadingIsQuiet(c.servers[c.rounds[r].args.candidate], |c.servers|);
      case Propose(j, command) =>
      case Send(_, _) =>
      case DeliverAppend(m) => if m.to == i { RefusingIsQuiet(c.servers[i], m.args); }
      case TakeAppendAnswer(m) => if m.args.leader == i { FailureIsQuiet(c.servers[i], m.from, m.args, m.reply); }
    }
  }

  lemma VoteReplyIsQuiet(s: Server, args: VoteArgs, reply: VoteReply)
    ensures Quiet(s, VoteReplied(s, args, reply).0)
  {}

  lemma LeadingIsQuiet(s: Server, n: nat)
    ensures Quiet(s, BecomeLeader(s, n))
  {}

  /** The server's commit index grows, and its log keeps everything up to the old one. */
  predicate KeepsCommitted(s: Server, s': Server) {
    s.commitIndex <= s'.commitIndex && Agree(s'.log, s.log, s.commitIndex)
  }

  ghost predicate AllReady(n: nat, c: Cluster, a: Action) {
    Ready(n, c, a) && CommitInv(c)
  }

  lemma AcceptorCommits(n: nat, c: Cluster, a: Action, c': Cluster, i: nat, s': Server)
    requires AllReady(n, c, a) && LaterAcks(c, c') && i < n && TakesAppend(c, a, i)
    requires s' == AppendEntries(c.servers[i], a.appendRequest.args).0
    ensures ServerCommits(c', i, s') && KeepsCommitted(c.servers[i], s')
  {
    var m := a.appendRequest;
    DeliverIsPossible(c, a);
    assert ServerCommits(c, i, c.servers[i]) && MessageCommits(c, m.args);
    AcceptCommits(c, c', m, s');
    LeadersTakeNoAppends(n, c, m);
  }

  lemma AnsweredCommits(n: nat, c: Cluster, c': Cluster, m: AppendAnswer, s': Server)
    requires Inv(n, c) && LogsInv(c) && LaterAcks(c, c') && m in c.appendAnswers && m.reply.success && m.args.leader < n
    requires m.args.term == c.servers[m.args.leader].term && ServerCommits(c, m.args.leader, c.servers[m.args.leader])
    requires CanTake(c.servers[m.args.leader], m.from)
    requires s' == AppendReplied(c.servers[m.args.leader], m.from, m.args, m.reply).0
    ensures ServerCommits(c', m.args.leader, s') && KeepsCommitted(c.servers[m.args.leader], s')
  {
    SuccessCommits(n, c, m, s');
    SameServerCommits(c, c', m.args.leader, s');
  }

  lemma AnswerIsPossible(c: Cluster, a: Action)
    requires Enabled(c, a)
    ensures a.TakeAppendAnswer? ==>
      && a.appendAnswer in c.appendAnswers && a.appendAnswer.args.leader < |c.servers|
      && CanTake(c.servers[a.appendAnswer.args.leader], a.appendAnswer.from)
  {}

  lemma SameServerCommits(c: Cluster, c': Cluster, i: nat, s: Server)
    requires LaterAcks(c, c') && ServerCommits(c, i, s)
    ensures ServerCommits(c', i, s)
  {
    QuietCommits(c, c', i, s, s);
  }

  /** The server the step leaves. */
  lemma ServerAfter(c: Cluster, a: Action, i: nat)
    requires Enabled(c, a) && i < |c.servers|
    ensures |Step(c, a).servers| == |c.servers|
    ensures TakesAppend(c, a, i) ==> Step(c, a).servers[i] == AppendEntries(c.servers[i], a.appendRequest.args).0
    ensures TakesSuccess(c, a, i) ==>
      var m := a.appendAnswer; Step(c, a).servers[i] == AppendReplied(c.servers[i], m.from, m.args, m.reply).0
    ensures !TakesAppend(c, a, i) && !TakesSuccess(c, a, i) ==> Quiet(c.servers[i], Step(c, a).servers[i])
  {
    if !TakesAppend(c, a, i) && !TakesSuccess(c, a, i) { OthersAreQuiet(c, a, i); }
  }

  lemma ServerStepCommits(n: nat, c: Cluster, a: Action, i: nat)
    requires AllReady(n, c, a) && i < n
    ensures |Step(c, a).servers| == n && ServerCommits(Step(c, a), i, Step(c, a).servers[i])
    ensures KeepsCommitted(c.servers[i], Step(c, a).servers[i])
  {
    StepIsLaterAcks(n, c, a);
    ServerAfter(c, a, i);
    ServerCommitsLater(n, c, a, Step(c, a), i);
  }

  lemma ServerCommitsLater(n: nat, c: Cluster, a: Action, c': Cluster, i: nat)
    requires AllReady(n, c, a) && i < n && LaterAcks(c, c')
    requires TakesAppend(c, a, i) ==> c'.servers[i] == AppendEntries(c.servers[i], a.appendRequest.args).0
    requires TakesSuccess(c, a, i) && CanTake(c.servers[i], a.appendAnswer.from) ==>
      var m := a.appendAnswer; c'.servers[i] == AppendReplied(c.servers[i], m.from, m.args, m.reply).0
    requires !TakesAppend(c, a, i) && !TakesSuccess(c, a, i) ==> Quiet(c.servers[i], c'.servers[i])
    ensures ServerCommits(c', i, c'.servers[i]) && KeepsCommitted(c.servers[i], c'.servers[i])
  {
    assert ServerCommits(c, i, c.servers[i]);
    if TakesAppend(c, a, i) {
      AcceptorCommits(n, c, a, c', i, c'.servers[i]);
    } else if TakesSuccess(c, a, i) {
      AnswerIsPossible(c, a);
      AnsweredCommits(n, c, c', a.appendAnswer, c'.servers[i]);
    } else {
      QuietCommits(c, c', i, c.servers[i], c'.servers[i]);
    }
  }

  lemma OldMessageCommits(c: Cluster, c': Cluster, args: AppendArgs)
    requires LaterAcks(c, c') && MessageCommits(c, args)
    ensures MessageCommits(c', args)
  {
    var h, h' := c.logs[args.term], c'.logs[args.term];
    assert h'[..args.leaderCommit + 1] == h[..args.leaderCommit + 1];
    CertificateStays(c, c', args.term, h, args.leaderCommit, args.term, h');
  }

  lemma NewMessageCommits(n: nat, c: Cluster, i: nat, peer: nat)
    requires Inv(n, c) && LogsInv(c) && i < n && ServerCommits(c, i, c.servers[i]) && c.servers[i].role == Leader
    requires CanSend(c.servers[i], peer)
    ensures MessageCommits(c, Heartbeat(c.servers[i], i, peer))
  {
    LeaderIsRecorded(n, c, i);
    HeartbeatFrom(c.logs, c.servers[i], i, peer);
  }

  lemma NewRequestIsSent(c: Cluster, a: Action, m: AppendRequest)
    requires Enabled(c, a) && m in Step(c, a).appendRequests && m !in c.appendRequests
    ensures a.Send? && m.args == Heartbeat(c.servers[a.server], a.server, a.peer)
  {}

  lemma StepKeepsCommits(n: nat, c: Cluster, a: Action)
    requires AllReady(n, c, a)
    ensures CommitInv(Step(c, a))
  {
    var c' := Step(c, a);
    StepIsLaterAcks(n, c, a);
    forall i: nat | i < |c'.servers| ensures ServerCommits(c', i, c'.servers[i]) {
      ServerStepCommits(n, c, a, i);
    }
    forall m | m in c'.appendRequests ensures MessageCommits(c', m.args) {
      if m !in c.appendRequests {
        NewRequestIsSent(c, a, m);
        NewMessageCommits(n, c, a.server, a.peer);
      }
      OldMessageCommits(c, c', m.args);
    }
  }

  lemma {:induction false} RunKeepsCommits(n: nat, run: seq<Action>)
    requires IsRun(n, run) && RegularRun(n, run)
    ensures InvInTerm(n, After(n, run)) && LogsInv(After(n, run)) && HoldInv(After(n, run)) && CommitInv(After(n, run))
    decreases |run|
  {
    RunKeepsHold(n, run);
    if run != [] {
      var k := |run| - 1;
      RunKeepsCommits(n, run[..k]);
      StepKeepsCommits(n, After(n, run[..k]), run[k]);
    }
  }

  // ---------- the theorems ----------

  lemma CertificatesAgree(
      c: Cluster, term: int, log: seq<LogEntry>, idx: int, term': int, log': seq<LogEntry>, idx': int, x: int)
    requires LogsInv(c) && LeadersHold(c) && Certified(c, term, log, idx) && Certified(c, term', log', idx')
    requires 1 <= x <= idx && x <= idx'
    ensures Agree(log, log', x)
  {
    var t, k :| Certifies(c, t, k, term, log, idx);
    var u, l :| Certifies(c, u, l, term', log', idx');
    AgreeShorter(log, c.logs[t], idx, x);
    AgreeShorter(log', c.logs[u], idx', x);
    ChosenIsNotLost(c, t, k);
    ChosenIsNotLost(c, u, l);
    if t <= u {
      LeaderHolds(c, u, t, k);
      AgreeShorter(c.logs[u], c.logs[t], k, x);
    } else {
      LeaderHolds(c, t, u, l);
      AgreeShorter(c.logs[t], c.logs[u], l, x);
    }
  }

  lemma CommittedAgree(n: nat, run: seq<Action>, i: nat, j: nat, x: int)
    requires IsRun(n, run) && RegularRun(n, run) && i < |After(n, run).servers| && j < |After(n, run).servers|
    requires 0 <= x <= After(n, run).servers[i].commitIndex && x <= After(n, run).servers[j].commitIndex
    ensures Agree(After(n, run).servers[i].log, After(n, run).servers[j].log, x)
  {
    RunKeepsCommits(n, run);
    ServersAgree(After(n, run), i, j, x);
  }

  lemma ServersAgree(c: Cluster, i: nat, j: nat, x: int)
    requires LogsInv(c) && LeadersHold(c) && CommitInv(c) && i < |c.servers| && j < |c.servers|
    requires 0 <= x <= c.servers[i].commitIndex && x <= c.servers[j].commitIndex
    ensures Agree(c.servers[i].log, c.servers[j].log, x)
  {
    var a, b := c.servers[i], c.servers[j];
    assert ServerCommits(c, i, a) && ServerCommits(c, j, b);
    if x == 0 {
      assert ServerLogOk(c.logs, a) && ServerLogOk(c.logs, b);
      AgreeAtZero(c.logs, a.log, b.log);
    } else {
      CertificatesAgree(c, a.term, a.log, a.commitIndex, b.term, b.log, b.commitIndex, x);
    }
  }

  lemma KeepsThrough(a: Server, b: Server, d: Server)
    requires KeepsCommitted(a, b) && KeepsCommitted(b, d)
    ensures KeepsCommitted(a, d)
  {
    AgreeShorter(d.log, b.log, b.commitIndex, a.commitIndex);
    AgreeThrough(d.log, b.log, a.log, a.commitIndex);
  }

  lemma LastStepKeeps(n: nat, run: seq<Action>, i: nat)
    requires IsRun(n, run) && RegularRun(n, run) && run != [] && i < n
    ensures |After(n, run[..|run| - 1]).servers| == |After(n, run).servers| == n
    ensures KeepsCommitted(After(n, run[..|run| - 1]).servers[i], After(n, run).servers[i])
  {
    RunKeepsCommits(n, run[..|run| - 1]);
    ServerStepCommits(n, After(n, run[..|run| - 1]), run[|run| - 1], i);
  }

  lemma KeepsItself(n: nat, c: Cluster, i: nat)
    requires Inv(n, c) && CommitInv(c) && i < n
    ensures KeepsCommitted(c.servers[i], c.servers[i])
  {
    assert ServerCommits(c, i, c.servers[i]);
  }

  /** What a server has committed at some moment of a regular run it still has, unchanged, at the end. */
  lemma {:induction false} CommittedStays(n: nat, run: seq<Action>, k: nat, i: nat)
    requires IsRun(n, run) && RegularRun(n, run) && k <= |run| && i < n
    ensures IsRun(n, run[..k]) && |After(n, run[..k]).servers| == |After(n, run).servers| == n
    ensures KeepsCommitted(After(n, run[..k]).servers[i], After(n, run).servers[i])
    decreases |run|
  {
    if k == |run| {
      assert run[..k] == run;
      RunKeepsCommits(n, run);
      KeepsItself(n, After(n, run), i);
    } else {
      var l := |run| - 1;
      CommittedStays(n, run[..l], k, i);
      assert run[..l][..k] == run[..k];
      LastStepKeeps(n, run, i);
      KeepsThrough(After(n, run[..k]).servers[i], After(n, run[..l]).servers[i], After(n, run).servers[i]);
    }
  }

  /** The entry server `i` has committed at index `x` after `k` steps of the run. */
  predicate Commits(n: nat, run: seq<Action>, k: nat, i: nat, x: int, e: LogEntry)
    requires IsRun(n, run) && k <= |run|
  {
    PrefixIsRun(n, run, k);
    var c := After(n, run[..k]);
    i < |c.servers| && 0 <= x <= c.servers[i].commitIndex && x < |c.servers[i].log| && c.servers[i].log[x] == e
  }

  lemma CommitsToTheEnd(n: nat, run: seq<Action>, k: nat, i: nat, x: int, e: LogEntry)
    requires IsRun(n, run) && RegularRun(n, run) && k <= |run| && i < n && Commits(n, run, k, i, x, e)
    ensures |After(n, run).servers| == n && x <= After(n, run).servers[i].commitIndex < |After(n, run).servers[i].log|
    ensures After(n, run).servers[i].log[x] == e
  {
    CommittedStays(n, run, k, i);
    RunKeepsCommits(n, run);
    var s, s' := After(n, run[..k]).servers[i], After(n, run).servers[i];
    assert ServerCommits(After(n, run), i, s');
    AgreeShorter(s'.log, s.log, s.commitIndex, x);
    assert s'.log[x] == s'.log[..x + 1][x] == s.log[..x + 1][x];
  }

  /** State Machine Safety: in every regular run, two entries that servers commit at the same index, at
      whatever moments, are the same. */
  lemma StateMachineSafety(n: nat, run: seq<Action>, k: nat, i: nat, l: nat, j: nat, x: int, e: LogEntry, d: LogEntry)
    requires IsRun(n, run) && RegularRun(n, run) && k <= |run| && l <= |run| && i < n && j < n
    requires Commits(n, run, k, i, x, e) && Commits(n, run, l, j, x, d)
    ensures e == d
  {
    CommitsToTheEnd(n, run, k, i, x, e);
    CommitsToTheEnd(n, run, l, j, x, d);
    CommittedAgree(n, run, i, j, x);
    var a, b := After(n, run).servers[i].log, After(n, run).servers[j].log;
    assert a[x] == a[..x + 1][x] == b[..x + 1][x] == b[x];
  }
}
