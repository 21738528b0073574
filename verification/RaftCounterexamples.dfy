/** Three runs of three servers that show why the safety theorems have their conditions.

    collectVotes looks at the state of its server but not at its term, so votes of an old round can make a
    leader of a newer term, beside the one that won it. Then an append of the other leader can cut off the
    log of a leader under its nextIndex, and its next heartbeat panics. AppendEntries puts the entries it
    received behind its log also when it has them already, so an append that is sent again before the first
    is answered shifts everything after it. */
module RaftCounterexamples {
  import opened Raft
  import opened RaftCluster
  import opened RaftLogs
  import opened RaftCommit

  const OLD_ARGS := VoteArgs(1, 0, 0, 0)
  const NEW_ARGS := VoteArgs(2, 2, 0, 0)

  function At(term: int, votedFor: int, role: Role): Server {
    Initial(3).(term := term, votedFor := votedFor, role := role)
  }

  ghost predicate ReachedInTerm(c: Cluster) {
    exists run :: IsRun(3, run) && InTerm(3, run) && After(3, run) == c
  }

  /** A set of clusters that no step with a tally in its term leaves. */
  ghost predicate Closed(p: iset<Cluster>) {
    forall c, a {:trigger Step(c, a)} :: c in p && Enabled(c, a) && TallyInTerm(c, a) ==> Step(c, a) in p
  }

  lemma Reach(p: iset<Cluster>, c: Cluster, a: Action)
    requires Closed(p) && c in p && Enabled(c, a) && TallyInTerm(c, a)
    ensures Step(c, a) in p
  {}

  lemma Extend(run: seq<Action>, a: Action) returns (run': seq<Action>)
    requires IsRun(3, run) && Enabled(After(3, run), a)
    ensures run' == run + [a] && IsRun(3, run') && After(3, run') == Step(After(3, run), a)
    ensures InTerm(3, run) && TallyInTerm(After(3, run), a) ==> InTerm(3, run')
  {
    run' := run + [a];
    assert run'[..|run|] == run;
  }

  lemma ReachedIsClosed(p: iset<Cluster>)
    requires forall c :: c in p <==> ReachedInTerm(c)
    ensures Closed(p) && Init(3) in p
  {
    assert IsRun(3, []) && InTerm(3, []) && After(3, []) == Init(3);
    forall c, a | c in p && Enabled(c, a) && TallyInTerm(c, a) ensures Step(c, a) in p {
      var run :| IsRun(3, run) && InTerm(3, run) && After(3, run) == c;
      var run' := Extend(run, a);
    }
  }

  // ---------- the kinds of steps the runs take ----------

  lemma Elects(p: iset<Cluster>, c: Cluster, i: nat, peer: nat) returns (c': Cluster)
    requires Closed(p) && c in p && |c.servers| == 3 && i < 3 && peer < 3 && peer != i && c.servers[i].log != []
    ensures c' in p && c'.servers == c.servers[i := KickOff(c.servers[i], i).0] && |c'.rounds| == |c.rounds| + 1
    ensures c'.rounds[..|c.rounds|] == c.rounds && Fresh(c'.rounds[|c.rounds|], KickOff(c.servers[i], i).1, peer)
    ensures VoteRequest(peer, KickOff(c.servers[i], i).1) in c'.voteRequests
  {
    Reach(p, c, StartElection(i));
    c' := OpenRound(c, i);
  }

  predicate Fresh(round: Round, args: VoteArgs, peer: nat) {
    && round.args == args && round.open && peer in round.waiting
    && round.channel == [] && round.taken == 0 && round.tally == 1
  }

  lemma Votes(p: iset<Cluster>, c: Cluster, m: VoteRequest) returns (c': Cluster)
    requires Closed(p) && c in p && m in c.voteRequests && m.to < |c.servers| && c.servers[m.to].log != []
    ensures c' in p && c'.rounds == c.rounds
    ensures c'.servers == c.servers[m.to := RequestVote(c.servers[m.to], m.args).0]
    ensures VoteAnswer(m.to, m.args, RequestVote(c.servers[m.to], m.args).1, c.servers[m.to].log) in c'.voteAnswers
  {
    Reach(p, c, DeliverVoteRequest(m));
    c' := AnswerVote(c, m);
  }

  lemma Takes(p: iset<Cluster>, c: Cluster, r: nat, m: VoteAnswer) returns (c': Cluster)
    requires Closed(p) && c in p && r < |c.rounds| && m in c.voteAnswers && Fresh(c.rounds[r], m.args, m.from)
    requires m.args.candidate < |c.servers| && VoteReplied(c.servers[m.args.candidate], m.args, m.reply).1
    requires m.reply.granted
    ensures c' in p && c'.servers == c.servers && |c'.rounds| == |c.rounds|
    ensures VoteWaits(c'.rounds[r], m.args) && forall q :: 0 <= q < |c.rounds| && q != r ==> c'.rounds[q] == c.rounds[q]
  {
    Reach(p, c, TakeVoteAnswer(r, m));
    c' := TakeVote(c, r, m);
    assert Pushed(c.rounds[r], m.from, true).channel == [true];
  }

  /** Server `i` stands, `peer` votes for it and the vote waits to be counted. */
  lemma Stands(p: iset<Cluster>, c: Cluster, i: nat, peer: nat) returns (c': Cluster)
    requires Closed(p) && c in p && |c.servers| == 3 && i < 3 && peer < 3 && peer != i
    requires c.servers[i].log != [] && c.servers[peer].log != []
    requires RequestVote(c.servers[peer], KickOff(c.servers[i], i).1).1.granted
    ensures var (s, args) := KickOff(c.servers[i], i);
      && c' in p && c'.servers == c.servers[i := s][peer := RequestVote(c.servers[peer], args).0]
      && |c'.rounds| == |c.rounds| + 1 && VoteWaits(c'.rounds[|c.rounds|], args)
      && forall q :: 0 <= q < |c.rounds| ==> c'.rounds[q] == c.rounds[q]
  {
    var args := KickOff(c.servers[i], i).1;
    var voter := c.servers[peer];
    c' := Elects(p, c, i, peer);
    assert forall q :: 0 <= q < |c.rounds| ==> c'.rounds[..|c.rounds|][q] == c'.rounds[q];
    c' := Votes(p, c', VoteRequest(peer, args));
    c' := Takes(p, c', |c.rounds|, VoteAnswer(peer, args, RequestVote(voter, args).1, voter.log));
  }

  /** One granted vote waits in the round's channel. */
  predicate VoteWaits(round: Round, args: VoteArgs) {
    round.args == args && round.open && round.channel == [true] && round.taken == 0 && round.tally == 1
  }

  lemma Collects(p: iset<Cluster>, c: Cluster, r: nat, args: VoteArgs) returns (c': Cluster)
    requires Closed(p) && c in p && |c.servers| == 3 && r < |c.rounds| && VoteWaits(c.rounds[r], args)
    requires args.candidate < 3 && c.servers[args.candidate].role == Candidate
    requires c.servers[args.candidate].term == args.term
    ensures c' in p && c'.servers == c.servers[args.candidate := BecomeLeader(c.servers[args.candidate], 3)]
    ensures |c'.rounds| == |c.rounds| && forall q :: 0 <= q < |c.rounds| && q != r ==> c'.rounds[q] == c.rounds[q]
  {
    Reach(p, c, Collect(r));
    c' := CollectVote(c, r);
  }

  // ---------- a stale tally ----------

  /** Server 0 stands in term 1 and server 1 votes for it. */
  lemma FirstRound(p: iset<Cluster>) returns (c: Cluster)
    requires Closed(p) && Init(3) in p
    ensures c in p && |c.rounds| == 1 && VoteWaits(c.rounds[0], OLD_ARGS)
    ensures c.servers == [At(1, 0, Candidate), At(1, 0, Follower), Initial(3)]
  {
    c := Stands(p, Init(3), 0, 1);
  }

  /** Server 0 moves on to term 2, server 2 stands twice, and server 1 votes for server 2, which wins term 2
      by the rules. */
  lemma SecondRound(p: iset<Cluster>, c0: Cluster) returns (c: Cluster)
    requires Closed(p) && c0 in p && |c0.rounds| == 1 && VoteWaits(c0.rounds[0], OLD_ARGS)
    requires c0.servers == [At(1, 0, Candidate), At(1, 0, Follower), Initial(3)]
    ensures c in p && |c.rounds| == 4 && VoteWaits(c.rounds[0], OLD_ARGS)
    ensures c.servers == [At(2, 0, Candidate), At(2, 2, Follower), BecomeLeader(At(2, 2, Candidate), 3)]
  {
    c := Elects(p, c0, 0, 1);
    assert c.rounds[0] == c.rounds[..1][0];
    var c1 := Elects(p, c, 2, 1);
    assert c1.rounds[0] == c1.rounds[..2][0];
    c := Stands(p, c1, 2, 1);
    c := Collects(p, c, 3, NEW_ARGS);
  }

  lemma StaleCollect(c: Cluster)
    requires |c.rounds| == 4 && VoteWaits(c.rounds[0], OLD_ARGS)
    requires c.servers == [At(2, 0, Candidate), At(2, 2, Follower), BecomeLeader(At(2, 2, Candidate), 3)]
    ensures Enabled(c, Collect(0))
    ensures var s := Step(c, Collect(0)).servers;
      |s| == 3 && s[0].role == s[2].role == Leader && s[0].term == s[2].term == 2
  {}

  /** Without the condition on the tallies, two servers can lead the same term at the same time: the
      vote from term 1 makes server 0 a leader of term 2. */
  lemma StaleTallyElectsTwice() returns (run: seq<Action>)
    ensures IsRun(3, run) && Leads(3, run, |run|, 0, 2) && Leads(3, run, |run|, 2, 2)
    ensures !InTerm(3, run)
  {
    var p := iset c | ReachedInTerm(c);
    ReachedIsClosed(p);
    var c := FirstRound(p);
    c := SecondRound(p, c);
    StaleCollect(c);
    var before :| IsRun(3, before) && InTerm(3, before) && After(3, before) == c;
    run := Extend(before, Collect(0));
    TwoLead(run);
  }

  lemma TwoLead(run: seq<Action>)
    requires IsRun(3, run) && |After(3, run).servers| == 3
    requires After(3, run).servers[0].role == Leader && After(3, run).servers[2].role == Leader
    requires After(3, run).servers[0].term == 2 && After(3, run).servers[2].term == 2
    ensures Leads(3, run, |run|, 0, 2) && Leads(3, run, |run|, 2, 2) && !InTerm(3, run)
  {
    assert run[..|run|] == run;
    if InTerm(3, run) { OneLeaderPerTerm(3, run, |run|, 0, |run|, 2, 2); }
  }

  // ---------- an append sent twice ----------

  const ZERO := LogEntry(0, 0)
  const SEVEN := LogEntry(7, 1)
  const EIGHT := LogEntry(8, 1)

  function LeaderWith(log: seq<LogEntry>, commitIndex: int, next: int, matched: int): Server {
    Server(1, 0, Leader, log, commitIndex, [1, next, 1], [0, matched, 0])
  }

  function FollowerWith(log: seq<LogEntry>, commitIndex: int): Server {
    At(1, 0, Follower).(log := log, commitIndex := commitIndex)
  }

  /** Server 0 leads and server 1 follows. */
  predicate Stand(c: Cluster, leader: Server, follower: Server) {
    |c.servers| == 3 && c.servers[0] == leader && c.servers[1] == follower
  }

  lemma ProposesTo(p: iset<Cluster>, c: Cluster, leader: Server, follower: Server, command: int) returns (c': Cluster)
    requires Closed(p) && c in p && Stand(c, leader, follower)
    ensures c' in p && Stand(c', Raft.Propose(leader, command), follower)
  {
    Reach(p, c, Propose(0, command));
    c' := Step(c, Propose(0, command));
  }

  lemma SendsTo(p: iset<Cluster>, c: Cluster, leader: Server, follower: Server) returns (c': Cluster)
    requires Closed(p) && c in p && Stand(c, leader, follower) && leader.role == Leader && CanSend(leader, 1)
    ensures c' in p && Stand(c', leader, follower) && AppendRequest(1, Heartbeat(leader, 0, 1)) in c'.appendRequests
    ensures c'.appendAnswers == c.appendAnswers
  {
    Reach(p, c, Send(0, 1));
    c' := Step(c, Send(0, 1));
  }

  lemma DeliversTo(
      p: iset<Cluster>, c: Cluster, leader: Server, follower: Server, args: AppendArgs)
      returns (c': Cluster)
    requires Closed(p) && c in p && Stand(c, leader, follower) && AppendRequest(1, args) in c.appendRequests
    requires args.prevLogIndex >= 0
    ensures c' in p && Stand(c', leader, AppendEntries(follower, args).0) && c'.appendRequests == c.appendRequests
    ensures c.appendAnswers <= c'.appendAnswers
    ensures AppendAnswer(1, args, AppendEntries(follower, args).1) in c'.appendAnswers
  {
    Reach(p, c, DeliverAppend(AppendRequest(1, args)));
    c' := AnswerAppend(c, AppendRequest(1, args));
  }

  lemma AnswersTo(
      p: iset<Cluster>, c: Cluster, leader: Server, follower: Server, args: AppendArgs, reply: AppendReply)
      returns (c': Cluster)
    requires Closed(p) && c in p && Stand(c, leader, follower) && AppendAnswer(1, args, reply) in c.appendAnswers
    requires args.leader == 0 && CanTake(leader, 1)
    ensures c' in p && Stand(c', AppendReplied(leader, 1, args, reply).0, follower)
  {
    Reach(p, c, TakeAppendAnswer(AppendAnswer(1, args, reply)));
    c' := Step(c, TakeAppendAnswer(AppendAnswer(1, args, reply)));
  }

  /** Server 0 is elected and proposes 7. */
  lemma ProposesSeven(p: iset<Cluster>) returns (c: Cluster)
    requires Closed(p) && Init(3) in p
    ensures c in p && Stand(c, LeaderWith([ZERO, SEVEN], 0, 1, 0), FollowerWith([ZERO], 0))
  {
    c := FirstRound(p);
    c := Collects(p, c, 0, OLD_ARGS);
    assert c.servers[0] == LeaderWith([ZERO], 0, 1, 0);
    assert c.servers[1] == FollowerWith([ZERO], 0);
    c := ProposesTo(p, c, LeaderWith([ZERO], 0, 1, 0), FollowerWith([ZERO], 0), 7);
  }

  lemma SecondSeven(args: AppendArgs)
    requires args == AppendArgs(1, 0, 0, 0, [SEVEN], 0)
    ensures AppendEntries(FollowerWith([ZERO], 0), args) == (FollowerWith([ZERO, SEVEN], 0), AppendReply(1, true, 0, 0))
    ensures AppendEntries(FollowerWith([ZERO, SEVEN], 0), args).0 == FollowerWith([ZERO, SEVEN, SEVEN], 0)
  {
    assert [ZERO] + [SEVEN] == [ZERO, SEVEN];
    assert [ZERO, SEVEN] + [SEVEN] == [ZERO, SEVEN, SEVEN];
  }

  /** The leader sends the append with 7 twice, because the first is not answered yet, and both arrive. */
  lemma SevenTwice(p: iset<Cluster>, c0: Cluster) returns (c: Cluster)
    requires Closed(p) && c0 in p && Stand(c0, LeaderWith([ZERO, SEVEN], 0, 1, 0), FollowerWith([ZERO], 0))
    ensures c in p && Stand(c, LeaderWith([ZERO, SEVEN], 0, 1, 0), FollowerWith([ZERO, SEVEN, SEVEN], 0))
    ensures AppendAnswer(1, AppendArgs(1, 0, 0, 0, [SEVEN], 0), AppendReply(1, true, 0, 0)) in c.appendAnswers
  {
    var leader, args := LeaderWith([ZERO, SEVEN], 0, 1, 0), AppendArgs(1, 0, 0, 0, [SEVEN], 0);
    SecondSeven(args);
    c := SendsTo(p, c0, leader, FollowerWith([ZERO], 0));
    assert Heartbeat(leader, 0, 1) == args;
    var c1 := DeliversTo(p, c, leader, FollowerWith([ZERO], 0), args);
    c1 := SendsTo(p, c1, leader, FollowerWith([ZERO, SEVEN], 0));
    c := DeliversTo(p, c1, leader, FollowerWith([ZERO, SEVEN], 0), args);
  }

  /** A successful answer about index `k` commits it. */
  lemma OneAnswerCommits(log: seq<LogEntry>, next: int, args: AppendArgs, k: int)
    requires k == |log| - 1 == args.prevLogIndex + |args.entries| && k >= 1 && log[k].term == 1 && args.term == 1
    ensures AppendReplied(LeaderWith(log, k - 1, next, k - 1), 1, args, AppendReply(1, true, 0, 0)).0 ==
      LeaderWith(log, k, k + 1, k)
  {
    assert [1, next, 1][1 := k + 1] == [1, k + 1, 1];
    assert [0, k - 1, 0][1 := k] == [0, k, 0];
    var s := LeaderWith(log, k - 1, k + 1, k);
    assert Holders([0, k, 0], k, 1) == 0 && Holders([0, k, 0], k, 2) == 1 && Holders([0, k, 0], k, 3) == 1;
    assert Committable(s, 3, k);
    assert CommitFrom(s, 3, k) == k;
  }

  /** 7 is committed and 8 proposed. */
  lemma ProposesEight(p: iset<Cluster>, c0: Cluster) returns (c: Cluster)
    requires Closed(p) && c0 in p
    requires Stand(c0, LeaderWith([ZERO, SEVEN], 0, 1, 0), FollowerWith([ZERO, SEVEN, SEVEN], 0))
    requires AppendAnswer(1, AppendArgs(1, 0, 0, 0, [SEVEN], 0), AppendReply(1, true, 0, 0)) in c0.appendAnswers
    ensures c in p && Stand(c, LeaderWith([ZERO, SEVEN, EIGHT], 1, 2, 1), FollowerWith([ZERO, SEVEN, SEVEN], 0))
  {
    var args, follower := AppendArgs(1, 0, 0, 0, [SEVEN], 0), FollowerWith([ZERO, SEVEN, SEVEN], 0);
    OneAnswerCommits([ZERO, SEVEN], 1, args, 1);
    c := AnswersTo(p, c0, LeaderWith([ZERO, SEVEN], 0, 1, 0), follower, args, AppendReply(1, true, 0, 0));
    c := ProposesTo(p, c, LeaderWith([ZERO, SEVEN], 1, 2, 1), follower, 8);
    assert [ZERO, SEVEN] + [EIGHT] == [ZERO, SEVEN, EIGHT];
  }

  lemma EightIsShifted(args: AppendArgs)
    requires args == AppendArgs(1, 0, 1, 1, [EIGHT], 1)
    ensures AppendEntries(FollowerWith([ZERO, SEVEN, SEVEN], 0), args)
      == (FollowerWith([ZERO, SEVEN, SEVEN, EIGHT], 1), AppendReply(1, true, 0, 0))
  {
    assert [ZERO, SEVEN, SEVEN] + [EIGHT] == [ZERO, SEVEN, SEVEN, EIGHT];
  }

  /** 8 is committed at index 2, where server 1 has 7. */
  lemma CommitsEight(p: iset<Cluster>, c0: Cluster) returns (c: Cluster)
    requires Closed(p) && c0 in p
    requires Stand(c0, LeaderWith([ZERO, SEVEN, EIGHT], 1, 2, 1), FollowerWith([ZERO, SEVEN, SEVEN], 0))
    ensures c in p && Stand(c, LeaderWith([ZERO, SEVEN, EIGHT], 2, 3, 2), FollowerWith([ZERO, SEVEN, SEVEN, EIGHT], 1))
  {
    var leader, args := LeaderWith([ZERO, SEVEN, EIGHT], 1, 2, 1), AppendArgs(1, 0, 1, 1, [EIGHT], 1);
    c := SendsTo(p, c0, leader, FollowerWith([ZERO, SEVEN, SEVEN], 0));
    assert leader.log[2..] == [EIGHT];
    EightIsShifted(args);
    c := DeliversTo(p, c, leader, FollowerWith([ZERO, SEVEN, SEVEN], 0), args);
    OneAnswerCommits(leader.log, 2, args, 2);
    c := AnswersTo(p, c, leader, FollowerWith([ZERO, SEVEN, SEVEN, EIGHT], 1), args, AppendReply(1, true, 0, 0));
  }

  /** The next heartbeat lets server 1 commit what it has at index 2. */
  lemma CommitsSevenAgain(p: iset<Cluster>, c0: Cluster) returns (c: Cluster)
    requires Closed(p) && c0 in p
    requires Stand(c0, LeaderWith([ZERO, SEVEN, EIGHT], 2, 3, 2), FollowerWith([ZERO, SEVEN, SEVEN, EIGHT], 1))
    ensures c in p && Stand(c, LeaderWith([ZERO, SEVEN, EIGHT], 2, 3, 2), FollowerWith([ZERO, SEVEN, SEVEN, EIGHT], 2))
  {
    var leader, follower := LeaderWith([ZERO, SEVEN, EIGHT], 2, 3, 2), FollowerWith([ZERO, SEVEN, SEVEN, EIGHT], 1);
    c := SendsTo(p, c0, leader, follower);
    var args := AppendArgs(1, 0, 2, 1, [], 2);
    assert Heartbeat(leader, 0, 1) == args;
    assert follower.log + [] == follower.log;
    c := DeliversTo(p, c, leader, follower, args);
  }

  /** Without the condition on repeated appends, two servers can commit different entries at the same
      index, even if every tally is in its term; and their logs do not match. */
  lemma RepeatedAppendBreaksSafety() returns (run: seq<Action>)
    ensures IsRun(3, run) && InTerm(3, run) && !RegularRun(3, run)
    ensures Commits(3, run, |run|, 0, 2, EIGHT) && Commits(3, run, |run|, 1, 2, SEVEN)
  {
    var p := iset c | ReachedInTerm(c);
    ReachedIsClosed(p);
    var c := ProposesSeven(p);
    c := SevenTwice(p, c);
    c := ProposesEight(p, c);
    c := CommitsEight(p, c);
    c := CommitsSevenAgain(p, c);
    run :| IsRun(3, run) && InTerm(3, run) && After(3, run) == c;
    TwoCommit(run);
  }

  lemma TwoCommit(run: seq<Action>)
    requires IsRun(3, run)
    requires Stand(After(3, run),
                   LeaderWith([ZERO, SEVEN, EIGHT], 2, 3, 2), FollowerWith([ZERO, SEVEN, SEVEN, EIGHT], 2))
    ensures Commits(3, run, |run|, 0, 2, EIGHT) && Commits(3, run, |run|, 1, 2, SEVEN) && !RegularRun(3, run)
  {
    assert run[..|run|] == run;
    if RegularRun(3, run) { StateMachineSafety(3, run, |run|, 0, |run|, 1, 2, EIGHT, SEVEN); }
  }

  // ---------- two leaders and an append between them ----------

  const LONG := [ZERO, SEVEN, EIGHT]
  const STALE_ARGS := VoteArgs(3, 0, 2, 1)
  const LAST_ARGS := VoteArgs(4, 2, 0, 0)
  const NINE := LogEntry(9, 4)

  /** Server 0 after it led term 1 and proposed 7 and 8. */
  function Longer(term: int, votedFor: int, role: Role): Server {
    Server(term, votedFor, role, LONG, 0, [1, 1, 1], [0, 0, 0])
  }

  lemma Proposes(p: iset<Cluster>, c: Cluster, i: nat, command: int) returns (c': Cluster)
    requires Closed(p) && c in p && i < |c.servers|
    ensures c' in p && c'.servers == c.servers[i := Raft.Propose(c.servers[i], command)] && c'.rounds == c.rounds
  {
    Reach(p, c, Propose(i, command));
    c' := Step(c, Propose(i, command));
  }

  /** Server 0 leads term 1 and proposes 7 and 8, which reach nobody. */
  lemma LeadsTermOne(p: iset<Cluster>) returns (c: Cluster)
    requires Closed(p) && Init(3) in p
    ensures c in p && |c.rounds| == 1
    ensures c.servers == [Longer(1, 0, Leader), At(1, 0, Follower), Initial(3)]
  {
    c := FirstRound(p);
    c := Collects(p, c, 0, OLD_ARGS);
    c := Proposes(p, c, 0, 7);
    c := Proposes(p, c, 0, 8);
    assert [ZERO] + [SEVEN] + [EIGHT] == LONG;
    assert c.servers[0] == Longer(1, 0, Leader);
  }

  /** Server 2 stands in term 2, server 0 refuses it and steps down, and is voted for in term 3. */
  lemma StepsDown(p: iset<Cluster>, c0: Cluster) returns (c: Cluster)
    requires Closed(p) && c0 in p && |c0.rounds| == 1
    requires c0.servers == [Longer(1, 0, Leader), At(1, 0, Follower), Initial(3)]
    ensures c in p && |c.rounds| == 4 && VoteWaits(c.rounds[3], STALE_ARGS)
    ensures c.servers == [Longer(3, 0, Candidate), At(3, 0, Follower), At(2, 2, Candidate)]
  {
    c := Elects(p, c0, 2, 0);
    var c1 := Elects(p, c, 2, 0);
    c1 := Votes(p, c1, VoteRequest(0, NEW_ARGS));
    assert c1.servers == [Longer(2, NOBODY, Follower), At(1, 0, Follower), At(2, 2, Candidate)];
    c := Stands(p, c1, 0, 1);
  }

  /** Server 0 moves on to term 4, which server 2 wins with the vote of server 1. */
  lemma WinsTermFour(p: iset<Cluster>, c0: Cluster) returns (c: Cluster)
    requires Closed(p) && c0 in p && |c0.rounds| == 4 && VoteWaits(c0.rounds[3], STALE_ARGS)
    requires c0.servers == [Longer(3, 0, Candidate), At(3, 0, Follower), At(2, 2, Candidate)]
    ensures c in p && |c.rounds| == 7 && VoteWaits(c.rounds[3], STALE_ARGS)
    ensures c.servers == [Longer(4, 0, Candidate), At(4, 2, Follower), BecomeLeader(At(4, 2, Candidate), 3)]
  {
    c := Elects(p, c0, 0, 1);
    assert c.rounds[3] == c.rounds[..4][3];
    var c1 := Elects(p, c, 2, 1);
    assert c1.rounds[3] == c1.rounds[..5][3];
    c := Stands(p, c1, 2, 1);
    c := Collects(p, c, 6, LAST_ARGS);
  }

  /** The stale vote makes server 0 a second leader of term 4. */
  lemma SecondLeader(c: Cluster) returns (c': Cluster)
    requires |c.rounds| == 7 && VoteWaits(c.rounds[3], STALE_ARGS)
    requires c.servers == [Longer(4, 0, Candidate), At(4, 2, Follower), BecomeLeader(At(4, 2, Candidate), 3)]
    ensures Enabled(c, Collect(3)) && c' == Step(c, Collect(3))
    ensures c'.servers ==
      [BecomeLeader(Longer(4, 0, Candidate), 3), At(4, 2, Follower), BecomeLeader(At(4, 2, Candidate), 3)]
  {
    c' := CollectVote(c, 3);
  }

  /** The other leader's first entry replaces the log of server 0, which goes on leading. */
  lemma LosesItsLog(s: Server, args: AppendArgs)
    requires s == BecomeLeader(Longer(4, 0, Candidate), 3) && args == AppendArgs(4, 2, 0, 0, [NINE], 0)
    ensures AppendEntries(s, args).0 == s.(log := [ZERO, NINE])
  {
    assert Kept(s.log, args) == [ZERO];
    assert [ZERO] + [NINE] == [ZERO, NINE];
  }

  /** Server 2 proposes 9 and sends it to server 0. */
  lemma SendsNine(run0: seq<Action>) returns (run: seq<Action>)
    requires IsRun(3, run0)
    requires After(3, run0).servers ==
      [BecomeLeader(Longer(4, 0, Candidate), 3), At(4, 2, Follower), BecomeLeader(At(4, 2, Candidate), 3)]
    ensures IsRun(3, run) && |After(3, run).servers| == 3
    ensures After(3, run).servers[0] == BecomeLeader(Longer(4, 0, Candidate), 3)
    ensures AppendRequest(0, AppendArgs(4, 2, 0, 0, [NINE], 0)) in After(3, run).appendRequests
  {
    run := Extend(run0, Propose(2, 9));
    var s := After(3, run).servers[2];
    assert s.log == [ZERO] + [NINE] == [ZERO, NINE];
    assert s.log[1..] == [NINE];
    assert Heartbeat(s, 2, 0) == AppendArgs(4, 2, 0, 0, [NINE], 0);
    run := Extend(run, Send(2, 0));
  }

  /** Without the condition that no term has two leaders, a leader's nextIndex can point behind its log:
      the read of log[nextIndex-1] in the next heartbeat panics. */
  lemma SecondLeaderReadsOutside() returns (run: seq<Action>)
    ensures IsRun(3, run) && |After(3, run).servers| == 3 && !LeadersAreUnique(3, run)
    ensures var s := After(3, run).servers[0]; s.role == Leader && |s.nextIndex| == 3 && s.nextIndex[1] > |s.log|
  {
    var p := iset c | ReachedInTerm(c);
    ReachedIsClosed(p);
    var c := LeadsTermOne(p);
    c := StepsDown(p, c);
    c := WinsTermFour(p, c);
    var c' := SecondLeader(c);
    run :| IsRun(3, run) && InTerm(3, run) && After(3, run) == c;
    run := Extend(run, Collect(3));
    run := SendsNine(run);
    var args := AppendArgs(4, 2, 0, 0, [NINE], 0);
    LosesItsLog(After(3, run).servers[0], args);
    run := Extend(run, DeliverAppend(AppendRequest(0, args)));
    if LeadersAreUnique(3, run) { SendingIsInBounds(3, run, 0, 1); }
  }
}
