/** What each step of a cluster does, field by field and in every run: who gets a vote, what a refusal says,
    who steps down, where a leader starts again. The rules are stated on the states before and after a
    step and on the messages, without the functions that compute the step. */
module RaftRules {
  import opened Raft
  import opened RaftCluster
  import opened RaftSafety

  predicate OthersStay(c: Cluster, c': Cluster, i: nat) {
    && |c'.servers| == |c.servers| && i < |c.servers|
    && forall j :: 0 <= j < |c.servers| && j != i ==> c'.servers[j] == c.servers[j]
  }

  predicate SameIndices(s: Server, s': Server) {
    s'.nextIndex == s.nextIndex && s'.matchIndex == s.matchIndex
  }

  predicate SameLog(s: Server, s': Server) {
    s'.log == s.log && s'.commitIndex == s.commitIndex && SameIndices(s, s')
  }

  predicate SameStanding(s: Server, s': Server) {
    s'.term == s.term && s'.votedFor == s.votedFor && s'.role == s.role
  }

  /** The server is a follower of the newer term and has voted for nobody in it. */
  predicate StepsDown(s': Server, term: int) {
    s'.role == Follower && s'.term == term && s'.votedFor == NOBODY
  }

  predicate SameVoteMessages(c: Cluster, c': Cluster) {
    c'.voteRequests == c.voteRequests && c'.voteAnswers == c.voteAnswers
  }

  predicate SameAppendMessages(c: Cluster, c': Cluster) {
    c'.appendRequests == c.appendRequests && c'.appendAnswers == c.appendAnswers
  }

  // ---------- the beginning ----------

  /** A new server follows nobody in term 0 and holds only the placeholder. */
  lemma BeginsAsFollower(n: nat, i: nat)
    requires i < n
    ensures var s := After(n, []).servers[i];
      && s.role == Follower && s.term == 0 && s.votedFor == NOBODY && s.commitIndex == 0
      && |s.log| == 1 && s.log[0].term == 0 && |s.nextIndex| == |s.matchIndex| == n
      && forall j :: 0 <= j < n ==> s.nextIndex[j] == s.matchIndex[j] == 0
  {}

  // ---------- standing for election ----------

  /** The request of a candidate that has `s` as its state before standing. */
  predicate Announces(s: Server, i: nat, args: VoteArgs) {
    && args.term == s.term + 1 && args.candidate == i
    && args.lastLogIndex == |s.log| - 1 && s.log != [] && args.lastLogTerm == s.log[|s.log| - 1].term
  }

  ghost predicate StandRule(c: Cluster, c': Cluster, i: nat) {
    && OthersStay(c, c', i) && SameLog(c.servers[i], c'.servers[i]) && SameAppendMessages(c, c')
    && c'.servers[i].term == c.servers[i].term + 1
    && c'.servers[i].role == Candidate && c'.servers[i].votedFor == i
    && c'.voteAnswers == c.voteAnswers
    && (forall m {:trigger m in c'.voteRequests} :: m in c'.voteRequests <==>
        m in c.voteRequests || (m.to < |c.servers| && m.to != i && Announces(c.servers[i], i, m.args)))
    && |c'.rounds| == |c.rounds| + 1 && c'.rounds[..|c.rounds|] == c.rounds
    && NewRound(|c.servers|, c.servers[i], i, c'.rounds[|c.rounds|])
  }

  /** The candidate has counted its own vote and waits for every other peer. */
  ghost predicate NewRound(n: nat, s: Server, i: nat, round: Round) {
    && Announces(s, i, round.args) && round.tally == 1 && round.channel == [] && round.taken == 0 && round.open
    && forall v: nat {:trigger v in round.waiting} :: v in round.waiting <==> v < n && v != i
  }

  /** In every run, any server may stand: in the next term, for itself, asking every other peer once with the
      end of its log. */
  lemma CandidatesStand(n: nat, run: seq<Action>, i: nat)
    requires IsRun(n, run) && i < n
    ensures Enabled(After(n, run), StartElection(i))
    ensures StandRule(After(n, run), Step(After(n, run), StartElection(i)), i)
  {
    RunKeepsInv(n, run);
    var c := After(n, run);
    assert ServerOk(n, i, c.servers[i]);
    StandsByTheRule(c, i);
  }

  lemma StandsByTheRule(c: Cluster, i: nat)
    requires i < |c.servers| && c.servers[i].log != []
    ensures StandRule(c, OpenRound(c, i), i)
  {
    var c' := OpenRound(c, i);
    var args := c'.rounds[|c.rounds|].args;
    forall m ensures m in c'.voteRequests <==>
      m in c.voteRequests || (m.to < |c.servers| && m.to != i && Announces(c.servers[i], i, m.args))
    {
      assert Announces(c.servers[i], i, m.args) <==> m.args == args;
      assert m in Requests(|c.servers|, args) <==> m.to in Servers(|c.servers|) && m.to != i && m.args == args;
    }
  }

  // ---------- voting ----------

  /** The voter may vote: the request is not old, the vote of its term is free or this candidate's, and the
      candidate's log is at least as up-to-date: its last entry has a later term, or the same term and no
      smaller index. */
  predicate MayVote(s: Server, args: VoteArgs)
    requires s.log != []
  {
    && args.term >= s.term
    && (args.term > s.term || s.votedFor == NOBODY || s.votedFor == args.candidate)
    && AtLeast(args, s.log)
  }

  predicate VoterRule(s: Server, s': Server, args: VoteArgs)
    requires s.log != []
  {
    && SameLog(s, s')
    && (MayVote(s, args) ==> s'.term == args.term && s'.votedFor == args.candidate && s'.role == Follower)
    && (!MayVote(s, args) && args.term > s.term ==> StepsDown(s', args.term))
    && (!MayVote(s, args) && args.term <= s.term ==> SameStanding(s, s'))
  }

  predicate VoteRule(c: Cluster, c': Cluster, m: VoteRequest) {
    && OthersStay(c, c', m.to) && c.servers[m.to].log != []
    && VoterRule(c.servers[m.to], c'.servers[m.to], m.args)
    && c'.rounds == c.rounds && c'.voteRequests == c.voteRequests && SameAppendMessages(c, c')
    && c'.voteAnswers == c.voteAnswers +
        {VoteAnswer(m.to, m.args, VoteReply(c'.servers[m.to].term, MayVote(c.servers[m.to], m.args)),
                    c.servers[m.to].log)}
  }

  /** In every run, a vote is granted if and only if the voter may vote, and the answer carries the term the
      voter has then. */
  lemma VotesAreGrantedExactly(n: nat, run: seq<Action>, m: VoteRequest)
    requires IsRun(n, run) && m in After(n, run).voteRequests
    ensures Enabled(After(n, run), DeliverVoteRequest(m))
    ensures VoteRule(After(n, run), Step(After(n, run), DeliverVoteRequest(m)), m)
  {
    RunKeepsInv(n, run);
    var c := After(n, run);
    assert VoteRequestOk(n, m);
    assert ServerOk(n, m.to, c.servers[m.to]);
    VoteIsAnswered(c, m);
  }

  lemma VotesByTheRule(s: Server, args: VoteArgs)
    requires s.log != []
    ensures var (s', reply) := RequestVote(s, args);
      VoterRule(s, s', args) && reply == VoteReply(s'.term, MayVote(s, args))
  {}

  lemma VoteIsAnswered(c: Cluster, m: VoteRequest)
    requires m.to < |c.servers| && c.servers[m.to].log != []
    ensures VoteRule(c, AnswerVote(c, m), m)
  {
    VotesByTheRule(c.servers[m.to], m.args);
    assert AnswerVote(c, m).servers[m.to] == RequestVote(c.servers[m.to], m.args).0;
  }

  // ---------- counting votes ----------

  predicate StillStands(s: Server, args: VoteArgs) {
    s.role == Candidate && s.term == args.term
  }

  predicate VoteAnswerRule(c: Cluster, c': Cluster, r: nat, m: VoteAnswer) {
    && r < |c.rounds| == |c'.rounds| && OthersStay(c, c', m.args.candidate)
    && SameVoteMessages(c, c') && SameAppendMessages(c, c')
    && (forall q :: 0 <= q < |c.rounds| && q != r ==> c'.rounds[q] == c.rounds[q])
    && var s, s', round, round' := c.servers[m.args.candidate], c'.servers[m.args.candidate], c.rounds[r], c'.rounds[r];
      && SameLog(s, s')
      && (StillStands(s, m.args) && m.reply.term > s.term ==> StepsDown(s', m.reply.term))
      && (!(StillStands(s, m.args) && m.reply.term > s.term) ==> s' == s)
      && round'.waiting == round.waiting - {m.from} && round'.args == round.args
      && round'.taken == round.taken && round'.tally == round.tally && round'.open == round.open
      && round'.channel == round.channel +
          if StillStands(s, m.args) && m.reply.term <= s.term then [m.reply.granted] else []
  }

  /** In every run, the answer to a vote request makes its candidate step down if and only if the candidate
      still stands in the request's term and the answer is from a newer one; otherwise it changes no server,
      and the vote is put to the count if and only if the candidate still stands. */
  lemma VoteAnswersAreTaken(n: nat, run: seq<Action>, r: nat, m: VoteAnswer)
    requires IsRun(n, run) && Enabled(After(n, run), TakeVoteAnswer(r, m))
    ensures VoteAnswerRule(After(n, run), Step(After(n, run), TakeVoteAnswer(r, m)), r, m)
  {
    var c := After(n, run);
    assert c.rounds[r].channel + [] == c.rounds[r].channel;
  }

  /** A leader expects every peer to need the entry after its last, and knows of none that it holds any. */
  predicate StartsToLead(n: nat, s: Server, s': Server) {
    && s'.role == Leader && s'.term == s.term && s'.votedFor == s.votedFor
    && s'.log == s.log && s'.commitIndex == s.commitIndex && |s'.nextIndex| == |s'.matchIndex| == n
    && forall j :: 0 <= j < n ==> s'.nextIndex[j] == |s.log| && s'.matchIndex[j] == 0
  }

  predicate CollectRule(c: Cluster, c': Cluster, r: nat) {
    && r < |c.rounds| == |c'.rounds| && c.rounds[r].taken < |c.rounds[r].channel|
    && SameVoteMessages(c, c') && SameAppendMessages(c, c')
    && (forall q :: 0 <= q < |c.rounds| && q != r ==> c'.rounds[q] == c.rounds[q])
    && var round, round' := c.rounds[r], c'.rounds[r];
      && OthersStay(c, c', round.args.candidate)
      && var s, s' := c.servers[round.args.candidate], c'.servers[round.args.candidate];
        && round'.taken == round.taken + 1
        && round'.tally == round.tally + (if round.channel[round.taken] then 1 else 0)
        && round'.args == round.args && round'.waiting == round.waiting && round'.channel == round.channel
        && (s.role == Candidate && 2 * round'.tally > |c.servers| ==> StartsToLead(|c.servers|, s, s'))
        && (s.role != Candidate || 2 * round'.tally <= |c.servers| ==> s' == s)
        && (round'.open <==> s.role == Candidate && 2 * round'.tally <= |c.servers|)
  }

  /** In every run, counting a vote makes a leader if and only if the server is a candidate, of whatever term,
      and more than half of the servers are counted; the count ends then, or when the server is no candidate. */
  lemma VotesAreCounted(n: nat, run: seq<Action>, r: nat)
    requires IsRun(n, run) && Enabled(After(n, run), Collect(r))
    ensures CollectRule(After(n, run), Step(After(n, run), Collect(r)), r)
  {
    RunKeepsInv(n, run);
    var c := After(n, run);
    assert RoundOk(c.servers, c.cast, c.rounds[r]);
    VoteIsCounted(c, r);
  }

  lemma VoteIsCounted(c: Cluster, r: nat)
    requires r < |c.rounds| && c.rounds[r].open && c.rounds[r].taken < |c.rounds[r].channel|
    requires c.rounds[r].args.candidate < |c.servers|
    ensures CollectRule(c, CollectVote(c, r), r)
  {
    HalfOf(|c.servers|, Counted(c.rounds[r]).tally);
    var i := c.rounds[r].args.candidate;
    assert StartsToLead(|c.servers|, c.servers[i], BecomeLeader(c.servers[i], |c.servers|));
  }

  lemma HalfOf(n: nat, k: nat)
    ensures k > n / 2 <==> 2 * k > n
  {}

  // ---------- replication ----------

  predicate ProposeRule(c: Cluster, c': Cluster, i: nat, command: int) {
    && OthersStay(c, c', i) && c'.rounds == c.rounds && SameVoteMessages(c, c') && SameAppendMessages(c, c')
    && var s, s' := c.servers[i], c'.servers[i];
      && SameStanding(s, s') && SameIndices(s, s') && s'.commitIndex == s.commitIndex
      && (s.role == Leader ==>
          |s'.log| == |s.log| + 1 && s.log <= s'.log && s'.log[|s.log|] == LogEntry(command, s.term))
      && (s.role != Leader ==> s'.log == s.log)
  }

  /** In every run, only a leader takes a command, in its term behind its log. */
  lemma LeadersTakeCommands(n: nat, run: seq<Action>, i: nat, command: int)
    requires IsRun(n, run) && i < n
    ensures Enabled(After(n, run), Propose(i, command))
    ensures ProposeRule(After(n, run), Step(After(n, run), Propose(i, command)), i, command)
  {
    RunKeepsInv(n, run);
  }

  predicate SendRule(c: Cluster, c': Cluster, i: nat, peer: nat, m: AppendRequest) {
    && c'.servers == c.servers && i < |c.servers| && c.servers[i].role == Leader
    && c'.appendRequests == c.appendRequests + {m}
    && c'.rounds == c.rounds && SameVoteMessages(c, c') && c'.appendAnswers == c.appendAnswers
    && var s := c.servers[i];
      && peer < |s.nextIndex| && 1 <= s.nextIndex[peer] <= |s.log|
      && m.to == peer && m.args.leader == i && m.args.term == s.term && m.args.leaderCommit == s.commitIndex
      && m.args.prevLogIndex == s.nextIndex[peer] - 1
      && m.args.prevLogTerm == s.log[s.nextIndex[peer] - 1].term
      && m.args.entries == s.log[s.nextIndex[peer]..]
  }

  /** In every run, a heartbeat carries everything the leader has from the peer's nextIndex on. */
  lemma HeartbeatsCarryTheRest(n: nat, run: seq<Action>, i: nat, peer: nat) returns (m: AppendRequest)
    requires IsRun(n, run) && Enabled(After(n, run), Send(i, peer))
    ensures SendRule(After(n, run), Step(After(n, run), Send(i, peer)), i, peer, m)
  {
    var s := After(n, run).servers[i];
    m := AppendRequest(peer, Heartbeat(s, i, peer));
    assert |s.log| - 1 < s.nextIndex[peer] ==> s.log[s.nextIndex[peer]..] == [];
  }

  /** The refusal says how far the log is from matching at `p`: its length if it ends before, else the term
      of the entry there and the first index of the stretch of entries of that term. */
  predicate Refuses(log: seq<LogEntry>, p: int, reply: AppendReply)
    requires p >= 0
  {
    && !reply.success
    && (p >= |log| ==> reply.conflictIndex == |log| && reply.conflictTerm == -1)
    && (p < |log| ==>
        && reply.conflictTerm == log[p].term && 0 <= reply.conflictIndex <= p
        && (forall k :: reply.conflictIndex <= k <= p ==> log[k].term == reply.conflictTerm)
        && (reply.conflictIndex > 0 ==> log[reply.conflictIndex - 1].term != reply.conflictTerm))
  }

  lemma {:induction false} ConflictIsFirst(log: seq<LogEntry>, i: int, term: int)
    requires 0 <= i < |log| && log[i].term == term
    ensures var r := ConflictIndex(log, i, term);
      && 0 <= r <= i && (forall k :: r <= k <= i ==> log[k].term == term)
      && (r > 0 ==> log[r - 1].term != term)
    decreases i
  {
    if i > 0 && log[i - 1].term == term { ConflictIsFirst(log, i - 1, term); }
  }

  /** The log is cut before the first new entry if it has an entry of another term there. */
  predicate Conflicts(log: seq<LogEntry>, args: AppendArgs)
    requires args.prevLogIndex >= 0
  {
    args.entries != [] && args.prevLogIndex + 1 < |log| && log[args.prevLogIndex + 1].term != args.entries[0].term
  }

  predicate AcceptRule(s: Server, s': Server, args: AppendArgs, reply: AppendReply)
    requires args.prevLogIndex >= 0
  {
    && reply.success && SameIndices(s, s')
    && s'.log == (if Conflicts(s.log, args) then s.log[..args.prevLogIndex + 1] else s.log) + args.entries
    && (args.leaderCommit <= s.commitIndex ==> s'.commitIndex == s.commitIndex)
    && (args.leaderCommit > s.commitIndex ==>
        && s'.commitIndex <= args.leaderCommit && s'.commitIndex <= |s'.log| - 1
        && (s'.commitIndex == args.leaderCommit || s'.commitIndex == |s'.log| - 1))
  }

  predicate MatchesAt(log: seq<LogEntry>, args: AppendArgs)
    requires args.prevLogIndex >= 0
  {
    args.prevLogIndex < |log| && log[args.prevLogIndex].term == args.prevLogTerm
  }

  predicate FollowerRule(s: Server, s': Server, args: AppendArgs, reply: AppendReply)
    requires args.prevLogIndex >= 0
  {
    && reply.term == s'.term
    && (args.term < s.term ==> s' == s && !reply.success && reply.conflictIndex == reply.conflictTerm == 0)
    && (args.term == s.term ==> SameStanding(s, s'))
    && (args.term > s.term ==> StepsDown(s', args.term))
    && (args.term >= s.term && !MatchesAt(s.log, args) ==> SameLog(s, s') && Refuses(s.log, args.prevLogIndex, reply))
    && (args.term >= s.term && MatchesAt(s.log, args) ==> AcceptRule(s, s', args, reply))
  }

  predicate AppendRule(c: Cluster, c': Cluster, m: AppendRequest, reply: AppendReply) {
    && m.args.prevLogIndex >= 0 && OthersStay(c, c', m.to)
    && FollowerRule(c.servers[m.to], c'.servers[m.to], m.args, reply)
    && c'.rounds == c.rounds && SameVoteMessages(c, c') && c'.appendRequests == c.appendRequests
    && c'.appendAnswers == c.appendAnswers + {AppendAnswer(m.to, m.args, reply)}
  }

  lemma FollowsTheRule(s: Server, args: AppendArgs)
    requires args.prevLogIndex >= 0
    ensures FollowerRule(s, AppendEntries(s, args).0, args, AppendEntries(s, args).1)
  {
    if args.prevLogIndex < |s.log| {
      ConflictIsFirst(s.log, args.prevLogIndex, s.log[args.prevLogIndex].term);
    }
  }

  /** In every run, an append is refused if and only if it is of an older term or the log does not match at
      the previous index, and the refusal says where the leader can look next; else the entries are behind
      the log, cut if the first of them conflicts, and the commit index follows the leader's. */
  lemma AppendsAreAnswered(n: nat, run: seq<Action>, m: AppendRequest) returns (reply: AppendReply)
    requires IsRun(n, run) && m in After(n, run).appendRequests
    ensures Enabled(After(n, run), DeliverAppend(m))
    ensures AppendRule(After(n, run), Step(After(n, run), DeliverAppend(m)), m, reply)
  {
    RunKeepsInv(n, run);
    var c := After(n, run);
    assert AppendRequestOk(c.servers, c.elected, m);
    reply := AppendEntries(c.servers[m.to], m.args).1;
    FollowsTheRule(c.servers[m.to], m.args);
  }

  // ---------- the leader's side ----------

  /** Where the leader starts again: behind its own last entry of the conflicting term if it has one, else
      where the follower says. */
  predicate StartsAgain(log: seq<LogEntry>, reply: AppendReply, next: int) {
    if reply.conflictTerm != 0 && HasTerm(log, reply.conflictTerm) then
      && 1 <= next <= |log| && log[next - 1].term == reply.conflictTerm
      && forall k :: next <= k < |log| ==> log[k].term != reply.conflictTerm
    else
      next == reply.conflictIndex
  }

  predicate HasTerm(log: seq<LogEntry>, term: int) {
    exists k :: 0 <= k < |log| && log[k].term == term
  }

  lemma {:induction false} LastOfTermIsLast(log: seq<LogEntry>, i: int, term: int)
    requires -1 <= i < |log|
    ensures var r := LastOfTerm(log, i, term);
      && r <= i && (r == -1 ==> forall k :: 0 <= k <= i ==> log[k].term != term)
      && (r != -1 ==> forall k :: r < k <= i ==> log[k].term != term)
    decreases i + 1
  {
    if i >= 0 && log[i].term != term { LastOfTermIsLast(log, i - 1, term); }
  }

  predicate LeaderRule(s: Server, s': Server, m: AppendAnswer)
    requires m.from < |s.nextIndex| == |s.matchIndex|
  {
    var mine, known := m.args.term == s.term, m.args.prevLogIndex + |m.args.entries|;
    && (!mine ==> s' == s)
    && (mine && m.reply.success ==>
        && SameStanding(s, s') && s'.matchIndex == s.matchIndex[m.from := known]
        && s'.nextIndex == s.nextIndex[m.from := known + 1])
    && (mine && !m.reply.success && m.reply.term > s.term ==> StepsDown(s', m.reply.term) && SameLog(s, s'))
    && (mine && !m.reply.success && m.reply.term <= s.term ==>
        && |s'.nextIndex| == |s.nextIndex| && s'.nextIndex == s.nextIndex[m.from := s'.nextIndex[m.from]]
        && s' == s.(nextIndex := s'.nextIndex) && StartsAgain(s.log, m.reply, s'.nextIndex[m.from]))
  }

  ghost predicate AppendAnswerRule(c: Cluster, c': Cluster, m: AppendAnswer) {
    && OthersStay(c, c', m.args.leader)
    && m.from < |c.servers[m.args.leader].nextIndex| == |c.servers[m.args.leader].matchIndex|
    && c'.rounds == c.rounds && SameVoteMessages(c, c') && SameAppendMessages(c, c')
    && LeaderRule(c.servers[m.args.leader], c'.servers[m.args.leader], m)
    && (m.args.term == c.servers[m.args.leader].term && m.reply.success ==> CommitsAnswered(c, c', m))
  }

  lemma BacksUpByTheRule(s: Server, peer: nat, reply: AppendReply)
    requires peer < |s.nextIndex|
    ensures var s' := BackUp(s, peer, reply);
      && |s'.nextIndex| == |s.nextIndex| && s'.nextIndex == s.nextIndex[peer := s'.nextIndex[peer]]
      && s' == s.(nextIndex := s'.nextIndex) && StartsAgain(s.log, reply, s'.nextIndex[peer])
  {
    LastOfTermIsLast(s.log, |s.log| - 1, reply.conflictTerm);
  }

  /** In every run, an answer is ignored if and only if its append is not of the leader's term. A success is
      noted and commits what a majority holds; a refusal from a newer term makes the leader a follower of
      that term without a vote, its log and commit index as before; any other refusal changes only where it
      starts again for this peer. */
  lemma AppendAnswersAreTaken(n: nat, run: seq<Action>, m: AppendAnswer)
    requires IsRun(n, run) && m in After(n, run).appendAnswers
    ensures Enabled(After(n, run), TakeAppendAnswer(m))
    ensures AppendAnswerRule(After(n, run), Step(After(n, run), TakeAppendAnswer(m)), m)
  {
    RunKeepsInv(n, run);
    var c := After(n, run);
    HandlersNeverPanic(n, run, 0, VoteRequest(0, VoteArgs(0, 0, 0, 0)), AppendRequest(m.from, m.args), m);
    LockIsReleased(n, run, m);
    AnswerIsTaken(n, c, m);
  }

  lemma LeadsByTheRule(s: Server, m: AppendAnswer)
    requires m.from < |s.nextIndex| == |s.matchIndex| && s.commitIndex >= 0
    requires AppendReplied(s, m.from, m.args, m.reply).1
    ensures LeaderRule(s, AppendReplied(s, m.from, m.args, m.reply).0, m)
  {
    BacksUpByTheRule(s, m.from, m.reply);
  }

  lemma AnswerIsTaken(n: nat, c: Cluster, m: AppendAnswer)
    requires Inv(n, c) && Enabled(c, TakeAppendAnswer(m))
    requires AppendReplied(c.servers[m.args.leader], m.from, m.args, m.reply).1
    ensures AppendAnswerRule(c, Step(c, TakeAppendAnswer(m)), m)
  {
    LeadsByTheRule(c.servers[m.args.leader], m);
    if m.args.term == c.servers[m.args.leader].term && m.reply.success { AnswerCommitsLargest(n, c, m); }
  }
}
