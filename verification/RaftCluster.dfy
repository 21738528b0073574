/** A cluster of Raft servers as a state machine. Every lock-held section of raft.go is one step.
    Messages stay in the sets they were put in, so a step may take them late, in any order, again, or
    never. There are no restarts. */
module RaftCluster {
  import opened Raft
  import opened Linearizability

  datatype VoteRequest = VoteRequest(to: nat, args: VoteArgs)
  /** `log` is history: the voter's log when it answered. */
  datatype VoteAnswer = VoteAnswer(from: nat, args: VoteArgs, reply: VoteReply, log: seq<LogEntry>)
  datatype AppendRequest = AppendRequest(to: nat, args: AppendArgs)
  datatype AppendAnswer = AppendAnswer(from: nat, args: AppendArgs, reply: AppendReply)

  /** One call of KickOffElection: its vote goroutines and its collectVotes loop. */
  datatype Round = Round(
    args: VoteArgs,
    waiting: set<nat>,    // the peers whose goroutines still run
    channel: seq<bool>,   // everything ever put into voteCh
    taken: nat,           // how much of it collectVotes took out
    tally: nat,           // votesReceived
    open: bool,           // collectVotes has not returned
    granted: set<nat>)    // history: the peers whose granted votes went into the channel

  datatype Ballot = Ballot(voter: nat, term: int)
  datatype Reign = Reign(term: int, leader: nat)

  datatype Cluster = Cluster(
    servers: seq<Server>,
    voteRequests: set<VoteRequest>,
    voteAnswers: set<VoteAnswer>,
    rounds: seq<Round>,
    appendRequests: set<AppendRequest>,
    appendAnswers: set<AppendAnswer>,
    cast: map<Ballot, int>,   // history: every vote a server ever held
    elected: set<Reign>,      // history: every leader there ever was
    logs: map<int, seq<LogEntry>>)  // history: the last log of each term's leader

  datatype Action =
    | StartElection(server: nat)
    | DeliverVoteRequest(voteRequest: VoteRequest)
    | TakeVoteAnswer(round: nat, voteAnswer: VoteAnswer)
    | Collect(round: nat)
    | Propose(server: nat, command: int)
    | Send(server: nat, peer: nat)
    | DeliverAppend(appendRequest: AppendRequest)
    | TakeAppendAnswer(appendAnswer: AppendAnswer)

  function Servers(n: nat): (r: set<nat>)
    ensures |r| == n && forall i: nat :: i in r <==> i < n
  {
    if n == 0 then {} else Servers(n - 1) + {n - 1}
  }

  function Init(n: nat): Cluster {
    Cluster(seq(n, _ => Initial(n)), {}, {}, [], {}, {}, map[], {}, map[])
  }

  /** Install the new state of server `i`, and keep the history up to date. */
  function Put(c: Cluster, i: nat, s: Server): Cluster
    requires i < |c.servers|
  {
    c.(servers := c.servers[i := s],
       cast := if s.votedFor == NOBODY then c.cast else c.cast[Ballot(i, s.term) := s.votedFor],
       elected := if s.role == Leader then c.elected + {Reign(s.term, i)} else c.elected,
       logs := if s.role == Leader then c.logs[s.term := s.log] else c.logs)
  }

  // ---------- steps ----------

  predicate Enabled(c: Cluster, a: Action) {
    var n := |c.servers|;
    match a
    case StartElection(i) => i < n && c.servers[i].log != []
    case DeliverVoteRequest(m) => m in c.voteRequests && m.to < n && c.servers[m.to].log != []
    case TakeVoteAnswer(r, m) =>
      && r < |c.rounds| && m in c.voteAnswers
      && m.args == c.rounds[r].args && m.from in c.rounds[r].waiting && m.args.candidate < n
    case Collect(r) =>
      && r < |c.rounds| && c.rounds[r].open && c.rounds[r].args.candidate < n
      && c.rounds[r].taken < |c.rounds[r].channel| && c.rounds[r].taken < n - 1
    case Propose(i, _) => i < n
    case Send(i, peer) => i < n && peer < n && peer != i && c.servers[i].role == Leader && CanSend(c.servers[i], peer)
    case DeliverAppend(m) => m in c.appendRequests && m.to < n && m.args.prevLogIndex >= 0
    case TakeAppendAnswer(m) =>
      m in c.appendAnswers && m.args.leader < n && CanTake(c.servers[m.args.leader], m.from)
  }

  predicate CanTake(s: Server, peer: nat) {
    peer < |s.nextIndex| == |s.matchIndex| && s.commitIndex >= 0
  }

  function Requests(n: nat, args: VoteArgs): set<VoteRequest> {
    set to <- Servers(n) | to != args.candidate :: VoteRequest(to, args)
  }

  function OpenRound(c: Cluster, i: nat): Cluster
    requires i < |c.servers| && c.servers[i].log != []
  {
    var (s, args) := KickOff(c.servers[i], i);
    var n := |c.servers|;
    Put(c, i, s).(
      rounds := c.rounds + [Round(args, Servers(n) - {i}, [], 0, 1, true, {})],
      voteRequests := c.voteRequests + Requests(n, args))
  }

  function AnswerVote(c: Cluster, m: VoteRequest): Cluster
    requires m.to < |c.servers| && c.servers[m.to].log != []
  {
    var (s, reply) := RequestVote(c.servers[m.to], m.args);
    Put(c, m.to, s).(voteAnswers := c.voteAnswers + {VoteAnswer(m.to, m.args, reply, s.log)})
  }

  function Pushed(round: Round, from: nat, vote: bool): Round {
    round.(waiting := round.waiting - {from}, channel := round.channel + [vote],
           granted := if vote then round.granted + {from} else round.granted)
  }

  function TakeVote(c: Cluster, r: nat, m: VoteAnswer): Cluster
    requires r < |c.rounds| && m.args.candidate < |c.servers|
  {
    var round := c.rounds[r];
    var (s, push) := VoteReplied(c.servers[m.args.candidate], m.args, m.reply);
    Put(c, m.args.candidate, s).(
      rounds := c.rounds[r := if push then Pushed(round, m.from, m.reply.granted)
                              else round.(waiting := round.waiting - {m.from})])
  }

  /** The loop body of collectVotes up to the lock: take one vote out of the channel. */
  function Counted(round: Round): Round
    requires round.taken < |round.channel|
  {
    round.(taken := round.taken + 1, tally := if round.channel[round.taken] then round.tally + 1 else round.tally)
  }

  predicate Won(n: nat, round: Round) {
    round.tally > n / 2
  }

  /** This step of collectVotes makes its server leader. */
  predicate Elects(c: Cluster, r: nat)
    requires r < |c.rounds| && c.rounds[r].taken < |c.rounds[r].channel| && c.rounds[r].args.candidate < |c.servers|
  {
    c.servers[c.rounds[r].args.candidate].role == Candidate && Won(|c.servers|, Counted(c.rounds[r]))
  }

  function CollectVote(c: Cluster, r: nat): Cluster
    requires r < |c.rounds| && c.rounds[r].taken < |c.rounds[r].channel| && c.rounds[r].args.candidate < |c.servers|
  {
    var round := Counted(c.rounds[r]);
    var i := round.args.candidate;
    if c.servers[i].role != Candidate then c.(rounds := c.rounds[r := round.(open := false)])
    else if Elects(c, r) then
      Put(c, i, BecomeLeader(c.servers[i], |c.servers|)).(rounds := c.rounds[r := round.(open := false)])
    else c.(rounds := c.rounds[r := round])
  }

  function AnswerAppend(c: Cluster, m: AppendRequest): Cluster
    requires m.to < |c.servers| && m.args.prevLogIndex >= 0
  {
    var (s, reply) := AppendEntries(c.servers[m.to], m.args);
    Put(c, m.to, s).(appendAnswers := c.appendAnswers + {AppendAnswer(m.to, m.args, reply)})
  }

  function Step(c: Cluster, a: Action): Cluster
    requires Enabled(c, a)
  {
    match a
    case StartElection(i) => OpenRound(c, i)
    case DeliverVoteRequest(m) => AnswerVote(c, m)
    case TakeVoteAnswer(r, m) => TakeVote(c, r, m)
    case Collect(r) => CollectVote(c, r)
    case Propose(i, command) => Put(c, i, Raft.Propose(c.servers[i], command))
    case Send(i, peer) =>
      c.(appendRequests := c.appendRequests + {AppendRequest(peer, Heartbeat(c.servers[i], i, peer))})
    case DeliverAppend(m) => AnswerAppend(c, m)
    case TakeAppendAnswer(m) =>
      Put(c, m.args.leader, AppendReplied(c.servers[m.args.leader], m.from, m.args, m.reply).0)
  }

  // ---------- runs ----------

  predicate IsRun(n: nat, run: seq<Action>)
    decreases |run|, 0
  {
    run != [] ==>
      && IsRun(n, run[..|run| - 1])
      && Enabled(After(n, run[..|run| - 1]), run[|run| - 1])
  }

  function After(n: nat, run: seq<Action>): Cluster
    requires IsRun(n, run)
    decreases |run|, 1
  {
    if run == [] then Init(n) else Step(After(n, run[..|run| - 1]), run[|run| - 1])
  }

  /** Later in the run comes a later term, or the same term with the same vote and, if there was
      one, the same leadership. */
  predicate Advances(s: Server, s': Server) {
    && s.term <= s'.term
    && (s.term == s'.term && s.votedFor != NOBODY ==> s'.votedFor == s.votedFor)
    && (s.term == s'.term && s.role == Leader ==> s'.role == Leader)
  }

  // ---------- the invariant of every run ----------

  /** Entry 0 is the placeholder of term 0; every other entry is from a real term. */
  predicate LogOk(log: seq<LogEntry>) {
    log != [] && log[0].term == 0 && RealTerms(log[1..])
  }

  predicate RealTerms(entries: seq<LogEntry>) {
    forall k :: 0 <= k < |entries| ==> entries[k].term >= 1
  }

  predicate ServerOk(n: nat, i: nat, s: Server) {
    && LogOk(s.log)
    && i < n == |s.nextIndex| == |s.matchIndex|
    && s.matchIndex[i] == 0
    && s.commitIndex >= 0
    && s.term >= 0
    && s.votedFor >= NOBODY
    && (s.role != Follower ==> s.votedFor == i && s.term >= 1)
  }

  predicate ServersOk(c: Cluster) {
    forall i: nat {:trigger c.servers[i]} :: i < |c.servers| ==> ServerOk(|c.servers|, i, c.servers[i])
  }

  predicate Voted(cast: map<Ballot, int>, voter: nat, term: int, candidate: int) {
    Ballot(voter, term) in cast && cast[Ballot(voter, term)] == candidate
  }

  predicate BallotOk(s: Server, term: int, candidate: int) {
    term <= s.term && candidate != NOBODY && (term == s.term ==> s.votedFor == candidate)
  }

  predicate ReignOk(s: Server, term: int) {
    term <= s.term && (term == s.term ==> s.role == Leader)
  }

  predicate Recorded(cast: map<Ballot, int>, elected: set<Reign>, i: nat, s: Server) {
    && (s.votedFor != NOBODY ==> Voted(cast, i, s.term, s.votedFor))
    && (s.role == Leader ==> Reign(s.term, i) in elected)
  }

  predicate RecordsOk(c: Cluster) {
    forall i: nat {:trigger c.servers[i]} :: i < |c.servers| ==> Recorded(c.cast, c.elected, i, c.servers[i])
  }

  predicate BallotsOk(c: Cluster) {
    forall b {:trigger b in c.cast} ::
      b in c.cast ==> b.voter < |c.servers| && BallotOk(c.servers[b.voter], b.term, c.cast[b])
  }

  predicate ReignsOk(c: Cluster) {
    forall r {:trigger r in c.elected} ::
      r in c.elected ==> r.leader < |c.servers| && ReignOk(c.servers[r.leader], r.term)
  }

  /** The history agrees with what the servers hold now. */
  predicate HistoryOk(c: Cluster) {
    RecordsOk(c) && BallotsOk(c) && ReignsOk(c)
  }

  predicate VoteRequestOk(n: nat, m: VoteRequest) {
    m.to < n && m.args.candidate < n && m.to != m.args.candidate
  }

  predicate VoteAnswerOk(n: nat, cast: map<Ballot, int>, m: VoteAnswer) {
    && m.from < n && m.args.candidate < n && m.from != m.args.candidate
    && (m.reply.granted ==> Voted(cast, m.from, m.args.term, m.args.candidate))
  }

  predicate VotesOk(c: Cluster) {
    && (forall m {:trigger m in c.voteRequests} :: m in c.voteRequests ==> VoteRequestOk(|c.servers|, m))
    && (forall m {:trigger m in c.voteAnswers} :: m in c.voteAnswers ==> VoteAnswerOk(|c.servers|, c.cast, m))
  }

  function Yeses(votes: seq<bool>): nat {
    if votes == [] then 0 else Yeses(votes[..|votes| - 1]) + if votes[|votes| - 1] then 1 else 0
  }

  predicate GrantedOk(n: nat, cast: map<Ballot, int>, round: Round) {
    forall v {:trigger v in round.granted} :: v in round.granted ==>
      v < n && v != round.args.candidate && v !in round.waiting && Voted(cast, v, round.args.term, round.args.candidate)
  }

  predicate RoundOk(servers: seq<Server>, cast: map<Ballot, int>, round: Round) {
    && round.args.candidate < |servers|
    && round.args.term <= servers[round.args.candidate].term
    && Voted(cast, round.args.candidate, round.args.term, round.args.candidate)
    && GrantedOk(|servers|, cast, round)
    && round.taken <= |round.channel|
    && round.tally == 1 + Yeses(round.channel[..round.taken])
    && Yeses(round.channel) == |round.granted|
  }

  predicate SameRound(a: Round, b: Round) {
    a.args.candidate == b.args.candidate && a.args.term == b.args.term
  }

  /** A server opens at most one round per term. */
  predicate RoundsOk(c: Cluster) {
    && (forall r {:trigger c.rounds[r]} :: 0 <= r < |c.rounds| ==> RoundOk(c.servers, c.cast, c.rounds[r]))
    && (forall r, q {:trigger SameRound(c.rounds[r], c.rounds[q])} ::
        0 <= r < q < |c.rounds| ==> !SameRound(c.rounds[r], c.rounds[q]))
  }

  predicate AppendRequestOk(servers: seq<Server>, elected: set<Reign>, m: AppendRequest) {
    && m.to < |servers| && m.args.leader < |servers| && m.to != m.args.leader
    && Reign(m.args.term, m.args.leader) in elected
    && m.args.prevLogIndex >= 0 && (m.args.prevLogIndex == 0 ==> m.args.prevLogTerm == 0)
    && RealTerms(m.args.entries)
  }

  /** A refused append was refused for its term or carries a usable conflict index. */
  predicate AppendAnswerOk(requests: set<AppendRequest>, m: AppendAnswer) {
    && AppendRequest(m.from, m.args) in requests
    && m.reply.term >= m.args.term
    && (!m.reply.success && m.reply.term == m.args.term ==> 1 <= m.reply.conflictIndex <= m.args.prevLogIndex)
  }

  predicate AppendsOk(c: Cluster) {
    && (forall m {:trigger m in c.appendRequests} :: m in c.appendRequests ==> AppendRequestOk(c.servers, c.elected, m))
    && (forall m {:trigger m in c.appendAnswers} :: m in c.appendAnswers ==> AppendAnswerOk(c.appendRequests, m))
  }

  predicate Inv(n: nat, c: Cluster) {
    |c.servers| == n && ServersOk(c) && HistoryOk(c) && VotesOk(c) && RoundsOk(c) && AppendsOk(c)
  }

  // ---------- what each handler keeps of its own server ----------

  lemma KickOffOk(n: nat, i: nat, s: Server)
    requires ServerOk(n, i, s)
    ensures ServerOk(n, i, KickOff(s, i).0) && Advances(s, KickOff(s, i).0)
  {}

  lemma RequestVoteOk(n: nat, i: nat, s: Server, args: VoteArgs)
    requires ServerOk(n, i, s) && args.candidate != i
    ensures ServerOk(n, i, RequestVote(s, args).0) && Advances(s, RequestVote(s, args).0)
  {}

  lemma VoteRepliedOk(n: nat, i: nat, s: Server, args: VoteArgs, reply: VoteReply)
    requires ServerOk(n, i, s)
    ensures ServerOk(n, i, VoteReplied(s, args, reply).0) && Advances(s, VoteReplied(s, args, reply).0)
  {}

  lemma BecomeLeaderOk(n: nat, i: nat, s: Server)
    requires ServerOk(n, i, s) && s.role == Candidate
    ensures ServerOk(n, i, BecomeLeader(s, n)) && Advances(s, BecomeLeader(s, n))
  {}

  lemma ProposeOk(n: nat, i: nat, s: Server, command: int)
    requires ServerOk(n, i, s)
    ensures ServerOk(n, i, Raft.Propose(s, command)) && Advances(s, Raft.Propose(s, command))
  {}

  lemma AppendedOk(s: Server, args: AppendArgs)
    requires LogOk(s.log) && 0 <= args.prevLogIndex < |s.log| && RealTerms(args.entries)
    ensures LogOk(Appended(s, args).log)
  {
    var kept := Kept(s.log, args);
    var log := kept + args.entries;
    assert log[1..] == kept[1..] + args.entries;
    forall k | 0 <= k < |kept[1..]| ensures kept[1..][k].term >= 1 {
      assert kept[1..][k] == s.log[1..][k];
    }
  }

  lemma AppendEntriesOk(n: nat, i: nat, s: Server, args: AppendArgs)
    requires ServerOk(n, i, s) && args.prevLogIndex >= 0 && RealTerms(args.entries)
    ensures ServerOk(n, i, AppendEntries(s, args).0) && Advances(s, AppendEntries(s, args).0)
  {
    if args.prevLogIndex < |s.log| { AppendedOk(s, args); }
  }

  lemma {:induction false} ConflictIndexFound(log: seq<LogEntry>, i: int, term: int)
    requires 0 <= i < |log| && log[0].term != term
    ensures 1 <= ConflictIndex(log, i, term)
    decreases i
  {
    if log[i].term == term { ConflictIndexFound(log, i - 1, term); }
  }

  /** Every refusal for a log mismatch points between 1 and the index that did not match. */
  lemma RejectionInRange(s: Server, args: AppendArgs)
    requires LogOk(s.log) && args.prevLogIndex >= 0 && (args.prevLogIndex == 0 ==> args.prevLogTerm == 0)
    requires !Matches(s, args)
    ensures 1 <= Rejection(s, args).conflictIndex <= args.prevLogIndex
  {
    if args.prevLogIndex < |s.log| {
      var term := s.log[args.prevLogIndex].term;
      assert s.log[1..][args.prevLogIndex - 1].term >= 1;
      ConflictIndexFound(s.log, args.prevLogIndex, term);
      assert ConflictIndex(s.log, args.prevLogIndex, term) == ConflictIndex(s.log, args.prevLogIndex - 1, term);
    }
  }

  lemma CommitFromAtLeast(s: Server, peers: nat, n: int)
    requires n < |s.log| && |s.matchIndex| == peers && s.commitIndex >= 0
    ensures CommitFrom(s, peers, n) >= s.commitIndex
  {}

  lemma AppendRepliedOk(n: nat, i: nat, s: Server, peer: nat, args: AppendArgs, reply: AppendReply)
    requires ServerOk(n, i, s) && peer < n && peer != i
    ensures var s' := AppendReplied(s, peer, args, reply).0; ServerOk(n, i, s') && Advances(s, s')
  {
    var m := args.prevLogIndex + |args.entries|;
    var s1 := s.(matchIndex := s.matchIndex[peer := m], nextIndex := s.nextIndex[peer := m + 1]);
    CommitFromAtLeast(s1, |s1.matchIndex|, |s1.log| - 1);
  }

  // ---------- putting a server back ----------

  predicate Extends(cast: map<Ballot, int>, cast': map<Ballot, int>) {
    forall b {:trigger b in cast} {:trigger b in cast'} :: b in cast ==> b in cast' && cast'[b] == cast[b]
  }

  lemma PutKeepsServers(c: Cluster, i: nat, s: Server)
    requires ServersOk(c) && i < |c.servers| && ServerOk(|c.servers|, i, s)
    ensures ServersOk(Put(c, i, s))
  {}

  lemma PutKeepsBallots(c: Cluster, i: nat, s: Server)
    requires BallotsOk(c) && i < |c.servers| && Advances(c.servers[i], s)
    ensures BallotsOk(Put(c, i, s)) && Extends(c.cast, Put(c, i, s).cast)
  {}

  lemma PutKeepsReigns(c: Cluster, i: nat, s: Server)
    requires ReignsOk(c) && i < |c.servers| && Advances(c.servers[i], s)
    ensures ReignsOk(Put(c, i, s))
  {}

  lemma PutKeepsRecords(c: Cluster, i: nat, s: Server)
    requires RecordsOk(c) && i < |c.servers| && Extends(c.cast, Put(c, i, s).cast)
    ensures RecordsOk(Put(c, i, s))
  {
    var c' := Put(c, i, s);
    forall j: nat | j < |c.servers| ensures Recorded(c'.cast, c'.elected, j, c'.servers[j]) {
      assert Recorded(c.cast, c.elected, j, c.servers[j]);
    }
  }

  lemma PutKeepsRest(c: Cluster, i: nat, s: Server)
    requires VotesOk(c) && RoundsOk(c) && AppendsOk(c) && i < |c.servers| && Advances(c.servers[i], s)
    requires Extends(c.cast, Put(c, i, s).cast)
    ensures VotesOk(Put(c, i, s)) && RoundsOk(Put(c, i, s)) && AppendsOk(Put(c, i, s))
  {}

  lemma PutKeepsInv(n: nat, c: Cluster, i: nat, s: Server)
    requires Inv(n, c) && i < n && ServerOk(n, i, s) && Advances(c.servers[i], s)
    ensures Inv(n, Put(c, i, s)) && Extends(c.cast, Put(c, i, s).cast)
  {
    PutKeepsServers(c, i, s);
    PutKeepsBallots(c, i, s);
    PutKeepsReigns(c, i, s);
    PutKeepsRecords(c, i, s);
    PutKeepsRest(c, i, s);
  }

  // ---------- every step keeps the invariant ----------

  lemma OpenRoundKeepsInv(n: nat, c: Cluster, i: nat)
    requires Inv(n, c) && i < n
    ensures Inv(n, OpenRound(c, i))
  {
    var (s, args) := KickOff(c.servers[i], i);
    KickOffOk(n, i, c.servers[i]);
    PutKeepsInv(n, c, i, s);
    var round := OpenRound(c, i).rounds[|c.rounds|];
    forall r | 0 <= r < |c.rounds| ensures !SameRound(c.rounds[r], round) {
      assert RoundOk(c.servers, c.cast, c.rounds[r]);
    }
    AddRound(Put(c, i, s), round);
  }

  lemma AddRound(c: Cluster, round: Round)
    requires RoundsOk(c) && RoundOk(c.servers, c.cast, round)
    requires forall r {:trigger c.rounds[r]} :: 0 <= r < |c.rounds| ==> !SameRound(c.rounds[r], round)
    ensures RoundsOk(c.(rounds := c.rounds + [round]))
  {
    var rounds := c.rounds + [round];
    forall r, q | 0 <= r < q < |rounds| ensures !SameRound(rounds[r], rounds[q]) {
      if q < |c.rounds| { assert !SameRound(c.rounds[r], c.rounds[q]); }
    }
  }

  lemma AnswerVoteKeepsInv(n: nat, c: Cluster, m: VoteRequest)
    requires Inv(n, c) && m in c.voteRequests
    ensures Inv(n, AnswerVote(c, m))
  {
    var (s, reply) := RequestVote(c.servers[m.to], m.args);
    RequestVoteOk(n, m.to, c.servers[m.to], m.args);
    PutKeepsInv(n, c, m.to, s);
    assert reply.granted ==> s.term == m.args.term && s.votedFor == m.args.candidate;
    AddVoteAnswer(n, Put(c, m.to, s), VoteAnswer(m.to, m.args, reply, s.log));
  }

  lemma AddVoteAnswer(n: nat, c: Cluster, m: VoteAnswer)
    requires Inv(n, c) && VoteAnswerOk(n, c.cast, m)
    ensures Inv(n, c.(voteAnswers := c.voteAnswers + {m}))
  {}

  lemma PushedOk(servers: seq<Server>, cast: map<Ballot, int>, round: Round, m: VoteAnswer)
    requires RoundOk(servers, cast, round) && VoteAnswerOk(|servers|, cast, m) && m.args == round.args
    requires m.from in round.waiting
    ensures RoundOk(servers, cast, Pushed(round, m.from, m.reply.granted))
  {
    var round' := Pushed(round, m.from, m.reply.granted);
    assert round'.channel[..|round.channel|] == round.channel;
    assert round'.channel[..round.taken] == round.channel[..round.taken];
    assert m.from !in round.granted;
  }

  lemma TakeVoteKeepsInv(n: nat, c: Cluster, r: nat, m: VoteAnswer)
    requires Inv(n, c) && Enabled(c, TakeVoteAnswer(r, m))
    ensures Inv(n, TakeVote(c, r, m))
  {
    var i := m.args.candidate;
    var (s, push) := VoteReplied(c.servers[i], m.args, m.reply);
    VoteRepliedOk(n, i, c.servers[i], m.args, m.reply);
    PutKeepsInv(n, c, i, s);
    var p := Put(c, i, s);
    if push { PushedOk(p.servers, p.cast, c.rounds[r], m); }
    ReplaceRound(p, r, TakeVote(c, r, m).rounds[r]);
  }

  lemma ReplaceRound(c: Cluster, r: nat, round: Round)
    requires RoundsOk(c) && r < |c.rounds| && round.args == c.rounds[r].args && RoundOk(c.servers, c.cast, round)
    ensures RoundsOk(c.(rounds := c.rounds[r := round]))
  {
    var c' := c.(rounds := c.rounds[r := round]);
    forall q, u | 0 <= q < u < |c'.rounds| ensures !SameRound(c'.rounds[q], c'.rounds[u]) {
      assert !SameRound(c.rounds[q], c.rounds[u]);
    }
  }

  lemma CountedOk(servers: seq<Server>, cast: map<Ballot, int>, round: Round)
    requires RoundOk(servers, cast, round) && round.taken < |round.channel|
    ensures RoundOk(servers, cast, Counted(round))
  {
    var upTo := round.channel[..round.taken + 1];
    assert upTo[..round.taken] == round.channel[..round.taken];
  }

  lemma CollectKeepsInv(n: nat, c: Cluster, r: nat)
    requires Inv(n, c) && Enabled(c, Collect(r))
    ensures Inv(n, CollectVote(c, r))
  {
    var round := Counted(c.rounds[r]);
    var i := round.args.candidate;
    CountedOk(c.servers, c.cast, c.rounds[r]);
    if Elects(c, r) {
      var s := BecomeLeader(c.servers[i], n);
      BecomeLeaderOk(n, i, c.servers[i]);
      PutKeepsInv(n, c, i, s);
      var p := Put(c, i, s);
      CountedOk(p.servers, p.cast, p.rounds[r]);
      ReplaceRound(p, r, round.(open := false));
    } else {
      ReplaceRound(c, r, CollectVote(c, r).rounds[r]);
    }
  }

  lemma SendKeepsInv(n: nat, c: Cluster, i: nat, peer: nat)
    requires Inv(n, c) && Enabled(c, Send(i, peer))
    ensures Inv(n, Step(c, Send(i, peer)))
  {
    var s := c.servers[i];
    var m := AppendRequest(peer, Heartbeat(s, i, peer));
    var next := s.nextIndex[peer];
    forall k | 0 <= k < |m.args.entries| ensures m.args.entries[k].term >= 1 {
      assert m.args.entries[k] == s.log[1..][next - 1 + k];
    }
    assert AppendRequestOk(c.servers, c.elected, m);
  }

  /** An answer is never from before the append's term, and refuses for its own term only with a
      usable conflict index. */
  lemma AnswersAreInRange(s: Server, args: AppendArgs)
    requires LogOk(s.log) && args.prevLogIndex >= 0 && (args.prevLogIndex == 0 ==> args.prevLogTerm == 0)
    ensures var reply := AppendEntries(s, args).1;
      && reply.term >= args.term
      && (!reply.success && reply.term == args.term ==> 1 <= reply.conflictIndex <= args.prevLogIndex)
  {
    var s1 := if args.term > s.term then s.(term := args.term, votedFor := NOBODY, role := Follower) else s;
    if !Matches(s1, args) { RejectionInRange(s1, args); }
  }

  lemma AnswerAppendKeepsInv(n: nat, c: Cluster, m: AppendRequest)
    requires Inv(n, c) && m in c.appendRequests
    ensures Inv(n, AnswerAppend(c, m))
  {
    assert AppendRequestOk(c.servers, c.elected, m);
    var (s, reply) := AppendEntries(c.servers[m.to], m.args);
    AppendEntriesOk(n, m.to, c.servers[m.to], m.args);
    AnswersAreInRange(c.servers[m.to], m.args);
    PutKeepsInv(n, c, m.to, s);
    AddAppendAnswer(n, Put(c, m.to, s), AppendAnswer(m.to, m.args, reply));
  }

  lemma AddAppendAnswer(n: nat, c: Cluster, m: AppendAnswer)
    requires Inv(n, c) && AppendAnswerOk(c.appendRequests, m)
    ensures Inv(n, c.(appendAnswers := c.appendAnswers + {m}))
  {}

  lemma StepKeepsInv(n: nat, c: Cluster, a: Action)
    requires Inv(n, c) && Enabled(c, a)
    ensures Inv(n, Step(c, a))
  {
    match a {
      case StartElection(i) => OpenRoundKeepsInv(n, c, i);
      case DeliverVoteRequest(m) => AnswerVoteKeepsInv(n, c, m);
      case TakeVoteAnswer(r, m) => TakeVoteKeepsInv(n, c, r, m);
      case Collect(r) => CollectKeepsInv(n, c, r);
      case Propose(i, command) =>
        ProposeOk(n, i, c.servers[i], command);
        PutKeepsInv(n, c, i, Raft.Propose(c.servers[i], command));
      case Send(i, peer) => SendKeepsInv(n, c, i, peer);
      case DeliverAppend(m) => AnswerAppendKeepsInv(n, c, m);
      case TakeAppendAnswer(m) =>
        assert AppendRequestOk(c.servers, c.elected, AppendRequest(m.from, m.args));
        AppendRepliedOk(n, m.args.leader, c.servers[m.args.leader], m.from, m.args, m.reply);
        PutKeepsInv(n, c, m.args.leader, AppendReplied(c.servers[m.args.leader], m.from, m.args, m.reply).0);
    }
  }

  lemma {:induction false} RunKeepsInv(n: nat, run: seq<Action>)
    requires IsRun(n, run)
    ensures Inv(n, After(n, run))
    decreases |run|
  {
    if run != [] {
      var k := |run| - 1;
      RunKeepsInv(n, run[..k]);
      StepKeepsInv(n, After(n, run[..k]), run[k]);
    }
  }

  // ---------- elections ----------

  lemma {:induction false} YesesGrow(votes: seq<bool>, k: nat)
    requires k <= |votes|
    ensures Yeses(votes[..k]) <= Yeses(votes)
    decreases |votes|
  {
    if k < |votes| {
      var front := votes[..|votes| - 1];
      YesesGrow(front, k);
      assert front[..k] == votes[..k];
    } else {
      assert votes[..k] == votes;
    }
  }

  /** The candidate and the peers that granted it their vote. */
  function Supporters(round: Round): set<nat> {
    {round.args.candidate} + round.granted
  }

  lemma WinnersHaveAMajority(servers: seq<Server>, cast: map<Ballot, int>, round: Round)
    requires RoundOk(servers, cast, round) && Won(|servers|, round)
    ensures Supporters(round) <= Servers(|servers|) && |Supporters(round)| > |servers| / 2
  {
    YesesGrow(round.channel, round.taken);
    assert round.args.candidate !in round.granted;
  }

  lemma MajoritiesMeet(n: nat, a: set<nat>, b: set<nat>) returns (v: nat)
    requires a <= Servers(n) && b <= Servers(n) && |a| > n / 2 && |b| > n / 2
    ensures v in a && v in b
  {
    SubsetNoLarger(a + b, Servers(n));
    assert |a + b| + |a * b| == |a| + |b|;
    v :| v in a * b;
  }

  /** No two rounds opened in the same term gather a winning tally, in any run. */
  lemma WinnersAreUnique(n: nat, run: seq<Action>, r: nat, q: nat)
    requires IsRun(n, run) && r < |After(n, run).rounds| && q < |After(n, run).rounds|
    requires Won(n, After(n, run).rounds[r]) && Won(n, After(n, run).rounds[q])
    requires After(n, run).rounds[r].args.term == After(n, run).rounds[q].args.term
    ensures r == q
  {
    RunKeepsInv(n, run);
    WonRoundsAreUnique(n, After(n, run), r, q);
  }

  lemma WonRoundsAreUnique(n: nat, c: Cluster, r: nat, q: nat)
    requires Inv(n, c) && r < |c.rounds| && q < |c.rounds|
    requires Won(n, c.rounds[r]) && Won(n, c.rounds[q]) && c.rounds[r].args.term == c.rounds[q].args.term
    ensures r == q
  {
    WinnersHaveAMajority(c.servers, c.cast, c.rounds[r]);
    WinnersHaveAMajority(c.servers, c.cast, c.rounds[q]);
    var v := MajoritiesMeet(n, Supporters(c.rounds[r]), Supporters(c.rounds[q]));
    assert Voted(c.cast, v, c.rounds[r].args.term, c.rounds[r].args.candidate);
    assert Voted(c.cast, v, c.rounds[q].args.term, c.rounds[q].args.candidate);
    assert SameRound(c.rounds[r], c.rounds[q]) && SameRound(c.rounds[q], c.rounds[r]);
  }

  // ---------- terms and votes only move forward ----------

  lemma OpenRoundAdvances(n: nat, c: Cluster, j: nat, i: nat)
    requires Inv(n, c) && i < n && j < n
    ensures Advances(c.servers[i], OpenRound(c, j).servers[i])
  {
    KickOffOk(n, j, c.servers[j]);
  }

  lemma AnswerVoteAdvances(n: nat, c: Cluster, m: VoteRequest, i: nat)
    requires Inv(n, c) && m in c.voteRequests && i < n
    ensures Advances(c.servers[i], AnswerVote(c, m).servers[i])
  {
    assert VoteRequestOk(n, m);
    RequestVoteOk(n, m.to, c.servers[m.to], m.args);
  }

  lemma AnswerAppendAdvances(n: nat, c: Cluster, m: AppendRequest, i: nat)
    requires Inv(n, c) && m in c.appendRequests && i < n
    ensures Advances(c.servers[i], AnswerAppend(c, m).servers[i])
  {
    assert AppendRequestOk(c.servers, c.elected, m);
    AppendEntriesOk(n, m.to, c.servers[m.to], m.args);
  }

  lemma TakeAnswerAdvances(n: nat, c: Cluster, m: AppendAnswer, i: nat)
    requires Inv(n, c) && Enabled(c, TakeAppendAnswer(m)) && i < n
    ensures Advances(c.servers[i], Step(c, TakeAppendAnswer(m)).servers[i])
  {
    assert AppendAnswerOk(c.appendRequests, m);
    assert AppendRequestOk(c.servers, c.elected, AppendRequest(m.from, m.args));
    AppendRepliedOk(n, m.args.leader, c.servers[m.args.leader], m.from, m.args, m.reply);
  }

  lemma TakeVoteAdvances(n: nat, c: Cluster, r: nat, m: VoteAnswer, i: nat)
    requires Inv(n, c) && Enabled(c, TakeVoteAnswer(r, m)) && i < n
    ensures Advances(c.servers[i], TakeVote(c, r, m).servers[i])
  {
    VoteRepliedOk(n, m.args.candidate, c.servers[m.args.candidate], m.args, m.reply);
  }

  lemma StepAdvances(n: nat, c: Cluster, a: Action, i: nat)
    requires Inv(n, c) && Enabled(c, a) && i < n
    ensures |Step(c, a).servers| == n && Advances(c.servers[i], Step(c, a).servers[i])
  {
    match a {
      case StartElection(j) => OpenRoundAdvances(n, c, j, i);
      case DeliverVoteRequest(m) => AnswerVoteAdvances(n, c, m, i);
      case TakeVoteAnswer(r, m) => TakeVoteAdvances(n, c, r, m, i);
      case Collect(r) =>
      case Propose(j, command) => ProposeOk(n, j, c.servers[j], command);
      case Send(_, _) =>
      case DeliverAppend(m) => AnswerAppendAdvances(n, c, m, i);
      case TakeAppendAnswer(m) => TakeAnswerAdvances(n, c, m, i);
    }
  }

  lemma {:induction false} PrefixIsRun(n: nat, run: seq<Action>, k: nat)
    requires IsRun(n, run) && k <= |run|
    ensures IsRun(n, run[..k])
    decreases |run|
  {
    var l := |run| - 1;
    if k == |run| {
      assert run[..k] == run;
    } else {
      PrefixIsRun(n, run[..l], k);
      assert run[..l][..k] == run[..k];
    }
  }

  /** In every run a server's term never decreases, and while it stays in a term its vote goes from
      nobody to one candidate and stays there, and a leader stays leader. */
  lemma {:induction false} TermsAndVotesAdvance(n: nat, run: seq<Action>, k: nat, i: nat)
    requires IsRun(n, run) && k <= |run| && i < n
    ensures IsRun(n, run[..k]) && |After(n, run[..k]).servers| == |After(n, run).servers| == n
    ensures Advances(After(n, run[..k]).servers[i], After(n, run).servers[i])
    decreases |run|
  {
    PrefixIsRun(n, run, k);
    RunKeepsInv(n, run);
    var l := |run| - 1;
    if k == |run| {
      assert run[..k] == run;
    } else {
      TermsAndVotesAdvance(n, run[..l], k, i);
      assert run[..l][..k] == run[..k];
      RunKeepsInv(n, run[..l]);
      StepAdvances(n, After(n, run[..l]), run[l], i);
    }
  }

  // ---------- one leader per term ----------

  /** Whenever a tally makes a server leader, the server is still in the term the votes were for. */
  predicate InTerm(n: nat, run: seq<Action>)
    requires IsRun(n, run)
    decreases |run|
  {
    run != [] ==> InTerm(n, run[..|run| - 1]) && TallyInTerm(After(n, run[..|run| - 1]), run[|run| - 1])
  }

  predicate TallyInTerm(c: Cluster, a: Action)
    requires Enabled(c, a)
  {
    a.Collect? && Elects(c, a.round) ==>
      c.rounds[a.round].args.term == c.servers[c.rounds[a.round].args.candidate].term
  }

  predicate WonBy(n: nat, round: Round, reign: Reign) {
    round.args.term == reign.term && round.args.candidate == reign.leader && Won(n, round)
  }

  ghost predicate Crowned(n: nat, rounds: seq<Round>, reign: Reign) {
    exists r {:trigger rounds[r]} :: 0 <= r < |rounds| && WonBy(n, rounds[r], reign)
  }

  /** Every leader there ever was had won the round of its term. */
  ghost predicate ElectedOk(c: Cluster) {
    forall reign {:trigger reign in c.elected} :: reign in c.elected ==> Crowned(|c.servers|, c.rounds, reign)
  }

  /** The server bounds its reads of the log by these. */
  predicate BoundsOk(s: Server) {
    && (forall j {:trigger s.nextIndex[j]} :: 0 <= j < |s.nextIndex| ==> 1 <= s.nextIndex[j] <= |s.log|)
    && (forall j {:trigger s.matchIndex[j]} :: 0 <= j < |s.matchIndex| ==> 0 <= s.matchIndex[j] < |s.log|)
  }

  predicate SentOk(s: Server, args: AppendArgs) {
    args.term == s.term ==> args.prevLogIndex + |args.entries| < |s.log|
  }

  predicate LeadersOk(c: Cluster) {
    && (forall i: nat {:trigger c.servers[i]} ::
        i < |c.servers| && c.servers[i].role == Leader ==> BoundsOk(c.servers[i]))
    && (forall m {:trigger m in c.appendRequests} :: m in c.appendRequests ==>
        m.args.leader < |c.servers| && SentOk(c.servers[m.args.leader], m.args))
  }

  ghost predicate InvInTerm(n: nat, c: Cluster) {
    Inv(n, c) && ElectedOk(c) && LeadersOk(c)
  }

  lemma ReignsAreUnique(n: nat, c: Cluster, a: Reign, b: Reign)
    requires Inv(n, c) && ElectedOk(c) && a in c.elected && b in c.elected && a.term == b.term
    ensures a == b
  {
    var r: nat :| r < |c.rounds| && WonBy(n, c.rounds[r], a);
    var q: nat :| q < |c.rounds| && WonBy(n, c.rounds[q], b);
    WonRoundsAreUnique(n, c, r, q);
  }

  /** No two servers ever led the same term. */
  ghost predicate UniqueReigns(c: Cluster) {
    forall a, b {:trigger a in c.elected, b in c.elected} ::
      a in c.elected && b in c.elected && a.term == b.term ==> a == b
  }

  lemma CrownedAreUnique(n: nat, c: Cluster)
    requires Inv(n, c) && ElectedOk(c)
    ensures UniqueReigns(c)
  {
    forall a, b | a in c.elected && b in c.elected && a.term == b.term ensures a == b {
      ReignsAreUnique(n, c, a, b);
    }
  }

  // ---------- who is elected ----------

  /** A server enters the history of leaders only by an election. */
  lemma OnlyElectionsCrown(n: nat, c: Cluster, a: Action)
    requires Inv(n, c) && Enabled(c, a)
    ensures Step(c, a).elected == c.elected || CrownsNow(c, a, Step(c, a).elected)
  {
    match a {
      case StartElection(_) =>
      case DeliverVoteRequest(m) => AnswerVoteCrownsNobody(n, c, m);
      case TakeVoteAnswer(r, m) => TakeVoteCrownsNobody(n, c, r, m);
      case Collect(_) =>
      case Propose(i, command) => NoNewReign(n, c, i, Raft.Propose(c.servers[i], command));
      case Send(_, _) =>
      case DeliverAppend(m) => AnswerAppendCrownsNobody(n, c, m);
      case TakeAppendAnswer(m) => TakeAnswerCrownsNobody(n, c, m);
    }
  }

  lemma AnswerVoteCrownsNobody(n: nat, c: Cluster, m: VoteRequest)
    requires Inv(n, c) && Enabled(c, DeliverVoteRequest(m))
    ensures AnswerVote(c, m).elected == c.elected
  {
    NoNewReign(n, c, m.to, RequestVote(c.servers[m.to], m.args).0);
  }

  lemma TakeVoteCrownsNobody(n: nat, c: Cluster, r: nat, m: VoteAnswer)
    requires Inv(n, c) && Enabled(c, TakeVoteAnswer(r, m))
    ensures TakeVote(c, r, m).elected == c.elected
  {
    NoNewReign(n, c, m.args.candidate, VoteReplied(c.servers[m.args.candidate], m.args, m.reply).0);
  }

  lemma AnswerAppendCrownsNobody(n: nat, c: Cluster, m: AppendRequest)
    requires Inv(n, c) && Enabled(c, DeliverAppend(m))
    ensures AnswerAppend(c, m).elected == c.elected
  {
    NoNewReign(n, c, m.to, AppendEntries(c.servers[m.to], m.args).0);
  }

  lemma TakeAnswerCrownsNobody(n: nat, c: Cluster, m: AppendAnswer)
    requires Inv(n, c) && Enabled(c, TakeAppendAnswer(m))
    ensures Step(c, TakeAppendAnswer(m)).elected == c.elected
  {
    NoNewReign(n, c, m.args.leader, AppendReplied(c.servers[m.args.leader], m.from, m.args, m.reply).0);
  }

  predicate CrownsNow(c: Cluster, a: Action, elected: set<Reign>)
    requires Enabled(c, a)
  {
    && a.Collect? && Elects(c, a.round)
    && var i := c.rounds[a.round].args.candidate; elected == c.elected + {Reign(c.servers[i].term, i)}
  }

  lemma NoNewReign(n: nat, c: Cluster, i: nat, s: Server)
    requires Inv(n, c) && i < n && (s.role == Leader ==> c.servers[i].role == Leader && c.servers[i].term == s.term)
    ensures Put(c, i, s).elected == c.elected
  {
    assert Recorded(c.cast, c.elected, i, c.servers[i]);
  }

  /** Where the tallies of the next state come from. */
  lemma TalliesMove(c: Cluster, a: Action, r: nat)
    requires Enabled(c, a) && r < |Step(c, a).rounds|
    ensures var round' := Step(c, a).rounds[r];
      if r >= |c.rounds| then round'.tally == 1
      else if a.Collect? && a.round == r then
        round'.args == c.rounds[r].args && round'.tally == Counted(c.rounds[r]).tally
      else round'.args == c.rounds[r].args && round'.tally == c.rounds[r].tally
  {}

  lemma CrownStays(n: nat, c: Cluster, a: Action, reign: Reign)
    requires Enabled(c, a) && Crowned(n, c.rounds, reign) && |c.rounds| <= |Step(c, a).rounds|
    ensures Crowned(n, Step(c, a).rounds, reign)
  {
    var r :| 0 <= r < |c.rounds| && WonBy(n, c.rounds[r], reign);
    TalliesMove(c, a, r);
    assert WonBy(n, Step(c, a).rounds[r], reign);
  }

  lemma RoundsStay(c: Cluster, a: Action)
    requires Enabled(c, a)
    ensures |c.rounds| <= |Step(c, a).rounds| && |Step(c, a).servers| == |c.servers|
  {}

  /** A tally in its term elects the winner of that term. */
  lemma StepKeepsCrowns(n: nat, c: Cluster, a: Action)
    requires Inv(n, c) && ElectedOk(c) && Enabled(c, a) && TallyInTerm(c, a)
    ensures ElectedOk(Step(c, a))
  {
    OnlyElectionsCrown(n, c, a);
    RoundsStay(c, a);
    var c' := Step(c, a);
    forall reign | reign in c'.elected ensures Crowned(n, c'.rounds, reign) {
      if reign in c.elected {
        CrownStays(n, c, a, reign);
      } else {
        TalliesMove(c, a, a.round);
        assert WonBy(n, c'.rounds[a.round], reign);
      }
    }
  }

  // ---------- the leader's bookkeeping ----------

  /** The server is not newly leader, and if it leads its log did not shrink. */
  predicate Continues(s: Server, s': Server) {
    s'.role == Leader ==> s.role == Leader && s.term == s'.term && |s.log| <= |s'.log| && (BoundsOk(s) ==> BoundsOk(s'))
  }

  lemma PutKeepsBounds(n: nat, c: Cluster, i: nat, s: Server)
    requires Inv(n, c) && LeadersOk(c) && i < n && Advances(c.servers[i], s) && Continues(c.servers[i], s)
    ensures LeadersOk(Put(c, i, s))
  {
    var c' := Put(c, i, s);
    forall m | m in c.appendRequests ensures m.args.leader < n && SentOk(c'.servers[m.args.leader], m.args) {
      assert AppendRequestOk(c.servers, c.elected, m);
      assert ReignOk(c.servers[m.args.leader], m.args.term);
    }
  }

  lemma ElectionKeepsBounds(n: nat, c: Cluster, r: nat)
    requires Inv(n, c) && LeadersOk(c) && Enabled(c, Collect(r)) && Elects(c, r)
    ensures LeadersOk(CollectVote(c, r))
  {
    var c' := CollectVote(c, r);
    forall m | m in c.appendRequests ensures m.args.leader < n && SentOk(c'.servers[m.args.leader], m.args) {
      assert AppendRequestOk(c.servers, c.elected, m);
    }
  }

  /** A leader is never sent an append of its own term. */
  lemma AppendContinues(n: nat, c: Cluster, m: AppendRequest)
    requires Inv(n, c) && UniqueReigns(c) && m in c.appendRequests
    ensures Continues(c.servers[m.to], AppendEntries(c.servers[m.to], m.args).0)
  {
    assert AppendRequestOk(c.servers, c.elected, m);
    assert Recorded(c.cast, c.elected, m.to, c.servers[m.to]);
    assert Reign(c.servers[m.to].term, m.to) != Reign(m.args.term, m.args.leader);
  }

  lemma AnswerContinues(n: nat, c: Cluster, m: AppendAnswer)
    requires Inv(n, c) && LeadersOk(c) && m in c.appendAnswers
    ensures Continues(c.servers[m.args.leader], AppendReplied(c.servers[m.args.leader], m.from, m.args, m.reply).0)
  {
    assert AppendAnswerOk(c.appendRequests, m);
    assert AppendRequestOk(c.servers, c.elected, AppendRequest(m.from, m.args));
    var s := c.servers[m.args.leader];
    assert SentOk(s, AppendRequest(m.from, m.args).args);
  }

  lemma SendKeepsBounds(n: nat, c: Cluster, i: nat, peer: nat)
    requires Inv(n, c) && LeadersOk(c) && Enabled(c, Send(i, peer))
    ensures LeadersOk(Step(c, Send(i, peer)))
  {
    assert SentOk(c.servers[i], Heartbeat(c.servers[i], i, peer));
  }

  lemma AnswerVoteKeepsBounds(n: nat, c: Cluster, m: VoteRequest)
    requires Inv(n, c) && LeadersOk(c) && m in c.voteRequests
    ensures LeadersOk(AnswerVote(c, m))
  {
    assert VoteRequestOk(n, m);
    RequestVoteOk(n, m.to, c.servers[m.to], m.args);
    PutKeepsBounds(n, c, m.to, RequestVote(c.servers[m.to], m.args).0);
  }

  lemma AnswerAppendKeepsBounds(n: nat, c: Cluster, m: AppendRequest)
    requires Inv(n, c) && LeadersOk(c) && UniqueReigns(c) && m in c.appendRequests
    ensures LeadersOk(AnswerAppend(c, m))
  {
    assert AppendRequestOk(c.servers, c.elected, m);
    AppendContinues(n, c, m);
    AppendEntriesOk(n, m.to, c.servers[m.to], m.args);
    PutKeepsBounds(n, c, m.to, AppendEntries(c.servers[m.to], m.args).0);
  }

  lemma TakeAnswerKeepsBounds(n: nat, c: Cluster, m: AppendAnswer)
    requires Inv(n, c) && LeadersOk(c) && Enabled(c, TakeAppendAnswer(m))
    ensures LeadersOk(Step(c, TakeAppendAnswer(m)))
  {
    AnswerContinues(n, c, m);
    assert AppendRequestOk(c.servers, c.elected, AppendRequest(m.from, m.args));
    AppendRepliedOk(n, m.args.leader, c.servers[m.args.leader], m.from, m.args, m.reply);
    PutKeepsBounds(n, c, m.args.leader, AppendReplied(c.servers[m.args.leader], m.from, m.args, m.reply).0);
  }

  lemma StepKeepsBounds(n: nat, c: Cluster, a: Action)
    requires Inv(n, c) && LeadersOk(c) && UniqueReigns(c) && Enabled(c, a)
    ensures LeadersOk(Step(c, a))
  {
    match a {
      case StartElection(i) => PutKeepsBounds(n, c, i, KickOff(c.servers[i], i).0);
      case DeliverVoteRequest(m) => AnswerVoteKeepsBounds(n, c, m);
      case TakeVoteAnswer(r, m) =>
        PutKeepsBounds(n, c, m.args.candidate, VoteReplied(c.servers[m.args.candidate], m.args, m.reply).0);
      case Collect(r) => if Elects(c, r) { ElectionKeepsBounds(n, c, r); }
      case Propose(i, command) => PutKeepsBounds(n, c, i, Raft.Propose(c.servers[i], command));
      case Send(i, peer) => SendKeepsBounds(n, c, i, peer);
      case DeliverAppend(m) => AnswerAppendKeepsBounds(n, c, m);
      case TakeAppendAnswer(m) => TakeAnswerKeepsBounds(n, c, m);
    }
  }

  lemma {:induction false} RunKeepsLeaders(n: nat, run: seq<Action>)
    requires IsRun(n, run) && InTerm(n, run)
    ensures InvInTerm(n, After(n, run))
    decreases |run|
  {
    RunKeepsInv(n, run);
    if run != [] {
      var k := |run| - 1;
      RunKeepsLeaders(n, run[..k]);
      StepKeepsCrowns(n, After(n, run[..k]), run[k]);
      CrownedAreUnique(n, After(n, run[..k]));
      StepKeepsBounds(n, After(n, run[..k]), run[k]);
    }
  }

  lemma {:induction false} RunKeepsBounds(n: nat, run: seq<Action>)
    requires IsRun(n, run) && UniqueReigns(After(n, run))
    ensures LeadersOk(After(n, run))
    decreases |run|
  {
    if run != [] {
      var k := |run| - 1;
      LastStepKeepsElected(n, run);
      RunKeepsBounds(n, run[..k]);
      RunKeepsInv(n, run[..k]);
      StepKeepsBounds(n, After(n, run[..k]), run[k]);
    }
  }

  lemma StepKeepsElected(c: Cluster, a: Action)
    requires Enabled(c, a)
    ensures c.elected <= Step(c, a).elected
  {}

  lemma LastStepKeepsElected(n: nat, run: seq<Action>)
    requires IsRun(n, run) && run != []
    ensures After(n, run[..|run| - 1]).elected <= After(n, run).elected
  {
    StepKeepsElected(After(n, run[..|run| - 1]), run[|run| - 1]);
  }

  lemma {:induction false} ElectedStay(n: nat, run: seq<Action>, k: nat)
    requires IsRun(n, run) && k <= |run|
    ensures IsRun(n, run[..k]) && After(n, run[..k]).elected <= After(n, run).elected
    decreases |run|
  {
    if k == |run| {
      assert run[..k] == run;
    } else {
      var l := |run| - 1;
      ElectedStay(n, run[..l], k);
      LastStepKeepsElected(n, run);
      assert run[..l][..k] == run[..k];
    }
  }

  predicate Leads(n: nat, run: seq<Action>, k: nat, i: nat, term: int)
    requires IsRun(n, run) && k <= |run|
  {
    PrefixIsRun(n, run, k);
    var c := After(n, run[..k]);
    i < |c.servers| && c.servers[i].role == Leader && c.servers[i].term == term
  }

  lemma LeadersWereElected(n: nat, run: seq<Action>, k: nat, i: nat, term: int)
    requires IsRun(n, run) && k <= |run| && Leads(n, run, k, i, term)
    ensures Reign(term, i) in After(n, run).elected
  {
    ElectedStay(n, run, k);
    RunKeepsInv(n, run[..k]);
  }

  /** If every tally is taken in its round's term, no term ever has two leaders, not even at
      different moments of the run. */
  lemma OneLeaderPerTerm(n: nat, run: seq<Action>, k: nat, i: nat, l: nat, j: nat, term: int)
    requires IsRun(n, run) && InTerm(n, run) && k <= |run| && l <= |run|
    requires Leads(n, run, k, i, term) && Leads(n, run, l, j, term)
    ensures i == j
  {
    LeadersWereElected(n, run, k, i, term);
    LeadersWereElected(n, run, l, j, term);
    RunKeepsLeaders(n, run);
    ReignsAreUnique(n, After(n, run), Reign(term, i), Reign(term, j));
  }

  /** No term has two leaders, at any two moments of the run. */
  ghost predicate LeadersAreUnique(n: nat, run: seq<Action>)
    requires IsRun(n, run)
  {
    forall k: nat, i: nat, l: nat, j: nat, term {:trigger Leads(n, run, k, i, term), Leads(n, run, l, j, term)} ::
      k <= |run| && l <= |run| && Leads(n, run, k, i, term) && Leads(n, run, l, j, term) ==> i == j
  }

  /** Every recorded reign was a leader at some moment. */
  lemma {:induction false} ReignWasLed(n: nat, run: seq<Action>, reign: Reign) returns (k: nat)
    requires IsRun(n, run) && reign in After(n, run).elected
    ensures k <= |run| && Leads(n, run, k, reign.leader, reign.term)
    decreases |run|
  {
    var l := |run| - 1;
    PrefixIsRun(n, run, |run|);
    assert run[..|run|] == run;
    if run != [] && reign in After(n, run[..l]).elected {
      k := ReignWasLed(n, run[..l], reign);
      assert run[..l][..k] == run[..k];
    } else {
      k := |run|;
      NewReignLeads(After(n, run[..l]), run[l], reign);
    }
  }

  lemma NewReignLeads(c: Cluster, a: Action, reign: Reign)
    requires Enabled(c, a) && reign in Step(c, a).elected && reign !in c.elected
    ensures reign.leader < |Step(c, a).servers|
    ensures Step(c, a).servers[reign.leader].role == Leader && Step(c, a).servers[reign.leader].term == reign.term
  {}

  lemma UniqueLeadersUniqueReigns(n: nat, run: seq<Action>)
    requires IsRun(n, run) && LeadersAreUnique(n, run)
    ensures UniqueReigns(After(n, run))
  {
    forall a, b | a in After(n, run).elected && b in After(n, run).elected && a.term == b.term ensures a == b {
      var k := ReignWasLed(n, run, a);
      var l := ReignWasLed(n, run, b);
    }
  }

  /** In every run in which no term has two leaders, a leader's bookkeeping stays inside its log, so
      sending never reads outside it. */
  lemma SendingIsInBounds(n: nat, run: seq<Action>, i: nat, peer: nat)
    requires IsRun(n, run) && LeadersAreUnique(n, run)
    requires i < |After(n, run).servers| && After(n, run).servers[i].role == Leader && peer < n
    ensures var s := After(n, run).servers[i];
      |s.nextIndex| == |s.matchIndex| == n
      && 1 <= s.nextIndex[peer] <= |s.log| && 0 <= s.matchIndex[peer] < |s.log| && CanSend(s, peer)
  {
    UniqueLeadersUniqueReigns(n, run);
    RunKeepsBounds(n, run);
    RunKeepsInv(n, run);
    assert ServerOk(n, i, After(n, run).servers[i]);
  }

  /** In every run, each refusal that reaches the leader in the append's term carries a conflict index
      between 1 and the index that did not match. */
  lemma RefusalsAreInRange(n: nat, run: seq<Action>, m: AppendAnswer)
    requires IsRun(n, run) && m in After(n, run).appendAnswers && !m.reply.success && m.reply.term == m.args.term
    ensures 1 <= m.reply.conflictIndex <= m.args.prevLogIndex
  {
    RunKeepsInv(n, run);
  }

  /** In every run, the handler of an append's reply gives the lock back: the path at the end of
      handleAppendEntries that keeps it is never taken. */
  lemma LockIsReleased(n: nat, run: seq<Action>, m: AppendAnswer)
    requires IsRun(n, run) && Enabled(After(n, run), TakeAppendAnswer(m))
    ensures AppendReplied(After(n, run).servers[m.args.leader], m.from, m.args, m.reply).1
  {
    RunKeepsInv(n, run);
    var c := After(n, run);
    assert AppendAnswerOk(c.appendRequests, m);
    assert AppendRequestOk(c.servers, c.elected, AppendRequest(m.from, m.args));
    assert Reign(m.args.term, m.args.leader) in c.elected;
  }

  /** No handler reads outside its own state: whatever was sent can be delivered, whatever was answered
      can be taken, and anybody can start an election, in every run. */
  lemma HandlersNeverPanic(n: nat, run: seq<Action>, i: nat, v: VoteRequest, a: AppendRequest, b: AppendAnswer)
    requires IsRun(n, run)
    ensures i < n ==> Enabled(After(n, run), StartElection(i))
    ensures v in After(n, run).voteRequests ==> Enabled(After(n, run), DeliverVoteRequest(v))
    ensures a in After(n, run).appendRequests ==> Enabled(After(n, run), DeliverAppend(a))
    ensures b in After(n, run).appendAnswers ==> Enabled(After(n, run), TakeAppendAnswer(b))
  {
    RunKeepsInv(n, run);
    var c := After(n, run);
    if b in c.appendAnswers {
      assert AppendAnswerOk(c.appendRequests, b);
      assert AppendRequestOk(c.servers, c.elected, AppendRequest(b.from, b.args));
      assert ServerOk(n, b.args.leader, c.servers[b.args.leader]);
    }
  }

  // ---------- the commit rule ----------

  /** The first `i` peers that hold entry `n` as far as the leader knows. */
  function Holding(matchIndex: seq<int>, n: int, i: nat): (r: set<nat>)
    requires i <= |matchIndex|
    ensures |r| == Holders(matchIndex, n, i)
    ensures forall j: nat :: j in r <==> j < i && matchIndex[j] >= n
  {
    if i == 0 then {}
    else if matchIndex[i - 1] >= n then Holding(matchIndex, n, i - 1) + {i - 1}
    else Holding(matchIndex, n, i - 1)
  }

  function HeldBy(matchIndex: seq<int>, me: nat, n: int): set<nat> {
    Holding(matchIndex, n, |matchIndex|) + {me}
  }

  /** The entry is of the leader's own term and a strict majority holds it. */
  predicate MajorityHolds(s: Server, me: nat, n: int)
    requires 0 <= n < |s.log|
  {
    s.log[n].term == s.term && |HeldBy(s.matchIndex, me, n)| > |s.matchIndex| / 2
  }

  /** The count in the loop finds exactly the entries a strict majority holds, the leader counted once;
      except that a cluster of one counts nobody and commits nothing. */
  lemma CountIsMajority(s: Server, me: nat, n: int)
    requires me < |s.matchIndex| && s.matchIndex[me] == 0 && 1 <= n < |s.log|
    ensures Committable(s, |s.matchIndex|, n) <==> MajorityHolds(s, me, n) && |s.matchIndex| >= 2
  {
    var others := Holding(s.matchIndex, n, |s.matchIndex|);
    assert me !in others;
    if |s.matchIndex| == 1 {
      assert forall j :: j in others ==> j == me;
    }
  }

  lemma {:induction false} CommitFromIsLargest(s: Server, me: nat, n: int)
    requires me < |s.matchIndex| && s.matchIndex[me] == 0 && |s.matchIndex| >= 2 && n < |s.log| && s.commitIndex >= 0
    ensures var r := CommitFrom(s, |s.matchIndex|, n);
      && (r == s.commitIndex || (s.commitIndex < r <= n && MajorityHolds(s, me, r)))
      && forall k {:trigger MajorityHolds(s, me, k)} :: r < k <= n ==> !MajorityHolds(s, me, k)
    decreases n
  {
    if n > s.commitIndex {
      CountIsMajority(s, me, n);
      if !Committable(s, |s.matchIndex|, n) { CommitFromIsLargest(s, me, n - 1); }
    }
  }

  ghost predicate CommitsLargest(s: Server, s': Server, me: nat) {
    && s'.log == s.log && s'.term == s.term
    && (s'.commitIndex == s.commitIndex || (s.commitIndex < s'.commitIndex && Committed(s', me, s'.commitIndex)))
    && forall k {:trigger Committed(s', me, k)} :: s'.commitIndex < k ==> !Committed(s', me, k)
  }

  predicate Committed(s: Server, me: nat, n: int) {
    0 <= n < |s.log| && MajorityHolds(s, me, n)
  }

  lemma SuccessCommitsLargest(n: nat, me: nat, s: Server, peer: nat, args: AppendArgs, reply: AppendReply)
    requires ServerOk(n, me, s) && peer < n && peer != me && reply.success && args.term == s.term
    ensures var s' := AppendReplied(s, peer, args, reply).0;
      s'.matchIndex == s.matchIndex[peer := args.prevLogIndex + |args.entries|] && CommitsLargest(s, s', me)
  {
    var m := args.prevLogIndex + |args.entries|;
    var s1 := s.(matchIndex := s.matchIndex[peer := m], nextIndex := s.nextIndex[peer := m + 1]);
    CommitFromIsLargest(s1, me, |s1.log| - 1);
    var s' := AppendReplied(s, peer, args, reply).0;
    assert s' == s1.(commitIndex := s'.commitIndex);
    forall k ensures Committed(s', me, k) == (0 <= k < |s1.log| && MajorityHolds(s1, me, k)) {}
  }

  /** In every run, when a successful append is answered in its own term, the leader's commit index
      becomes the largest index above the old one whose entry is of the current term and held by a
      strict majority, and stays as it was if there is none. */
  lemma CommitsTheLargestMajority(n: nat, run: seq<Action>, m: AppendAnswer)
    requires IsRun(n, run) && Enabled(After(n, run), TakeAppendAnswer(m)) && m.reply.success
    requires m.args.term == After(n, run).servers[m.args.leader].term
    ensures CommitsAnswered(After(n, run), Step(After(n, run), TakeAppendAnswer(m)), m)
  {
    RunKeepsInv(n, run);
    AnswerCommitsLargest(n, After(n, run), m);
  }

  ghost predicate CommitsAnswered(c: Cluster, c': Cluster, m: AppendAnswer) {
    var i := m.args.leader;
    && i < |c.servers| == |c'.servers| && m.from < |c.servers[i].matchIndex|
    && c'.servers[i].matchIndex == c.servers[i].matchIndex[m.from := m.args.prevLogIndex + |m.args.entries|]
    && CommitsLargest(c.servers[i], c'.servers[i], i)
  }

  lemma AnswerCommitsLargest(n: nat, c: Cluster, m: AppendAnswer)
    requires Inv(n, c) && Enabled(c, TakeAppendAnswer(m)) && m.reply.success
    requires m.args.term == c.servers[m.args.leader].term
    ensures CommitsAnswered(c, Step(c, TakeAppendAnswer(m)), m)
  {
    assert AppendAnswerOk(c.appendRequests, m);
    assert AppendRequestOk(c.servers, c.elected, AppendRequest(m.from, m.args));
    SuccessCommitsLargest(n, m.args.leader, c.servers[m.args.leader], m.from, m.args, m.reply);
  }
}
