/** What a leader has committed stays. In every regular run, an entry that a majority acknowledged in the
    term it was made in is in the log of every later leader, and no two servers ever commit different
    entries at the same index. */
module RaftSafety {
  import opened Raft
  import opened RaftCluster
  import opened RaftLogs

  // ---------- entries a majority acknowledged ----------

  /** Index `k` of the log of term `t`'s leader holds an entry made in that term. */
  predicate Made(logs: Logs, t: int, k: int) {
    t in logs && 0 <= k < |logs[t]| && logs[t][k].term == t
  }

  predicate AckOf(m: AppendAnswer, v: nat, t: int, k: int) {
    m.from == v && m.reply.success && m.args.term == t && k <= m.args.prevLogIndex + |m.args.entries|
  }

  /** Server `v` led term `t`, or acknowledged the leader's log up to `k`. */
  ghost predicate Acked(c: Cluster, v: nat, t: int, k: int) {
    Reign(t, v) in c.elected || exists m {:trigger m in c.appendAnswers} :: m in c.appendAnswers && AckOf(m, v, t, k)
  }

  predicate Majority(n: nat, q: set<nat>) {
    q <= Servers(n) && |q| > n / 2
  }

  ghost predicate AllAcked(c: Cluster, q: set<nat>, t: int, k: int) {
    forall v {:trigger Acked(c, v, t, k)} :: v in q ==> Acked(c, v, t, k)
  }

  /** A majority has moved on to later terms without acknowledging the entry. */
  ghost predicate Blocks(c: Cluster, q: set<nat>, t: int, k: int) {
    Majority(|c.servers|, q) && forall v {:trigger v in q} ::
      v in q ==> v < |c.servers| && c.servers[v].term > t && !Acked(c, v, t, k)
  }

  ghost predicate Chosen(c: Cluster, t: int, k: int) {
    Made(c.logs, t, k) && exists q {:trigger AllAcked(c, q, t, k)} :: Majority(|c.servers|, q) && AllAcked(c, q, t, k)
  }

  ghost predicate Lost(c: Cluster, t: int, k: int) {
    exists q {:trigger Blocks(c, q, t, k)} :: Blocks(c, q, t, k)
  }

  lemma ChosenIsNotLost(c: Cluster, t: int, k: int)
    ensures !(Chosen(c, t, k) && Lost(c, t, k))
  {
    if Chosen(c, t, k) && Lost(c, t, k) {
      var q :| Majority(|c.servers|, q) && AllAcked(c, q, t, k);
      var p :| Blocks(c, p, t, k);
      var v := MajoritiesMeet(|c.servers|, q, p);
      assert false;
    }
  }

  /** The log holds the entry with everything before it, or the entry can no longer be chosen. */
  ghost predicate Holds(c: Cluster, log: seq<LogEntry>, t: int, k: int)
    requires Made(c.logs, t, k)
  {
    Agree(log, c.logs[t], k) || Lost(c, t, k)
  }

  // ---------- the invariant ----------

  /** Later leaders hold what was made before. */
  ghost predicate LeadersHold(c: Cluster) {
    forall w, t, k {:trigger w in c.logs, Made(c.logs, t, k)} ::
      w in c.logs && t < w && Made(c.logs, t, k) ==> Holds(c, c.logs[w], t, k)
  }

  /** Servers hold what they acknowledged. */
  ghost predicate ServersHold(c: Cluster) {
    forall v: nat, t, k {:trigger Acked(c, v, t, k)} ::
      v < |c.servers| && Made(c.logs, t, k) && Acked(c, v, t, k) ==> Holds(c, c.servers[v].log, t, k)
  }

  predicate AtLeast(args: VoteArgs, log: seq<LogEntry>)
    requires log != []
  {
    args.lastLogTerm > Last(log).term || (args.lastLogTerm == Last(log).term && args.lastLogIndex >= |log| - 1)
  }

  /** Voters held what they had acknowledged when they voted, and voted for logs at least as good. */
  ghost predicate VoterHolds(c: Cluster, m: VoteAnswer) {
    && m.from < |c.servers| && c.servers[m.from].term >= m.args.term
    && LogFrom(c.logs, m.log) && AtLeast(m.args, m.log)
    && forall t, k {:trigger Made(c.logs, t, k)} ::
        t < m.args.term && Made(c.logs, t, k) && Acked(c, m.from, t, k) ==> Holds(c, m.log, t, k)
  }

  ghost predicate VotersHold(c: Cluster) {
    forall m {:trigger m in c.voteAnswers} :: m in c.voteAnswers && m.reply.granted ==> VoterHolds(c, m)
  }

  ghost predicate GrantedBy(c: Cluster, v: nat, args: VoteArgs) {
    exists m {:trigger m in c.voteAnswers} :: m in c.voteAnswers && m.from == v && m.args == args && m.reply.granted
  }

  /** A candidate's log is still the one it announced, until somebody leads its term. */
  ghost predicate Announced(c: Cluster, args: VoteArgs) {
    && args.candidate < |c.servers|
    && var s := c.servers[args.candidate];
      s.role == Candidate && s.term == args.term && !HadLeader(c.elected, s.term) ==>
        s.log != [] && args.lastLogIndex == LastIndex(s) && args.lastLogTerm == LastTerm(s)
  }

  ghost predicate RoundFits(c: Cluster, round: Round) {
    && (forall v {:trigger v in round.granted} :: v in round.granted ==> GrantedBy(c, v, round.args))
    && Announced(c, round.args)
  }

  ghost predicate RoundsFit(c: Cluster) {
    forall r {:trigger c.rounds[r]} :: 0 <= r < |c.rounds| ==> RoundFits(c, c.rounds[r])
  }

  /** An acknowledgement is never from after the server's term. */
  ghost predicate AcksInTerm(c: Cluster) {
    forall m {:trigger m in c.appendAnswers} :: m in c.appendAnswers && m.reply.success ==>
      m.from < |c.servers| && m.args.term <= c.servers[m.from].term
  }

  ghost predicate HoldInv(c: Cluster) {
    LeadersHold(c) && ServersHold(c) && VotersHold(c) && RoundsFit(c) && AcksInTerm(c)
  }

  // ---------- what a step may change ----------

  /** Terms advance, leaders' logs grow, acknowledgements stay and come only from servers that have not
      moved on. */
  ghost predicate Later(c: Cluster, c': Cluster) {
    && |c.servers| == |c'.servers|
    && (forall v {:trigger c.servers[v]} {:trigger c'.servers[v]} ::
        0 <= v < |c.servers| ==> c.servers[v].term <= c'.servers[v].term)
    && Grown(c.logs, c'.logs)
    && (forall v: nat, t, k {:trigger Acked(c', v, t, k)} ::
        v < |c.servers| && c.servers[v].term > t && Acked(c', v, t, k) ==> Acked(c, v, t, k))
  }

  lemma LostStays(c: Cluster, c': Cluster, t: int, k: int)
    requires Later(c, c') && Lost(c, t, k)
    ensures Lost(c', t, k)
  {
    var q :| Blocks(c, q, t, k);
    assert Blocks(c', q, t, k);
  }

  lemma MadeStays(logs: Logs, logs': Logs, t: int, k: int)
    requires Grown(logs, logs') && Made(logs, t, k)
    ensures Made(logs', t, k)
  {
    assert logs'[t][k] == logs[t][k];
  }

  lemma HoldsStays(c: Cluster, c': Cluster, log: seq<LogEntry>, t: int, k: int)
    requires Later(c, c') && Made(c.logs, t, k) && Holds(c, log, t, k)
    ensures Made(c'.logs, t, k) && Holds(c', log, t, k)
  {
    MadeStays(c.logs, c'.logs, t, k);
    if Lost(c, t, k) { LostStays(c, c', t, k); }
    else { AgreeGrows(log, c.logs[t], c'.logs[t], k); }
  }

  lemma NewAcksAreNow(c: Cluster, a: Action, m: AppendAnswer)
    requires Enabled(c, a) && m in Step(c, a).appendAnswers && m !in c.appendAnswers && m.reply.success
    ensures a.DeliverAppend? && a.appendRequest == AppendRequest(m.from, m.args) && m.from < |c.servers|
    ensures m.args.term >= c.servers[m.from].term && Accepts(c.servers[m.from], m.args)
  {}

  lemma AcksAreNotLate(n: nat, c: Cluster, a: Action, v: nat, t: int, k: int)
    requires Inv(n, c) && Enabled(c, a) && v < n && Acked(Step(c, a), v, t, k) && !Acked(c, v, t, k)
    ensures c.servers[v].term <= t
  {
    StepAdvances(n, c, a, v);
    var c' := Step(c, a);
    if Reign(t, v) in c'.elected {
      NewReignLeads(c, a, Reign(t, v));
    } else {
      var m :| m in c'.appendAnswers && AckOf(m, v, t, k);
      NewAcksAreNow(c, a, m);
    }
  }

  lemma StepIsLater(n: nat, c: Cluster, a: Action)
    requires InvInTerm(n, c) && LogsInv(c) && Enabled(c, a) && Regular(c, a)
    ensures Later(c, Step(c, a))
  {
    StepKeepsLogs(n, c, a);
    forall v: nat | v < n ensures |Step(c, a).servers| == n && c.servers[v].term <= Step(c, a).servers[v].term {
      StepAdvances(n, c, a, v);
    }
    forall v: nat, t, k | v < n && c.servers[v].term > t && Acked(Step(c, a), v, t, k) ensures Acked(c, v, t, k) {
      if !Acked(c, v, t, k) { AcksAreNotLate(n, c, a, v, t, k); }
    }
  }

  // ---------- a new entry ----------

  lemma SupporterIsLater(c: Cluster, round: Round, v: nat)
    requires HistoryOk(c) && RoundOk(c.servers, c.cast, round) && v in Supporters(round)
    ensures v < |c.servers| && c.servers[v].term >= round.args.term
  {
    assert Voted(c.cast, v, round.args.term, round.args.candidate);
    assert BallotOk(c.servers[Ballot(v, round.args.term).voter], round.args.term, round.args.candidate);
  }

  /** Everybody who elected the leader of `w` is in term `w` or later. */
  lemma ElectorsAreLater(n: nat, c: Cluster, w: int) returns (q: set<nat>)
    requires Inv(n, c) && ElectedOk(c) && HadLeader(c.elected, w)
    ensures Majority(n, q) && forall v: nat {:trigger v in q} :: v in q ==> v < n && c.servers[v].term >= w
  {
    var u: nat :| Reign(w, u) in c.elected;
    assert Crowned(n, c.rounds, Reign(w, u));
    var r :| 0 <= r < |c.rounds| && WonBy(n, c.rounds[r], Reign(w, u));
    var round := c.rounds[r];
    WinnersHaveAMajority(c.servers, c.cast, round);
    q := Supporters(round);
    forall v: nat | v in q ensures v < n && c.servers[v].term >= w {
      SupporterIsLater(c, round, v);
    }
  }

  /** Nobody acknowledged an index the leader's log does not have yet, except the leader. */
  lemma NotYetAcked(n: nat, c: Cluster, i: nat, v: nat, t: int, k: int)
    requires InvInTerm(n, c) && LogsInv(c) && Reign(t, i) in c.elected && t in c.logs && k >= |c.logs[t]|
    requires Acked(c, v, t, k)
    ensures v == i
  {
    if Reign(t, v) in c.elected {
      ReignsAreUnique(n, c, Reign(t, v), Reign(t, i));
    }
  }

  lemma NotYetAckedBlocks(n: nat, c: Cluster, c': Cluster, i: nat, q: set<nat>, t: int, k: int)
    requires InvInTerm(n, c) && LogsInv(c) && Reign(t, i) in c.elected && t in c.logs && k >= |c.logs[t]| && i < n
    requires c.servers[i].term == t
    requires Majority(n, q) && forall v: nat {:trigger v in q} :: v in q ==> v < n && c.servers[v].term > t
    requires c'.elected == c.elected && c'.appendAnswers == c.appendAnswers && |c'.servers| == n
    requires forall v {:trigger c.servers[v]} {:trigger c'.servers[v]} ::
      0 <= v < n ==> c.servers[v].term == c'.servers[v].term
    ensures Lost(c', t, k)
  {
    forall v: nat | v in q ensures !Acked(c', v, t, k) {
      if Acked(c', v, t, k) {
        assert Acked(c, v, t, k);
        NotYetAcked(n, c, i, v, t, k);
        assert false;
      }
    }
    assert Blocks(c', q, t, k);
  }

  lemma NewEntryIsLost(n: nat, c: Cluster, i: nat, command: int, w: int)
    requires InvInTerm(n, c) && LogsInv(c) && i < n && c.servers[i].role == Leader && w in c.logs
    requires c.servers[i].term < w
    ensures Lost(Step(c, Propose(i, command)), c.servers[i].term, |c.servers[i].log|)
  {
    assert LeaderLogOk(c.logs, c.elected, w) && ServerLogOk(c.logs, c.servers[i]);
    assert Recorded(c.cast, c.elected, i, c.servers[i]);
    var q := ElectorsAreLater(n, c, w);
    ProposeChangesLittle(c, i, command);
    NotYetAckedBlocks(n, c, Step(c, Propose(i, command)), i, q, c.servers[i].term, |c.servers[i].log|);
  }

  lemma ProposeChangesLittle(c: Cluster, i: nat, command: int)
    requires i < |c.servers| && c.servers[i].role == Leader && Reign(c.servers[i].term, i) in c.elected
    ensures var c' := Step(c, Propose(i, command));
      && c'.elected == c.elected && c'.appendAnswers == c.appendAnswers && |c'.servers| == |c.servers|
      && c'.logs == c.logs[c.servers[i].term := c.servers[i].log + [LogEntry(command, c.servers[i].term)]]
      && c'.servers[i].log == c.servers[i].log + [LogEntry(command, c.servers[i].term)]
      && forall v {:trigger c.servers[v]} {:trigger c'.servers[v]} ::
          0 <= v < |c.servers| ==> c.servers[v].term == c'.servers[v].term
  {}

  // ---------- an election ----------

  /** A log at least as good as one that holds the entry holds it too, or the entry is lost. */
  lemma BetterLogHolds(c: Cluster, args: VoteArgs, log: seq<LogEntry>, voter: seq<LogEntry>, t: int, k: int)
    requires LogFrom(c.logs, log) && LogFrom(c.logs, voter) && AtLeast(args, voter) && Made(c.logs, t, k) && k >= 1
    requires args.lastLogIndex == |log| - 1 && args.lastLogTerm == Last(log).term && LeadersHold(c)
    requires AllSorted(c.logs)
    requires Agree(voter, c.logs[t], k)
    ensures Holds(c, log, t, k)
  {
    var lt, vt := Last(log).term, Last(voter).term;
    assert voter[k] == voter[..k + 1][k] == c.logs[t][..k + 1][k] == c.logs[t][k];
    assert voter[k].term <= voter[|voter| - 1].term;
    assert |log| > 1;
    var l := |log| - 1;
    assert EntryFrom(c.logs, log, l);
    if lt == vt {
      var x := |voter| - 1;
      assert EntryFrom(c.logs, voter, x);
      SamePrefix(log, c.logs[lt], voter, l, x, k);
      AgreeThrough(log, voter, c.logs[t], k);
    } else {
      assert t < lt && lt in c.logs;
      assert Holds(c, c.logs[lt], t, k);
      if Agree(c.logs[lt], c.logs[t], k) {
        var h := c.logs[lt];
        assert h[k] == h[..k + 1][k] == c.logs[t][k];
        assert h[l] == h[..l + 1][l] == log[l];
        assert l > k;
        AgreeShorter(log, h, l, k);
        AgreeThrough(log, h, c.logs[t], k);
      }
    }
  }

  lemma AgreeShorter(a: seq<LogEntry>, b: seq<LogEntry>, l: int, k: int)
    requires Agree(a, b, l) && 0 <= k <= l
    ensures Agree(a, b, k)
  {
    assert a[..k + 1] == a[..l + 1][..k + 1];
    assert b[..k + 1] == b[..l + 1][..k + 1];
  }

  lemma AgreeAt(a: seq<LogEntry>, b: seq<LogEntry>, k: int, x: nat)
    requires Agree(a, b, k)
    ensures x <= k ==> a[x] == b[x]
  {
    assert x <= k ==> a[x] == a[..k + 1][x] && b[x] == b[..k + 1][x];
  }

  lemma AgreeThrough(a: seq<LogEntry>, b: seq<LogEntry>, d: seq<LogEntry>, k: int)
    requires Agree(a, b, k) && Agree(b, d, k)
    ensures Agree(a, d, k)
  {}

  lemma SamePrefix(a: seq<LogEntry>, h: seq<LogEntry>, b: seq<LogEntry>, l: int, x: int, k: int)
    requires Agree(a, h, l) && Agree(b, h, x) && 0 <= k <= x <= l
    ensures Agree(a, b, k)
  {
    AgreeShorter(a, h, l, k);
    AgreeShorter(b, h, x, k);
  }

  lemma AgreeAtZero(logs: Logs, a: seq<LogEntry>, b: seq<LogEntry>)
    requires LogFrom(logs, a) && LogFrom(logs, b)
    ensures Agree(a, b, 0)
  {
    assert a[..1] == [a[0]] && b[..1] == [b[0]];
  }

  ghost predicate AllSorted(logs: Logs) {
    forall w {:trigger w in logs} :: w in logs ==> SortedTerms(logs[w])
  }

  lemma LeadersAreSorted(c: Cluster)
    requires LogsInv(c)
    ensures AllSorted(c.logs)
  {
    forall w | w in c.logs ensures SortedTerms(c.logs[w]) {
      assert LeaderLogOk(c.logs, c.elected, w);
    }
  }

  /** The winner's log is the one its round announced. */
  lemma WinnerAnnouncedItsLog(n: nat, c: Cluster, r: nat)
    requires InvInTerm(n, c) && LogsInv(c) && RoundsFit(c) && Enabled(c, Collect(r)) && Elects(c, r)
    requires TallyInTerm(c, Collect(r))
    ensures var args, log := c.rounds[r].args, c.servers[c.rounds[r].args.candidate].log;
      LogFrom(c.logs, log) && args.lastLogIndex == |log| - 1 && args.lastLogTerm == Last(log).term
  {
    assert RoundFits(c, c.rounds[r]);
    WinnerIsFirst(n, c, r);
    assert ServerLogOk(c.logs, c.servers[c.rounds[r].args.candidate]);
  }

  /** One voter that acknowledged the entry is enough. */
  lemma VoterPassesOn(c: Cluster, args: VoteArgs, log: seq<LogEntry>, v: nat, t: int, k: int)
    requires LeadersHold(c) && VotersHold(c) && AllSorted(c.logs) && GrantedBy(c, v, args)
    requires LogFrom(c.logs, log) && args.lastLogIndex == |log| - 1 && args.lastLogTerm == Last(log).term
    requires t < args.term && Made(c.logs, t, k) && LogFrom(c.logs, c.logs[t]) && Acked(c, v, t, k)
    ensures Holds(c, log, t, k)
  {
    var m :| m in c.voteAnswers && m.from == v && m.args == args && m.reply.granted;
    assert VoterHolds(c, m);
    if k == 0 {
      AgreeAtZero(c.logs, log, c.logs[t]);
    } else if Agree(m.log, c.logs[t], k) {
      BetterLogHolds(c, args, log, m.log, t, k);
    }
  }

  lemma UnackedSupportersBlock(n: nat, c: Cluster, round: Round, t: int, k: int)
    requires Inv(n, c) && RoundOk(c.servers, c.cast, round) && Won(n, round) && t < round.args.term
    requires forall v {:trigger Acked(c, v, t, k)} :: v in Supporters(round) ==> !Acked(c, v, t, k)
    ensures Lost(c, t, k)
  {
    WinnersHaveAMajority(c.servers, c.cast, round);
    var q := Supporters(round);
    forall v | v in q ensures v < n && c.servers[v].term > t {
      SupporterIsLater(c, round, v);
    }
    assert Blocks(c, q, t, k);
  }

  /** The winner of an election holds every entry that can still be chosen. */
  lemma WinnerHolds(n: nat, c: Cluster, r: nat, t: int, k: int)
    requires InvInTerm(n, c) && LogsInv(c) && HoldInv(c) && Enabled(c, Collect(r)) && Elects(c, r)
    requires TallyInTerm(c, Collect(r))
    requires t < c.rounds[r].args.term && Made(c.logs, t, k)
    ensures Holds(c, c.servers[c.rounds[r].args.candidate].log, t, k)
  {
    var round := Counted(c.rounds[r]);
    CountedOk(c.servers, c.cast, c.rounds[r]);
    if v :| v in Supporters(round) && Acked(c, v, t, k) {
      if v == round.args.candidate { assert Holds(c, c.servers[v].log, t, k); }
      else { GranterPassesOn(n, c, r, v, t, k); }
    } else {
      UnackedSupportersBlock(n, c, round, t, k);
    }
  }

  lemma GranterPassesOn(n: nat, c: Cluster, r: nat, v: nat, t: int, k: int)
    requires InvInTerm(n, c) && LogsInv(c) && HoldInv(c) && Enabled(c, Collect(r)) && Elects(c, r)
    requires TallyInTerm(c, Collect(r))
    requires v in c.rounds[r].granted && t < c.rounds[r].args.term && Made(c.logs, t, k) && Acked(c, v, t, k)
    ensures Holds(c, c.servers[c.rounds[r].args.candidate].log, t, k)
  {
    var round := c.rounds[r];
    assert RoundFits(c, round);
    WinnerAnnouncedItsLog(n, c, r);
    LeadersAreSorted(c);
    assert LeaderLogOk(c.logs, c.elected, t);
    VoterPassesOn(c, round.args, c.servers[round.args.candidate].log, v, t, k);
  }

  // ---------- leaders hold ----------

  lemma AgreeGrowsLeft(a: seq<LogEntry>, a': seq<LogEntry>, b: seq<LogEntry>, k: int)
    requires Agree(a, b, k) && a <= a'
    ensures Agree(a', b, k)
  {
    assert a'[..k + 1] == a[..k + 1];
  }

  predicate Proposes(c: Cluster, a: Action, logs': Logs) {
    && a.Propose? && a.server < |c.servers| && c.servers[a.server].role == Leader
    && logs' == c.logs[c.servers[a.server].term :=
      c.servers[a.server].log + [LogEntry(a.command, c.servers[a.server].term)]]
  }

  predicate Crowns(c: Cluster, a: Action, logs': Logs)
    requires Enabled(c, a)
  {
    && a.Collect? && Elects(c, a.round)
    && var s := c.servers[c.rounds[a.round].args.candidate]; logs' == c.logs[s.term := s.log]
  }

  /** Only a proposal and an election change the leaders' logs. */
  lemma LogsChange(n: nat, c: Cluster, a: Action)
    requires InvInTerm(n, c) && LogsInv(c) && Enabled(c, a) && Regular(c, a)
    ensures Step(c, a).logs == c.logs || Proposes(c, a, Step(c, a).logs) || Crowns(c, a, Step(c, a).logs)
  {
    match a {
      case StartElection(_) => VoteStepsKeepLogs(n, c, a);
      case DeliverVoteRequest(_) => VoteStepsKeepLogs(n, c, a);
      case TakeVoteAnswer(_, _) => VoteStepsKeepLogs(n, c, a);
      case Collect(r) => CollectChangesLogs(c, r);
      case Propose(i, command) =>
        if c.servers[i].role != Leader { KeepLogKeepsLogs(n, c, i, c.servers[i]); }
      case Send(_, _) =>
      case DeliverAppend(m) => AnswerAppendKeepsLogs(n, c, m);
      case TakeAppendAnswer(m) => TakeAnswerKeepsLogs(n, c, m);
    }
  }

  lemma CollectChangesLogs(c: Cluster, r: nat)
    requires Enabled(c, Collect(r))
    ensures CollectVote(c, r).logs == c.logs || Crowns(c, Collect(r), CollectVote(c, r).logs)
  {}

  lemma TakeAnswerKeepsLogs(n: nat, c: Cluster, m: AppendAnswer)
    requires InvInTerm(n, c) && LogsInv(c) && Enabled(c, TakeAppendAnswer(m))
    ensures Step(c, TakeAppendAnswer(m)).logs == c.logs
  {
    RepliedKeepsLog(c.servers[m.args.leader], m.from, m.args, m.reply);
    KeepLogKeepsLogs(n, c, m.args.leader, AppendReplied(c.servers[m.args.leader], m.from, m.args, m.reply).0);
  }

  lemma ProposalMakes(c: Cluster, a: Action, logs': Logs, t: int, k: int)
    requires LogsInv(c) && Proposes(c, a, logs') && Made(logs', t, k) && !Made(c.logs, t, k)
    ensures t == c.servers[a.server].term && k == |c.servers[a.server].log|
  {
    assert ServerLogOk(c.logs, c.servers[a.server]);
  }

  lemma ElectionMakesNothing(n: nat, c: Cluster, a: Action, logs': Logs, t: int, k: int)
    requires InvInTerm(n, c) && LogsInv(c) && Enabled(c, a) && TallyInTerm(c, a) && Crowns(c, a, logs')
    requires Made(logs', t, k)
    ensures Made(c.logs, t, k)
  {
    var i := c.rounds[a.round].args.candidate;
    var s := c.servers[i];
    WinnerIsFirst(n, c, a.round);
    assert ServerLogOk(c.logs, s) && ServerOk(n, i, s);
    assert t != s.term;
  }

  ghost predicate Ready(n: nat, c: Cluster, a: Action) {
    InvInTerm(n, c) && LogsInv(c) && HoldInv(c) && Enabled(c, a) && Regular(c, a)
  }

  lemma NewLeaderHolds(n: nat, c: Cluster, a: Action, w: int, t: int, k: int)
    requires Ready(n, c, a) && w !in c.logs && w in Step(c, a).logs && t < w && Made(Step(c, a).logs, t, k)
    ensures Holds(Step(c, a), Step(c, a).logs[w], t, k)
  {
    LogsChange(n, c, a);
    StepIsLater(n, c, a);
    assert Crowns(c, a, Step(c, a).logs);
    ElectionMakesNothing(n, c, a, Step(c, a).logs, t, k);
    WinnerHolds(n, c, a.round, t, k);
    HoldsStays(c, Step(c, a), c.servers[c.rounds[a.round].args.candidate].log, t, k);
  }

  lemma StepKeepsLeadersHold(n: nat, c: Cluster, a: Action)
    requires Ready(n, c, a)
    ensures LeadersHold(Step(c, a))
  {
    var c' := Step(c, a);
    StepIsLater(n, c, a);
    forall w, t, k | w in c'.logs && t < w && Made(c'.logs, t, k) ensures Holds(c', c'.logs[w], t, k) {
      if w !in c.logs {
        NewLeaderHolds(n, c, a, w, t, k);
      } else if Made(c.logs, t, k) {
        HoldsStays(c, c', c.logs[w], t, k);
        if Agree(c.logs[w], c'.logs[t], k) { AgreeGrowsLeft(c.logs[w], c'.logs[w], c'.logs[t], k); }
      } else {
        NewlyMade(n, c, a, t, k);
        NewEntryIsLost(n, c, a.server, a.command, w);
      }
    }
  }

  // ---------- servers hold ----------

  lemma AckedInTerm(n: nat, c: Cluster, v: nat, t: int, k: int)
    requires Inv(n, c) && AcksInTerm(c) && Acked(c, v, t, k)
    ensures v < n && t <= c.servers[v].term
  {
    if Reign(t, v) in c.elected {
      assert ReignOk(c.servers[Reign(t, v).leader], t);
    }
  }

  /** An accepted append that repeats nothing keeps what its leader and the log agree on. */
  lemma AppendKeepsAgreement(logs: Logs, s: Server, args: AppendArgs, g: seq<LogEntry>, k: int)
    requires LogFrom(logs, s.log) && MessageFrom(logs, args) && LogFrom(logs, logs[args.term])
    requires args.prevLogIndex < |s.log| && s.log[args.prevLogIndex].term == args.prevLogTerm && !Repeats(s.log, args)
    requires Agree(s.log, g, k) && Agree(logs[args.term], g, k)
    ensures Agree(Appended(s, args).log, g, k)
  {
    var h, p := logs[args.term], args.prevLogIndex + |args.entries|;
    AcceptedAgrees(logs, s, args);
    if args.entries != [] {
      var x := args.prevLogIndex + 1;
      AgreeAt(s.log, g, k, x);
      AgreeAt(h, g, k, x);
      assert args.entries[0] == h[x];
      assert k < x;
      var log := Appended(s, args).log;
      AgreeShorter(log, h, p, k);
      AgreeThrough(log, h, g, k);
    }
  }

  lemma AcceptedLog(s: Server, args: AppendArgs)
    requires args.prevLogIndex >= 0 && Accepts(s, args)
    ensures args.prevLogIndex < |s.log| && s.log[args.prevLogIndex].term == args.prevLogTerm
    ensures AppendEntries(s, args).0.log == Appended(s, args).log
  {}

  /** The sender of an accepted append holds what its receiver acknowledged, unless it is lost. */
  lemma SenderAgrees(n: nat, c: Cluster, m: AppendRequest, t: int, k: int)
    requires Inv(n, c) && LeadersHold(c) && AcksInTerm(c) && m.to < n && m.args.term in c.logs
    requires c.servers[m.to].term <= m.args.term && Made(c.logs, t, k) && Acked(c, m.to, t, k) && !Lost(c, t, k)
    ensures Agree(c.logs[m.args.term], c.logs[t], k)
  {
    AckedInTerm(n, c, m.to, t, k);
    LeaderHolds(c, m.args.term, t, k);
  }

  lemma LeaderHolds(c: Cluster, w: int, t: int, k: int)
    requires LeadersHold(c) && w in c.logs && t <= w && Made(c.logs, t, k) && !Lost(c, t, k)
    ensures Agree(c.logs[w], c.logs[t], k)
  {
    if t < w { assert Holds(c, c.logs[w], t, k); }
  }

  lemma AppendHolds(c: Cluster, m: AppendRequest, g: seq<LogEntry>, k: int)
    requires LogsInv(c) && m in c.appendRequests && m.to < |c.servers| && m.args.prevLogIndex >= 0
    requires Accepts(c.servers[m.to], m.args) && !Repeats(c.servers[m.to].log, m.args)
    requires m.args.term in c.logs && Agree(c.logs[m.args.term], g, k) && Agree(c.servers[m.to].log, g, k)
    ensures Agree(AppendEntries(c.servers[m.to], m.args).0.log, g, k)
  {
    var s := c.servers[m.to];
    assert MessageFrom(c.logs, m.args) && ServerLogOk(c.logs, s) && LeaderLogOk(c.logs, c.elected, m.args.term);
    AcceptedLog(s, m.args);
    AppendKeepsAgreement(c.logs, s, m.args, g, k);
  }

  lemma AcceptedHolds(c: Cluster, m: AppendRequest, k: int)
    requires LogsInv(c) && m in c.appendRequests && m.to < |c.servers| && m.args.prevLogIndex >= 0
    requires Accepts(c.servers[m.to], m.args) && !Repeats(c.servers[m.to].log, m.args)
    requires 0 <= k <= m.args.prevLogIndex + |m.args.entries|
    ensures m.args.term in c.logs && Agree(AppendEntries(c.servers[m.to], m.args).0.log, c.logs[m.args.term], k)
  {
    var s := c.servers[m.to];
    assert MessageFrom(c.logs, m.args) && ServerLogOk(c.logs, s) && LeaderLogOk(c.logs, c.elected, m.args.term);
    AcceptedLog(s, m.args);
    AcceptedAgrees(c.logs, s, m.args);
    AgreeShorter(Appended(s, m.args).log, c.logs[m.args.term], m.args.prevLogIndex + |m.args.entries|, k);
  }

  /** What a step does to a server's log. */
  predicate LogMoved(c: Cluster, a: Action, v: nat, log': seq<LogEntry>)
    requires Enabled(c, a) && v < |c.servers|
  {
    if a.DeliverAppend? && a.appendRequest.to == v && Accepts(c.servers[v], a.appendRequest.args)
    then log' == AppendEntries(c.servers[v], a.appendRequest.args).0.log
    else c.servers[v].log <= log'
  }

  lemma LogMoves(c: Cluster, a: Action, v: nat)
    requires Enabled(c, a) && v < |c.servers|
    ensures |Step(c, a).servers| == |c.servers| && LogMoved(c, a, v, Step(c, a).servers[v].log)
  {
    if a.DeliverAppend? { RefusedLogStays(c.servers[a.appendRequest.to], a.appendRequest.args); }
  }

  lemma RefusedLogStays(s: Server, args: AppendArgs)
    requires args.prevLogIndex >= 0
    ensures !Accepts(s, args) ==> AppendEntries(s, args).0.log == s.log
  {}

  lemma DeliverIsPossible(c: Cluster, a: Action)
    requires Enabled(c, a) && Regular(c, a)
    ensures a.DeliverAppend? ==>
      && a.appendRequest in c.appendRequests
      && a.appendRequest.to < |c.servers| && a.appendRequest.args.prevLogIndex >= 0
      && (Accepts(c.servers[a.appendRequest.to], a.appendRequest.args) ==>
          !Repeats(c.servers[a.appendRequest.to].log, a.appendRequest.args))
  {}

  lemma OldAckStays(n: nat, c: Cluster, a: Action, v: nat, log': seq<LogEntry>, t: int, k: int)
    requires Ready(n, c, a) && v < n && LogMoved(c, a, v, log')
    requires Made(c.logs, t, k) && Acked(c, v, t, k) && !Lost(c, t, k) && Agree(c.servers[v].log, c.logs[t], k)
    ensures Agree(log', c.logs[t], k)
  {
    DeliverIsPossible(c, a);
    if a.DeliverAppend? && a.appendRequest.to == v && Accepts(c.servers[v], a.appendRequest.args) {
      AppendStays(n, c, a.appendRequest, t, k);
    } else {
      AgreeGrowsLeft(c.servers[v].log, log', c.logs[t], k);
    }
  }

  lemma OldAckHolds(n: nat, c: Cluster, a: Action, c': Cluster, v: nat, t: int, k: int)
    requires Ready(n, c, a) && Later(c, c') && v < n && LogMoved(c, a, v, c'.servers[v].log) && Made(c.logs, t, k)
    requires Acked(c, v, t, k)
    ensures Made(c'.logs, t, k) && Holds(c', c'.servers[v].log, t, k)
  {
    MadeStays(c.logs, c'.logs, t, k);
    assert Holds(c, c.servers[v].log, t, k);
    if Lost(c, t, k) {
      LostStays(c, c', t, k);
    } else {
      OldAckStays(n, c, a, v, c'.servers[v].log, t, k);
      AgreeGrows(c'.servers[v].log, c.logs[t], c'.logs[t], k);
    }
  }

  lemma AppendStays(n: nat, c: Cluster, m: AppendRequest, t: int, k: int)
    requires Inv(n, c) && LogsInv(c) && LeadersHold(c) && AcksInTerm(c) && m in c.appendRequests && m.to < n
    requires m.args.prevLogIndex >= 0
    requires Accepts(c.servers[m.to], m.args) && !Repeats(c.servers[m.to].log, m.args)
    requires Made(c.logs, t, k) && Acked(c, m.to, t, k) && !Lost(c, t, k) && Agree(c.servers[m.to].log, c.logs[t], k)
    ensures Agree(AppendEntries(c.servers[m.to], m.args).0.log, c.logs[t], k)
  {
    MessageTermIsLed(c, m);
    SenderAgrees(n, c, m, t, k);
    AppendHolds(c, m, c.logs[t], k);
  }

  lemma MessageTermIsLed(c: Cluster, m: AppendRequest)
    requires LogsInv(c) && m in c.appendRequests
    ensures m.args.term in c.logs
  {
    assert MessageFrom(c.logs, m.args);
  }

  /** The step is the acceptance that `m` acknowledges. */
  predicate AcceptedNow(c: Cluster, a: Action, m: AppendAnswer)
    requires Enabled(c, a)
  {
    && a.DeliverAppend? && a.appendRequest == AppendRequest(m.from, m.args)
    && m.from < |c.servers| && Accepts(c.servers[m.from], m.args)
  }

  /** Who acknowledges anything in this step. */
  ghost predicate AcksNow(c: Cluster, a: Action, c': Cluster)
    requires Enabled(c, a)
  {
    && (c'.elected == c.elected || CrownsNow(c, a, c'.elected))
    && forall m {:trigger m in c'.appendAnswers} ::
        m in c'.appendAnswers && m !in c.appendAnswers && m.reply.success ==> AcceptedNow(c, a, m)
  }

  lemma StepAcksNow(n: nat, c: Cluster, a: Action)
    requires Inv(n, c) && Enabled(c, a)
    ensures AcksNow(c, a, Step(c, a))
  {
    OnlyElectionsCrown(n, c, a);
    var c' := Step(c, a);
    forall m | m in c'.appendAnswers && m !in c.appendAnswers && m.reply.success
      ensures AcceptedNow(c, a, m)
    {
      NewAcksAreNow(c, a, m);
    }
  }

  lemma NewAckHolds(n: nat, c: Cluster, a: Action, c': Cluster, v: nat, t: int, k: int)
    requires Ready(n, c, a) && AcksNow(c, a, c') && v < n == |c'.servers| && LogMoved(c, a, v, c'.servers[v].log)
    requires Made(c.logs, t, k) && Acked(c', v, t, k) && !Acked(c, v, t, k)
    ensures Agree(c'.servers[v].log, c.logs[t], k)
  {
    var m := NewAckIsAcceptance(n, c, a, c', v, t, k);
    DeliverIsPossible(c, a);
    AcceptedHolds(c, a.appendRequest, k);
  }

  /** Nobody becomes leader of a term that has a log, so a new acknowledgement is an accepted append. */
  lemma NewAckIsAcceptance(n: nat, c: Cluster, a: Action, c': Cluster, v: nat, t: int, k: int) returns (m: AppendAnswer)
    requires InvInTerm(n, c) && LogsInv(c) && Enabled(c, a) && Regular(c, a) && AcksNow(c, a, c') && t in c.logs
    requires Acked(c', v, t, k) && !Acked(c, v, t, k)
    ensures AckOf(m, v, t, k) && AcceptedNow(c, a, m)
  {
    if Reign(t, v) in c'.elected { WinnerIsFirst(n, c, a.round); }
    m :| m in c'.appendAnswers && AckOf(m, v, t, k);
  }

  /** The proposer holds its new entry, and nobody else acknowledged it. */
  lemma ProposerHolds(n: nat, c: Cluster, a: Action, v: nat, t: int, k: int)
    requires Ready(n, c, a) && v < n && Made(Step(c, a).logs, t, k) && !Made(c.logs, t, k) && Acked(Step(c, a), v, t, k)
    ensures |Step(c, a).servers| == n && Agree(Step(c, a).servers[v].log, Step(c, a).logs[t], k)
    ensures c.servers[v].term == t
  {
    NewlyMade(n, c, a, t, k);
    ProposerIsAlone(n, c, a.server, a.command, v);
  }

  lemma NewlyMade(n: nat, c: Cluster, a: Action, t: int, k: int)
    requires Ready(n, c, a) && Made(Step(c, a).logs, t, k) && !Made(c.logs, t, k)
    ensures a.Propose? && a.server < n && c.servers[a.server].role == Leader
    ensures t == c.servers[a.server].term && k == |c.servers[a.server].log|
  {
    var logs' := Step(c, a).logs;
    LogsChange(n, c, a);
    if Crowns(c, a, logs') { ElectionMakesNothing(n, c, a, logs', t, k); }
    ProposalMakes(c, a, logs', t, k);
  }

  lemma ProposerIsAlone(n: nat, c: Cluster, i: nat, command: int, v: nat)
    requires InvInTerm(n, c) && LogsInv(c) && i < n && v < n && c.servers[i].role == Leader
    requires Acked(Step(c, Propose(i, command)), v, c.servers[i].term, |c.servers[i].log|)
    ensures v == i
    ensures Step(c, Propose(i, command)).servers[v].log == Step(c, Propose(i, command)).logs[c.servers[i].term]
    ensures |Step(c, Propose(i, command)).servers[v].log| == |c.servers[i].log| + 1
  {
    LeaderIsRecorded(n, c, i);
    ProposeChangesLittle(c, i, command);
    AloneIfSameAcks(n, c, Step(c, Propose(i, command)), i, v);
  }

  lemma LeaderIsRecorded(n: nat, c: Cluster, i: nat)
    requires Inv(n, c) && LogsInv(c) && i < n && c.servers[i].role == Leader
    ensures Reign(c.servers[i].term, i) in c.elected && c.servers[i].term in c.logs
    ensures c.logs[c.servers[i].term] == c.servers[i].log
  {
    assert ServerLogOk(c.logs, c.servers[i]) && Recorded(c.cast, c.elected, i, c.servers[i]);
  }

  lemma AloneIfSameAcks(n: nat, c: Cluster, c': Cluster, i: nat, v: nat)
    requires InvInTerm(n, c) && LogsInv(c) && i < n && v < n && c'.elected == c.elected
    requires c'.appendAnswers == c.appendAnswers
    requires Reign(c.servers[i].term, i) in c.elected && c.servers[i].term in c.logs
    requires c.logs[c.servers[i].term] == c.servers[i].log
    requires Acked(c', v, c.servers[i].term, |c.servers[i].log|)
    ensures v == i
  {
    assert Acked(c, v, c.servers[i].term, |c.servers[i].log|);
    NotYetAcked(n, c, i, v, c.servers[i].term, |c.servers[i].log|);
  }

  lemma StepKeepsServersHold(n: nat, c: Cluster, a: Action)
    requires Ready(n, c, a)
    ensures ServersHold(Step(c, a))
  {
    var c' := Step(c, a);
    StepIsLater(n, c, a);
    StepAcksNow(n, c, a);
    forall v: nat, t, k | v < n && Made(c'.logs, t, k) && Acked(c', v, t, k)
      ensures Holds(c', c'.servers[v].log, t, k)
    {
      LogMoves(c, a, v);
      if !Made(c.logs, t, k) {
        ProposerHolds(n, c, a, v, t, k);
      } else if Acked(c, v, t, k) {
        OldAckHolds(n, c, a, c', v, t, k);
      } else {
        NewAckHolds(n, c, a, c', v, t, k);
        AgreeGrows(c'.servers[v].log, c.logs[t], c'.logs[t], k);
      }
    }
  }

  // ---------- voters hold ----------

  lemma OldVoterHolds(n: nat, c: Cluster, a: Action, m: VoteAnswer)
    requires Ready(n, c, a) && VoterHolds(c, m)
    ensures VoterHolds(Step(c, a), m)
  {
    var c' := Step(c, a);
    StepIsLater(n, c, a);
    LogFromGrows(c.logs, c'.logs, m.log);
    forall t, k | t < m.args.term && Made(c'.logs, t, k) && Acked(c', m.from, t, k) ensures Holds(c', m.log, t, k) {
      if Made(c.logs, t, k) {
        HoldsStays(c, c', m.log, t, k);
      } else {
        ProposerHolds(n, c, a, m.from, t, k);
      }
    }
  }

  lemma GrantIsUpToDate(s: Server, args: VoteArgs)
    requires s.log != [] && RequestVote(s, args).1.granted
    ensures AtLeast(args, s.log) && RequestVote(s, args).0.term == args.term && RequestVote(s, args).0.log == s.log
  {}

  lemma NewVoterHolds(c': Cluster, m: VoteAnswer)
    requires LogsInv(c') && ServersHold(c') && m.from < |c'.servers| && c'.servers[m.from].term >= m.args.term
    requires m.log == c'.servers[m.from].log && m.log != [] && AtLeast(m.args, m.log)
    ensures VoterHolds(c', m)
  {
    assert ServerLogOk(c'.logs, c'.servers[m.from]);
    forall t, k | t < m.args.term && Made(c'.logs, t, k) && Acked(c', m.from, t, k) ensures Holds(c', m.log, t, k) {}
  }

  lemma StepKeepsVotersHold(n: nat, c: Cluster, a: Action)
    requires Ready(n, c, a) && ServersHold(Step(c, a))
    ensures VotersHold(Step(c, a))
  {
    var c' := Step(c, a);
    forall m | m in c'.voteAnswers && m.reply.granted ensures VoterHolds(c', m) {
      if m in c.voteAnswers {
        OldVoterHolds(n, c, a, m);
      } else {
        GrantIsUpToDate(c.servers[m.from], m.args);
        StepKeepsLogs(n, c, a);
        NewVoterHolds(c', m);
      }
    }
  }

  // ---------- rounds fit ----------

  /** A candidate that stays one in its term was one before, with the same log unless `led`. */
  predicate StaysCandidate(s: Server, s': Server, led: bool) {
    s'.role == Candidate && s'.term == s.term ==> s.role == Candidate && (s'.log == s.log || led)
  }

  lemma VotingKeepsCandidates(s: Server, i: nat, args: VoteArgs, reply: VoteReply)
    requires s.log != []
    ensures StaysCandidate(s, KickOff(s, i).0, false) && StaysCandidate(s, RequestVote(s, args).0, false)
    ensures StaysCandidate(s, VoteReplied(s, args, reply).0, false)
  {}

  lemma AppendKeepsCandidates(s: Server, args: AppendArgs)
    requires args.prevLogIndex >= 0
    ensures StaysCandidate(s, AppendEntries(s, args).0, args.term == s.term)
  {}

  lemma RepliedKeepsCandidates(s: Server, peer: nat, args: AppendArgs, reply: AppendReply)
    requires CanTake(s, peer)
    ensures StaysCandidate(s, AppendReplied(s, peer, args, reply).0, false)
  {}

  lemma MessageHadLeader(c: Cluster, m: AppendRequest)
    requires LogsInv(c) && m in c.appendRequests
    ensures HadLeader(c.elected, m.args.term)
  {
    assert MessageFrom(c.logs, m.args);
    assert LeaderLogOk(c.logs, c.elected, m.args.term);
  }

  lemma CandidateStays(c: Cluster, a: Action, i: nat)
    requires Enabled(c, a) && i < |c.servers| && (a.DeliverAppend? ==> HadLeader(c.elected, a.appendRequest.args.term))
    ensures |Step(c, a).servers| == |c.servers|
    ensures StaysCandidate(c.servers[i], Step(c, a).servers[i], HadLeader(c.elected, c.servers[i].term))
  {
    match a {
      case StartElection(j) => VotingKeepsCandidates(c.servers[j], j, VoteArgs(0, 0, 0, 0), VoteReply(0, false));
      case DeliverVoteRequest(m) => VotingKeepsCandidates(c.servers[m.to], m.to, m.args, VoteReply(0, false));
      case TakeVoteAnswer(r, m) =>
      case Collect(_) =>
      case Propose(_, _) =>
      case Send(_, _) =>
      case DeliverAppend(m) => AppendKeepsCandidates(c.servers[m.to], m.args);
      case TakeAppendAnswer(m) => RepliedKeepsCandidates(c.servers[m.args.leader], m.from, m.args, m.reply);
    }
  }

  lemma AnnouncedStays(n: nat, c: Cluster, a: Action, args: VoteArgs)
    requires InvInTerm(n, c) && LogsInv(c) && Enabled(c, a) && Announced(c, args)
    requires args.term <= c.servers[args.candidate].term
    ensures Announced(Step(c, a), args)
  {
    if a.DeliverAppend? { MessageHadLeader(c, a.appendRequest); }
    CandidateStays(c, a, args.candidate);
    StepAdvances(n, c, a, args.candidate);
    StepKeepsElected(c, a);
    forall t | HadLeader(c.elected, t) ensures HadLeader(Step(c, a).elected, t) {
      var i: nat :| Reign(t, i) in c.elected;
      assert Reign(t, i) in Step(c, a).elected;
    }
  }

  lemma KickOffAnnounces(n: nat, c: Cluster, i: nat)
    requires Inv(n, c) && i < n
    ensures Announced(OpenRound(c, i), KickOff(c.servers[i], i).1)
  {}

  /** Where the rounds of the next state come from. */
  lemma RoundsMove(c: Cluster, a: Action, r: nat)
    requires Enabled(c, a) && r < |Step(c, a).rounds|
    ensures var round' := Step(c, a).rounds[r];
      if r < |c.rounds| then
        round'.args == c.rounds[r].args &&
        (round'.granted == c.rounds[r].granted ||
          (a.TakeVoteAnswer? && a.voteAnswer.reply.granted
            && a.voteAnswer.args == round'.args && a.voteAnswer in c.voteAnswers
            && round'.granted == c.rounds[r].granted + {a.voteAnswer.from}))
      else
        a.StartElection? && round'.granted == {} && round'.args == KickOff(c.servers[a.server], a.server).1
  {}

  lemma AnswersStay(c: Cluster, a: Action)
    requires Enabled(c, a)
    ensures c.voteAnswers <= Step(c, a).voteAnswers && c.appendAnswers <= Step(c, a).appendAnswers
  {}

  lemma GrantsStay(c: Cluster, a: Action, v: nat, args: VoteArgs)
    requires Enabled(c, a) && GrantedBy(c, v, args)
    ensures GrantedBy(Step(c, a), v, args)
  {
    AnswersStay(c, a);
    var m :| m in c.voteAnswers && m.from == v && m.args == args && m.reply.granted;
    assert m in Step(c, a).voteAnswers;
  }

  lemma RoundStaysFit(n: nat, c: Cluster, a: Action, r: nat)
    requires Ready(n, c, a) && r < |c.rounds| && r < |Step(c, a).rounds|
    ensures RoundFits(Step(c, a), Step(c, a).rounds[r])
  {
    RoundsMove(c, a, r);
    var round, round' := c.rounds[r], Step(c, a).rounds[r];
    assert RoundFits(c, round) && RoundOk(c.servers, c.cast, round);
    AnnouncedStays(n, c, a, round.args);
    forall v | v in round'.granted ensures GrantedBy(Step(c, a), v, round'.args) {
      if v in round.granted { assert GrantedBy(c, v, round.args); }
      else { assert a.voteAnswer in c.voteAnswers; assert GrantedBy(c, v, round.args); }
      GrantsStay(c, a, v, round.args);
    }
  }

  lemma StepKeepsRoundsFit(n: nat, c: Cluster, a: Action)
    requires Ready(n, c, a)
    ensures RoundsFit(Step(c, a))
  {
    forall r: nat | r < |Step(c, a).rounds| ensures RoundFits(Step(c, a), Step(c, a).rounds[r]) {
      if r < |c.rounds| {
        RoundStaysFit(n, c, a, r);
      } else {
        RoundsMove(c, a, r);
        KickOffAnnounces(n, c, a.server);
      }
    }
  }

  lemma StepKeepsAcksInTerm(n: nat, c: Cluster, a: Action)
    requires Ready(n, c, a)
    ensures AcksInTerm(Step(c, a))
  {
    var c' := Step(c, a);
    forall m | m in c'.appendAnswers && m.reply.success
      ensures m.from < |c'.servers| && m.args.term <= c'.servers[m.from].term
    {
      if m in c.appendAnswers {
        StepAdvances(n, c, a, m.from);
      } else {
        NewAcksAreNow(c, a, m);
        AcceptorIsInTerm(c, a.appendRequest);
      }
    }
  }

  lemma AcceptorIsInTerm(c: Cluster, m: AppendRequest)
    requires Enabled(c, DeliverAppend(m)) && m.args.term >= c.servers[m.to].term
    ensures |AnswerAppend(c, m).servers| == |c.servers| && AnswerAppend(c, m).servers[m.to].term == m.args.term
  {}

  lemma StepKeepsHold(n: nat, c: Cluster, a: Action)
    requires Ready(n, c, a)
    ensures HoldInv(Step(c, a))
  {
    StepKeepsLeadersHold(n, c, a);
    StepKeepsServersHold(n, c, a);
    StepKeepsVotersHold(n, c, a);
    StepKeepsRoundsFit(n, c, a);
    StepKeepsAcksInTerm(n, c, a);
  }

  lemma {:induction false} RunKeepsHold(n: nat, run: seq<Action>)
    requires IsRun(n, run) && RegularRun(n, run)
    ensures InvInTerm(n, After(n, run)) && LogsInv(After(n, run)) && HoldInv(After(n, run))
    decreases |run|
  {
    RunKeepsLogs(n, run);
    if run != [] {
      var k := |run| - 1;
      RunKeepsHold(n, run[..k]);
      StepKeepsHold(n, After(n, run[..k]), run[k]);
    }
  }

  /** Leader Completeness: in every regular run, an entry that a majority acknowledged in the term it was
      made in is, with everything before it, in the log of every later leader. */
  lemma LeadersAreComplete(n: nat, run: seq<Action>, t: int, k: int, w: int)
    requires IsRun(n, run) && RegularRun(n, run) && Chosen(After(n, run), t, k) && t < w && w in After(n, run).logs
    ensures Agree(After(n, run).logs[w], After(n, run).logs[t], k)
  {
    RunKeepsHold(n, run);
    ChosenIsNotLost(After(n, run), t, k);
    LeaderHolds(After(n, run), w, t, k);
  }
}