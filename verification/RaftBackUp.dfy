/** A refused append makes progress: in a regular run the leader starts again strictly before the index that
    did not match, even when it jumps to its own last entry of the conflicting term. */
module RaftBackUp {
  import opened Raft
  import opened RaftCluster
  import opened RaftLogs
  import opened RaftSafety
  import opened RaftRules

  /** Refused in the append's own term because of the entry at the previous index. */
  predicate Mismatched(m: AppendAnswer) {
    !m.reply.success && m.reply.term == m.args.term && m.reply.conflictTerm != -1
  }

  /** The conflicting entry was made by the leader of its term, and is not of the term the append expected. */
  predicate ConflictKnown(logs: Logs, m: AppendAnswer) {
    Made(logs, m.reply.conflictTerm, m.args.prevLogIndex) && m.reply.conflictTerm != m.args.prevLogTerm
  }

  ghost predicate ConflictsKnown(c: Cluster) {
    forall m {:trigger m in c.appendAnswers} ::
      m in c.appendAnswers && Mismatched(m) ==> ConflictKnown(c.logs, m)
  }

  lemma NewConflictIsKnown(c: Cluster, m: AppendRequest, reply: AppendReply)
    requires m.to < |c.servers| && ServerLogOk(c.logs, c.servers[m.to])
    requires m.args.prevLogIndex >= 0 && (m.args.prevLogIndex == 0 ==> m.args.prevLogTerm == 0)
    requires reply == AppendEntries(c.servers[m.to], m.args).1 && Mismatched(AppendAnswer(m.to, m.args, reply))
    ensures ConflictKnown(c.logs, AppendAnswer(m.to, m.args, reply))
  {
    var log, p := c.servers[m.to].log, m.args.prevLogIndex;
    FollowsTheRule(c.servers[m.to], m.args);
    assert 1 <= p < |log|;
    assert EntryFrom(c.logs, log, p);
    AgreeAt(log, c.logs[log[p].term], p, p);
  }

  lemma NewAnswerIsDelivered(c: Cluster, a: Action, m: AppendAnswer)
    requires Enabled(c, a) && m in Step(c, a).appendAnswers && m !in c.appendAnswers
    ensures a == DeliverAppend(AppendRequest(m.from, m.args)) && m.from < |c.servers|
    ensures m.args.prevLogIndex >= 0 && m.reply == AppendEntries(c.servers[m.from], m.args).1
  {}

  lemma AnswerIsKnown(n: nat, c: Cluster, a: Action, m: AppendAnswer)
    requires Inv(n, c) && LogsInv(c) && ConflictsKnown(c) && Enabled(c, a)
    requires m in Step(c, a).appendAnswers && Mismatched(m)
    ensures ConflictKnown(c.logs, m)
  {
    if m !in c.appendAnswers {
      NewAnswerIsDelivered(c, a, m);
      var request := AppendRequest(m.from, m.args);
      assert AppendRequestOk(c.servers, c.elected, request);
      assert ServerLogOk(c.logs, c.servers[m.from]);
      NewConflictIsKnown(c, request, m.reply);
    }
  }

  lemma StepKeepsConflicts(n: nat, c: Cluster, a: Action)
    requires Inv(n, c) && LogsInv(c) && ConflictsKnown(c) && Enabled(c, a) && Grown(c.logs, Step(c, a).logs)
    ensures ConflictsKnown(Step(c, a))
  {
    forall m | m in Step(c, a).appendAnswers && Mismatched(m) ensures ConflictKnown(Step(c, a).logs, m) {
      AnswerIsKnown(n, c, a, m);
      MadeStays(c.logs, Step(c, a).logs, m.reply.conflictTerm, m.args.prevLogIndex);
    }
  }

  lemma {:induction false} RunKeepsConflicts(n: nat, run: seq<Action>)
    requires IsRun(n, run) && RegularRun(n, run)
    ensures ConflictsKnown(After(n, run))
    decreases |run|
  {
    if run != [] {
      var k := |run| - 1;
      var c := After(n, run[..k]);
      RunKeepsConflicts(n, run[..k]);
      RunKeepsLogs(n, run[..k]);
      StepKeepsLogs(n, c, run[k]);
      StepKeepsConflicts(n, c, run[k]);
    }
  }

  /** The leader has no entry of the conflicting term at or behind the index that did not match. */
  lemma ConflictIsEarlier(c: Cluster, m: AppendAnswer, log: seq<LogEntry>, q: nat)
    requires Mismatched(m) && ConflictKnown(c.logs, m) && MessageFrom(c.logs, m.args)
    requires LogFrom(c.logs, log) && m.args.term in c.logs && c.logs[m.args.term] == log
    requires 1 <= q < |log| && log[q].term == m.reply.conflictTerm
    ensures q < m.args.prevLogIndex
  {
    var t, p := m.reply.conflictTerm, m.args.prevLogIndex;
    assert EntryFrom(c.logs, log, q);
    AgreeAt(log, c.logs[t], q, p);
  }

  lemma NextIsEarlier(n: nat, c: Cluster, m: AppendAnswer, next: int)
    requires Inv(n, c) && LogsInv(c) && ConflictsKnown(c) && m in c.appendAnswers && m.args.leader < n
    requires !m.reply.success && m.reply.term == m.args.term == c.servers[m.args.leader].term
    requires c.servers[m.args.leader].role == Leader && StartsAgain(c.servers[m.args.leader].log, m.reply, next)
    ensures 1 <= next <= m.args.prevLogIndex
  {
    var s := c.servers[m.args.leader];
    assert AppendAnswerOk(c.appendRequests, m);
    assert AppendRequest(m.from, m.args) in c.appendRequests;
    assert MessageFrom(c.logs, m.args) && ServerLogOk(c.logs, s) && ServerOk(n, m.args.leader, s);
    if m.reply.conflictTerm != 0 && HasTerm(s.log, m.reply.conflictTerm) {
      assert next - 1 >= 1 && s.log[next - 1].term >= 0 by { TermsArePlausible(s.log, next - 1); }
      ConflictIsEarlier(c, m, s.log, next - 1);
    }
  }

  lemma TermsArePlausible(log: seq<LogEntry>, k: int)
    requires LogOk(log) && 0 <= k < |log|
    ensures log[k].term >= 0 && (log[k].term == 0 ==> k == 0) && (k == 0 ==> log[k].term == 0)
  {
    if k > 0 { assert log[1..][k - 1] == log[k]; }
  }

  /** In every regular run, taking a refusal of the leader's own term leaves its nextIndex for the peer between
      1 and the refused previous index, so the next append to that peer starts strictly earlier. */
  lemma RefusalsMakeProgress(n: nat, run: seq<Action>, m: AppendAnswer)
    requires IsRun(n, run) && RegularRun(n, run) && m in After(n, run).appendAnswers && !m.reply.success
    requires m.args.leader < |After(n, run).servers|
    requires m.reply.term == m.args.term == After(n, run).servers[m.args.leader].term
    ensures Enabled(After(n, run), TakeAppendAnswer(m))
    ensures var s' := Step(After(n, run), TakeAppendAnswer(m)).servers[m.args.leader];
      m.from < |s'.nextIndex| && 1 <= s'.nextIndex[m.from] <= m.args.prevLogIndex
  {
    AppendAnswersAreTaken(n, run, m);
    RunKeepsLogs(n, run);
    RunKeepsConflicts(n, run);
    var c := After(n, run);
    var s' := Step(c, TakeAppendAnswer(m)).servers[m.args.leader];
    SenderStillLeads(n, c, m);
    NextIsEarlier(n, c, m, s'.nextIndex[m.from]);
  }

  lemma SenderStillLeads(n: nat, c: Cluster, m: AppendAnswer)
    requires Inv(n, c) && m in c.appendAnswers && m.args.leader < n
    requires m.args.term == c.servers[m.args.leader].term
    ensures c.servers[m.args.leader].role == Leader
  {
    assert AppendAnswerOk(c.appendRequests, m);
    assert AppendRequestOk(c.servers, c.elected, AppendRequest(m.from, m.args));
    assert Reign(m.args.term, m.args.leader) in c.elected;
  }
}
