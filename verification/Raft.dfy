/** One Raft server: what each lock-held section of raft.go does to its state. */
module Raft {

  datatype Role = Follower | Candidate | Leader

  datatype LogEntry = LogEntry(command: int, term: int)

  datatype Server = Server(
    term: int, votedFor: int, role: Role, log: seq<LogEntry>,
    commitIndex: int, nextIndex: seq<int>, matchIndex: seq<int>)

  datatype VoteArgs = VoteArgs(term: int, candidate: nat, lastLogIndex: int, lastLogTerm: int)
  datatype VoteReply = VoteReply(term: int, granted: bool)

  datatype AppendArgs = AppendArgs(
    term: int, leader: nat, prevLogIndex: int, prevLogTerm: int, entries: seq<LogEntry>, leaderCommit: int)
  datatype AppendReply = AppendReply(term: int, success: bool, conflictIndex: int, conflictTerm: int)

  const NOBODY := -1

  function Initial(n: nat): Server {
    Server(0, NOBODY, Follower, [LogEntry(0, 0)], 0, seq(n, _ => 0), seq(n, _ => 0))
  }

  function LastIndex(s: Server): int {
    |s.log| - 1
  }

  function LastTerm(s: Server): int
    requires s.log != []
  {
    s.log[|s.log| - 1].term
  }

  function ToFollower(s: Server, term: int): Server {
    s.(role := Follower, term := term, votedFor := NOBODY)
  }

  // ---------- elections ----------

  function KickOff(s: Server, me: nat): (Server, VoteArgs)
    requires s.log != []
  {
    var s' := s.(term := s.term + 1, role := Candidate, votedFor := me);
    (s', VoteArgs(s'.term, me, LastIndex(s'), LastTerm(s')))
  }

  /** The candidate's log is at least as up-to-date as the server's. */
  predicate UpToDate(s: Server, args: VoteArgs)
    requires s.log != []
  {
    args.lastLogTerm > LastTerm(s) || (args.lastLogTerm == LastTerm(s) && args.lastLogIndex >= LastIndex(s))
  }

  function RequestVote(s: Server, args: VoteArgs): (Server, VoteReply)
    requires s.log != []
  {
    if args.term < s.term then (s, VoteReply(s.term, false))
    else
      var s1 := if args.term > s.term then s.(votedFor := NOBODY, term := args.term, role := Follower) else s;
      if (s1.votedFor == NOBODY || s1.votedFor == args.candidate) && UpToDate(s1, args) then
        var s2 := s1.(term := args.term, votedFor := args.candidate, role := Follower);
        (s2, VoteReply(s2.term, true))
      else (s1, VoteReply(s1.term, false))
  }

  /** What a reply to a vote request does: the state, and whether the vote goes into the round's channel. */
  function VoteReplied(s: Server, args: VoteArgs, reply: VoteReply): (Server, bool) {
    if s.role != Candidate || s.term != args.term then (s, false)
    else if reply.term > s.term then (ToFollower(s, reply.term), false)
    else (s, true)
  }

  function BecomeLeader(s: Server, n: nat): Server {
    s.(role := Leader, nextIndex := seq(n, _ => |s.log|), matchIndex := seq(n, _ => 0))
  }

  // ---------- replication ----------

  function Propose(s: Server, command: int): Server {
    if s.role != Leader then s else s.(log := s.log + [LogEntry(command, s.term)])
  }

  /** The read of log[nextIndex-1] when the leader sends to `peer` is in bounds. */
  predicate CanSend(s: Server, peer: nat) {
    peer < |s.nextIndex| && 1 <= s.nextIndex[peer] <= |s.log|
  }

  function Heartbeat(s: Server, me: nat, peer: nat): AppendArgs
    requires CanSend(s, peer)
  {
    var next := s.nextIndex[peer];
    var entries := if |s.log| - 1 >= next then s.log[next..] else [];
    AppendArgs(s.term, me, next - 1, s.log[next - 1].term, entries, s.commitIndex)
  }

  /** One past the last entry at or before `i` whose term is not `term`, or 0. */
  function ConflictIndex(log: seq<LogEntry>, i: int, term: int): (r: int)
    requires i < |log|
    ensures 0 <= r && (i < 0 ==> r == 0) && (0 <= i ==> r <= i + 1)
    decreases i + 1
  {
    if i < 0 then 0 else if log[i].term != term then i + 1 else ConflictIndex(log, i - 1, term)
  }

  predicate Matches(s: Server, args: AppendArgs)
    requires args.prevLogIndex >= 0
  {
    args.prevLogIndex < |s.log| && s.log[args.prevLogIndex].term == args.prevLogTerm
  }

  function Rejection(s: Server, args: AppendArgs): AppendReply
    requires args.prevLogIndex >= 0
  {
    if args.prevLogIndex >= |s.log| then AppendReply(s.term, false, |s.log|, -1)
    else
      var term := s.log[args.prevLogIndex].term;
      AppendReply(s.term, false, ConflictIndex(s.log, args.prevLogIndex, term), term)
  }

  function Min(a: int, b: int): int {
    if a < b then a else b
  }

  /** The log without its entries from the first new one on, if that one conflicts. */
  function Kept(log: seq<LogEntry>, args: AppendArgs): seq<LogEntry>
    requires 0 <= args.prevLogIndex < |log|
  {
    var next := args.prevLogIndex + 1;
    if args.entries != [] && |log| > next && log[next].term != args.entries[0].term then log[..next] else log
  }

  function Appended(s: Server, args: AppendArgs): Server
    requires 0 <= args.prevLogIndex < |s.log|
  {
    var log := Kept(s.log, args) + args.entries;
    var commitIndex :=
      if args.leaderCommit > s.commitIndex then Min(args.leaderCommit, |log| - 1) else s.commitIndex;
    s.(log := log, commitIndex := commitIndex)
  }

  function AppendEntries(s: Server, args: AppendArgs): (Server, AppendReply)
    requires args.prevLogIndex >= 0
  {
    if args.term < s.term then (s, AppendReply(s.term, false, 0, 0))
    else
      var s1 := if args.term > s.term then s.(term := args.term, votedFor := NOBODY, role := Follower) else s;
      if !Matches(s1, args) then (s1, Rejection(s1, args))
      else (Appended(s1, args), AppendReply(s1.term, true, 0, 0))
  }

  /** How many of the first `i` peers hold entry `n` as far as the leader knows. */
  function Holders(matchIndex: seq<int>, n: int, i: nat): nat
    requires i <= |matchIndex|
  {
    if i == 0 then 0 else Holders(matchIndex, n, i - 1) + if matchIndex[i - 1] >= n then 1 else 0
  }

  /** The counting loop finds a majority for entry `n`: one for the leader and one for each holder, and
      it only looks at the count after counting a holder. */
  predicate Committable(s: Server, peers: nat, n: int)
    requires 0 <= n < |s.log| && |s.matchIndex| == peers
  {
    s.log[n].term == s.term && Holders(s.matchIndex, n, peers) >= 1 && 1 + Holders(s.matchIndex, n, peers) > peers / 2
  }

  /** The commit index after looking at the entries `n`, n - 1, ... down to the old one. */
  function CommitFrom(s: Server, peers: nat, n: int): int
    requires n < |s.log| && |s.matchIndex| == peers && s.commitIndex >= 0
    decreases n
  {
    if n <= s.commitIndex then s.commitIndex
    else if Committable(s, peers, n) then n
    else CommitFrom(s, peers, n - 1)
  }

  /** The last index at or before `i` whose entry has the term, or -1. */
  function LastOfTerm(log: seq<LogEntry>, i: int, term: int): (r: int)
    requires i < |log|
    ensures -1 <= r < |log| && (r >= 0 ==> log[r].term == term)
    decreases i + 1
  {
    if i < 0 then -1 else if log[i].term == term then i else LastOfTerm(log, i - 1, term)
  }

  function BackUp(s: Server, peer: nat, reply: AppendReply): Server
    requires peer < |s.nextIndex|
  {
    var found := if reply.conflictTerm != 0 then LastOfTerm(s.log, |s.log| - 1, reply.conflictTerm) else -1;
    s.(nextIndex := s.nextIndex[peer := if found != -1 then found + 1 else reply.conflictIndex])
  }

  /** What a reply to an append does: the state, and whether the handler gives the lock back. */
  function AppendReplied(s: Server, peer: nat, args: AppendArgs, reply: AppendReply): (Server, bool)
    requires peer < |s.nextIndex| == |s.matchIndex| && s.commitIndex >= 0
  {
    if args.term != s.term then (s, true)
    else if reply.success then
      var m := args.prevLogIndex + |args.entries|;
      var s1 := s.(matchIndex := s.matchIndex[peer := m], nextIndex := s.nextIndex[peer := m + 1]);
      (s1.(commitIndex := CommitFrom(s1, |s1.matchIndex|, |s1.log| - 1)), true)
    else if reply.term > s.term then (ToFollower(s, reply.term), true)
    else if reply.term == s.term && s.role == Leader then (BackUp(s, peer, reply), true)
    else (s, false)
  }
}
