/** The Raft object of raft.go: its fields, and each lock-held section as a method proved against the
    function that specifies it. */
module RaftServer {
  import R = Raft

  class Raft {
    const me: nat
    const peers: nat
    var currentTerm: int
    var votedFor: int
    var state: R.Role
    var log: seq<R.LogEntry>
    var commitIndex: int
    var nextIndex: seq<int>
    var matchIndex: seq<int>

    function View(): R.Server
      reads this
    {
      R.Server(currentTerm, votedFor, state, log, commitIndex, nextIndex, matchIndex)
    }

    /** Make, without persistence. */
    constructor (peers: nat, me: nat)
      requires me < peers
      ensures View() == R.Initial(peers) && this.peers == peers && this.me == me
    {
      this.peers, this.me := peers, me;
      currentTerm, votedFor, state := 0, R.NOBODY, R.Follower;
      log := [R.LogEntry(0, 0)];
      commitIndex := 0;
      nextIndex, matchIndex := seq(peers, _ => 0), seq(peers, _ => 0);
    }

    method ConvertToFollower(term: int)
      modifies this
      ensures View() == R.ToFollower(old(View()), term)
    {
      state := R.Follower;
      currentTerm := term;
      votedFor := R.NOBODY;
    }

    method KickOffElection() returns (args: R.VoteArgs)
      requires log != []
      modifies this
      ensures (View(), args) == R.KickOff(old(View()), me)
    {
      currentTerm := currentTerm + 1;
      state := R.Candidate;
      votedFor := me;
      args := R.VoteArgs(currentTerm, me, |log| - 1, log[|log| - 1].term);
    }

    method RequestVote(args: R.VoteArgs) returns (reply: R.VoteReply)
      requires log != []
      modifies this
      ensures (View(), reply) == R.RequestVote(old(View()), args)
    {
      if args.term < currentTerm {
        return R.VoteReply(currentTerm, false);
      }
      if args.term > currentTerm {
        votedFor := R.NOBODY;
        currentTerm := args.term;
        state := R.Follower;
      }
      if votedFor == R.NOBODY || votedFor == args.candidate {
        if args.lastLogTerm > log[|log| - 1].term ||
           (args.lastLogTerm == log[|log| - 1].term && args.lastLogIndex >= |log| - 1) {
          currentTerm := args.term;
          votedFor := args.candidate;
          state := R.Follower;
          return R.VoteReply(currentTerm, true);
        }
      }
      return R.VoteReply(currentTerm, false);
    }

    /** handleRequestVote after its call returned; `push` tells whether the vote goes into the channel. */
    method HandleRequestVote(args: R.VoteArgs, reply: R.VoteReply) returns (push: bool)
      modifies this
      ensures (View(), push) == R.VoteReplied(old(View()), args, reply)
    {
      if state != R.Candidate || currentTerm != args.term {
        return false;
      }
      if reply.term > currentTerm {
        ConvertToFollower(reply.term);
        return false;
      }
      return true;
    }

    method ConvertToLeader()
      modifies this
      ensures View() == R.BecomeLeader(old(View()), peers)
    {
      state := R.Leader;
      nextIndex, matchIndex := seq(peers, _ => 0), seq(peers, _ => 0);
      var lastIndex := |log| - 1;
      for server := 0 to peers
        invariant |nextIndex| == |matchIndex| == peers
        invariant forall j :: 0 <= j < server ==> nextIndex[j] == |log| && matchIndex[j] == 0
        invariant log == old(log) && currentTerm == old(currentTerm) && votedFor == old(votedFor)
        invariant state == R.Leader && commitIndex == old(commitIndex)
      {
        nextIndex := nextIndex[server := lastIndex + 1];
        matchIndex := matchIndex[server := 0];
      }
      assert nextIndex == R.BecomeLeader(old(View()), peers).nextIndex;
      assert matchIndex == R.BecomeLeader(old(View()), peers).matchIndex;
    }

    /** One iteration of collectVotes: count the vote, then look at the state, but not at the term. */
    method CollectVote(vote: bool, votesReceived: nat) returns (votes: nat, done: bool)
      modifies this
      ensures votes == if vote then votesReceived + 1 else votesReceived
      ensures old(state) == R.Candidate && votes > peers / 2 ==> done && View() == R.BecomeLeader(old(View()), peers)
      ensures old(state) != R.Candidate || votes <= peers / 2 ==>
        done == (old(state) != R.Candidate) && View() == old(View())
    {
      votes := if vote then votesReceived + 1 else votesReceived;
      if state != R.Candidate {
        return votes, true;
      }
      if votes > peers / 2 {
        ConvertToLeader();
        return votes, true;
      }
      return votes, false;
    }

    method Start(command: int) returns (index: int, term: int, isLeader: bool)
      modifies this
      ensures View() == R.Propose(old(View()), command)
      ensures term == old(currentTerm) && isLeader == (old(state) == R.Leader)
      ensures if isLeader then index == |old(log)| && log[index] == R.LogEntry(command, term) else index == -1
    {
      if state != R.Leader {
        return -1, currentTerm, false;
      }
      log := log + [R.LogEntry(command, currentTerm)];
      return |log| - 1, currentTerm, true;
    }

    /** One pass of SendHeartBeats: what is sent to every other peer. */
    method SendHeartBeats() returns (sent: map<nat, R.AppendArgs>)
      requires forall i: nat :: i < peers && i != me ==> R.CanSend(View(), i)
      ensures forall i: nat :: i in sent <==> i < peers && i != me
      ensures forall i: nat :: i in sent ==> R.CanSend(View(), i) && sent[i] == R.Heartbeat(View(), me, i)
    {
      sent := map[];
      for i := 0 to peers
        invariant forall j: nat :: j in sent <==> j < i && j != me
        invariant forall j: nat :: j in sent ==> R.CanSend(View(), j) && sent[j] == R.Heartbeat(View(), me, j)
      {
        if i != me {
          assert R.CanSend(View(), i);
          var next := nextIndex[i];
          var args := R.AppendArgs(currentTerm, me, next - 1, log[next - 1].term, [], commitIndex);
          if |log| - 1 >= next {
            args := args.(entries := log[next..]);
          }
          sent := sent[i := args];
        }
      }
    }

    /** The search for the first index of the conflicting term, downwards from the mismatch. */
    method FirstOfTerm(i: nat, term: int) returns (r: int)
      requires i < |log|
      ensures r == R.ConflictIndex(log, i, term)
    {
      var k: int := i;
      r := 0;
      while k >= 0
        invariant -1 <= k <= i && r == 0
        invariant R.ConflictIndex(log, i, term) == R.ConflictIndex(log, k, term)
      {
        if log[k].term != term {
          return k + 1;
        }
        k := k - 1;
      }
    }

    method AppendEntries(args: R.AppendArgs) returns (reply: R.AppendReply)
      requires args.prevLogIndex >= 0
      modifies this
      ensures (View(), reply) == R.AppendEntries(old(View()), args)
    {
      if args.term < currentTerm {
        return R.AppendReply(currentTerm, false, 0, 0);
      }
      if args.term > currentTerm {
        currentTerm := args.term;
        votedFor := R.NOBODY;
        state := R.Follower;
      }
      if args.prevLogIndex >= |log| {
        return R.AppendReply(currentTerm, false, |log|, -1);
      }
      if log[args.prevLogIndex].term != args.prevLogTerm {
        var conflictTerm := log[args.prevLogIndex].term;
        var conflictIndex := FirstOfTerm(args.prevLogIndex, conflictTerm);
        return R.AppendReply(currentTerm, false, conflictIndex, conflictTerm);
      }
      Append(args);
      return R.AppendReply(currentTerm, true, 0, 0);
    }

    method Append(args: R.AppendArgs)
      requires 0 <= args.prevLogIndex < |log|
      modifies this
      ensures View() == R.Appended(old(View()), args)
    {
      var next := args.prevLogIndex + 1;
      if args.entries != [] && |log| > next && log[next].term != args.entries[0].term {
        log := log[..next];
      }
      log := log + args.entries;
      if args.leaderCommit > commitIndex {
        commitIndex := if args.leaderCommit < |log| - 1 then args.leaderCommit else |log| - 1;
      }
    }

    /** The inner loop of the commit rule: count the holders of entry `n` until they are a majority. */
    method CountHolders(n: int) returns (majority: bool)
      requires 0 <= n < |log| && |matchIndex| == peers
      ensures majority == R.Committable(View(), peers, n)
    {
      var count := 1;
      for i := 0 to peers
        invariant count == 1 + if log[n].term == currentTerm then R.Holders(matchIndex, n, i) else 0
        invariant count > 1 ==> count <= peers / 2
      {
        if matchIndex[i] >= n && log[n].term == currentTerm {
          count := count + 1;
          if count > peers / 2 {
            HoldersGrow(matchIndex, n, i + 1, peers);
            return true;
          }
        }
      }
      return false;
    }

    method AdvanceCommit()
      requires |matchIndex| == peers && commitIndex >= 0
      modifies this
      ensures View() == old(View()).(commitIndex := R.CommitFrom(old(View()), peers, |old(log)| - 1))
    {
      var n := |log| - 1;
      ghost var s := View();
      ghost var done := false;
      while n > commitIndex
        invariant n < |log| && |matchIndex| == peers
        invariant View() == s.(commitIndex := commitIndex)
        invariant done ==> commitIndex == R.CommitFrom(s, peers, |s.log| - 1) && n < commitIndex
        invariant !done ==> View() == s && R.CommitFrom(s, peers, |s.log| - 1) == R.CommitFrom(s, peers, n)
      {
        var majority := CountHolders(n);
        if majority {
          commitIndex := n;
          done := true;
        }
        n := n - 1;
      }
    }

    /** The leader's search for its own last entry of the conflicting term. */
    method LastOfTerm(term: int) returns (r: int)
      ensures r == R.LastOfTerm(log, |log| - 1, term)
    {
      var i := |log| - 1;
      r := -1;
      while i >= 0
        invariant -1 <= i < |log| && r == -1
        invariant R.LastOfTerm(log, |log| - 1, term) == R.LastOfTerm(log, i, term)
      {
        if log[i].term == term {
          return i;
        }
        i := i - 1;
      }
    }

    /** handleAppendEntries after its call returned; `unlocked` tells whether it gives the lock back. */
    method HandleAppendEntries(peer: nat, args: R.AppendArgs, reply: R.AppendReply) returns (unlocked: bool)
      requires peer < peers == |nextIndex| == |matchIndex| && commitIndex >= 0
      modifies this
      ensures (View(), unlocked) == R.AppendReplied(old(View()), peer, args, reply)
    {
      if args.term != currentTerm {
        return true;
      }
      if reply.success {
        matchIndex := matchIndex[peer := args.prevLogIndex + |args.entries|];
        nextIndex := nextIndex[peer := matchIndex[peer] + 1];
        AdvanceCommit();
        return true;
      }
      if reply.term > currentTerm {
        ConvertToFollower(reply.term);
        return true;
      }
      if reply.term == currentTerm && state == R.Leader {
        BackUp(peer, reply);
        return true;
      }
      return false;
    }

    method BackUp(peer: nat, reply: R.AppendReply)
      requires peer < |nextIndex|
      modifies this
      ensures View() == R.BackUp(old(View()), peer, reply)
    {
      if reply.conflictTerm != 0 {
        var conflictIndex := LastOfTerm(reply.conflictTerm);
        if conflictIndex != -1 {
          nextIndex := nextIndex[peer := conflictIndex + 1];
        } else {
          nextIndex := nextIndex[peer := reply.conflictIndex];
        }
      } else {
        nextIndex := nextIndex[peer := reply.conflictIndex];
      }
    }
  }

  lemma {:induction false} HoldersGrow(matchIndex: seq<int>, n: int, i: nat, j: nat)
    requires i <= j <= |matchIndex|
    ensures R.Holders(matchIndex, n, i) <= R.Holders(matchIndex, n, j)
    decreases j
  {
    if i < j { HoldersGrow(matchIndex, n, i, j - 1); }
  }
}
