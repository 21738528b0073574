/** The at-most-once key/value server: its handlers and its table of answered requests. */
module KvServer {
  import opened KvModel

  /** The last answered request of a client. */
  datatype DupTable = DupTable(seqNum: int, value: string)

  datatype Server<K> = Server(data: map<K, string>, table: map<int, DupTable>)

  datatype Call<K> = Get(key: K) | Put(key: K, value: string) | Append(key: K, value: string)

  function Recorded<K>(s: Server<K>, client: int): DupTable {
    if client in s.table then s.table[client] else DupTable(-1, "")
  }

  function GetStep<K(==)>(s: Server<K>, key: K, client: int, seqNum: int): (Server<K>, string) {
    if client !in s.table then (s, Lookup(s.data, key))
    else if s.table[client].seqNum == seqNum then (s, s.table[client].value)
    else
      var value := Lookup(s.data, key);
      (s.(table := s.table[client := DupTable(seqNum, value)]), value)
  }

  function PutStep<K(==)>(s: Server<K>, key: K, value: string, client: int, seqNum: int): (Server<K>, string) {
    if client !in s.table then (s.(data := s.data[key := value]), "")
    else if s.table[client].seqNum == seqNum then (s, "")
    else (Server(s.data[key := value], s.table[client := DupTable(seqNum, "")]), "")
  }

  function AppendStep<K(==)>(s: Server<K>, key: K, value: string, client: int, seqNum: int): (Server<K>, string) {
    var dt := Recorded(s, client);
    if dt.seqNum == seqNum then (s.(table := s.table[client := dt]), dt.value)
    else
      var was := Lookup(s.data, key);
      (Server(s.data[key := was + value], s.table[client := DupTable(seqNum, was)]), was)
  }

  /** What the server does with one request. */
  function Handle<K(==)>(s: Server<K>, call: Call<K>, client: int, seqNum: int): (Server<K>, string) {
    match call
    case Get(key) => GetStep(s, key, client, seqNum)
    case Put(key, value) => PutStep(s, key, value, client, seqNum)
    case Append(key, value) => AppendStep(s, key, value, client, seqNum)
  }

  class KVServer {
    var data: map<string, string>
    var clientTable: map<int, DupTable>

    constructor ()
      ensures View() == Server(map[], map[])
    {
      data, clientTable := map[], map[];
    }

    ghost function View(): Server<string>
      reads this
    {
      Server(data, clientTable)
    }

    method Get(key: string, client: int, seqNum: int) returns (value: string)
      modifies this
      ensures (View(), value) == GetStep(old(View()), key, client, seqNum)
    {
      if client !in clientTable {
        value := Lookup(data, key);
        return;
      }
      var dt := clientTable[client];
      if dt.seqNum == seqNum {
        value := dt.value;
        return;
      }
      dt := DupTable(seqNum, Lookup(data, key));
      clientTable := clientTable[client := dt];
      value := dt.value;
    }

    method Put(key: string, value: string, client: int, seqNum: int) returns (reply: string)
      modifies this
      ensures (View(), reply) == PutStep(old(View()), key, value, client, seqNum)
    {
      reply := "";
      if client !in clientTable {
        data := data[key := value];
        return;
      }
      var dt := clientTable[client];
      if dt.seqNum == seqNum {
        return;
      }
      clientTable := clientTable[client := DupTable(seqNum, "")];
      data := data[key := value];
    }

    method Append(key: string, value: string, client: int, seqNum: int) returns (reply: string)
      modifies this
      ensures (View(), reply) == AppendStep(old(View()), key, value, client, seqNum)
    {
      if client !in clientTable {
        clientTable := clientTable[client := DupTable(-1, "")];
      }
      var dt := clientTable[client];
      assert old(clientTable)[client := dt] == clientTable;
      if dt.seqNum == seqNum {
        reply := dt.value;
        return;
      }
      dt := DupTable(seqNum, Lookup(data, key));
      clientTable := clientTable[client := dt];
      assert old(clientTable)[client := dt] == clientTable;
      reply := dt.value;
      data := data[key := Lookup(data, key) + value];
    }
  }
}

/** The clerk's retry loops, alone with the server. */
module KvClerk {
  import opened KvModel
  import opened KvServer

  /** What the network does with one attempt. */
  datatype Outcome = LostRequest | LostReply | Delivered

  /** Handling a request again at once gives the same reply and changes nothing. */
  lemma HandleIsIdempotent<K(!new)>(s: Server<K>, call: Call<K>, client: int, seqNum: int)
    ensures Handle(Handle(s, call, client, seqNum).0, call, client, seqNum) == Handle(s, call, client, seqNum)
  {
    var (s', value) := Handle(s, call, client, seqNum);
    assert client in s'.table ==> s'.table[client := s'.table[client]] == s'.table;
    assert call.Put? && client !in s.table ==> s'.data[call.key := call.value] == s'.data;
  }

  /** The servers have the same entry, or none, for the client. */
  predicate SameEntry<K(==)>(s: Server<K>, t: Server<K>, client: int) {
    && (client in s.table <==> client in t.table)
    && (client in s.table ==> s.table[client] == t.table[client])
  }

  /** Whatever the server did for others since the first execution led to `s'`, the request handled again
      changes nothing and gets the first reply. */
  ghost predicate Absorbed<K(!new)>(s': Server<K>, reply: string, call: Call<K>, client: int, seqNum: int) {
    forall t: Server<K> {:trigger Handle(t, call, client, seqNum)} ::
      SameEntry(s', t, client) ==> Handle(t, call, client, seqNum) == (t, reply)
  }

  /** A server that differs from `s` in the value of one key. */
  function WithOther<K(==)>(s: Server<K>, key: K, a: string): (t: Server<K>)
    ensures Lookup(t.data, key) != Lookup(s.data, key) && Lookup(t.data, key) != a && t.table == s.table
  {
    var other := Lookup(s.data, key) + a + "x";
    assert |other| > |Lookup(s.data, key)| && |other| > |a|;
    s.(data := s.data[key := other])
  }

  /** A retried request is absorbed exactly if the client has a table entry or the request makes one. */
  lemma RetryIsAbsorbed<K(!new)>(s: Server<K>, call: Call<K>, client: int, seqNum: int)
    ensures var (s', reply) := Handle(s, call, client, seqNum);
      Absorbed(s', reply, call, client, seqNum) <==> client in s.table || call.Append?
  {
    var (s', reply) := Handle(s, call, client, seqNum);
    if client in s.table || call.Append? {
      forall t: Server<K> | SameEntry(s', t, client) ensures Handle(t, call, client, seqNum) == (t, reply) {
        assert t.table[client := t.table[client]] == t.table;
      }
    } else {
      var t := WithOther(s', call.key, if call.Put? then call.value else "");
      assert SameEntry(s', t, client);
      assert Handle(t, call, client, seqNum) != (t, reply);
    }
  }

  /** Some attempt gets through. */
  ghost predicate Gets(outcomes: seq<Outcome>) {
    Delivered in outcomes
  }

  class Clerk {
    const clientId: int
    var seqNum: int

    constructor (id: int)
      ensures clientId == id && seqNum == 0
    {
      clientId, seqNum := id, 0;
    }

    method Get(server: KVServer, key: string, outcomes: seq<Outcome>) returns (value: string)
      requires Gets(outcomes)
      modifies this, server
      ensures seqNum == old(seqNum) + 1
      ensures (server.View(), value) == Handle(old(server.View()), Call.Get(key), clientId, seqNum)
    {
      seqNum := seqNum + 1;
      ghost var was, call := server.View(), Call.Get(key);
      HandleIsIdempotent(was, call, clientId, seqNum);
      var ok, i := false, 0;
      value := "";
      while !ok
        invariant i <= |outcomes| && (!ok ==> Delivered in outcomes[i..])
        invariant server.View() == was || server.View() == Handle(was, call, clientId, seqNum).0
        invariant ok ==> (server.View(), value) == Handle(was, call, clientId, seqNum)
        invariant seqNum == old(seqNum) + 1
        decreases |outcomes| - i
      {
        if !outcomes[i].LostRequest? {
          value := server.Get(key, clientId, seqNum);
        }
        ok := outcomes[i].Delivered?;
        i := i + 1;
      }
    }

    method PutAppend(
        server: KVServer, key: string, value: string, append: bool, outcomes: seq<Outcome>)
        returns (reply: string)
      requires Gets(outcomes)
      modifies this, server
      ensures seqNum == old(seqNum) + 1
      ensures (server.View(), reply) ==
              Handle(old(server.View()),
                     if append then Call.Append(key, value) else Call.Put(key, value), clientId, seqNum)
    {
      seqNum := seqNum + 1;
      ghost var was, call := server.View(), if append then Call.Append(key, value) else Call.Put(key, value);
      HandleIsIdempotent(was, call, clientId, seqNum);
      var ok, i := false, 0;
      reply := "";
      while !ok
        invariant i <= |outcomes| && (!ok ==> Delivered in outcomes[i..])
        invariant server.View() == was || server.View() == Handle(was, call, clientId, seqNum).0
        invariant ok ==> (server.View(), reply) == Handle(was, call, clientId, seqNum)
        invariant seqNum == old(seqNum) + 1
        decreases |outcomes| - i
      {
        if !outcomes[i].LostRequest? {
          if append {
            reply := server.Append(key, value, clientId, seqNum);
          } else {
            reply := server.Put(key, value, clientId, seqNum);
          }
        }
        ok := outcomes[i].Delivered?;
        i := i + 1;
      }
    }
  }
}

/** Clerks that retry their calls over a network that loses requests and replies, and the server. A call
    of the network returns before the clerk retries, so a request is never executed after its attempt. */
module KvSystem {
  import opened Linearizability
  import opened KvModel
  import opened KvServer

  /** The attempt under way: not yet executed, or executed with this reply (see `at` below). */
  datatype Attempt = Waiting | Answered(value: string, at: nat)

  datatype Clerk<K> =
    | Idle(seqNum: int)
    | Calling(seqNum: int, call: Call<K>, since: nat, attempt: Attempt)

  /** An execution that was not answered from the table. */
  datatype Exec<K> = Exec(client: int, seqNum: int, input: KvInput<K>, output: KvOutput, time: nat)

  /** The server, the clerks and the finished calls. The other fields record the past: `log` the
      executions in order, `points` which of them answered each finished call, `lastAt` the latest of each
      client. */
  datatype System<K> = System(
    server: Server<K>,
    clerks: map<int, Clerk<K>>,
    history: seq<KvOp<K>>,
    log: seq<Exec<K>>,
    points: seq<nat>,
    lastAt: map<int, nat>,
    clock: nat)

  datatype Action<K> =
    | Invoke(client: int, call: Call<K>)
    | Execute(client: int)
    | Lose(client: int)
    | Return(client: int)

  function Initial<K(==)>(clients: set<int>): System<K> {
    System(Server(map[], map[]), map c | c in clients :: Idle(0), [], [], [], map[], 0)
  }

  /** A call as the key/value model sees it. */
  function InputOf<K>(call: Call<K>): KvInput<K> {
    match call
    case Get(key) => KvInput(0, key, "")
    case Put(key, value) => KvInput(1, key, value)
    case Append(key, value) => KvInput(3, key, value)
  }

  predicate Enabled<K(==)>(s: System<K>, a: Action<K>) {
    && a.client in s.clerks
    && match a
       case Invoke(c, _) => s.clerks[c].Idle?
       case Execute(c) => s.clerks[c].Calling? && s.clerks[c].attempt.Waiting?
       case Lose(c) => s.clerks[c].Calling?
       case Return(c) => s.clerks[c].Calling? && s.clerks[c].attempt.Answered?
  }

  /** The request was answered before: the reply comes from the table. */
  predicate Repeated<K(==)>(s: System<K>, client: int, seqNum: int) {
    client in s.server.table && s.server.table[client].seqNum == seqNum && client in s.lastAt
  }

  function ExecuteStep<K(==)>(s: System<K>, c: int): System<K>
    requires Enabled(s, Execute(c))
  {
    var k := s.clerks[c];
    var (server, value) := Handle(s.server, k.call, c, k.seqNum);
    if Repeated(s, c, k.seqNum) then
      s.(server := server, clerks := s.clerks[c := k.(attempt := Answered(value, s.lastAt[c]))], clock := s.clock + 1)
    else
      var at := |s.log|;
      s.(server := server,
         clerks := s.clerks[c := k.(attempt := Answered(value, at))],
         log := s.log + [Exec(c, k.seqNum, InputOf(k.call), KvOutput(value), s.clock)],
         lastAt := s.lastAt[c := at],
         clock := s.clock + 1)
  }

  function Step<K(==)>(s: System<K>, a: Action<K>): System<K>
    requires Enabled(s, a)
  {
    match a
    case Invoke(c, call) =>
      s.(clerks := s.clerks[c := Calling(s.clerks[c].seqNum + 1, call, s.clock, Waiting)], clock := s.clock + 1)
    case Execute(c) => ExecuteStep(s, c)
    case Lose(c) =>
      s.(clerks := s.clerks[c := s.clerks[c].(attempt := Waiting)], clock := s.clock + 1)
    case Return(c) =>
      var k := s.clerks[c];
      s.(clerks := s.clerks[c := Idle(k.seqNum)],
         history := s.history + [Operation(c, InputOf(k.call), k.since, KvOutput(k.attempt.value), s.clock)],
         points := s.points + [k.attempt.at],
         clock := s.clock + 1)
  }

  // ---------- the invariant ----------

  /** The map after the executions of `log`, if each gave the output the map called for. */
  ghost function LogState<K>(log: seq<Exec<K>>): Option<map<K, string>> {
    if log == [] then Some(map[])
    else
      match LogState(log[..|log| - 1])
      case None => None
      case Some(m) =>
        var e := log[|log| - 1];
        var (ok, m') := MapStep(m, e.input, e.output);
        if ok then Some(m') else None
  }

  ghost predicate SameData<K(!new)>(m: map<K, string>, d: map<K, string>) {
    forall key: K :: Lookup(m, key) == Lookup(d, key)
  }

  /** The data is what the logged executions, each applied once and in order, make of the empty map. */
  ghost predicate DataOk<K(!new)>(s: System<K>) {
    LogState(s.log).Some? && SameData(LogState(s.log).value, s.server.data)
  }

  ghost predicate TableOk<K(!new)>(s: System<K>) {
    && (forall c {:trigger c in s.lastAt} :: c in s.lastAt ==>
      && c in s.clerks
      && s.lastAt[c] < |s.log|
      && s.log[s.lastAt[c]].client == c
      && s.log[s.lastAt[c]].seqNum <= s.clerks[c].seqNum)
    && (forall c {:trigger c in s.server.table} :: c in s.server.table ==>
      && c in s.lastAt
      && s.log[s.lastAt[c]].seqNum == s.server.table[c].seqNum
      && s.log[s.lastAt[c]].output.value == s.server.table[c].value)
  }

  /** Execution `at` is one of the call that clerk `c` is making. */
  ghost predicate AnswersCall<K>(s: System<K>, c: int, at: nat)
    requires c in s.clerks && s.clerks[c].Calling?
  {
    var k := s.clerks[c];
    && at < |s.log|
    && s.log[at].client == c
    && s.log[at].seqNum == k.seqNum
    && s.log[at].input == InputOf(k.call)
    && k.since < s.log[at].time
  }

  predicate Tracked<K>(s: System<K>, c: int) {
    c in s.server.table
  }

  /** The call that clerk `c` makes, or last made, has been executed. */
  predicate Executed<K>(s: System<K>, c: int)
    requires c in s.clerks
  {
    c in s.lastAt && s.lastAt[c] < |s.log| && s.log[s.lastAt[c]].seqNum == s.clerks[c].seqNum
  }

  ghost predicate CallOk<K>(s: System<K>, c: int)
    requires c in s.clerks
  {
    var k := s.clerks[c];
    k.Calling? ==>
      && k.since < s.clock
      && (Executed(s, c) ==> AnswersCall(s, c, s.lastAt[c]))
      && (k.attempt.Answered? ==>
        Executed(s, c) && k.attempt.at == s.lastAt[c] && s.log[k.attempt.at].output.value == k.attempt.value)
  }

  ghost predicate CallsOk<K(!new)>(s: System<K>) {
    forall c :: c in s.clerks ==> s.clerks[c].seqNum >= 0 && CallOk(s, c)
  }

  /** Finished call `i` has the input and output of its execution, which happened during the call. */
  ghost predicate FinishedOk<K>(s: System<K>, i: nat)
    requires i < |s.history| && i < |s.points|
  {
    && s.points[i] < |s.log|
    && var e := s.log[s.points[i]];
       && s.history[i].clientId == e.client
       && s.history[i].input == e.input
       && s.history[i].output == e.output
       && s.history[i].call < e.time < s.history[i].ret
       && e.client in s.clerks
       && e.seqNum <= s.clerks[e.client].seqNum
       && (s.clerks[e.client].Calling? ==> e.seqNum < s.clerks[e.client].seqNum)
  }

  ghost predicate HistoryOk<K(!new)>(s: System<K>) {
    && |s.points| == |s.history|
    && Distinct(s.points)
    && forall i: nat {:trigger FinishedOk(s, i)} :: i < |s.history| ==> FinishedOk(s, i)
  }

  /** Executions are of the last call of their client or of earlier ones; an append left a table entry. */
  ghost predicate LoggedOk<K>(s: System<K>, j: nat)
    requires j < |s.log|
  {
    var e := s.log[j];
    && e.client in s.clerks
    && e.client in s.lastAt
    && s.lastAt[e.client] < |s.log|
    && e.seqNum <= s.log[s.lastAt[e.client]].seqNum
    && var k := s.clerks[e.client];
      && (k.Calling? && e.seqNum == k.seqNum ==> e.input == InputOf(k.call))
      && (e.input.op == 1 ==> e.output.value == "")
      && (e.input.op == 3 ==> e.client in s.server.table)
  }

  ghost predicate LogOk<K(!new)>(s: System<K>) {
    forall j: nat {:trigger LoggedOk(s, j)} :: j < |s.log| ==> LoggedOk(s, j)
  }

  /** Execution `j` is of the call that execution `p` is of. */
  predicate SameCall<K>(log: seq<Exec<K>>, p: nat, j: nat)
    requires p < |log| && j < |log|
  {
    log[j].client == log[p].client && log[j].seqNum == log[p].seqNum
  }

  /** Execution `k` is an append that the client of execution `i` called no later than that call. */
  predicate AppendUpTo<K>(log: seq<Exec<K>>, i: nat, k: nat)
    requires i < |log| && k < |log|
  {
    log[k].client == log[i].client && log[k].input.op == 3 && log[k].seqNum <= log[i].seqNum
  }

  ghost predicate NoAppendUpTo<K(!new)>(log: seq<Exec<K>>, i: nat)
    requires i < |log|
  {
    forall k: nat {:trigger AppendUpTo(log, i, k)} :: k < |log| ==> !AppendUpTo(log, i, k)
  }

  /** A client's executions are in the order of its calls. Two of one call are the same request, and the
      client had called no append before. */
  ghost predicate InCallOrder<K(!new)>(log: seq<Exec<K>>, i: nat, j: nat)
    requires i < j < |log|
  {
    log[i].client == log[j].client ==>
      && log[i].seqNum <= log[j].seqNum
      && (log[i].seqNum == log[j].seqNum ==> log[i].input == log[j].input && NoAppendUpTo(log, i))
  }

  ghost predicate CallOrderOk<K(!new)>(log: seq<Exec<K>>) {
    forall i: nat, j: nat {:trigger InCallOrder(log, i, j)} :: i < j < |log| ==> InCallOrder(log, i, j)
  }

  ghost predicate Earlier<K>(log: seq<Exec<K>>, i: nat, j: nat)
    requires i < j < |log|
  {
    log[i].time < log[j].time
  }

  ghost predicate TimesOk<K(!new)>(log: seq<Exec<K>>, clock: nat) {
    && (forall j :: 0 <= j < |log| ==> log[j].time < clock)
    && (forall i: nat, j: nat {:trigger Earlier(log, i, j)} :: i < j < |log| ==> Earlier(log, i, j))
  }

  lemma TimesOkNext<K(!new)>(log: seq<Exec<K>>, clock: nat, e: Exec<K>)
    requires TimesOk(log, clock) && e.time == clock
    ensures TimesOk(log + [e], clock + 1)
  {
    var log' := log + [e];
    forall i: nat, j: nat | i < j < |log'| ensures Earlier(log', i, j) {
      if j < |log| { assert Earlier(log, i, j); }
    }
  }

  /** What every run keeps. */
  ghost predicate RunInv<K(!new)>(s: System<K>) {
    DataOk(s) && TableOk(s) && CallsOk(s) && HistoryOk(s) && LogOk(s) && TimesOk(s.log, s.clock) && CallOrderOk(s.log)
  }

  ghost predicate DifferentCalls<K>(log: seq<Exec<K>>, i: nat, j: nat)
    requires i < j < |log|
  {
    log[i].input.op != 0 || log[j].input.op != 0 ==> (log[i].client, log[i].seqNum) != (log[j].client, log[j].seqNum)
  }

  /** A call that changes the data is executed once. */
  ghost predicate OnceOk<K(!new)>(log: seq<Exec<K>>) {
    forall i: nat, j: nat {:trigger DifferentCalls(log, i, j)} :: i < j < |log| ==> DifferentCalls(log, i, j)
  }

  /** A change belongs to a finished call, or to the one its client is making. */
  ghost predicate ChangeOk<K>(s: System<K>, j: nat)
    requires j < |s.log|
  {
    var e := s.log[j];
    e.input.op != 0 ==>
      || j in Ids(s.points)
      || (&& e.client in s.clerks && s.clerks[e.client].Calling? && e.seqNum == s.clerks[e.client].seqNum
          && e.client in s.lastAt && s.lastAt[e.client] == j)
  }

  ghost predicate ChangesOk<K(!new)>(s: System<K>) {
    forall j: nat {:trigger ChangeOk(s, j)} :: j < |s.log| ==> ChangeOk(s, j)
  }

  /** What a run keeps as long as no Put is executed twice. */
  ghost predicate Inv<K(!new)>(s: System<K>) {
    RunInv(s) && ChangesOk(s) && OnceOk(s.log)
  }

  /** The step executes, for a second time, a Put of a client that the server has no table entry for. */
  predicate RepeatsPut<K>(s: System<K>, a: Action<K>) {
    && a.Execute? && a.client in s.clerks && s.clerks[a.client].Calling?
    && s.clerks[a.client].call.Put? && !Tracked(s, a.client) && Executed(s, a.client)
  }

  lemma InvokeKeepsRunInv<K(!new)>(s: System<K>, c: int, call: Call<K>)
    requires RunInv(s) && Enabled(s, Invoke(c, call))
    ensures RunInv(Step(s, Invoke(c, call)))
  {
    var s' := Step(s, Invoke(c, call));
    forall x | x in s'.clerks ensures s'.clerks[x].seqNum >= 0 && CallOk(s', x) {
      assert CallOk(s, x);
    }
    forall i: nat | i < |s'.history| ensures FinishedOk(s', i) {
      assert FinishedOk(s, i);
    }
    forall j: nat | j < |s'.log| ensures LoggedOk(s', j) {
      assert LoggedOk(s, j);
    }
  }

  lemma LoseKeepsRunInv<K(!new)>(s: System<K>, c: int)
    requires RunInv(s) && Enabled(s, Lose(c))
    ensures RunInv(Step(s, Lose(c)))
  {
    var s' := Step(s, Lose(c));
    forall x | x in s'.clerks ensures s'.clerks[x].seqNum >= 0 && CallOk(s', x) {
      assert CallOk(s, x);
    }
    forall i: nat | i < |s'.history| ensures FinishedOk(s', i) {
      assert FinishedOk(s, i);
    }
    forall j: nat | j < |s'.log| ensures LoggedOk(s', j) {
      assert LoggedOk(s, j);
    }
  }

  lemma ReturnIsNew<K(!new)>(s: System<K>, c: int)
    requires RunInv(s) && Enabled(s, Return(c))
    ensures var at := s.clerks[c].attempt.at;
      at !in Ids(s.points) && Distinct(s.points + [at]) && Ids(s.points + [at]) == Ids(s.points) + {at}
  {
    var at := s.clerks[c].attempt.at;
    assert CallOk(s, c);
    IdsMembers(s.points);
    forall i | 0 <= i < |s.points| ensures s.points[i] != at {
      assert FinishedOk(s, i);
    }
    IdsSnoc(s.points, at);
    assert (s.points + [at])[..|s.points|] == s.points;
  }

  lemma ReturnKeepsHistory<K(!new)>(s: System<K>, c: int)
    requires RunInv(s) && Enabled(s, Return(c))
    ensures HistoryOk(Step(s, Return(c)))
  {
    var s' := Step(s, Return(c));
    ReturnIsNew(s, c);
    forall i: nat | i < |s'.history| ensures FinishedOk(s', i) {
      ReturnFinishes(s, c, i);
    }
  }

  lemma ReturnFinishes<K(!new)>(s: System<K>, c: int, i: nat)
    requires CallsOk(s) && HistoryOk(s) && TimesOk(s.log, s.clock) && Enabled(s, Return(c)) && i <= |s.history|
    ensures FinishedOk(Step(s, Return(c)), i)
  {
    assert CallOk(s, c);
    if i < |s.history| { assert FinishedOk(s, i); }
  }

  lemma ReturnKeepsCalls<K(!new)>(s: System<K>, c: int)
    requires CallsOk(s) && Enabled(s, Return(c))
    ensures CallsOk(Step(s, Return(c)))
  {
    var s' := Step(s, Return(c));
    forall x | x in s'.clerks ensures s'.clerks[x].seqNum >= 0 && CallOk(s', x) {
      assert CallOk(s, x);
    }
  }

  lemma ReturnKeepsLog<K(!new)>(s: System<K>, c: int)
    requires TableOk(s) && LogOk(s) && TimesOk(s.log, s.clock) && Enabled(s, Return(c))
    ensures var s' := Step(s, Return(c)); TableOk(s') && LogOk(s') && TimesOk(s'.log, s'.clock)
  {
    var s' := Step(s, Return(c));
    forall i: nat, j: nat | i < j < |s'.log| ensures Earlier(s'.log, i, j) {
      assert Earlier(s.log, i, j);
    }
    forall j: nat | j < |s'.log| ensures LoggedOk(s', j) {
      assert LoggedOk(s, j);
    }
  }

  lemma ReturnKeepsRunInv<K(!new)>(s: System<K>, c: int)
    requires RunInv(s) && Enabled(s, Return(c))
    ensures RunInv(Step(s, Return(c)))
  {
    ReturnKeepsHistory(s, c);
    ReturnKeepsCalls(s, c);
    ReturnKeepsLog(s, c);
  }

  lemma ReturnKeepsChanges<K(!new)>(s: System<K>, c: int)
    requires Inv(s) && Enabled(s, Return(c))
    ensures ChangesOk(Step(s, Return(c)))
  {
    var s' := Step(s, Return(c));
    ReturnIsNew(s, c);
    assert CallOk(s, c);
    forall j: nat | j < |s'.log| ensures ChangeOk(s', j) {
      assert ChangeOk(s, j);
    }
  }

  lemma ReturnKeepsInv<K(!new)>(s: System<K>, c: int)
    requires Inv(s) && Enabled(s, Return(c))
    ensures Inv(Step(s, Return(c)))
  {
    ReturnKeepsRunInv(s, c);
    ReturnKeepsChanges(s, c);
  }

  // ---------- executing a request ----------

  lemma LogSnoc<K(!new)>(log: seq<Exec<K>>, e: Exec<K>)
    ensures LogState(log + [e]) ==
            if LogState(log).None? then None
            else
              var (ok, m) := MapStep(LogState(log).value, e.input, e.output);
              if ok then Some(m) else None
  {
    assert (log + [e])[..|log|] == log;
  }

  /** A request answered from the table changes nothing but the attempt. */
  lemma RepeatKeepsServer<K(!new)>(s: System<K>, c: int)
    requires Enabled(s, Execute(c)) && Repeated(s, c, s.clerks[c].seqNum)
    ensures Step(s, Execute(c)).server == s.server
  {
    assert s.server.table[c := s.server.table[c]] == s.server.table;
  }

  lemma RepeatKeepsRunInv<K(!new)>(s: System<K>, c: int)
    requires RunInv(s) && Enabled(s, Execute(c)) && Repeated(s, c, s.clerks[c].seqNum)
    ensures RunInv(Step(s, Execute(c)))
  {
    var s' := Step(s, Execute(c));
    assert CallOk(s, c);
    RepeatKeepsServer(s, c);
    assert LoggedOk(s, s.lastAt[c]);
    forall x | x in s'.clerks ensures s'.clerks[x].seqNum >= 0 && CallOk(s', x) {
      assert CallOk(s, x);
    }
    forall i: nat | i < |s'.history| ensures FinishedOk(s', i) {
      assert FinishedOk(s, i);
    }
    forall j: nat | j < |s'.log| ensures LoggedOk(s', j) {
      assert LoggedOk(s, j);
    }
  }

  /** The table and the clerks fit together, in whatever way the run got here. */
  ghost predicate Basic<K(!new)>(s: System<K>) {
    && (forall c {:trigger c in s.server.table} :: c in s.server.table ==> c in s.lastAt)
    && (forall c {:trigger c in s.clerks} :: c in s.clerks ==> s.clerks[c].seqNum >= 0)
  }

  /** What a request that is not answered from the table does: it is logged, it reads or changes the
      data as the key/value model says, and the table remembers it if it has or gets an entry. */
  lemma FreshExecution<K(!new)>(s: System<K>, c: int)
    requires Enabled(s, Execute(c)) && !Repeated(s, c, s.clerks[c].seqNum) && Basic(s)
    ensures var k, s' := s.clerks[c], Step(s, Execute(c));
            var value := s'.clerks[c].attempt.value;
            var (ok, st) := KvStep(Lookup(s.server.data, k.call.key), InputOf(k.call), KvOutput(value));
            && ok
            && (k.call.Put? ==> value == "")
            && s'.server.data == (if k.call.Get? then s.server.data else s.server.data[k.call.key := st])
            && s'.server.table == (
              if c in s.server.table || k.call.Append? then s.server.table[c := DupTable(k.seqNum, value)]
              else s.server.table)
            && s'.log == s.log + [Exec(c, k.seqNum, InputOf(k.call), KvOutput(value), s.clock)]
            && s'.lastAt == s.lastAt[c := |s.log|]
            && s'.clerks == s.clerks[c := k.(attempt := Answered(value, |s.log|))]
            && (k.call.Get? ==> st == Lookup(s.server.data, k.call.key))
  {}

  lemma ExecuteKeepsData<K(!new)>(s: System<K>, c: int)
    requires Basic(s) && DataOk(s) && Enabled(s, Execute(c)) && !Repeated(s, c, s.clerks[c].seqNum)
    ensures DataOk(Step(s, Execute(c)))
  {
    FreshExecution(s, c);
    var k, s' := s.clerks[c], Step(s, Execute(c));
    LogSnoc(s.log, s'.log[|s.log|]);
    var m := LogState(s.log).value;
    assert Lookup(m, k.call.key) == Lookup(s.server.data, k.call.key);
    forall key: K ensures Lookup(LogState(s'.log).value, key) == Lookup(s'.server.data, key) {
      assert Lookup(m, key) == Lookup(s.server.data, key);
    }
  }

  lemma ExecuteKeepsTable<K(!new)>(s: System<K>, c: int)
    requires RunInv(s) && Enabled(s, Execute(c)) && !Repeated(s, c, s.clerks[c].seqNum)
    ensures TableOk(Step(s, Execute(c)))
  {
    FreshExecution(s, c);
  }

  lemma ExecuteKeepsTimes<K(!new)>(s: System<K>, c: int)
    requires RunInv(s) && Enabled(s, Execute(c)) && !Repeated(s, c, s.clerks[c].seqNum)
    ensures TimesOk(Step(s, Execute(c)).log, Step(s, Execute(c)).clock)
  {
    FreshExecution(s, c);
    TimesOkNext(s.log, s.clock, Step(s, Execute(c)).log[|s.log|]);
  }

  lemma ExecuteKeepsCall<K(!new)>(s: System<K>, c: int, x: int)
    requires TableOk(s) && CallsOk(s) && Enabled(s, Execute(c)) && !Repeated(s, c, s.clerks[c].seqNum) && x in s.clerks
    ensures CallOk(Step(s, Execute(c)), x)
  {
    FreshExecution(s, c);
    assert CallOk(s, x);
    assert x in s.lastAt ==> s.lastAt[x] < |s.log|;
  }

  lemma ExecuteKeepsCalls<K(!new)>(s: System<K>, c: int)
    requires RunInv(s) && Enabled(s, Execute(c)) && !Repeated(s, c, s.clerks[c].seqNum)
    ensures CallsOk(Step(s, Execute(c)))
  {
    var s' := Step(s, Execute(c));
    forall x | x in s'.clerks ensures s'.clerks[x].seqNum >= 0 && CallOk(s', x) {
      assert CallOk(s, x);
      ExecuteKeepsCall(s, c, x);
    }
  }

  lemma ExecuteKeepsHistory<K(!new)>(s: System<K>, c: int)
    requires RunInv(s) && Enabled(s, Execute(c)) && !Repeated(s, c, s.clerks[c].seqNum)
    ensures HistoryOk(Step(s, Execute(c))) && LogOk(Step(s, Execute(c)))
  {
    FreshExecution(s, c);
    var s' := Step(s, Execute(c));
    forall i: nat | i < |s'.history| ensures FinishedOk(s', i) {
      assert FinishedOk(s, i);
    }
    forall j: nat | j < |s'.log| ensures LoggedOk(s', j) {
      if j < |s.log| { assert LoggedOk(s, j); }
    }
  }

  /** The call under way that execution `i` is of. */
  predicate OfCallUnderWay<K>(s: System<K>, c: int, i: nat) {
    c in s.clerks && i < |s.log| && s.log[i].client == c && s.log[i].seqNum == s.clerks[c].seqNum
  }

  /** A call that was executed and is not answered from the table is of a client without an entry, and is
      a Get or the repeated Put. */
  lemma SecondExecution<K(!new)>(s: System<K>, c: int, i: nat)
    requires TableOk(s) && CallsOk(s) && LogOk(s)
    requires Enabled(s, Execute(c)) && !Repeated(s, c, s.clerks[c].seqNum) && OfCallUnderWay(s, c, i)
    ensures Executed(s, c) && s.log[i].input == InputOf(s.clerks[c].call)
    ensures !Tracked(s, c) && (s.clerks[c].call.Get? || RepeatsPut(s, Execute(c)))
  {
    assert LoggedOk(s, i);
    assert CallOk(s, c);
  }

  lemma ExecuteInCallOrder<K(!new)>(s: System<K>, c: int, i: nat)
    requires RunInv(s) && Enabled(s, Execute(c)) && !Repeated(s, c, s.clerks[c].seqNum) && i < |s.log|
    ensures |Step(s, Execute(c)).log| == |s.log| + 1 && InCallOrder(Step(s, Execute(c)).log, i, |s.log|)
  {
    FreshExecution(s, c);
    assert LoggedOk(s, i);
    var log' := Step(s, Execute(c)).log;
    if OfCallUnderWay(s, c, i) {
      SecondExecution(s, c, i);
      forall k: nat | k < |log'| ensures !AppendUpTo(log', i, k) {
        if k < |s.log| { assert LoggedOk(s, k); }
      }
    }
  }

  lemma ExecuteStaysInCallOrder<K(!new)>(s: System<K>, c: int, i: nat, j: nat)
    requires RunInv(s) && Enabled(s, Execute(c)) && !Repeated(s, c, s.clerks[c].seqNum) && i < j < |s.log|
    ensures |Step(s, Execute(c)).log| == |s.log| + 1 && InCallOrder(Step(s, Execute(c)).log, i, j)
  {
    FreshExecution(s, c);
    var log' := Step(s, Execute(c)).log;
    assert InCallOrder(s.log, i, j) && LoggedOk(s, i);
    if SameCall(s.log, i, j) {
      forall k: nat | k < |log'| ensures !AppendUpTo(log', i, k) {
        if k < |s.log| {
          assert !AppendUpTo(s.log, i, k);
        } else if AppendUpTo(log', i, k) {
          SecondExecution(s, c, i);
        }
      }
    }
  }

  lemma ExecuteKeepsCallOrder<K(!new)>(s: System<K>, c: int)
    requires RunInv(s) && Enabled(s, Execute(c)) && !Repeated(s, c, s.clerks[c].seqNum)
    ensures CallOrderOk(Step(s, Execute(c)).log)
  {
    FreshExecution(s, c);
    var log' := Step(s, Execute(c)).log;
    forall i: nat, j: nat | i < j < |log'| ensures InCallOrder(log', i, j) {
      if j < |s.log| {
        ExecuteStaysInCallOrder(s, c, i, j);
      } else {
        ExecuteInCallOrder(s, c, i);
      }
    }
  }

  lemma ExecuteKeepsRunInv<K(!new)>(s: System<K>, c: int)
    requires RunInv(s) && Enabled(s, Execute(c))
    ensures RunInv(Step(s, Execute(c)))
  {
    if Repeated(s, c, s.clerks[c].seqNum) {
      RepeatKeepsRunInv(s, c);
    } else {
      ExecuteKeepsData(s, c);
      ExecuteKeepsTable(s, c);
      ExecuteKeepsTimes(s, c);
      ExecuteKeepsCallOrder(s, c);
      ExecuteKeepsCalls(s, c);
      ExecuteKeepsHistory(s, c);
    }
  }

  lemma StepKeepsRunInv<K(!new)>(s: System<K>, a: Action<K>)
    requires RunInv(s) && Enabled(s, a)
    ensures RunInv(Step(s, a))
  {
    match a {
      case Invoke(c, call) => InvokeKeepsRunInv(s, c, call);
      case Execute(c) => ExecuteKeepsRunInv(s, c);
      case Lose(c) => LoseKeepsRunInv(s, c);
      case Return(c) => ReturnKeepsRunInv(s, c);
    }
  }

  // ---------- while no Put is executed twice ----------

  lemma InvokeOrLoseKeepsChanges<K(!new)>(s: System<K>, a: Action<K>)
    requires Inv(s) && Enabled(s, a) && (a.Invoke? || a.Lose?)
    ensures ChangesOk(Step(s, a))
  {
    var s' := Step(s, a);
    forall j: nat | j < |s'.log| ensures ChangeOk(s', j) {
      assert ChangeOk(s, j);
    }
  }

  lemma ExecuteKeepsChanges<K(!new)>(s: System<K>, c: int)
    requires Inv(s) && Enabled(s, Execute(c)) && !RepeatsPut(s, Execute(c))
    ensures ChangesOk(Step(s, Execute(c)))
  {
    var s' := Step(s, Execute(c));
    var logs := !Repeated(s, c, s.clerks[c].seqNum);
    if logs { FreshExecution(s, c); }
    forall j: nat | j < |s'.log| ensures ChangeOk(s', j) {
      if j < |s.log| {
        assert ChangeOk(s, j);
        if logs && OfCallUnderWay(s, c, j) { SecondExecution(s, c, j); }
      }
    }
  }

  /** A change that is being logged is of a call that has logged none. */
  lemma ExecuteKeepsOnce<K(!new)>(s: System<K>, c: int)
    requires Inv(s) && Enabled(s, Execute(c)) && !RepeatsPut(s, Execute(c))
    ensures OnceOk(Step(s, Execute(c)).log)
  {
    var log' := Step(s, Execute(c)).log;
    if !Repeated(s, c, s.clerks[c].seqNum) {
      FreshExecution(s, c);
      forall i: nat, j: nat | i < j < |log'| ensures DifferentCalls(log', i, j) {
        if j < |s.log| {
          assert DifferentCalls(s.log, i, j);
        } else if OfCallUnderWay(s, c, i) {
          SecondExecution(s, c, i);
        }
      }
    }
  }

  lemma StepKeepsInv<K(!new)>(s: System<K>, a: Action<K>)
    requires Inv(s) && Enabled(s, a) && !RepeatsPut(s, a)
    ensures Inv(Step(s, a))
  {
    StepKeepsRunInv(s, a);
    match a {
      case Invoke(_, _) => InvokeOrLoseKeepsChanges(s, a);
      case Execute(c) =>
        ExecuteKeepsChanges(s, c);
        ExecuteKeepsOnce(s, c);
      case Lose(_) => InvokeOrLoseKeepsChanges(s, a);
      case Return(c) => ReturnKeepsChanges(s, c);
    }
  }

  // ---------- runs ----------

  datatype Event<K> = Event(action: Action<K>, after: System<K>)

  /** A run of any number of clerks: what happened, and the system after each step. */
  ghost predicate IsRun<K(!new)>(clients: set<int>, run: seq<Event<K>>) {
    forall i: nat {:trigger StepAt(clients, run, i)} :: i < |run| ==> StepAt(clients, run, i)
  }

  ghost predicate StepAt<K(!new)>(clients: set<int>, run: seq<Event<K>>, i: nat)
    requires i < |run|
  {
    var s, a := Before(clients, run, i), run[i].action;
    Enabled(s, a) && run[i].after == Step(s, a)
  }

  ghost function Before<K>(clients: set<int>, run: seq<Event<K>>, i: nat): System<K>
    requires i <= |run|
  {
    if i == 0 then Initial(clients) else run[i - 1].after
  }

  ghost predicate PutAt<K(!new)>(clients: set<int>, run: seq<Event<K>>, i: nat)
    requires i < |run|
  {
    !RepeatsPut(Before(clients, run, i), run[i].action)
  }

  /** No Put of a client without a table entry is executed twice in the first `n` steps. */
  ghost predicate PutsRunOnceIn<K(!new)>(clients: set<int>, run: seq<Event<K>>, n: nat) {
    forall i: nat {:trigger PutAt(clients, run, i)} :: i < n && i < |run| ==> PutAt(clients, run, i)
  }

  ghost predicate PutsRunOnce<K(!new)>(clients: set<int>, run: seq<Event<K>>) {
    PutsRunOnceIn(clients, run, |run|)
  }

  lemma InitialInv<K(!new)>(clients: set<int>)
    ensures Inv<K>(Initial(clients))
  {
    var s: System<K> := Initial(clients);
    assert LogState(s.log) == Some(map[]);
  }

  lemma {:induction false} RunKeepsRunInv<K(!new)>(clients: set<int>, run: seq<Event<K>>, i: nat)
    requires IsRun(clients, run) && i <= |run|
    ensures RunInv(Before(clients, run, i))
  {
    if i == 0 {
      InitialInv<K>(clients);
    } else {
      RunKeepsRunInv(clients, run, i - 1);
      assert StepAt(clients, run, i - 1);
      StepKeepsRunInv(Before(clients, run, i - 1), run[i - 1].action);
    }
  }

  lemma {:induction false} RunKeepsInv<K(!new)>(clients: set<int>, run: seq<Event<K>>, i: nat)
    requires IsRun(clients, run) && PutsRunOnceIn(clients, run, i) && i <= |run|
    ensures Inv(Before(clients, run, i))
  {
    if i == 0 {
      InitialInv<K>(clients);
    } else {
      RunKeepsInv(clients, run, i - 1);
      var s, a := Before(clients, run, i - 1), run[i - 1].action;
      assert StepAt(clients, run, i - 1) && PutAt(clients, run, i - 1);
      StepKeepsInv(s, a);
    }
  }

  /** In every run whatsoever, the data is what the logged executions make of the empty map, in order. */
  lemma DataIsTheLog<K(!new)>(clients: set<int>, run: seq<Event<K>>, i: nat)
    requires IsRun(clients, run) && i <= |run|
    ensures Basic(Before(clients, run, i)) && DataOk(Before(clients, run, i))
  {
    RunKeepsRunInv(clients, run, i);
  }

  /** In every run, also while other calls are under way: every value a clerk got back is what the atomic
      map, made by the executions so far, called for at a point inside the call. */
  lemma ValuesAreAtomic<K(!new)>(clients: set<int>, run: seq<Event<K>>, i: nat)
    requires IsRun(clients, run) && i < |Before(clients, run, |run|).history|
    ensures var s := Before(clients, run, |run|);
            && DataOk(s) && i < |s.points| && FinishedOk(s, i)
            && LogState(s.log[..s.points[i]]).Some?
            && MapStep(LogState(s.log[..s.points[i]]).value, s.history[i].input, s.history[i].output).0
  {
    var s := Before(clients, run, |run|);
    RunKeepsRunInv(clients, run, |run|);
    assert FinishedOk(s, i);
    var p := s.points[i];
    LogPrefix(s.log, p + 1);
    assert s.log[..p + 1][..p] == s.log[..p];
  }

  /** In every run, a client that has finished an append has a table entry. */
  lemma AppendTracks<K(!new)>(clients: set<int>, run: seq<Event<K>>, i: nat)
    requires IsRun(clients, run)
    requires i < |Before(clients, run, |run|).history| && Before(clients, run, |run|).history[i].input.op == 3
    ensures var s := Before(clients, run, |run|); Tracked(s, s.history[i].clientId)
  {
    var s := Before(clients, run, |run|);
    RunKeepsRunInv(clients, run, |run|);
    assert FinishedOk(s, i);
    assert LoggedOk(s, s.points[i]);
  }

  // ---------- at most once, call by call ----------

  lemma {:induction false} LogAndTableGrow<K(!new)>(clients: set<int>, run: seq<Event<K>>, i: nat, j: nat)
    requires IsRun(clients, run) && i <= j <= |run|
    ensures Before(clients, run, i).log <= Before(clients, run, j).log
    ensures Before(clients, run, i).server.table.Keys <= Before(clients, run, j).server.table.Keys
    decreases j
  {
    if i < j {
      LogAndTableGrow(clients, run, i, j - 1);
      assert StepAt(clients, run, j - 1);
    }
  }

  /** Step `t` is the execution that is logged at `j`. */
  ghost predicate LogsAt<K(!new)>(clients: set<int>, run: seq<Event<K>>, t: nat, c: int, j: nat)
    requires t < |run|
  {
    var s := Before(clients, run, t);
    run[t].action == Execute(c) && Enabled(s, Execute(c)) && !Repeated(s, c, s.clerks[c].seqNum) && |s.log| == j
  }

  lemma {:induction false} LoggedByStep<K(!new)>(clients: set<int>, run: seq<Event<K>>, n: nat, j: nat) returns (t: nat)
    requires IsRun(clients, run) && n <= |run| && j < |Before(clients, run, n).log|
    ensures t < n && LogsAt(clients, run, t, Before(clients, run, n).log[j].client, j)
    ensures Before(clients, run, t).clerks[Before(clients, run, n).log[j].client].seqNum ==
            Before(clients, run, n).log[j].seqNum
    decreases n
  {
    assert n > 0 ==> StepAt(clients, run, n - 1);
    if n > 0 && j < |Before(clients, run, n - 1).log| {
      t := LoggedByStep(clients, run, n - 1, j);
    } else {
      t := n - 1;
    }
  }

  /** Step `t` executes once more the Put with this number of this client, which has no table entry. */
  ghost predicate RepeatsCall<K(!new)>(clients: set<int>, run: seq<Event<K>>, t: nat, c: int, seqNum: int)
    requires t < |run|
  {
    var s := Before(clients, run, t);
    RepeatsPut(s, run[t].action) && run[t].action.client == c && s.clerks[c].seqNum == seqNum
  }

  ghost predicate CallRepeated<K(!new)>(clients: set<int>, run: seq<Event<K>>, c: int, seqNum: int) {
    exists t: nat {:trigger RepeatsCall(clients, run, t, c, seqNum)} ::
      t < |run| && RepeatsCall(clients, run, t, c, seqNum)
  }

  /** Execution `p` is the only one of its call. */
  ghost predicate Alone<K(!new)>(log: seq<Exec<K>>, p: nat)
    requires p < |log|
  {
    forall j: nat {:trigger SameCall(log, p, j)} :: j < |log| && SameCall(log, p, j) ==> j == p
  }

  /** A repeated Put is logged beside its last execution. */
  lemma RepeatIsLogged<K(!new)>(clients: set<int>, run: seq<Event<K>>, t: nat, c: int, seqNum: int)
      returns (i: nat, j: nat)
    requires IsRun(clients, run) && t < |run| && RepeatsCall(clients, run, t, c, seqNum)
    ensures var log := Before(clients, run, |run|).log;
      i < j < |log| && SameCall(log, i, j) && log[i].client == c && log[i].seqNum == seqNum && log[i].input.op == 1
  {
    var s := Before(clients, run, t);
    RunKeepsRunInv(clients, run, t);
    assert StepAt(clients, run, t) && CallOk(s, c);
    FreshExecution(s, c);
    LogAndTableGrow(clients, run, t + 1, |run|);
    assert Before(clients, run, t + 1) == Step(s, Execute(c));
    i, j := s.lastAt[c], |s.log|;
  }

  /** A change that is logged twice was a repeated Put. */
  lemma TwiceIsRepeated<K(!new)>(clients: set<int>, run: seq<Event<K>>, i: nat, j: nat)
    requires IsRun(clients, run) && i < j < |Before(clients, run, |run|).log|
    requires var log := Before(clients, run, |run|).log; SameCall(log, i, j) && log[i].input.op != 0
    ensures var log := Before(clients, run, |run|).log; CallRepeated(clients, run, log[i].client, log[i].seqNum)
  {
    var log := Before(clients, run, |run|).log;
    var t := LoggedByStep(clients, run, |run|, j);
    var s, c := Before(clients, run, t), log[j].client;
    RunKeepsRunInv(clients, run, t);
    LogAndTableGrow(clients, run, t, |run|);
    SecondExecution(s, c, i);
    assert RepeatsCall(clients, run, t, c, log[i].seqNum);
  }

  /** In every run: every logged change is the only execution of its call if and only if no step of the run
      repeats that call, which is then a Put of a client without a table entry. So all changes are executed
      at most once if and only if no such Put is executed a second time. */
  lemma AtMostOnce<K(!new)>(clients: set<int>, run: seq<Event<K>>)
    requires IsRun(clients, run)
    ensures DataOk(Before(clients, run, |run|))
    ensures var log := Before(clients, run, |run|).log;
      forall p: nat :: p < |log| && log[p].input.op != 0 ==>
        (Alone(log, p) <==> !CallRepeated(clients, run, log[p].client, log[p].seqNum))
    ensures OnceOk(Before(clients, run, |run|).log) <==> PutsRunOnce(clients, run)
  {
    DataIsTheLog(clients, run, |run|);
    var log := Before(clients, run, |run|).log;
    forall p: nat | p < |log| && log[p].input.op != 0
      ensures Alone(log, p) <==> !CallRepeated(clients, run, log[p].client, log[p].seqNum)
    {
      CallAtMostOnce(clients, run, p);
    }
    if PutsRunOnce(clients, run) {
      RunKeepsInv(clients, run, |run|);
    } else {
      var t: nat :| t < |run| && !PutAt(clients, run, t);
      var c := run[t].action.client;
      var i, j := RepeatIsLogged(clients, run, t, c, Before(clients, run, t).clerks[c].seqNum);
      assert !DifferentCalls(log, i, j);
    }
  }

  lemma CallAtMostOnce<K(!new)>(clients: set<int>, run: seq<Event<K>>, p: nat)
    requires IsRun(clients, run)
    requires p < |Before(clients, run, |run|).log| && Before(clients, run, |run|).log[p].input.op != 0
    ensures var log := Before(clients, run, |run|).log;
      Alone(log, p) <==> !CallRepeated(clients, run, log[p].client, log[p].seqNum)
  {
    var log := Before(clients, run, |run|).log;
    if t: nat :| t < |run| && RepeatsCall(clients, run, t, log[p].client, log[p].seqNum) {
      var i, j := RepeatIsLogged(clients, run, t, log[p].client, log[p].seqNum);
      assert SameCall(log, p, i) && SameCall(log, p, j);
    }
    RunKeepsRunInv(clients, run, |run|);
    forall j: nat | j < |log| && SameCall(log, p, j) && j != p
      ensures CallRepeated(clients, run, log[p].client, log[p].seqNum)
    {
      if p < j {
        TwiceIsRepeated(clients, run, p, j);
      } else {
        assert InCallOrder(log, j, p);
        TwiceIsRepeated(clients, run, j, p);
      }
    }
  }

  /** The client of call `i` had finished an append when it made the call. */
  ghost predicate AfterAppend<K>(history: seq<KvOp<K>>, i: nat)
    requires i < |history|
  {
    exists k: nat {:trigger history[k]} ::
      && k < |history| && history[k].clientId == history[i].clientId && history[k].input.op == 3
      && history[k].ret < history[i].call
  }

  /** In every run, every finished call was executed by its own client inside the call. An Append, and every
      call of a client that had finished an Append before, was executed exactly once; and any other Put was
      if and only if no step of the run repeats it. */
  lemma ExactlyOnce<K(!new)>(clients: set<int>, run: seq<Event<K>>, i: nat)
    requires IsRun(clients, run) && i < |Before(clients, run, |run|).history|
    ensures var s := Before(clients, run, |run|);
      && i < |s.points| && FinishedOk(s, i)
      && var p := s.points[i];
        && (s.history[i].input.op == 3 || AfterAppend(s.history, i) ==> Alone(s.log, p))
        && (s.history[i].input.op != 0 ==>
            (Alone(s.log, p) <==> !CallRepeated(clients, run, s.log[p].client, s.log[p].seqNum)))
  {
    var s := Before(clients, run, |run|);
    RunKeepsRunInv(clients, run, |run|);
    assert FinishedOk(s, i);
    var p := s.points[i];
    if s.history[i].input.op != 0 { CallAtMostOnce(clients, run, p); }
    if s.history[i].input.op == 3 { AppendIsAlone(s, p, p); }
    if k: nat :| && k < |s.history| && s.history[k].clientId == s.history[i].clientId
                 && s.history[k].input.op == 3 && s.history[k].ret < s.history[i].call {
      assert FinishedOk(s, k);
      AppendIsAlone(s, p, s.points[k]);
    }
  }

  /** An execution of a client that had executed an append no later is the only one of its call. */
  lemma AppendIsAlone<K(!new)>(s: System<K>, p: nat, k: nat)
    requires CallOrderOk(s.log) && TimesOk(s.log, s.clock) && p < |s.log| && k < |s.log|
    requires s.log[k].client == s.log[p].client && s.log[k].input.op == 3 && s.log[k].time <= s.log[p].time
    ensures Alone(s.log, p)
  {
    assert p < k ==> Earlier(s.log, p, k);
    assert k < p ==> InCallOrder(s.log, k, p);
    assert AppendUpTo(s.log, p, k);
    forall j: nat | j < |s.log| && SameCall(s.log, p, j) ensures j == p {
      assert p < j ==> InCallOrder(s.log, p, j);
      assert j < p ==> InCallOrder(s.log, j, p);
      assert AppendUpTo(s.log, j, k);
    }
  }

  /** However the run goes on, the execution it logged last stays the only one of its call. */
  ghost predicate OnceForEver<K(!new)>(clients: set<int>, run: seq<Event<K>>)
    requires Before(clients, run, |run|).log != []
  {
    var p := |Before(clients, run, |run|).log| - 1;
    forall run' {:trigger IsRun(clients, run')} :: IsRun(clients, run') && run <= run' ==>
      p < |Before(clients, run', |run'|).log| && Alone(Before(clients, run', |run'|).log, p)
  }

  /** A request that is executed is never executed again, however the run goes on, if and only if its client
      had a table entry or it is an Append. */
  lemma ExecutedForGood<K(!new)>(clients: set<int>, run: seq<Event<K>>, c: int)
    requires IsRun(clients, run) && run != []
    requires LogsAt(clients, run, |run| - 1, c, |Before(clients, run, |run| - 1).log|)
    ensures Before(clients, run, |run|).log != []
    ensures var s := Before(clients, run, |run| - 1);
      OnceForEver(clients, run) <==> Tracked(s, c) || s.clerks[c].call.Append?
  {
    var s := Before(clients, run, |run| - 1);
    assert StepAt(clients, run, |run| - 1);
    RunKeepsRunInv(clients, run, |run| - 1);
    FreshExecution(s, c);
    if Tracked(s, c) || s.clerks[c].call.Append? {
      forall run' | IsRun(clients, run') && run <= run'
        ensures |s.log| < |Before(clients, run', |run'|).log| && Alone(Before(clients, run', |run'|).log, |s.log|)
      {
        TrackedStaysAlone(clients, run', |run| - 1, c);
      }
    } else {
      var run' := ExecuteAgain(clients, run, c);
      assert SameCall(Before(clients, run', |run'|).log, |s.log|, |s.log| + 1);
    }
  }

  lemma TrackedStaysAlone<K(!new)>(clients: set<int>, run: seq<Event<K>>, t: nat, c: int)
    requires IsRun(clients, run) && t < |run| && LogsAt(clients, run, t, c, |Before(clients, run, t).log|)
    requires var s := Before(clients, run, t); Tracked(s, c) || s.clerks[c].call.Append?
    ensures var p := |Before(clients, run, t).log|;
      p < |Before(clients, run, |run|).log| && Alone(Before(clients, run, |run|).log, p)
  {
    var s := Before(clients, run, t);
    var p := |s.log|;
    RunKeepsRunInv(clients, run, t);
    assert StepAt(clients, run, t);
    FreshExecution(s, c);
    LogAndTableGrow(clients, run, t, |run|);
    LogAndTableGrow(clients, run, t + 1, |run|);
    var log := Before(clients, run, |run|).log;
    forall j: nat | j < |log| && SameCall(log, p, j) ensures j == p {
      if j < p {
        SecondExecution(s, c, j);
      } else if p < j {
        NotLoggedLater(clients, run, t, c, j);
      }
    }
  }

  lemma NotLoggedLater<K(!new)>(clients: set<int>, run: seq<Event<K>>, t: nat, c: int, j: nat)
    requires IsRun(clients, run) && t < |run| && Tracked(Before(clients, run, t + 1), c)
    requires |Before(clients, run, t).log| < j < |Before(clients, run, |run|).log|
    requires |Before(clients, run, t).log| < |Before(clients, run, t + 1).log|
    requires Before(clients, run, |run|).log[|Before(clients, run, t).log|].client == c
    ensures !SameCall(Before(clients, run, |run|).log, |Before(clients, run, t).log|, j)
  {
    var p, log := |Before(clients, run, t).log|, Before(clients, run, |run|).log;
    if SameCall(log, p, j) {
      var u := LoggedByStep(clients, run, |run|, j);
      if u <= t { LogAndTableGrow(clients, run, u, t); }
      LogAndTableGrow(clients, run, t + 1, u);
      LogAndTableGrow(clients, run, u, |run|);
      RunKeepsRunInv(clients, run, u);
      SecondExecution(Before(clients, run, u), c, p);
    }
  }

  /** The reply is lost and the request executed again. */
  lemma ExecuteAgain<K(!new)>(clients: set<int>, run: seq<Event<K>>, c: int) returns (run': seq<Event<K>>)
    requires IsRun(clients, run) && run != []
    requires LogsAt(clients, run, |run| - 1, c, |Before(clients, run, |run| - 1).log|)
    requires var s := Before(clients, run, |run| - 1); !Tracked(s, c) && !s.clerks[c].call.Append?
    ensures IsRun(clients, run') && run <= run'
    ensures var p, log := |Before(clients, run, |run| - 1).log|, Before(clients, run', |run'|).log;
      p + 1 < |log| && SameCall(log, p, p + 1)
  {
    var s := Before(clients, run, |run| - 1);
    assert StepAt(clients, run, |run| - 1);
    var lost := Extend(clients, run, Lose(c));
    run' := Extend(clients, lost, Execute(c));
  }

  // ---------- puts of clients with a table entry ----------

  ghost predicate PutTracked<K(!new)>(clients: set<int>, run: seq<Event<K>>, i: nat)
    requires i < |run|
  {
    run[i].action.Invoke? && run[i].action.call.Put? ==> Tracked(Before(clients, run, i), run[i].action.client)
  }

  /** Every Put is called by a client that has a table entry then. */
  ghost predicate PutsTracked<K(!new)>(clients: set<int>, run: seq<Event<K>>) {
    forall i: nat {:trigger PutTracked(clients, run, i)} :: i < |run| ==> PutTracked(clients, run, i)
  }

  lemma {:induction false} PutsStayTracked<K(!new)>(clients: set<int>, run: seq<Event<K>>, i: nat, c: int)
    requires IsRun(clients, run) && PutsTracked(clients, run) && i <= |run| && c in Before(clients, run, i).clerks
    ensures var s := Before(clients, run, i); s.clerks[c].Calling? && s.clerks[c].call.Put? ==> Tracked(s, c)
  {
    if i > 0 {
      assert StepAt(clients, run, i - 1) && PutTracked(clients, run, i - 1);
      PutsStayTracked(clients, run, i - 1, c);
      LogAndTableGrow(clients, run, i - 1, i);
    }
  }

  /** If clients call Put only with a table entry, no Put is executed twice. */
  lemma TrackedPutsRunOnce<K(!new)>(clients: set<int>, run: seq<Event<K>>)
    requires IsRun(clients, run) && PutsTracked(clients, run)
    ensures PutsRunOnce(clients, run)
  {
    forall i: nat | i < |run| ensures PutAt(clients, run, i) {
      var c := run[i].action.client;
      if c in Before(clients, run, i).clerks { PutsStayTracked(clients, run, i, c); }
    }
  }

  // ---------- linearizability ----------

  /** Nobody is making a call. */
  ghost predicate Quiet<K(!new)>(s: System<K>) {
    forall c :: c in s.clerks ==> s.clerks[c].Idle?
  }

  ghost function CallAt(points: seq<nat>, x: nat): (i: nat)
    requires x in Ids(points)
    ensures i < |points| && points[i] == x
  {
    IdsMembers(points);
    var i :| 0 <= i < |points| && points[i] == x;
    i
  }

  /** The finished calls answered by the first `n` executions, in the order of these. */
  ghost function InOrder(points: seq<nat>, n: nat): seq<nat> {
    if n == 0 then []
    else if n - 1 in Ids(points) then InOrder(points, n - 1) + [CallAt(points, n - 1)]
    else InOrder(points, n - 1)
  }

  lemma CallAtIsUnique(points: seq<nat>, i: nat)
    requires Distinct(points) && i < |points|
    ensures points[i] in Ids(points) && CallAt(points, points[i]) == i
  {
    IdsMembers(points);
    var x := CallAt(points, points[i]);
    if i < x { DistinctPairs(points, i, x); }
    if x < i { DistinctPairs(points, x, i); }
  }

  lemma InOrderSnoc(points: seq<nat>, n: nat)
    requires Distinct(points) && n > 0
    ensures forall i: nat :: i < |points| && points[i] == n - 1 ==> n - 1 in Ids(points) && CallAt(points, n - 1) == i
  {
    forall i: nat | i < |points| && points[i] == n - 1 ensures n - 1 in Ids(points) && CallAt(points, n - 1) == i {
      CallAtIsUnique(points, i);
    }
  }

  lemma {:induction false} InOrderIds(points: seq<nat>, n: nat)
    requires Distinct(points)
    ensures InRange(InOrder(points, n), |points|)
    ensures forall i: nat :: i in Ids(InOrder(points, n)) <==> i < |points| && points[i] < n
  {
    if n > 0 {
      InOrderIds(points, n - 1);
      InOrderSnoc(points, n);
      if n - 1 in Ids(points) {
        IdsSnoc(InOrder(points, n - 1), CallAt(points, n - 1));
      }
    }
  }

  lemma {:induction false} InOrderDistinct(points: seq<nat>, n: nat)
    requires Distinct(points)
    ensures Distinct(InOrder(points, n))
  {
    if n > 0 {
      InOrderDistinct(points, n - 1);
      if n - 1 in Ids(points) {
        var q, x := InOrder(points, n - 1), CallAt(points, n - 1);
        InOrderIds(points, n - 1);
        assert x !in Ids(q);
        assert (q + [x])[..|q|] == q && (q + [x])[|q|] == x;
      }
    }
  }

  lemma ReplaySnoc<K(!new)>(ops: seq<KvOp<K>>, q: seq<nat>, x: nat)
    requires InRange(q, |ops|) && x < |ops|
    ensures InRange(q + [x], |ops|)
    ensures Replay(MapModel(), ops, q + [x]) ==
            if Replay(MapModel(), ops, q).None? then None
            else
              var (ok, m) := MapStep(Replay(MapModel(), ops, q).value, ops[x].input, ops[x].output);
              if ok then Some(m) else None
  {
    assert (q + [x])[..|q|] == q;
  }

  /** Equal maps take the same step to equal maps; a get leaves the map as it is. */
  lemma SameStep<K(!new)>(m: map<K, string>, d: map<K, string>, inp: KvInput<K>, out: KvOutput)
    requires SameData(m, d) && MapStep(d, inp, out).0
    ensures MapStep(m, inp, out).0 && SameData(MapStep(m, inp, out).1, MapStep(d, inp, out).1)
    ensures inp.op == 0 ==> SameData(m, MapStep(d, inp, out).1)
  {
    assert Lookup(m, inp.key) == Lookup(d, inp.key);
    forall key: K ensures Lookup(MapStep(m, inp, out).1, key) == Lookup(MapStep(d, inp, out).1, key) {
      assert Lookup(m, key) == Lookup(d, key);
    }
    if inp.op == 0 {
      forall key: K ensures Lookup(m, key) == Lookup(MapStep(d, inp, out).1, key) {
        assert Lookup(m, key) == Lookup(d, key);
      }
    }
  }

  lemma {:induction false} InOrderReplay<K(!new)>(s: System<K>, n: nat)
    requires DataOk(s) && HistoryOk(s) && ChangesOk(s) && Quiet(s) && n <= |s.log|
    ensures LogState(s.log[..n]).Some?
    ensures InRange(InOrder(s.points, n), |s.history|)
    ensures Replay(MapModel(), s.history, InOrder(s.points, n)).Some?
    ensures SameData(Replay(MapModel(), s.history, InOrder(s.points, n)).value, LogState(s.log[..n]).value)
  {
    InOrderIds(s.points, n);
    LogPrefix(s.log, n);
    if n > 0 {
      InOrderReplay(s, n - 1);
      InOrderReplayNext(s, n, InOrder(s.points, n - 1));
    }
  }

  lemma LastLogged<K(!new)>(log: seq<Exec<K>>, n: nat)
    requires 0 < n <= |log| && LogState(log[..n]).Some? && LogState(log[..n - 1]).Some?
    ensures var e, m := log[n - 1], LogState(log[..n - 1]).value;
      MapStep(m, e.input, e.output).0 && LogState(log[..n]) == Some(MapStep(m, e.input, e.output).1)
  {
    assert log[..n] == log[..n - 1] + [log[n - 1]];
    LogSnoc(log[..n - 1], log[n - 1]);
  }

  lemma InOrderReplayNext<K(!new)>(s: System<K>, n: nat, q: seq<nat>)
    requires HistoryOk(s) && ChangesOk(s) && Quiet(s) && 0 < n <= |s.log| && q == InOrder(s.points, n - 1)
    requires LogState(s.log[..n]).Some? && LogState(s.log[..n - 1]).Some?
    requires InRange(q, |s.history|) && Replay(MapModel(), s.history, q).Some?
    requires SameData(Replay(MapModel(), s.history, q).value, LogState(s.log[..n - 1]).value)
    ensures InRange(InOrder(s.points, n), |s.history|)
    ensures Replay(MapModel(), s.history, InOrder(s.points, n)).Some?
    ensures SameData(Replay(MapModel(), s.history, InOrder(s.points, n)).value, LogState(s.log[..n]).value)
  {
    var e, r, m := s.log[n - 1], Replay(MapModel(), s.history, q).value, LogState(s.log[..n - 1]).value;
    LastLogged(s.log, n);
    SameStep(r, m, e.input, e.output);
    if n - 1 in Ids(s.points) {
      AnsweredNext(s, n, q, r);
    } else {
      assert ChangeOk(s, n - 1);
    }
  }

  /** The call that execution `n - 1` answered comes next. */
  lemma AnsweredNext<K(!new)>(s: System<K>, n: nat, q: seq<nat>, r: map<K, string>)
    requires HistoryOk(s) && 0 < n <= |s.log| && n - 1 in Ids(s.points) && q == InOrder(s.points, n - 1)
    requires InRange(q, |s.history|) && Replay(MapModel(), s.history, q) == Some(r)
    requires MapStep(r, s.log[n - 1].input, s.log[n - 1].output).0
    ensures InRange(InOrder(s.points, n), |s.history|)
    ensures Replay(MapModel(), s.history, InOrder(s.points, n)) ==
      Some(MapStep(r, s.log[n - 1].input, s.log[n - 1].output).1)
  {
    var x := CallAt(s.points, n - 1);
    assert FinishedOk(s, x);
    ReplaySnoc(s.history, q, x);
  }

  lemma {:induction false} LogPrefix<K(!new)>(log: seq<Exec<K>>, n: nat)
    requires LogState(log).Some? && n <= |log|
    ensures LogState(log[..n]).Some?
    decreases |log|
  {
    if n < |log| {
      LogPrefix(log[..|log| - 1], n);
      assert log[..|log| - 1][..n] == log[..n];
    } else {
      assert log[..n] == log;
    }
  }

  lemma {:induction false} InOrderRealTime<K(!new)>(s: System<K>, n: nat)
    requires HistoryOk(s) && TimesOk(s.log, s.clock) && n <= |s.log|
    ensures InRange(InOrder(s.points, n), |s.history|) && Ordered(s.history, InOrder(s.points, n))
  {
    InOrderIds(s.points, n);
    if n > 0 {
      InOrderRealTime(s, n - 1);
      if n - 1 in Ids(s.points) {
        var q, x := InOrder(s.points, n - 1), CallAt(s.points, n - 1);
        InOrderIds(s.points, n - 1);
        assert (q + [x])[..|q|] == q;
        assert FinishedOk(s, x);
        forall y: nat | y in Ids(q) && y < |s.history| ensures !Precedes(s.history, x, y) {
          assert FinishedOk(s, y);
          assert Earlier(s.log, s.points[y], n - 1);
        }
      }
    }
  }

  lemma QuietIsLinearizable<K(!new)>(s: System<K>)
    requires Inv(s) && Quiet(s)
    ensures Linearizable(MapModel(), s.history)
  {
    var n := |s.log|;
    var q := InOrder(s.points, n);
    InOrderIds(s.points, n);
    InOrderDistinct(s.points, n);
    InOrderReplay(s, n);
    InOrderRealTime(s, n);
    OrderedIsRealTime(s.history, q);
    forall i: nat | i < |s.history| ensures i in Ids(q) {
      assert FinishedOk(s, i);
    }
    assert Ids(q) == AllIds(|s.history|);
    DistinctCardinality(q);
    AllIdsCardinality(|s.history|);
    assert Linearization(MapModel(), s.history, q);
  }

  // ---------- calls under way ----------

  /** The reply of the executed call under way has arrived. */
  function Replied<K(==)>(s: System<K>, c: int): System<K>
    requires c in s.clerks && s.clerks[c].Calling? && Executed(s, c)
  {
    var at := s.lastAt[c];
    s.(clerks := s.clerks[c := s.clerks[c].(attempt := Answered(s.log[at].output.value, at))])
  }

  lemma RepliedKeepsInv<K(!new)>(s: System<K>, c: int)
    requires Inv(s) && c in s.clerks && s.clerks[c].Calling? && Executed(s, c)
    ensures Inv(Replied(s, c))
  {
    var s' := Replied(s, c);
    forall x | x in s'.clerks ensures s'.clerks[x].seqNum >= 0 && CallOk(s', x) {
      assert CallOk(s, x);
    }
    forall i: nat | i < |s'.history| ensures FinishedOk(s', i) {
      assert FinishedOk(s, i);
    }
    forall j: nat | j < |s'.log| ensures LoggedOk(s', j) && ChangeOk(s', j) {
      assert LoggedOk(s, j) && ChangeOk(s, j);
    }
  }

  /** The clerk gave up its call. */
  function GaveUp<K(==)>(s: System<K>, c: int): System<K>
    requires c in s.clerks
  {
    s.(clerks := s.clerks[c := Idle(s.clerks[c].seqNum)])
  }

  lemma GaveUpKeepsInv<K(!new)>(s: System<K>, c: int)
    requires Inv(s) && c in s.clerks && s.clerks[c].Calling? && !Executed(s, c)
    ensures Inv(GaveUp(s, c))
  {
    var s' := GaveUp(s, c);
    forall x | x in s'.clerks ensures s'.clerks[x].seqNum >= 0 && CallOk(s', x) {
      assert CallOk(s, x);
    }
    forall i: nat | i < |s'.history| ensures FinishedOk(s', i) {
      assert FinishedOk(s, i);
    }
    forall j: nat | j < |s'.log| ensures LoggedOk(s', j) && ChangeOk(s', j) {
      assert LoggedOk(s, j) && ChangeOk(s, j);
    }
  }

  /** The call of `c` is over: with the result of its execution, or given up if it has none. */
  function Settled<K(==)>(s: System<K>, c: int): System<K>
    requires c in s.clerks && s.clerks[c].Calling?
  {
    if Executed(s, c) then Step(Replied(s, c), Return(c)) else GaveUp(s, c)
  }

  /** The operation is the call under way of its client, with the result of its execution. */
  predicate IsPending<K(==)>(s: System<K>, op: KvOp<K>) {
    && op.clientId in s.clerks && s.clerks[op.clientId].Calling? && Executed(s, op.clientId)
    && var k := s.clerks[op.clientId];
      && op.input == InputOf(k.call) && op.call == k.since
      && op.output == s.log[s.lastAt[op.clientId]].output && op.ret >= s.clock
  }

  /** The finished calls, and behind them the executed calls under way, each once. */
  ghost predicate Completes<K(!new)>(s: System<K>, ops: seq<KvOp<K>>) {
    && s.history <= ops
    && (forall i {:trigger ops[i]} :: |s.history| <= i < |ops| ==> IsPending(s, ops[i]))
    && (forall i, j {:trigger ops[i], ops[j]} :: |s.history| <= i < j < |ops| ==> ops[i].clientId != ops[j].clientId)
    && (forall c {:trigger c in s.clerks} ::
        c in s.clerks && s.clerks[c].Calling? && Executed(s, c) ==> Includes(s, ops, c))
  }

  ghost predicate Includes<K(!new)>(s: System<K>, ops: seq<KvOp<K>>, c: int) {
    exists i {:trigger ops[i]} :: |s.history| <= i < |ops| && ops[i].clientId == c
  }

  lemma SettledCompletes<K(!new)>(s: System<K>, c: int, ops: seq<KvOp<K>>)
    requires c in s.clerks && s.clerks[c].Calling? && Completes(Settled(s, c), ops)
    ensures Completes(s, ops)
  {
    var t, n := Settled(s, c), |s.history|;
    assert forall x :: x in s.clerks && x != c ==> s.clerks[x] == t.clerks[x];
    forall i | n <= i < |ops| ensures IsPending(s, ops[i]) {
      if i < |t.history| {
        assert ops[i] == t.history[i];
      } else {
        assert IsPending(t, ops[i]);
      }
    }
    forall x | x in s.clerks && s.clerks[x].Calling? && Executed(s, x) ensures Includes(s, ops, x) {
      if x == c {
        assert ops[n] == t.history[n];
      } else {
        assert x in t.clerks && Includes(t, ops, x);
      }
    }
  }

  function Callers<K(==)>(s: System<K>): set<int> {
    set c <- s.clerks | s.clerks[c].Calling?
  }

  lemma SettledKeepsInv<K(!new)>(s: System<K>, c: int)
    requires Inv(s) && c in s.clerks && s.clerks[c].Calling?
    ensures Inv(Settled(s, c))
  {
    if Executed(s, c) {
      RepliedKeepsInv(s, c);
      ReturnKeepsInv(Replied(s, c), c);
    } else {
      GaveUpKeepsInv(s, c);
    }
  }

  lemma OneCallerLess<K(!new)>(s: System<K>, c: int)
    requires c in s.clerks && s.clerks[c].Calling?
    ensures Callers(Settled(s, c)) == Callers(s) - {c}
  {}

  /** Settling one call after the other ends in a quiet system. */
  lemma {:induction false} SettleAll<K(!new)>(s: System<K>) returns (s': System<K>)
    requires Inv(s)
    ensures Inv(s') && Quiet(s') && Completes(s, s'.history)
    decreases |Callers(s)|
  {
    if c :| c in Callers(s) {
      SettledKeepsInv(s, c);
      OneCallerLess(s, c);
      s' := SettleAll(Settled(s, c));
      SettledCompletes(s, c, s'.history);
    } else {
      s' := s;
      assert forall c :: c in s.clerks ==> c !in Callers(s);
    }
  }

  /** However requests and replies are lost and calls interleave: at every moment, what the clerks saw,
      together with the calls under way that the server has executed, is linearizable against the
      key/value map; once every call has returned, that is just what the clerks saw. */
  lemma RunsAreLinearizable<K(!new)>(clients: set<int>, run: seq<Event<K>>) returns (ops: seq<KvOp<K>>)
    requires IsRun(clients, run) && PutsRunOnce(clients, run)
    ensures Completes(Before(clients, run, |run|), ops) && Linearizable(MapModel(), ops)
    ensures Quiet(Before(clients, run, |run|)) ==> ops == Before(clients, run, |run|).history
  {
    RunKeepsInv(clients, run, |run|);
    var s := Before(clients, run, |run|);
    var s' := SettleAll(s);
    QuietIsLinearizable(s');
    ops := s'.history;
    if Quiet(s) { QuietIsComplete(s, ops); }
  }

  lemma QuietIsComplete<K(!new)>(s: System<K>, ops: seq<KvOp<K>>)
    requires Quiet(s) && Completes(s, ops)
    ensures ops == s.history
  {
    assert |ops| > |s.history| ==> IsPending(s, ops[|s.history|]);
  }

  // ---------- puts of clients without a table entry ----------

  lemma Extend<K(!new)>(clients: set<int>, run: seq<Event<K>>, a: Action<K>) returns (run': seq<Event<K>>)
    requires IsRun(clients, run) && Enabled(Before(clients, run, |run|), a)
    ensures IsRun(clients, run') && run <= run'
    ensures Before(clients, run', |run'|) == Step(Before(clients, run, |run|), a)
  {
    var s := Before(clients, run, |run|);
    run' := run + [Event(a, Step(s, a))];
    forall i: nat | i < |run'| ensures StepAt(clients, run', i) {
      assert Before(clients, run', i) == Before(clients, run, i);
      if i < |run| { assert StepAt(clients, run, i); }
    }
  }

  /** The calls of two clients on one key: the append saw the put, the get came after the append and
      does not show it. */
  ghost predicate LostAppend<K(!new)>(ops: seq<KvOp<K>>, key: K, a: string, b: string) {
    && |ops| == 3
    && ops[0].input == KvInput(3, key, b) && ops[0].output == KvOutput(a)
    && ops[1].input == KvInput(1, key, a)
    && ops[2].input == KvInput(0, key, "") && ops[2].output == KvOutput(a)
    && ops[0].ret < ops[2].call
    && a != "" && b != ""
  }

  lemma LostAppendIsIllegal<K(!new)>(ops: seq<KvOp<K>>, key: K, a: string, b: string)
    requires LostAppend(ops, key, a, b)
    ensures !Linearizable(MapModel(), ops)
  {
    forall q: seq<nat> ensures !Linearization(MapModel(), ops, q) {
      if Linearization(MapModel(), ops, q) {
        DistinctPairs(q, 0, 1);
        DistinctPairs(q, 1, 2);
        DistinctPairs(q, 0, 2);
        assert q == [q[0], q[1], q[2]];
        NotThisOrder(ops, key, a, b, q[0], q[1], q[2]);
        assert false;
      }
    }
  }

  lemma PutFirstFails<K(!new)>(ops: seq<KvOp<K>>, key: K, a: string, b: string)
    requires LostAppend(ops, key, a, b)
    ensures Replay(MapModel(), ops, [1, 0, 2]).None?
  {
    var none: seq<nat>, put: seq<nat>, append: seq<nat> := [], [1], [1, 0];
    assert none + [1] == put && put + [0] == append && append + [2] == [1, 0, 2];
    ReplaySnoc(ops, none, 1);
    ReplaySnoc(ops, put, 0);
    ReplaySnoc(ops, append, 2);
    var m: map<K, string> := map[key := a];
    assert Replay(MapModel(), ops, put) == Some(m);
    assert Replay(MapModel(), ops, append) == Some(m[key := a + b]);
    assert |a + b| > |a|;
  }

  lemma FailureStays<K(!new)>(ops: seq<KvOp<K>>, q: seq<nat>, x: nat, r: seq<nat>)
    requires InRange(q, |ops|) && x < |ops| && r == q + [x] && Replay(MapModel(), ops, q).None?
    ensures InRange(r, |ops|) && Replay(MapModel(), ops, r).None?
  {
    ReplaySnoc(ops, q, x);
  }

  lemma AppendFirstFails<K(!new)>(ops: seq<KvOp<K>>, key: K, a: string, b: string, y: nat, z: nat)
    requires LostAppend(ops, key, a, b) && y < 3 && z < 3
    ensures InRange([0, y, z], 3) && Replay(MapModel(), ops, [0, y, z]).None?
  {
    var none: seq<nat>, first: seq<nat> := [], [0];
    assert none + [0] == first;
    ReplaySnoc(ops, none, 0);
    FailureStays(ops, first, y, [0, y]);
    FailureStays(ops, [0, y], z, [0, y, z]);
  }

  lemma NotThisOrder<K(!new)>(ops: seq<KvOp<K>>, key: K, a: string, b: string, x: nat, y: nat, z: nat)
    requires LostAppend(ops, key, a, b) && x < 3 && y < 3 && z < 3 && x != y && y != z && x != z
    ensures !Linearization(MapModel(), ops, [x, y, z])
  {
    var q := [x, y, z];
    assert Precedes(ops, 0, 2);
    if x == 0 {
      AppendFirstFails(ops, key, a, b, y, z);
    } else if x == 1 && y == 0 {
      PutFirstFails(ops, key, a, b);
      assert q == [1, 0, 2];
    } else {
      assert Precedes(ops, q[1], q[0]) || Precedes(ops, q[2], q[0]) || Precedes(ops, q[2], q[1]);
    }
  }

  /** A put of a client without a table entry, executed twice because a reply was lost, can undo an
      append that happened in between: for any two clients, key and non-empty values there is a run whose
      finished calls are not linearizable. */
  lemma UntrackedPutBreaks<K(!new)>(c: int, d: int, key: K, a: string, b: string) returns (run: seq<Event<K>>)
    requires c != d && a != "" && b != ""
    ensures IsRun({c, d}, run) && Quiet(Before({c, d}, run, |run|))
    ensures !Linearizable(MapModel(), Before({c, d}, run, |run|).history) && !PutsRunOnce({c, d}, run)
  {
    run := PutLost(c, d, key, a);
    run := AppendBetween(c, d, key, a, b, run);
    run := PutAgain(c, d, key, a, b, run);
    LostAppendIsIllegal(Before({c, d}, run, |run|).history, key, a, b);
    if PutsRunOnce({c, d}, run) { var ops := RunsAreLinearizable({c, d}, run); }
  }

  /** The put is executed and its reply lost. */
  lemma PutLost<K(!new)>(c: int, d: int, key: K, a: string) returns (run: seq<Event<K>>)
    requires c != d
    ensures IsRun({c, d}, run)
    ensures var s := Before({c, d}, run, |run|);
            && s.server == Server(map[key := a], map[])
            && s.clerks == map[c := Calling(1, Put(key, a), 0, Waiting), d := Idle(0)]
            && s.history == [] && s.clock == 3
  {
    run := Extend({c, d}, [], Invoke(c, Put(key, a)));
    run := Extend({c, d}, run, Execute(c));
    run := Extend({c, d}, run, Lose(c));
  }

  /** The other client appends, and is told what the put wrote. */
  lemma AppendBetween<K(!new)>(
      c: int, d: int, key: K, a: string, b: string, run0: seq<Event<K>>)
      returns (run: seq<Event<K>>)
    requires c != d && IsRun({c, d}, run0)
    requires var s := Before({c, d}, run0, |run0|);
             && s.server == Server(map[key := a], map[])
             && s.clerks == map[c := Calling(1, Put(key, a), 0, Waiting), d := Idle(0)]
             && s.history == [] && s.clock == 3
    ensures IsRun({c, d}, run)
    ensures var s := Before({c, d}, run, |run|);
            && s.server == Server(map[key := a + b], map[d := DupTable(1, a)])
            && s.clerks == map[c := Calling(1, Put(key, a), 0, Waiting), d := Idle(1)]
            && s.history == [Operation(d, KvInput(3, key, b), 3, KvOutput(a), 5)]
            && d in s.lastAt && s.clock == 6
  {
    run := Extend({c, d}, run0, Invoke(d, Append(key, b)));
    run := Extend({c, d}, run, Execute(d));
    ghost var s := Before({c, d}, run, |run|);
    assert s.server.data == map[key := a + b];
    assert s.server.table == map[d := DupTable(1, a)];
    run := Extend({c, d}, run, Return(d));
  }

  /** The put is executed again, returns, and the other client gets. */
  lemma PutAgain<K(!new)>(
      c: int, d: int, key: K, a: string, b: string, run0: seq<Event<K>>)
      returns (run: seq<Event<K>>)
    requires c != d && a != "" && b != "" && IsRun({c, d}, run0)
    requires var s := Before({c, d}, run0, |run0|);
             && s.server == Server(map[key := a + b], map[d := DupTable(1, a)])
             && s.clerks == map[c := Calling(1, Put(key, a), 0, Waiting), d := Idle(1)]
             && s.history == [Operation(d, KvInput(3, key, b), 3, KvOutput(a), 5)]
             && d in s.lastAt && s.clock == 6
    ensures IsRun({c, d}, run)
    ensures Quiet(Before({c, d}, run, |run|)) && LostAppend(Before({c, d}, run, |run|).history, key, a, b)
  {
    run := Extend({c, d}, run0, Execute(c));
    run := Extend({c, d}, run, Return(c));
    ghost var s := Before({c, d}, run, |run|);
    assert s.server.data == map[key := a];
    assert s.server.table == map[d := DupTable(1, a)];
    assert s.clerks == map[c := Idle(1), d := Idle(1)];
    run := Extend({c, d}, run, Invoke(d, Get(key)));
    run := Extend({c, d}, run, Execute(d));
    run := Extend({c, d}, run, Return(d));
  }
}
