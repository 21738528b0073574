/** What each handler of the coordinator does, task by task and in every run: which report completes a task,
    which task a request gets, what a timer changes. Stated on the states before and after, without the
    functions that compute them. */
module MrRules {
  import opened Linearizability
  import opened MrFileNames
  import opened MrCoordinator

  predicate SameSizes(c: Coordinator, c': Coordinator) {
    && |c'.mapTasks| == |c.mapTasks| && |c'.reduceTasks| == |c.reduceTasks|
    && c'.nMap == c.nMap && c'.nReduce == c.nReduce
  }

  /** No task but this one changes. */
  predicate OthersStay(c: Coordinator, c': Coordinator, kind: Kind, id: nat) {
    && SameSizes(c, c')
    && (forall i {:trigger c'.mapTasks[i]} ::
        0 <= i < |c.mapTasks| && (kind != MapTask || i != id) ==> c'.mapTasks[i] == c.mapTasks[i])
    && (forall i {:trigger c'.reduceTasks[i]} ::
        0 <= i < |c.reduceTasks| && (kind != ReduceTask || i != id) ==> c'.reduceTasks[i] == c.reduceTasks[i])
  }

  function Counter(c: Coordinator, kind: Kind): nat {
    if kind == MapTask then c.mapsCompleted else c.reducesCompleted
  }

  predicate SameCounters(c: Coordinator, c': Coordinator) {
    c'.mapsCompleted == c.mapsCompleted && c'.reducesCompleted == c.reducesCompleted
  }

  function Other(kind: Kind): Kind {
    if kind == MapTask then ReduceTask else MapTask
  }

  // ---------- the beginning ----------

  /** In the beginning every task is idle, nothing is counted and no file is known. */
  lemma BeginsIdle(nMap: nat, nReduce: nat)
    ensures var s := After(nMap, nReduce, []);
      && |s.c.mapTasks| == s.c.nMap == nMap && |s.c.reduceTasks| == s.c.nReduce == nReduce
      && AllIdle(s.c.mapTasks) && AllIdle(s.c.reduceTasks) && s.timers == multiset{} && s.c.phase == MapPhase
      && s.c.mapsCompleted == s.c.reducesCompleted == 0
      && |s.c.intermediateFiles| == nReduce && forall r :: 0 <= r < nReduce ==> s.c.intermediateFiles[r] == []
  {}

  // ---------- reports ----------

  /** The task is running, and for this worker. */
  predicate Expected(c: Coordinator, worker: int, kind: Kind, id: nat) {
    id < |Tasks(c, kind)| && Tasks(c, kind)[id].status == InProgress && Tasks(c, kind)[id].worker == worker
  }

  predicate ReportRule(c: Coordinator, c': Coordinator, worker: int, kind: Kind, id: nat) {
    var expected := Expected(c, worker, kind, id);
    && OthersStay(c, c', kind, id) && id < |Tasks(c, kind)| && c'.phase == c.phase
    && (IsCompleted(c', kind, id) <==> IsCompleted(c, kind, id) || expected)
    && (!expected ==> Tasks(c', kind)[id] == Tasks(c, kind)[id])
    && Tasks(c', kind)[id].worker == Tasks(c, kind)[id].worker
    && Counter(c', kind) == Counter(c, kind) + (if expected then 1 else 0)
    && Counter(c', Other(kind)) == Counter(c, Other(kind))
    && |c'.intermediateFiles| == |c.intermediateFiles|
    && forall r {:trigger c'.intermediateFiles[r]} :: 0 <= r < |c.intermediateFiles| ==>
      c'.intermediateFiles[r] ==
        c.intermediateFiles[r] + if expected && kind == MapTask then [FileName(id, r)] else []
  }

  lemma ExpectedMapCompletes(nMap: nat, nReduce: nat, s: State, worker: int, id: nat)
    requires Inv(nMap, nReduce, s) && nReduce <= MAX_INT && id < nMap && Expected(s.c, worker, MapTask, id)
    ensures Enabled(s, NotifyTaskCompletion(worker, MapTask, id))
    ensures ReportRule(s.c, Step(s, NotifyTaskCompletion(worker, MapTask, id)).c, worker, MapTask, id)
  {
    FileUnderReport(s.c.intermediateFiles, id, nReduce, nReduce);
    assert OutputFiles(id, nReduce)[..nReduce] == OutputFiles(id, nReduce);
  }

  lemma ReportIsTaken(nMap: nat, nReduce: nat, s: State, worker: int, kind: Kind, id: nat)
    requires Inv(nMap, nReduce, s) && nReduce <= MAX_INT && id < |Tasks(s.c, kind)|
    ensures Enabled(s, NotifyTaskCompletion(worker, kind, id))
    ensures ReportRule(s.c, Step(s, NotifyTaskCompletion(worker, kind, id)).c, worker, kind, id)
    ensures Step(s, NotifyTaskCompletion(worker, kind, id)).timers == s.timers
  {
    if kind == MapTask && Expected(s.c, worker, kind, id) {
      ExpectedMapCompletes(nMap, nReduce, s, worker, id);
    } else {
      assert forall r :: 0 <= r < nReduce ==> s.c.intermediateFiles[r] + [] == s.c.intermediateFiles[r];
    }
  }

  /** In every run, after a report about an existing task that task is completed if and only if it was before
      or was running for exactly this worker; its counter grows by one exactly in the second case, and every
      reduce task gets the file of a map task then. Nothing else changes. */
  lemma ReportsComplete(nMap: nat, nReduce: nat, run: seq<Action>, worker: int, kind: Kind, id: nat)
    requires IsRun(nMap, nReduce, run) && nReduce <= MAX_INT && id < if kind == MapTask then nMap else nReduce
    ensures Enabled(After(nMap, nReduce, run), NotifyTaskCompletion(worker, kind, id))
    ensures var s := After(nMap, nReduce, run);
      var s' := Step(s, NotifyTaskCompletion(worker, kind, id));
      ReportRule(s.c, s'.c, worker, kind, id) && s'.timers == s.timers
  {
    RunKeepsInv(nMap, nReduce, run);
    ReportIsTaken(nMap, nReduce, After(nMap, nReduce, run), worker, kind, id);
  }

  // ---------- requests ----------

  predicate PhaseRule(c: Coordinator, phase': Phase) {
    phase' ==
      if c.phase == MapPhase && AllCompleted(c.mapTasks) then ReducePhase
      else if c.phase == ReducePhase && AllCompleted(c.reduceTasks) then ExitPhase
      else c.phase
  }

  predicate FirstOfIdle(tasks: seq<Task>, id: nat) {
    id < |tasks| && tasks[id].status == Idle && forall i :: 0 <= i < id ==> tasks[i].status != Idle
  }

  predicate NoneIdle(tasks: seq<Task>) {
    forall i :: 0 <= i < |tasks| ==> tasks[i].status != Idle
  }

  function KindOf(phase: Phase): Kind {
    if phase == MapPhase then MapTask else ReduceTask
  }

  /** The response is about this task, with what its worker needs. */
  predicate HandsOut(c: Coordinator, r: Response, kind: Kind, id: nat) {
    match kind
    case MapTask => r == DoMap(id, c.nReduce)
    case ReduceTask => id < |c.intermediateFiles| && r == DoReduce(id, c.intermediateFiles[id])
  }

  ghost predicate RequestRule(s: State, s': State, r: Response, worker: int) {
    var c, c' := s.c, s'.c;
    var kind := KindOf(c'.phase);
    && PhaseRule(c, c'.phase) && SameCounters(c, c') && c'.intermediateFiles == c.intermediateFiles
    && (c'.phase == ExitPhase || NoneIdle(Tasks(c, kind)) ==>
        && r == (if c'.phase == ExitPhase then Exit else Wait)
        && c'.mapTasks == c.mapTasks && c'.reduceTasks == c.reduceTasks && s'.timers == s.timers)
    && (c'.phase != ExitPhase && !NoneIdle(Tasks(c, kind)) ==>
        exists id: nat {:trigger FirstOfIdle(Tasks(c, kind), id)} :: FirstOfIdle(Tasks(c, kind), id)
          && HandsOut(c, r, kind, id) && OthersStay(c, c', kind, id)
          && Tasks(c', kind)[id] == Task(InProgress, worker) && s'.timers == s.timers + multiset{Timer(kind, id)})
  }

  lemma CountersShowCompletion(nMap: nat, nReduce: nat, s: State)
    requires Inv(nMap, nReduce, s)
    ensures PhaseRule(s.c, NextPhase(s.c).phase)
    ensures NextPhase(s.c) == s.c.(phase := NextPhase(s.c).phase)
  {
    CountIsAll(s.c.mapTasks);
    CountIsAll(s.c.reduceTasks);
    assert s.c.reduceTasks == [] ==> NewTasks(nReduce) == [];
  }

  lemma TaskIsAssigned(nMap: nat, nReduce: nat, s: State, worker: int)
    requires Inv(nMap, nReduce, s) && s.c.phase != ExitPhase
    ensures Assign(s.c, worker).Some?
    ensures var (c', r) := Assign(s.c, worker).value;
      var kind := KindOf(s.c.phase);
      if NoneIdle(Tasks(s.c, kind)) then c' == s.c && r == Wait
      else
        var id := FirstIdle(Tasks(s.c, kind), 0);
        && FirstOfIdle(Tasks(s.c, kind), id) && HandsOut(s.c, r, kind, id) && OthersStay(s.c, c', kind, id)
        && Tasks(c', kind)[id] == Task(InProgress, worker) && Started(r) == multiset{Timer(kind, id)}
        && c'.phase == s.c.phase && SameCounters(s.c, c') && c'.intermediateFiles == s.c.intermediateFiles
  {}

  lemma RequestIsAnswered(nMap: nat, nReduce: nat, s: State, worker: int)
    requires Inv(nMap, nReduce, s)
    ensures Enabled(s, RequestTask(worker))
    ensures RequestRule(s, Step(s, RequestTask(worker)), Request(s.c, worker).value.1, worker)
  {
    CountersShowCompletion(nMap, nReduce, s);
    NextPhaseKeepsInv(nMap, nReduce, s);
    var s1 := s.(c := NextPhase(s.c));
    assert s1.c.mapTasks == s.c.mapTasks && s1.c.reduceTasks == s.c.reduceTasks;
    if s1.c.phase == ExitPhase {
      assert s.timers + multiset{} == s.timers;
    } else {
      TaskIsAssigned(nMap, nReduce, s1, worker);
      assert s.timers + multiset{} == s.timers;
    }
  }

  /** In every run, a request moves the phase on if and only if all tasks of the phase are completed. Then the
      worker gets the first idle task of the phase with what it needs for it, and a timer for it starts; it is
      told to wait if and only if no task is idle, and to exit if and only if all is done. */
  lemma RequestsAreAnswered(nMap: nat, nReduce: nat, run: seq<Action>, worker: int)
    requires IsRun(nMap, nReduce, run) && nReduce <= MAX_INT
    ensures Enabled(After(nMap, nReduce, run), RequestTask(worker))
    ensures var s := After(nMap, nReduce, run);
      RequestRule(s, Step(s, RequestTask(worker)), Request(s.c, worker).value.1, worker)
  {
    RunKeepsInv(nMap, nReduce, run);
    RequestIsAnswered(nMap, nReduce, After(nMap, nReduce, run), worker);
  }

  // ---------- timers ----------

  predicate FireRule(s: State, s': State, t: Timer) {
    && OthersStay(s.c, s'.c, t.kind, t.id) && t.id < |Tasks(s.c, t.kind)|
    && Tasks(s'.c, t.kind)[t.id] ==
      (if Tasks(s.c, t.kind)[t.id].status == InProgress then Task(Idle, 0) else Tasks(s.c, t.kind)[t.id])
    && s'.timers == s.timers - multiset{t} && s'.c.phase == s.c.phase
    && SameCounters(s.c, s'.c) && s'.c.intermediateFiles == s.c.intermediateFiles
  }

  lemma TimerFires(nMap: nat, nReduce: nat, s: State, t: Timer)
    requires Inv(nMap, nReduce, s) && t in s.timers
    ensures Enabled(s, Fire(t)) && FireRule(s, Step(s, Fire(t)), t)
  {
    assert t == Timer(t.kind, t.id);
  }

  /** In every run, a timer that wakes makes its task idle if and only if it is still running. */
  lemma TimersRelease(nMap: nat, nReduce: nat, run: seq<Action>, t: Timer)
    requires IsRun(nMap, nReduce, run) && nReduce <= MAX_INT && t in After(nMap, nReduce, run).timers
    ensures Enabled(After(nMap, nReduce, run), Fire(t))
    ensures FireRule(After(nMap, nReduce, run), Step(After(nMap, nReduce, run), Fire(t)), t)
  {
    RunKeepsInv(nMap, nReduce, run);
    TimerFires(nMap, nReduce, After(nMap, nReduce, run), t);
  }

  /** In every run, the coordinator says it is done exactly from the moment it tells workers to exit. */
  lemma DoneIsExit(nMap: nat, nReduce: nat, run: seq<Action>)
    requires IsRun(nMap, nReduce, run) && nReduce <= MAX_INT
    ensures Done(After(nMap, nReduce, run).c) <==> After(nMap, nReduce, run).c.phase == ExitPhase
  {
    RunKeepsInv(nMap, nReduce, run);
  }
}
