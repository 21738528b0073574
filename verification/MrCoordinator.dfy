/** The MapReduce coordinator: what each of its lock-held sections does to its state, and a state machine
    over task requests, completions (also late and repeated ones) and timers. */
module MrCoordinator {
  import opened Linearizability
  import opened MrFileNames

  datatype Status = Idle | InProgress | Completed
  datatype Task = Task(status: Status, worker: int)
  datatype Kind = MapTask | ReduceTask
  datatype Phase = MapPhase | ReducePhase | ExitPhase

  /** TaskResponse: which task, and what the worker needs for it. */
  datatype Response = DoMap(id: nat, nReduce: nat) | DoReduce(id: nat, files: seq<string>) | Exit | Wait

  datatype Coordinator = Coordinator(
    mapTasks: seq<Task>, reduceTasks: seq<Task>, nMap: nat, nReduce: nat,
    intermediateFiles: seq<seq<string>>, mapsCompleted: nat, reducesCompleted: nat, phase: Phase)

  /** TaskCompletion: what a worker reports. */
  datatype Completion = Completion(worker: int, kind: Kind, id: nat, outputFiles: seq<string>)

  function NewTasks(n: nat): seq<Task> {
    seq(n, _ => Task(Idle, 0))
  }

  function Make(nMap: nat, nReduce: nat): Coordinator {
    Coordinator(NewTasks(nMap), NewTasks(nReduce), nMap, nReduce, seq(nReduce, _ => []), 0, 0, MapPhase)
  }

  function NextPhase(c: Coordinator): Coordinator {
    if c.phase == MapPhase && c.mapsCompleted == c.nMap then
      c.(phase := ReducePhase, reduceTasks := if c.reduceTasks == [] then NewTasks(c.nReduce) else c.reduceTasks)
    else if c.phase == ReducePhase && c.reducesCompleted == c.nReduce then c.(phase := ExitPhase)
    else c
  }

  /** The first idle task, or the number of tasks. */
  function FirstIdle(tasks: seq<Task>, from: nat): (r: nat)
    requires from <= |tasks|
    ensures from <= r <= |tasks| && (r < |tasks| ==> tasks[r].status == Idle)
    ensures forall i :: from <= i < r ==> tasks[i].status != Idle
    decreases |tasks| - from
  {
    if from == |tasks| || tasks[from].status == Idle then from else FirstIdle(tasks, from + 1)
  }

  /** Hand out a task of the current phase; None where that would panic. */
  function Assign(c: Coordinator, worker: int): Option<(Coordinator, Response)> {
    match c.phase
    case MapPhase =>
      var i := FirstIdle(c.mapTasks, 0);
      if i == |c.mapTasks| then Some((c, Wait))
      else Some((c.(mapTasks := c.mapTasks[i := Task(InProgress, worker)]), DoMap(i, c.nReduce)))
    case ReducePhase =>
      var i := FirstIdle(c.reduceTasks, 0);
      if i == |c.reduceTasks| then Some((c, Wait))
      else if i >= |c.intermediateFiles| then None
      else Some((c.(reduceTasks := c.reduceTasks[i := Task(InProgress, worker)]), DoReduce(i, c.intermediateFiles[i])))
    case ExitPhase => Some((c, Exit))
  }

  function Request(c: Coordinator, worker: int): Option<(Coordinator, Response)> {
    Assign(NextPhase(c), worker)
  }

  /** File the names under their reduce tasks; None where a name does not parse or does not fit. */
  function FileUnder(files: seq<seq<string>>, names: seq<string>): Option<seq<seq<string>>> {
    if names == [] then Some(files)
    else
      var rest := FileUnder(files, names[..|names| - 1]);
      var num := ExtractReduceTaskNum(names[|names| - 1]);
      if rest.None? || num.None? || num.value < 0 || num.value >= |rest.value| then None
      else Some(rest.value[num.value := rest.value[num.value] + [names[|names| - 1]]])
  }

  /** The task is running and this worker is the one responsible for it. */
  predicate Owns(tasks: seq<Task>, m: Completion)
    requires m.id < |tasks|
  {
    tasks[m.id].status == InProgress && tasks[m.id].worker == m.worker
  }

  /** NotifyTaskCompletion; None where the handler would panic or end the process. */
  function Notify(c: Coordinator, m: Completion): Option<Coordinator> {
    match m.kind
    case MapTask =>
      if m.id >= |c.mapTasks| then None
      else if !Owns(c.mapTasks, m) then Some(c)
      else
        var files := FileUnder(c.intermediateFiles, m.outputFiles);
        if files.None? then None
        else Some(c.(mapTasks := c.mapTasks[m.id := Task(Completed, m.worker)],
                     mapsCompleted := c.mapsCompleted + 1, intermediateFiles := files.value))
    case ReduceTask =>
      if m.id >= |c.reduceTasks| then None
      else if !Owns(c.reduceTasks, m) then Some(c)
      else Some(c.(reduceTasks := c.reduceTasks[m.id := Task(Completed, m.worker)],
                   reducesCompleted := c.reducesCompleted + 1))
  }

  function Tasks(c: Coordinator, kind: Kind): seq<Task> {
    if kind == MapTask then c.mapTasks else c.reduceTasks
  }

  /** The end of waitTask, after its sleep. */
  function TimeOut(c: Coordinator, kind: Kind, id: nat): Coordinator
    requires id < |Tasks(c, kind)|
  {
    var tasks := Tasks(c, kind);
    var tasks' := if tasks[id].status == InProgress then tasks[id := Task(Idle, 0)] else tasks;
    if kind == MapTask then c.(mapTasks := tasks') else c.(reduceTasks := tasks')
  }

  predicate Done(c: Coordinator) {
    c.phase == ExitPhase && c.mapsCompleted == c.nMap && c.reducesCompleted == c.nReduce
  }

  /** What reportTaskDone reports. */
  function OutputFiles(id: nat, nReduce: nat): seq<string> {
    seq(nReduce, r requires 0 <= r => FileName(id, r))
  }

  function Report(worker: int, kind: Kind, id: nat, nReduce: nat): Completion {
    Completion(worker, kind, id, if kind == MapTask then OutputFiles(id, nReduce) else [])
  }

  // ---------- the state machine ----------

  datatype Timer = Timer(kind: Kind, id: nat)

  datatype State = State(
    c: Coordinator,
    timers: multiset<Timer>,  // the waitTask goroutines still asleep
    finished: seq<nat>)       // history: the completed map tasks in the order of completion

  datatype Action =
    | RequestTask(worker: int)
    | NotifyTaskCompletion(worker: int, kind: Kind, id: nat)
    | Fire(timer: Timer)

  function Init(nMap: nat, nReduce: nat): State {
    State(Make(nMap, nReduce), multiset{}, [])
  }

  predicate Enabled(s: State, a: Action) {
    match a
    case RequestTask(worker) => Request(s.c, worker).Some?
    case NotifyTaskCompletion(worker, kind, id) => Notify(s.c, Report(worker, kind, id, s.c.nReduce)).Some?
    case Fire(t) => t in s.timers && t.id < |Tasks(s.c, t.kind)|
  }

  function Started(r: Response): multiset<Timer> {
    match r
    case DoMap(id, _) => multiset{Timer(MapTask, id)}
    case DoReduce(id, _) => multiset{Timer(ReduceTask, id)}
    case _ => multiset{}
  }

  function Step(s: State, a: Action): State
    requires Enabled(s, a)
  {
    match a
    case RequestTask(worker) =>
      var (c, r) := Request(s.c, worker).value;
      s.(c := c, timers := s.timers + Started(r))
    case NotifyTaskCompletion(worker, kind, id) =>
      var c := Notify(s.c, Report(worker, kind, id, s.c.nReduce)).value;
      s.(c := c, finished := if c.mapsCompleted == s.c.mapsCompleted then s.finished else s.finished + [id])
    case Fire(t) => s.(c := TimeOut(s.c, t.kind, t.id), timers := s.timers - multiset{t})
  }

  predicate IsRun(nMap: nat, nReduce: nat, run: seq<Action>)
    decreases |run|, 0
  {
    run != [] ==>
      && IsRun(nMap, nReduce, run[..|run| - 1])
      && Enabled(After(nMap, nReduce, run[..|run| - 1]), run[|run| - 1])
  }

  function After(nMap: nat, nReduce: nat, run: seq<Action>): State
    requires IsRun(nMap, nReduce, run)
    decreases |run|, 1
  {
    if run == [] then Init(nMap, nReduce) else Step(After(nMap, nReduce, run[..|run| - 1]), run[|run| - 1])
  }

  // ---------- the invariant ----------

  function CompletedCount(tasks: seq<Task>): nat {
    if tasks == [] then 0
    else CompletedCount(tasks[..|tasks| - 1]) + if tasks[|tasks| - 1].status == Completed then 1 else 0
  }

  predicate AllCompleted(tasks: seq<Task>) {
    forall i :: 0 <= i < |tasks| ==> tasks[i].status == Completed
  }

  predicate AllIdle(tasks: seq<Task>) {
    forall i :: 0 <= i < |tasks| ==> tasks[i].status == Idle
  }

  /** A running task has exactly one timer, an idle one none, and a completed one at most one. */
  predicate TimerOk(task: Task, timers: nat) {
    match task.status
    case Idle => timers == 0
    case InProgress => timers == 1
    case Completed => timers <= 1
  }

  ghost predicate TimersOk(tasks: seq<Task>, timers: multiset<Timer>, kind: Kind) {
    && (forall i: nat {:trigger tasks[i]} :: i < |tasks| ==> TimerOk(tasks[i], timers[Timer(kind, i)]))
    && (forall i: nat {:trigger Timer(kind, i)} :: Timer(kind, i) in timers ==> i < |tasks|)
  }

  function Named(finished: seq<nat>, r: nat): seq<string> {
    seq(|finished|, i requires 0 <= i < |finished| => FileName(finished[i], r))
  }

  /** For every reduce task there is exactly one file of each completed map task. */
  ghost predicate FilesOk(s: State) {
    && |s.c.intermediateFiles| == s.c.nReduce
    && (forall r: nat {:trigger s.c.intermediateFiles[r]} ::
        r < s.c.nReduce ==> s.c.intermediateFiles[r] == Named(s.finished, r))
    && Distinct(s.finished)
    && (forall i: nat {:trigger i in Ids(s.finished)} ::
        i in Ids(s.finished) <==> i < |s.c.mapTasks| && s.c.mapTasks[i].status == Completed)
  }

  predicate PhaseOk(c: Coordinator) {
    && (c.phase == MapPhase ==> AllIdle(c.reduceTasks))
    && (c.phase != MapPhase ==> c.mapsCompleted == c.nMap)
    && (c.phase == ExitPhase ==> c.reducesCompleted == c.nReduce)
  }

  predicate CountsOk(c: Coordinator) {
    && |c.mapTasks| == c.nMap && |c.reduceTasks| == c.nReduce
    && c.mapsCompleted == CompletedCount(c.mapTasks) && c.reducesCompleted == CompletedCount(c.reduceTasks)
  }

  ghost predicate Inv(nMap: nat, nReduce: nat, s: State) {
    && s.c.nMap == nMap && s.c.nReduce == nReduce
    && CountsOk(s.c) && PhaseOk(s.c) && FilesOk(s)
    && TimersOk(s.c.mapTasks, s.timers, MapTask) && TimersOk(s.c.reduceTasks, s.timers, ReduceTask)
  }

  lemma {:induction false} CountUpdate(tasks: seq<Task>, i: nat, task: Task)
    requires i < |tasks|
    ensures CompletedCount(tasks[i := task]) ==
      CompletedCount(tasks)
      - (if tasks[i].status == Completed then 1 else 0) + (if task.status == Completed then 1 else 0)
    decreases |tasks|
  {
    var n := |tasks| - 1;
    if i == n {
      assert tasks[i := task][..n] == tasks[..n];
    } else {
      CountUpdate(tasks[..n], i, task);
      assert tasks[i := task][..n] == tasks[..n][i := task];
    }
  }

  /** All tasks are counted exactly when all are completed. */
  lemma {:induction false} CountIsAll(tasks: seq<Task>)
    ensures CompletedCount(tasks) <= |tasks|
    ensures CompletedCount(tasks) == |tasks| <==> AllCompleted(tasks)
  {
    if tasks != [] {
      var front := tasks[..|tasks| - 1];
      CountIsAll(front);
      assert AllCompleted(tasks) <==> AllCompleted(front) && tasks[|tasks| - 1].status == Completed;
    }
  }

  lemma {:induction false} NoneCompleted(tasks: seq<Task>)
    requires AllIdle(tasks)
    ensures CompletedCount(tasks) == 0
  {
    if tasks != [] { NoneCompleted(tasks[..|tasks| - 1]); }
  }

  // ---------- filing the reported names ----------

  /** The first `k` reported names go to the first `k` reduce tasks, one each. */
  lemma {:induction false} FileUnderReport(files: seq<seq<string>>, id: nat, nReduce: nat, k: nat)
    requires |files| == nReduce && k <= nReduce <= MAX_INT
    ensures var r := FileUnder(files, OutputFiles(id, nReduce)[..k]);
      && r.Some? && |r.value| == nReduce
      && forall i: nat {:trigger r.value[i]} ::
          i < nReduce ==> r.value[i] == if i < k then files[i] + [FileName(id, i)] else files[i]
    decreases k
  {
    if k > 0 {
      FileUnderReport(files, id, nReduce, k - 1);
      var names := OutputFiles(id, nReduce)[..k];
      assert names[..k - 1] == OutputFiles(id, nReduce)[..k - 1];
      ExtractInvertsFileName(id, k - 1);
    }
  }

  // ---------- every step keeps the invariant ----------

  lemma NextPhaseKeepsInv(nMap: nat, nReduce: nat, s: State)
    requires Inv(nMap, nReduce, s)
    ensures Inv(nMap, nReduce, s.(c := NextPhase(s.c)))
  {
    assert s.c.reduceTasks == [] ==> NewTasks(nReduce) == [];
  }

  lemma TimerUpdate(tasks: seq<Task>, timers: multiset<Timer>, kind: Kind, i: nat, task: Task, timers': multiset<Timer>)
    requires TimersOk(tasks, timers, kind) && i < |tasks| && TimerOk(task, timers'[Timer(kind, i)])
    requires SameElsewhere(timers, timers', Timer(kind, i))
    ensures TimersOk(tasks[i := task], timers', kind)
  {
    forall j: nat | Timer(kind, j) in timers' ensures j < |tasks| {
      if j != i { assert Timer(kind, j) in timers; }
    }
  }

  ghost predicate SameElsewhere(timers: multiset<Timer>, timers': multiset<Timer>, t: Timer) {
    forall u: Timer {:trigger timers'[u]} :: u != t ==> timers'[u] == timers[u]
  }

  lemma TimersOfOthers(tasks: seq<Task>, timers: multiset<Timer>, kind: Kind, t: Timer, timers': multiset<Timer>)
    requires TimersOk(tasks, timers, kind) && t.kind != kind && SameElsewhere(timers, timers', t)
    ensures TimersOk(tasks, timers', kind)
  {
    forall j: nat | Timer(kind, j) in timers' ensures j < |tasks| {
      assert Timer(kind, j) in timers;
    }
  }

  /** Changing the status of a map task that neither was nor becomes completed leaves the files alone. */
  lemma FilesUnchanged(s: State, s': State)
    requires FilesOk(s) && s'.finished == s.finished && s'.c.intermediateFiles == s.c.intermediateFiles
    requires s'.c.nReduce == s.c.nReduce
    requires |s'.c.mapTasks| == |s.c.mapTasks|
    requires forall i ::
      0 <= i < |s.c.mapTasks| ==> (s'.c.mapTasks[i].status == Completed <==> s.c.mapTasks[i].status == Completed)
    ensures FilesOk(s')
  {}

  lemma AssignMapKeepsInv(nMap: nat, nReduce: nat, s: State, i: nat, worker: int)
    requires Inv(nMap, nReduce, s) && i < nMap && s.c.mapTasks[i].status == Idle
    ensures Inv(nMap, nReduce, s.(c := s.c.(mapTasks := s.c.mapTasks[i := Task(InProgress, worker)]),
                                  timers := s.timers + multiset{Timer(MapTask, i)}))
  {
    var timers := s.timers + multiset{Timer(MapTask, i)};
    CountUpdate(s.c.mapTasks, i, Task(InProgress, worker));
    assert TimerOk(s.c.mapTasks[i], s.timers[Timer(MapTask, i)]);
    TimerUpdate(s.c.mapTasks, s.timers, MapTask, i, Task(InProgress, worker), timers);
    TimersOfOthers(s.c.reduceTasks, s.timers, ReduceTask, Timer(MapTask, i), timers);
    FilesUnchanged(s, s.(c := s.c.(mapTasks := s.c.mapTasks[i := Task(InProgress, worker)]), timers := timers));
  }

  lemma AssignReduceKeepsInv(nMap: nat, nReduce: nat, s: State, i: nat, worker: int)
    requires Inv(nMap, nReduce, s) && i < nReduce && s.c.reduceTasks[i].status == Idle && s.c.phase == ReducePhase
    ensures Inv(nMap, nReduce, s.(c := s.c.(reduceTasks := s.c.reduceTasks[i := Task(InProgress, worker)]),
                                  timers := s.timers + multiset{Timer(ReduceTask, i)}))
  {
    var timers := s.timers + multiset{Timer(ReduceTask, i)};
    CountUpdate(s.c.reduceTasks, i, Task(InProgress, worker));
    assert TimerOk(s.c.reduceTasks[i], s.timers[Timer(ReduceTask, i)]);
    TimerUpdate(s.c.reduceTasks, s.timers, ReduceTask, i, Task(InProgress, worker), timers);
    TimersOfOthers(s.c.mapTasks, s.timers, MapTask, Timer(ReduceTask, i), timers);
  }

  function Assigned(s: State, worker: int): State
    requires Assign(s.c, worker).Some?
  {
    var (c, r) := Assign(s.c, worker).value;
    s.(c := c, timers := s.timers + Started(r))
  }

  lemma AssignKeepsInv(nMap: nat, nReduce: nat, s: State, worker: int)
    requires Inv(nMap, nReduce, s)
    ensures Assign(s.c, worker).Some? && Inv(nMap, nReduce, Assigned(s, worker))
  {
    var m, r := FirstIdle(s.c.mapTasks, 0), FirstIdle(s.c.reduceTasks, 0);
    if s.c.phase == MapPhase && m < nMap {
      AssignMapKeepsInv(nMap, nReduce, s, m, worker);
    } else if s.c.phase == ReducePhase && r < nReduce {
      AssignReduceKeepsInv(nMap, nReduce, s, r, worker);
    } else {
      assert Assigned(s, worker).timers == s.timers;
    }
  }

  lemma RequestKeepsInv(nMap: nat, nReduce: nat, s: State, worker: int)
    requires Inv(nMap, nReduce, s)
    ensures Enabled(s, RequestTask(worker)) && Inv(nMap, nReduce, Step(s, RequestTask(worker)))
  {
    var s1 := s.(c := NextPhase(s.c));
    NextPhaseKeepsInv(nMap, nReduce, s);
    AssignKeepsInv(nMap, nReduce, s1, worker);
    assert Step(s, RequestTask(worker)) == Assigned(s1, worker);
  }

  lemma NotAllCompleted(tasks: seq<Task>, i: nat)
    requires i < |tasks| && tasks[i].status != Completed
    ensures CompletedCount(tasks) < |tasks|
  {
    CountIsAll(tasks);
  }

  /** The reported names stand behind the files of the maps finished before. */
  lemma ReportIsFiled(files: seq<seq<string>>, files': seq<seq<string>>, finished: seq<nat>, id: nat, nReduce: nat)
    requires |files| == nReduce <= MAX_INT && FileUnder(files, OutputFiles(id, nReduce)) == Some(files')
    requires forall r: nat {:trigger files[r]} :: r < nReduce ==> files[r] == Named(finished, r)
    ensures |files'| == nReduce
    ensures forall r: nat {:trigger files'[r]} :: r < nReduce ==> files'[r] == Named(finished + [id], r)
  {
    FileUnderReport(files, id, nReduce, nReduce);
    assert OutputFiles(id, nReduce)[..nReduce] == OutputFiles(id, nReduce);
    forall r: nat | r < nReduce ensures files'[r] == Named(finished + [id], r) {
      assert files'[r] == files[r] + [FileName(id, r)];
    }
  }

  lemma MapDoneKeepsFiles(s: State, s': State, id: nat, worker: int)
    requires FilesOk(s) && id < |s.c.mapTasks| && s.c.mapTasks[id].status == InProgress && s.c.nReduce <= MAX_INT
    requires FileUnder(s.c.intermediateFiles, OutputFiles(id, s.c.nReduce)) == Some(s'.c.intermediateFiles)
    requires s'.c.nReduce == s.c.nReduce && s'.c.mapTasks == s.c.mapTasks[id := Task(Completed, worker)]
    requires s'.finished == s.finished + [id]
    ensures FilesOk(s')
  {
    ReportIsFiled(s.c.intermediateFiles, s'.c.intermediateFiles, s.finished, id, s.c.nReduce);
    assert id !in Ids(s.finished);
    IdsSnoc(s.finished, id);
    assert s'.finished[..|s.finished|] == s.finished;
  }

  lemma NotifyMapKeepsInv(nMap: nat, nReduce: nat, s: State, worker: int, id: nat)
    requires Inv(nMap, nReduce, s) && nReduce <= MAX_INT && id < nMap
    ensures Enabled(s, NotifyTaskCompletion(worker, MapTask, id))
    ensures Inv(nMap, nReduce, Step(s, NotifyTaskCompletion(worker, MapTask, id)))
  {
    var m := Report(worker, MapTask, id, nReduce);
    if Owns(s.c.mapTasks, m) {
      FileUnderReport(s.c.intermediateFiles, id, nReduce, nReduce);
      assert OutputFiles(id, nReduce)[..nReduce] == OutputFiles(id, nReduce);
      CountUpdate(s.c.mapTasks, id, Task(Completed, worker));
      NotAllCompleted(s.c.mapTasks, id);
      assert TimerOk(s.c.mapTasks[id], s.timers[Timer(MapTask, id)]);
      TimerUpdate(s.c.mapTasks, s.timers, MapTask, id, Task(Completed, worker), s.timers);
      MapDoneKeepsFiles(s, Step(s, NotifyTaskCompletion(worker, MapTask, id)), id, worker);
    }
  }

  lemma NotifyReduceKeepsInv(nMap: nat, nReduce: nat, s: State, worker: int, id: nat)
    requires Inv(nMap, nReduce, s) && id < nReduce
    ensures Enabled(s, NotifyTaskCompletion(worker, ReduceTask, id))
    ensures Inv(nMap, nReduce, Step(s, NotifyTaskCompletion(worker, ReduceTask, id)))
  {
    var m := Report(worker, ReduceTask, id, nReduce);
    if Owns(s.c.reduceTasks, m) {
      CountUpdate(s.c.reduceTasks, id, Task(Completed, worker));
      NotAllCompleted(s.c.reduceTasks, id);
      assert TimerOk(s.c.reduceTasks[id], s.timers[Timer(ReduceTask, id)]);
      TimerUpdate(s.c.reduceTasks, s.timers, ReduceTask, id, Task(Completed, worker), s.timers);
    }
  }

  function Woken(task: Task): Task {
    if task.status == InProgress then Task(Idle, 0) else task
  }

  lemma FireMapKeepsInv(nMap: nat, nReduce: nat, s: State, i: nat)
    requires Inv(nMap, nReduce, s) && Timer(MapTask, i) in s.timers
    ensures i < nMap
    ensures Inv(nMap, nReduce, s.(c := s.c.(mapTasks := s.c.mapTasks[i := Woken(s.c.mapTasks[i])]),
                                  timers := s.timers - multiset{Timer(MapTask, i)}))
  {
    var tasks, timers := s.c.mapTasks, s.timers - multiset{Timer(MapTask, i)};
    CountUpdate(tasks, i, Woken(tasks[i]));
    assert TimerOk(tasks[i], s.timers[Timer(MapTask, i)]);
    TimerUpdate(tasks, s.timers, MapTask, i, Woken(tasks[i]), timers);
    TimersOfOthers(s.c.reduceTasks, s.timers, ReduceTask, Timer(MapTask, i), timers);
    FilesUnchanged(s, s.(c := s.c.(mapTasks := tasks[i := Woken(tasks[i])]), timers := timers));
  }

  lemma FireReduceKeepsInv(nMap: nat, nReduce: nat, s: State, i: nat)
    requires Inv(nMap, nReduce, s) && Timer(ReduceTask, i) in s.timers
    ensures i < nReduce
    ensures Inv(nMap, nReduce, s.(c := s.c.(reduceTasks := s.c.reduceTasks[i := Woken(s.c.reduceTasks[i])]),
                                  timers := s.timers - multiset{Timer(ReduceTask, i)}))
  {
    var tasks, timers := s.c.reduceTasks, s.timers - multiset{Timer(ReduceTask, i)};
    CountUpdate(tasks, i, Woken(tasks[i]));
    assert TimerOk(tasks[i], s.timers[Timer(ReduceTask, i)]);
    TimerUpdate(tasks, s.timers, ReduceTask, i, Woken(tasks[i]), timers);
    TimersOfOthers(s.c.mapTasks, s.timers, MapTask, Timer(ReduceTask, i), timers);
  }

  lemma FireKeepsInv(nMap: nat, nReduce: nat, s: State, t: Timer)
    requires Inv(nMap, nReduce, s) && t in s.timers
    ensures Enabled(s, Fire(t)) && Inv(nMap, nReduce, Step(s, Fire(t)))
  {
    assert t == Timer(t.kind, t.id);
    if t.kind == MapTask {
      FireMapKeepsInv(nMap, nReduce, s, t.id);
      assert s.c.mapTasks[t.id := s.c.mapTasks[t.id]] == s.c.mapTasks;
    } else {
      FireReduceKeepsInv(nMap, nReduce, s, t.id);
      assert s.c.reduceTasks[t.id := s.c.reduceTasks[t.id]] == s.c.reduceTasks;
    }
  }

  lemma StepKeepsInv(nMap: nat, nReduce: nat, s: State, a: Action)
    requires Inv(nMap, nReduce, s) && nReduce <= MAX_INT && Enabled(s, a)
    ensures Inv(nMap, nReduce, Step(s, a))
  {
    match a {
      case RequestTask(worker) => RequestKeepsInv(nMap, nReduce, s, worker);
      case NotifyTaskCompletion(worker, kind, id) =>
        if kind == MapTask { NotifyMapKeepsInv(nMap, nReduce, s, worker, id); }
        else { NotifyReduceKeepsInv(nMap, nReduce, s, worker, id); }
      case Fire(t) => FireKeepsInv(nMap, nReduce, s, t);
    }
  }

  // ---------- what holds in every run ----------

  lemma {:induction false} RunKeepsInv(nMap: nat, nReduce: nat, run: seq<Action>)
    requires IsRun(nMap, nReduce, run) && nReduce <= MAX_INT
    ensures Inv(nMap, nReduce, After(nMap, nReduce, run))
    decreases |run|
  {
    if run == [] {
      NoneCompleted(NewTasks(nMap));
      NoneCompleted(NewTasks(nReduce));
    } else {
      var k := |run| - 1;
      RunKeepsInv(nMap, nReduce, run[..k]);
      StepKeepsInv(nMap, nReduce, After(nMap, nReduce, run[..k]), run[k]);
    }
  }

  /** No handler panics or ends the process, for any report about a task that exists. */
  lemma HandlersNeverCrash(nMap: nat, nReduce: nat, run: seq<Action>, worker: int, kind: Kind, id: nat, t: Timer)
    requires IsRun(nMap, nReduce, run) && nReduce <= MAX_INT
    ensures Enabled(After(nMap, nReduce, run), RequestTask(worker))
    ensures id < (if kind == MapTask then nMap else nReduce) ==>
      Enabled(After(nMap, nReduce, run), NotifyTaskCompletion(worker, kind, id))
    ensures t in After(nMap, nReduce, run).timers ==> Enabled(After(nMap, nReduce, run), Fire(t))
  {
    RunKeepsInv(nMap, nReduce, run);
    var s := After(nMap, nReduce, run);
    RequestKeepsInv(nMap, nReduce, s, worker);
    if kind == MapTask && id < nMap { NotifyMapKeepsInv(nMap, nReduce, s, worker, id); }
    if kind == ReduceTask && id < nReduce { NotifyReduceKeepsInv(nMap, nReduce, s, worker, id); }
    if t in s.timers { FireKeepsInv(nMap, nReduce, s, t); }
  }

  predicate IsCompleted(c: Coordinator, kind: Kind, id: nat) {
    id < |Tasks(c, kind)| && Tasks(c, kind)[id].status == Completed
  }

  lemma RequestKeepsCompleted(c: Coordinator, worker: int, kind: Kind, id: nat)
    requires Request(c, worker).Some? && IsCompleted(c, kind, id)
    ensures IsCompleted(Request(c, worker).value.0, kind, id)
  {
    assert IsCompleted(NextPhase(c), kind, id);
  }

  lemma NotifyKeepsCompleted(c: Coordinator, m: Completion, kind: Kind, id: nat)
    requires Notify(c, m).Some? && IsCompleted(c, kind, id)
    ensures IsCompleted(Notify(c, m).value, kind, id)
  {}

  lemma StepKeepsCompleted(s: State, a: Action, kind: Kind, id: nat)
    requires Enabled(s, a) && IsCompleted(s.c, kind, id)
    ensures IsCompleted(Step(s, a).c, kind, id)
  {
    match a {
      case RequestTask(worker) => RequestKeepsCompleted(s.c, worker, kind, id);
      case NotifyTaskCompletion(worker, k, i) => NotifyKeepsCompleted(s.c, Report(worker, k, i, s.c.nReduce), kind, id);
      case Fire(_) =>
    }
  }

  lemma RequestCompletesNothing(c: Coordinator, worker: int, kind: Kind, id: nat)
    requires Request(c, worker).Some? && IsCompleted(Request(c, worker).value.0, kind, id)
    ensures IsCompleted(c, kind, id)
  {
    assert IsCompleted(NextPhase(c), kind, id);
  }

  /** Only a report about the task completes it. */
  lemma OnlyReportsComplete(s: State, a: Action, kind: Kind, id: nat)
    requires Enabled(s, a) && IsCompleted(Step(s, a).c, kind, id)
    ensures IsCompleted(s.c, kind, id) || (a.NotifyTaskCompletion? && a.kind == kind && a.id == id)
  {
    match a {
      case RequestTask(worker) => RequestCompletesNothing(s.c, worker, kind, id);
      case NotifyTaskCompletion(_, _, _) =>
      case Fire(_) =>
    }
  }

  /** What is handed out exists, and reduce tasks are handed out only when every map task is completed. */
  lemma HandedOut(nMap: nat, nReduce: nat, s: State, worker: int)
    requires Inv(nMap, nReduce, s)
    ensures var r := Request(s.c, worker);
      && r.Some? && (r.value.1.DoMap? ==> r.value.1.id < nMap && r.value.1.nReduce == nReduce)
      && (r.value.1.DoReduce? ==> r.value.1.id < nReduce && AllCompleted(r.value.0.mapTasks))
  {
    NextPhaseKeepsInv(nMap, nReduce, s);
    CountIsAll(s.c.mapTasks);
  }

  /** A completed task stays completed for the rest of the run. */
  lemma {:induction false} CompletedStays(nMap: nat, nReduce: nat, run: seq<Action>, k: nat, kind: Kind, id: nat)
    requires IsRun(nMap, nReduce, run) && k <= |run|
    ensures IsRun(nMap, nReduce, run[..k])
    ensures IsCompleted(After(nMap, nReduce, run[..k]).c, kind, id) ==>
      IsCompleted(After(nMap, nReduce, run).c, kind, id)
    decreases |run|
  {
    var l := |run| - 1;
    if k == |run| {
      assert run[..k] == run;
    } else {
      CompletedStays(nMap, nReduce, run[..l], k, kind, id);
      assert run[..l][..k] == run[..k];
      var s := After(nMap, nReduce, run[..l]);
      if IsCompleted(s.c, kind, id) { StepKeepsCompleted(s, run[l], kind, id); }
    }
  }

  /** The counters count the completed tasks, and every task has the timers its status calls for. */
  lemma CountersAndTimers(nMap: nat, nReduce: nat, run: seq<Action>, kind: Kind, id: nat)
    requires IsRun(nMap, nReduce, run) && nReduce <= MAX_INT
    ensures var s := After(nMap, nReduce, run);
      && s.c.mapsCompleted == CompletedCount(s.c.mapTasks) && s.c.reducesCompleted == CompletedCount(s.c.reduceTasks)
      && (id < |Tasks(s.c, kind)| ==> TimerOk(Tasks(s.c, kind)[id], s.timers[Timer(kind, id)]))
  {
    RunKeepsInv(nMap, nReduce, run);
  }

  /** For every reduce task the coordinator holds exactly one file of each completed map task, in the
      order of completion. */
  lemma OneFilePerMap(nMap: nat, nReduce: nat, run: seq<Action>, r: nat)
    requires IsRun(nMap, nReduce, run) && r < nReduce <= MAX_INT
    ensures var s := After(nMap, nReduce, run);
      && r < |s.c.intermediateFiles| && s.c.intermediateFiles[r] == Named(s.finished, r)
      && Distinct(s.finished) && forall m: nat :: m in Ids(s.finished) <==> IsCompleted(s.c, MapTask, m)
  {
    RunKeepsInv(nMap, nReduce, run);
  }

  /** A reduce task is handed out only when every map task is completed. */
  lemma ReducesWaitForMaps(nMap: nat, nReduce: nat, run: seq<Action>, worker: int)
    requires IsRun(nMap, nReduce, run) && nReduce <= MAX_INT
    ensures var r := Request(After(nMap, nReduce, run).c, worker);
      r.Some? && (r.value.1.DoReduce? ==> AllCompleted(r.value.0.mapTasks))
  {
    RunKeepsInv(nMap, nReduce, run);
    HandedOut(nMap, nReduce, After(nMap, nReduce, run), worker);
  }

  /** Done says yes only when every task is completed; and once every task is, it says yes after any
      two more requests. */
  lemma DoneMeansDone(nMap: nat, nReduce: nat, run: seq<Action>, a: int, b: int)
    requires IsRun(nMap, nReduce, run) && nReduce <= MAX_INT
    ensures var c := After(nMap, nReduce, run).c;
      && |c.mapTasks| == nMap && |c.reduceTasks| == nReduce
      && (Done(c) ==> AllCompleted(c.mapTasks) && AllCompleted(c.reduceTasks))
      && (AllCompleted(c.mapTasks) && AllCompleted(c.reduceTasks) ==> DoneAfter(c, a, b))
  {
    RunKeepsInv(nMap, nReduce, run);
    var c := After(nMap, nReduce, run).c;
    CountIsAll(c.mapTasks);
    CountIsAll(c.reduceTasks);
    if AllCompleted(c.mapTasks) && AllCompleted(c.reduceTasks) { TwoRequestsFinish(c, a, b); }
  }

  /** Done says yes after requests of the workers `a` and `b`. */
  predicate DoneAfter(c: Coordinator, a: int, b: int) {
    && Request(c, a).Some?
    && var second := Request(Request(c, a).value.0, b); second.Some? && Done(second.value.0)
  }

  lemma TwoRequestsFinish(c: Coordinator, a: int, b: int)
    requires CountsOk(c) && PhaseOk(c) && AllCompleted(c.mapTasks) && AllCompleted(c.reduceTasks)
    ensures DoneAfter(c, a, b)
  {
    CountIsAll(c.mapTasks);
    CountIsAll(c.reduceTasks);
    RequestMovesOn(c, a);
    RequestMovesOn(NextPhase(c), b);
  }

  lemma RequestMovesOn(c: Coordinator, worker: int)
    requires CountsOk(c) && AllCompleted(c.mapTasks) && AllCompleted(c.reduceTasks)
    ensures Request(c, worker).Some? && Request(c, worker).value.0 == NextPhase(c)
    ensures CountsOk(NextPhase(c)) && AllCompleted(NextPhase(c).mapTasks) && AllCompleted(NextPhase(c).reduceTasks)
  {
    assert c.reduceTasks == [] ==> NewTasks(c.nReduce) == [];
  }
}
