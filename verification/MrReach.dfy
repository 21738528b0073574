/** A job can always be finished: whatever workers and coordinator did so far, whichever workers stopped and
    whatever reports were lost, the run can go on until the coordinator is done. */
module MrReach {
  import opened Linearizability
  import opened MrFileNames
  import opened MrPipeline
  import opened MrSystem
  import C = MrCoordinator
  import R = MrRules

  /** A set of systems that no step leaves. */
  ghost predicate Closed<K(!new), V(!new), O(!new)>(job: Job<K, V, O>, p: iset<System<K, V, O>>) {
    forall s, a {:trigger Step(job, s, a)} :: s in p && Enabled(job, s, a) ==> Step(job, s, a) in p
  }

  ghost predicate Proper<K(!new), V(!new), O(!new)>(job: Job<K, V, O>, p: iset<System<K, V, O>>) {
    Closed(job, p) && OrderInsensitive(job.reducef)
  }

  ghost predicate At<K(!new), V(!new), O(!new)>(job: Job<K, V, O>, p: iset<System<K, V, O>>, s: System<K, V, O>) {
    s in p && Inv(job, s)
  }

  lemma Move<K(!new), V(!new), O(!new)>(
      job: Job<K, V, O>, p: iset<System<K, V, O>>, s: System<K, V, O>, a: Action<K, O>)
      returns (s': System<K, V, O>)
    requires Proper(job, p) && At(job, p, s) && Enabled(job, s, a)
    ensures s' == Step(job, s, a) && At(job, p, s')
  {
    s' := Step(job, s, a);
    StepKeepsInv(job, s, a);
  }

  // ---------- letting the timers wake ----------

  ghost predicate SameProgress(c: C.Coordinator, c': C.Coordinator) {
    c'.phase == c.phase && R.SameCounters(c, c')
  }

  lemma {:induction false} Settle<K(!new), V(!new), O(!new)>(
      job: Job<K, V, O>, p: iset<System<K, V, O>>, s: System<K, V, O>)
      returns (s': System<K, V, O>)
    requires Proper(job, p) && At(job, p, s)
    ensures At(job, p, s') && s'.coordinator.timers == multiset{}
    ensures SameProgress(s.coordinator.c, s'.coordinator.c)
    decreases |s.coordinator.timers|
  {
    if t :| t in s.coordinator.timers {
      R.TimerFires(|job.outputs|, job.nReduce, s.coordinator, t);
      s' := Move(job, p, s, Fire(t));
      s' := Settle(job, p, s');
    } else {
      s' := s;
    }
  }

  /** With no timer asleep nothing is running, so a task that is not completed is idle. */
  lemma SomeIdle(nMap: nat, nReduce: nat, s: C.State, kind: C.Kind)
    requires C.Inv(nMap, nReduce, s) && s.timers == multiset{} && R.Counter(s.c, kind) < |C.Tasks(s.c, kind)|
    ensures !C.AllCompleted(C.Tasks(s.c, kind)) && !R.NoneIdle(C.Tasks(s.c, kind))
  {
    var tasks := C.Tasks(s.c, kind);
    C.CountIsAll(tasks);
    var i :| 0 <= i < |tasks| && tasks[i].status != C.Completed;
    assert C.TimerOk(tasks[i], s.timers[C.Timer(kind, i)]);
  }

  // ---------- one map task ----------

  lemma {:induction false} RenameAll<K(!new), V(!new), O(!new)>(
      job: Job<K, V, O>, p: iset<System<K, V, O>>, s: System<K, V, O>, e: nat)
      returns (s': System<K, V, O>)
    requires Proper(job, p) && At(job, p, s) && e < |s.executions| && s.executions[e].Mapping?
    ensures At(job, p, s') && s'.coordinator == s.coordinator && e < |s'.executions|
    ensures s'.executions[e] == s.executions[e].(renamed := job.nReduce)
    decreases job.nReduce - s.executions[e].renamed
  {
    var x := s.executions[e];
    assert ExecutionOk(job, s.files, s.coordinator.c.mapTasks, x);
    if x.renamed < job.nReduce {
      s' := Move(job, p, s, Rename(e));
      s' := RenameAll(job, p, s', e);
    } else {
      s' := s;
    }
  }

  /** The worker asks and gets an idle task of the phase. */
  lemma GetsTask<K(!new), V(!new), O(!new)>(
      job: Job<K, V, O>, p: iset<System<K, V, O>>, s: System<K, V, O>, worker: int, kind: C.Kind)
      returns (s': System<K, V, O>, id: nat)
    requires Proper(job, p) && At(job, p, s) && s.coordinator.timers == multiset{}
    requires s.coordinator.c.phase != C.ExitPhase && R.KindOf(s.coordinator.c.phase) == kind
    requires R.Counter(s.coordinator.c, kind) < |C.Tasks(s.coordinator.c, kind)|
    ensures At(job, p, s') && SameProgress(s.coordinator.c, s'.coordinator.c)
    ensures R.Expected(s'.coordinator.c, worker, kind, id) && |s'.executions| == |s.executions| + 1
    ensures s'.executions[|s.executions|] ==
      if kind == C.MapTask then Mapping(worker, id, 0) else Reducing(worker, id, None, [])
  {
    SomeIdle(|job.outputs|, job.nReduce, s.coordinator, kind);
    R.RequestIsAnswered(|job.outputs|, job.nReduce, s.coordinator, worker);
    s' := Move(job, p, s, Ask(worker));
    id :| R.FirstOfIdle(C.Tasks(s.coordinator.c, kind), id)
      && R.HandsOut(s.coordinator.c, C.Request(s.coordinator.c, worker).value.1, kind, id)
      && C.Tasks(s'.coordinator.c, kind)[id] == C.Task(C.InProgress, worker);
  }

  /** The report of the worker that the coordinator expects completes the task. */
  lemma Reports<K(!new), V(!new), O(!new)>(
      job: Job<K, V, O>, p: iset<System<K, V, O>>, s: System<K, V, O>, worker: int, kind: C.Kind, id: nat)
      returns (s': System<K, V, O>)
    requires Proper(job, p) && At(job, p, s) && Report(worker, kind, id) in s.reports
    requires R.Expected(s.coordinator.c, worker, kind, id)
    ensures At(job, p, s') && s'.coordinator.c.phase == s.coordinator.c.phase
    ensures R.Counter(s'.coordinator.c, kind) == R.Counter(s.coordinator.c, kind) + 1
    ensures R.Counter(s'.coordinator.c, R.Other(kind)) == R.Counter(s.coordinator.c, R.Other(kind))
  {
    R.ReportIsTaken(|job.outputs|, job.nReduce, s.coordinator, worker, kind, id);
    s' := Move(job, p, s, Deliver(Report(worker, kind, id)));
  }

  lemma FinishOneMap<K(!new), V(!new), O(!new)>(
      job: Job<K, V, O>, p: iset<System<K, V, O>>, s: System<K, V, O>)
      returns (s': System<K, V, O>)
    requires Proper(job, p) && At(job, p, s) && s.coordinator.timers == multiset{}
    requires s.coordinator.c.phase == C.MapPhase && s.coordinator.c.mapsCompleted < s.coordinator.c.nMap
    ensures At(job, p, s') && s'.coordinator.c.phase == C.MapPhase
    ensures s'.coordinator.c.mapsCompleted == s.coordinator.c.mapsCompleted + 1
    ensures s'.coordinator.c.reducesCompleted == s.coordinator.c.reducesCompleted
  {
    var e, id := |s.executions|, 0;
    s', id := GetsTask(job, p, s, 1, C.MapTask);
    s' := RenameAll(job, p, s', e);
    s' := Move(job, p, s', FinishMap(e));
    s' := Reports(job, p, s', 1, C.MapTask, id);
  }

  // ---------- one reduce task ----------

  ghost predicate Readable<K, V, O>(s: System<K, V, O>, r: nat, todo: set<nat>) {
    forall m {:trigger m in todo} :: m in todo ==> Intermediate(m, r) in s.files
  }

  lemma {:induction false} ReadAll<K(!new), V(!new), O(!new)>(
      job: Job<K, V, O>, p: iset<System<K, V, O>>, s: System<K, V, O>, e: nat)
      returns (s': System<K, V, O>)
    requires Proper(job, p) && At(job, p, s) && e < |s.executions|
    requires s.executions[e].Reducing? && s.executions[e].todo.Some?
    requires Readable(s, s.executions[e].id, s.executions[e].todo.value)
    ensures At(job, p, s') && s'.coordinator == s.coordinator && e < |s'.executions|
    ensures s'.executions[e].Reducing? && s'.executions[e].todo == Some({})
    ensures s'.executions[e].worker == s.executions[e].worker && s'.executions[e].id == s.executions[e].id
    decreases |s.executions[e].todo.value|
  {
    if m :| m in s.executions[e].todo.value {
      s' := Move(job, p, s, Read(e, m));
      s' := ReadAll(job, p, s', e);
    } else {
      s' := s;
      assert s.executions[e].todo.value == {};
    }
  }

  lemma {:induction false} Listed<T>(s: set<T>) returns (q: seq<T>)
    ensures multiset(q) == multiset(s)
  {
    if x :| x in s {
      q := Listed(s - {x});
      q := q + [x];
      assert s == (s - {x}) + {x};
    } else {
      q := [];
    }
  }

  lemma FinishOneReduce<K(!new), V(!new), O(!new)>(
      job: Job<K, V, O>, p: iset<System<K, V, O>>, s: System<K, V, O>)
      returns (s': System<K, V, O>)
    requires Proper(job, p) && At(job, p, s) && s.coordinator.timers == multiset{}
    requires s.coordinator.c.phase == C.ReducePhase && s.coordinator.c.reducesCompleted < s.coordinator.c.nReduce
    ensures At(job, p, s') && s'.coordinator.c.phase == C.ReducePhase
    ensures s'.coordinator.c.reducesCompleted == s.coordinator.c.reducesCompleted + 1
    ensures s'.coordinator.c.mapsCompleted == s.coordinator.c.mapsCompleted
  {
    var e, id := |s.executions|, 0;
    s', id := GetsTask(job, p, s, 1, C.ReduceTask);
    s' := Move(job, p, s', Glob(e));
    s' := ReadAll(job, p, s', e);
    var out := Listed(Expected(s'.executions[e].read, job.reducef));
    s' := Move(job, p, s', Write(e, out));
    s' := Reports(job, p, s', 1, C.ReduceTask, id);
  }

  // ---------- all of them ----------

  /** What is left to do: tasks, and phases to come. */
  function Left(c: C.Coordinator): int {
    (c.nMap - c.mapsCompleted) + (c.nReduce - c.reducesCompleted)
    + match c.phase case MapPhase => 2 case ReducePhase => 1 case ExitPhase => 0
  }

  lemma LeftIsNatural(nMap: nat, nReduce: nat, s: C.State)
    requires C.Inv(nMap, nReduce, s)
    ensures Left(s.c) >= 0 && s.c.mapsCompleted <= s.c.nMap && s.c.reducesCompleted <= s.c.nReduce
  {
    C.CountIsAll(s.c.mapTasks);
    C.CountIsAll(s.c.reduceTasks);
  }

  /** The phase moves on with the next request. */
  lemma MovesOn<K(!new), V(!new), O(!new)>(
      job: Job<K, V, O>, p: iset<System<K, V, O>>, s: System<K, V, O>)
      returns (s': System<K, V, O>)
    requires Proper(job, p) && At(job, p, s)
    requires var c := s.coordinator.c;
      || (c.phase == C.MapPhase && c.mapsCompleted == c.nMap)
      || (c.phase == C.ReducePhase && c.reducesCompleted == c.nReduce)
    ensures At(job, p, s') && Left(s'.coordinator.c) == Left(s.coordinator.c) - 1
  {
    C.CountIsAll(s.coordinator.c.mapTasks);
    C.CountIsAll(s.coordinator.c.reduceTasks);
    R.RequestIsAnswered(|job.outputs|, job.nReduce, s.coordinator, 1);
    s' := Move(job, p, s, Ask(1));
  }

  lemma OneLess<K(!new), V(!new), O(!new)>(
      job: Job<K, V, O>, p: iset<System<K, V, O>>, s: System<K, V, O>)
      returns (s': System<K, V, O>)
    requires Proper(job, p) && At(job, p, s) && s.coordinator.c.phase != C.ExitPhase
    ensures At(job, p, s') && Left(s'.coordinator.c) == Left(s.coordinator.c) - 1
  {
    LeftIsNatural(|job.outputs|, job.nReduce, s.coordinator);
    s' := Settle(job, p, s);
    var c := s'.coordinator.c;
    if c.phase == C.MapPhase && c.mapsCompleted < c.nMap {
      s' := FinishOneMap(job, p, s');
    } else if c.phase == C.ReducePhase && c.reducesCompleted < c.nReduce {
      s' := FinishOneReduce(job, p, s');
    } else {
      s' := MovesOn(job, p, s');
    }
  }

  lemma {:induction false} Finish<K(!new), V(!new), O(!new)>(
      job: Job<K, V, O>, p: iset<System<K, V, O>>, s: System<K, V, O>)
      returns (s': System<K, V, O>)
    requires Proper(job, p) && At(job, p, s)
    ensures At(job, p, s') && C.Done(s'.coordinator.c)
    decreases Left(s.coordinator.c)
  {
    LeftIsNatural(|job.outputs|, job.nReduce, s.coordinator);
    if s.coordinator.c.phase == C.ExitPhase {
      s' := s;
    } else {
      s' := OneLess(job, p, s);
      LeftIsNatural(|job.outputs|, job.nReduce, s'.coordinator);
      s' := Finish(job, p, s');
    }
  }

  // ---------- runs ----------

  ghost predicate Reaches<K(!new), V(!new), O(!new)>(
      job: Job<K, V, O>, run: seq<Action<K, O>>, run': seq<Action<K, O>>, s: System<K, V, O>) {
    run <= run' && IsRun(job, run') && After(job, run') == s
  }

  ghost predicate CanReach<K(!new), V(!new), O(!new)>(
      job: Job<K, V, O>, run: seq<Action<K, O>>, s: System<K, V, O>) {
    exists run' :: Reaches(job, run, run', s)
  }

  lemma ReachesIsClosed<K(!new), V(!new), O(!new)>(
      job: Job<K, V, O>, run: seq<Action<K, O>>, p: iset<System<K, V, O>>)
    requires forall s :: s in p <==> CanReach(job, run, s)
    ensures Closed(job, p)
  {
    forall s, a | s in p && Enabled(job, s, a) ensures Step(job, s, a) in p {
      var run' :| Reaches(job, run, run', s);
      var next := run' + [a];
      assert next[..|run'|] == run';
      assert Reaches(job, run, next, Step(job, s, a));
    }
  }

  /** Every run of the whole system can be continued to one in which the coordinator is done. */
  lemma CanAlwaysFinish<K(!new), V(!new), O(!new)>(job: Job<K, V, O>, run: seq<Action<K, O>>)
      returns (run': seq<Action<K, O>>)
    requires 0 < job.nReduce <= MAX_INT && OrderInsensitive(job.reducef) && IsRun(job, run)
    ensures run <= run' && IsRun(job, run') && C.Done(After(job, run').coordinator.c)
  {
    var p := iset s | CanReach(job, run, s);
    ReachesIsClosed(job, run, p);
    RunKeepsInv(job, run);
    assert Reaches(job, run, run, After(job, run));
    var s := Finish(job, p, After(job, run));
    run' :| Reaches(job, run, run', s);
  }
}
