/** Coordinator, workers and file system together. Workers take tasks, rename one intermediate file at a
    time, read them one at a time, and may stop anywhere; reports may arrive late, again or never. When the
    coordinator says it is done, the output files together are what the sequential program prints. */
module MrSystem {
  import opened Linearizability
  import opened MrFileNames
  import opened MrPipeline
  import opened MrSequential
  import C = MrCoordinator

  /** The job: what the map function gives for each input, the hash function, the number of reduce tasks
      and the reduce function. */
  datatype Job<!K, !V, !O> = Job(
    outputs: seq<seq<KeyValue<K, V>>>, hash: K -> nat, nReduce: nat, reducef: (K, seq<V>) -> O)

  datatype Intermediate = Intermediate(mapTask: nat, reduceTask: nat)

  /** One task execution of a worker. */
  datatype Execution<K, V> =
    | Mapping(worker: int, id: nat, renamed: nat)
    | Reducing(worker: int, id: nat, todo: Option<set<nat>>, read: seq<KeyValue<K, V>>)

  datatype Report = Report(worker: int, kind: C.Kind, id: nat)

  datatype System<K, V, O> = System(
    coordinator: C.State,
    files: map<Intermediate, seq<KeyValue<K, V>>>,
    outs: map<nat, seq<Line<K, O>>>,
    executions: seq<Execution<K, V>>,
    reports: set<Report>)

  datatype Action<K, O> =
    | Ask(worker: int)
    | Rename(e: nat)
    | FinishMap(e: nat)
    | Glob(e: nat)
    | Read(e: nat, mapTask: nat)
    | Write(e: nat, out: seq<Line<K, O>>)
    | Deliver(report: Report)
    | Fire(timer: C.Timer)

  function Init<K, V, O>(job: Job<K, V, O>): System<K, V, O> {
    System(C.Init(|job.outputs|, job.nReduce), map[], map[], [], {})
  }

  function Part<K, V, O>(job: Job<K, V, O>, m: nat, r: nat): seq<KeyValue<K, V>>
    requires m < |job.outputs| && job.nReduce > 0
  {
    Bucket(job.outputs[m], job.hash, job.nReduce, r)
  }

  ghost predicate Enabled<K, V, O>(job: Job<K, V, O>, s: System<K, V, O>, a: Action<K, O>) {
    match a
    case Ask(worker) => C.Enabled(s.coordinator, C.RequestTask(worker))
    case Rename(e) =>
      && e < |s.executions| && s.executions[e].Mapping?
      && s.executions[e].renamed < job.nReduce && s.executions[e].id < |job.outputs|
    case FinishMap(e) => e < |s.executions| && s.executions[e].Mapping? && s.executions[e].renamed == job.nReduce
    case Glob(e) => e < |s.executions| && s.executions[e].Reducing? && s.executions[e].todo.None?
    case Read(e, m) =>
      && e < |s.executions| && s.executions[e].Reducing? && s.executions[e].todo.Some?
      && m in s.executions[e].todo.value && Intermediate(m, s.executions[e].id) in s.files
    case Write(e, out) =>
      && e < |s.executions| && s.executions[e].Reducing? && s.executions[e].todo == Some({})
      && Printed(out, s.executions[e].read, job.reducef)
    case Deliver(report) =>
      report in s.reports && C.Enabled(s.coordinator, C.NotifyTaskCompletion(report.worker, report.kind, report.id))
    case Fire(t) => C.Enabled(s.coordinator, C.Fire(t))
  }

  /** The execution a worker starts with the response it got. */
  function Begun<K, V>(worker: int, r: C.Response): seq<Execution<K, V>> {
    match r
    case DoMap(id, _) => [Mapping(worker, id, 0)]
    case DoReduce(id, _) => [Reducing(worker, id, None, [])]
    case _ => []
  }

  ghost function Step<K, V, O>(job: Job<K, V, O>, s: System<K, V, O>, a: Action<K, O>): System<K, V, O>
    requires Enabled(job, s, a)
  {
    match a
    case Ask(worker) =>
      s.(coordinator := C.Step(s.coordinator, C.RequestTask(worker)),
         executions := s.executions + Begun(worker, C.Request(s.coordinator.c, worker).value.1))
    case Rename(e) =>
      var x := s.executions[e];
      s.(files := s.files[Intermediate(x.id, x.renamed) := Part(job, x.id, x.renamed)],
         executions := s.executions[e := x.(renamed := x.renamed + 1)])
    case FinishMap(e) => s.(reports := s.reports + {Report(s.executions[e].worker, C.MapTask, s.executions[e].id)})
    case Glob(e) =>
      var x := s.executions[e];
      s.(executions := s.executions[e := x.(todo := Some(Found(s.files, x.id)))])
    case Read(e, m) =>
      var x := s.executions[e];
      var x' := x.(todo := Some(x.todo.value - {m}), read := x.read + s.files[Intermediate(m, x.id)]);
      s.(executions := s.executions[e := x'])
    case Write(e, out) =>
      var x := s.executions[e];
      s.(outs := s.outs[x.id := out], reports := s.reports + {Report(x.worker, C.ReduceTask, x.id)})
    case Deliver(report) =>
      s.(coordinator := C.Step(s.coordinator, C.NotifyTaskCompletion(report.worker, report.kind, report.id)))
    case Fire(t) => s.(coordinator := C.Step(s.coordinator, C.Fire(t)))
  }

  /** The map tasks whose files for reduce task `r` are there. */
  function Found<T>(files: map<Intermediate, T>, r: nat): set<nat> {
    set f <- files.Keys | f.reduceTask == r :: f.mapTask
  }

  ghost predicate IsRun<K, V, O>(job: Job<K, V, O>, run: seq<Action<K, O>>)
    decreases |run|, 0
  {
    run != [] ==> IsRun(job, run[..|run| - 1]) && Enabled(job, After(job, run[..|run| - 1]), run[|run| - 1])
  }

  ghost function After<K, V, O>(job: Job<K, V, O>, run: seq<Action<K, O>>): System<K, V, O>
    requires IsRun(job, run)
    decreases |run|, 1
  {
    if run == [] then Init(job) else Step(job, After(job, run[..|run| - 1]), run[|run| - 1])
  }

  // ---------- the invariant ----------

  ghost predicate FilesOk<K, V, O>(job: Job<K, V, O>, s: System<K, V, O>) {
    && job.nReduce > 0
    && forall f {:trigger f in s.files} :: f in s.files ==>
      f.mapTask < |job.outputs| && f.reduceTask < job.nReduce && s.files[f] == Part(job, f.mapTask, f.reduceTask)
  }

  /** The first `k` intermediate files of map task `m` are there. */
  ghost predicate Has<T>(files: map<Intermediate, T>, m: nat, k: nat) {
    forall r: nat {:trigger Intermediate(m, r)} :: r < k ==> Intermediate(m, r) in files
  }

  /** The sum of the parts with an index in `todo` and below `n`. */
  ghost function Missing<T>(parts: seq<multiset<T>>, todo: set<nat>, n: nat): multiset<T>
    requires n <= |parts|
  {
    if n == 0 then multiset{}
    else if n - 1 in todo then Missing(parts, todo, n - 1) + parts[n - 1]
    else Missing(parts, todo, n - 1)
  }

  ghost function Parts<K, V, O>(job: Job<K, V, O>, r: nat): seq<multiset<KeyValue<K, V>>>
    requires job.nReduce > 0
  {
    seq(|job.outputs|, m requires 0 <= m < |job.outputs| => multiset(Part(job, m, r)))
  }

  function Input<K, V, O>(job: Job<K, V, O>, r: nat): seq<KeyValue<K, V>>
    requires job.nReduce > 0
  {
    Bucket(Flat(job.outputs), job.hash, job.nReduce, r)
  }

  /** What was read and what is still to be read make up the input of reduce task `r`. */
  ghost predicate Remains<K, V, O>(job: Job<K, V, O>, r: nat, todo: set<nat>, read: seq<KeyValue<K, V>>)
    requires job.nReduce > 0
  {
    && (forall m :: m in todo ==> m < |job.outputs|)
    && multiset(read) + Missing(Parts(job, r), todo, |job.outputs|) == multiset(Input(job, r))
  }

  ghost predicate ExecutionOk<K, V, O>(
      job: Job<K, V, O>, files: map<Intermediate, seq<KeyValue<K, V>>>, maps: seq<C.Task>, x: Execution<K, V>)
    requires job.nReduce > 0
  {
    match x
    case Mapping(_, id, renamed) => id < |job.outputs| && renamed <= job.nReduce && Has(files, id, renamed)
    case Reducing(_, id, todo, read) =>
      && id < job.nReduce && C.AllCompleted(maps)
      && (todo.None? ==> read == [])
      && (todo.Some? ==> Remains(job, id, todo.value, read))
  }

  ghost predicate ExecutionsOk<K, V, O>(job: Job<K, V, O>, s: System<K, V, O>)
    requires job.nReduce > 0
  {
    forall e {:trigger s.executions[e]} ::
      0 <= e < |s.executions| ==> ExecutionOk(job, s.files, s.coordinator.c.mapTasks, s.executions[e])
  }

  /** The work behind a task is finished: its files are there. */
  ghost predicate Finished<K, V, O>(job: Job<K, V, O>, s: System<K, V, O>, kind: C.Kind, id: nat) {
    match kind
    case MapTask => id < |job.outputs| && Has(s.files, id, job.nReduce)
    case ReduceTask => id < job.nReduce && id in s.outs
  }

  ghost predicate FinishedOk<K, V, O>(job: Job<K, V, O>, s: System<K, V, O>) {
    && (forall p {:trigger p in s.reports} :: p in s.reports ==> Finished(job, s, p.kind, p.id))
    && (forall kind, id: nat {:trigger C.IsCompleted(s.coordinator.c, kind, id)} ::
        C.IsCompleted(s.coordinator.c, kind, id) ==> Finished(job, s, kind, id))
  }

  ghost predicate OutsOk<K, V, O>(job: Job<K, V, O>, s: System<K, V, O>)
    requires job.nReduce > 0
  {
    forall r {:trigger r in s.outs} :: r in s.outs ==> Printed(s.outs[r], Input(job, r), job.reducef)
  }

  ghost predicate Inv<K, V, O>(job: Job<K, V, O>, s: System<K, V, O>) {
    && job.nReduce <= MAX_INT
    && C.Inv(|job.outputs|, job.nReduce, s.coordinator)
    && FilesOk(job, s) && ExecutionsOk(job, s) && FinishedOk(job, s) && OutsOk(job, s)
  }

  // ---------- what is still to be read ----------

  lemma {:induction false} MissingNothing<T>(parts: seq<multiset<T>>, n: nat)
    requires n <= |parts|
    ensures Missing(parts, {}, n) == multiset{}
    decreases n
  {
    if n > 0 { MissingNothing(parts, n - 1); }
  }

  lemma {:induction false} MissingAbove<T>(parts: seq<multiset<T>>, todo: set<nat>, m: nat, n: nat)
    requires n <= |parts| && n <= m
    ensures Missing(parts, todo, n) == Missing(parts, todo - {m}, n)
    decreases n
  {
    if n > 0 { MissingAbove(parts, todo, m, n - 1); }
  }

  lemma {:induction false} MissingLess<T>(parts: seq<multiset<T>>, todo: set<nat>, m: nat, n: nat)
    requires m in todo && m < n <= |parts|
    ensures Missing(parts, todo, n) == Missing(parts, todo - {m}, n) + parts[m]
    decreases n
  {
    if m == n - 1 {
      MissingAbove(parts, todo, m, n - 1);
    } else {
      MissingLess(parts, todo, m, n - 1);
      LastToMiddle(Missing(parts, todo - {m}, n - 1), parts[m], parts[n - 1]);
    }
  }

  lemma LastToMiddle<T>(a: multiset<T>, b: multiset<T>, c: multiset<T>)
    ensures a + b + c == a + c + b
  {}

  lemma {:induction false} MissingAll<K, V, O>(job: Job<K, V, O>, todo: set<nat>, n: nat, r: nat)
    requires n <= |job.outputs| && job.nReduce > 0 && forall m: nat :: m < n ==> m in todo
    ensures Missing(Parts(job, r), todo, n) == multiset(Bucket(Flat(job.outputs[..n]), job.hash, job.nReduce, r))
    decreases n
  {
    if n > 0 {
      MissingAll(job, todo, n - 1, r);
      assert job.outputs[..n][..n - 1] == job.outputs[..n - 1];
      BucketConcat(Flat(job.outputs[..n - 1]), job.outputs[n - 1], job.hash, job.nReduce, r);
    }
  }

  /** Globbing finds the files of every map task, because all of them are completed. */
  lemma GlobFindsAll<K, V, O>(job: Job<K, V, O>, s: System<K, V, O>, r: nat)
    requires Inv(job, s) && C.AllCompleted(s.coordinator.c.mapTasks) && r < job.nReduce
    ensures Remains(job, r, Found(s.files, r), [])
  {
    var todo := Found(s.files, r);
    forall m: nat | m < |job.outputs| ensures m in todo {
      assert C.IsCompleted(s.coordinator.c, C.MapTask, m);
      assert Intermediate(m, r) in s.files;
    }
    MissingAll(job, todo, |job.outputs|, r);
    assert job.outputs[..|job.outputs|] == job.outputs;
  }

  lemma ReadRemains<K, V, O>(job: Job<K, V, O>, r: nat, todo: set<nat>, read: seq<KeyValue<K, V>>, m: nat)
    requires job.nReduce > 0 && Remains(job, r, todo, read) && m in todo
    ensures Remains(job, r, todo - {m}, read + Part(job, m, r))
  {
    MissingLess(Parts(job, r), todo, m, |job.outputs|);
  }

  // ---------- every step keeps the invariant ----------

  ghost predicate MoreDone(c: C.Coordinator, c': C.Coordinator) {
    |c.mapTasks| == |c'.mapTasks| && (C.AllCompleted(c.mapTasks) ==> C.AllCompleted(c'.mapTasks))
  }

  lemma CoordinatorMovesOn<K, V, O>(job: Job<K, V, O>, s: System<K, V, O>, a: C.Action)
    requires Inv(job, s) && C.Enabled(s.coordinator, a)
    requires a.NotifyTaskCompletion? ==> Finished(job, s, a.kind, a.id)
    ensures Inv(job, s.(coordinator := C.Step(s.coordinator, a)))
    ensures MoreDone(s.coordinator.c, C.Step(s.coordinator, a).c)
  {
    C.StepKeepsInv(|job.outputs|, job.nReduce, s.coordinator, a);
    var s' := s.(coordinator := C.Step(s.coordinator, a));
    forall i: nat | i < |job.outputs| && s.coordinator.c.mapTasks[i].status == C.Completed
      ensures s'.coordinator.c.mapTasks[i].status == C.Completed
    {
      C.StepKeepsCompleted(s.coordinator, a, C.MapTask, i);
    }
    forall kind, id: nat | C.IsCompleted(s'.coordinator.c, kind, id) ensures Finished(job, s', kind, id) {
      C.OnlyReportsComplete(s.coordinator, a, kind, id);
      assert Finished(job, s, kind, id);
    }
    forall e | 0 <= e < |s.executions| ensures ExecutionOk(job, s'.files, s'.coordinator.c.mapTasks, s'.executions[e]) {
      assert ExecutionOk(job, s.files, s.coordinator.c.mapTasks, s.executions[e]);
    }
  }

  lemma AskKeepsInv<K, V, O>(job: Job<K, V, O>, s: System<K, V, O>, worker: int)
    requires Inv(job, s) && Enabled(job, s, Ask(worker))
    ensures Inv(job, Step(job, s, Ask(worker)))
  {
    CoordinatorMovesOn(job, s, C.RequestTask(worker));
    C.HandedOut(|job.outputs|, job.nReduce, s.coordinator, worker);
    var s1 := s.(coordinator := C.Step(s.coordinator, C.RequestTask(worker)));
    var begun: seq<Execution<K, V>> := Begun(worker, C.Request(s.coordinator.c, worker).value.1);
    if begun != [] {
      assert ExecutionOk(job, s1.files, s1.coordinator.c.mapTasks, begun[0]);
      AddExecution(job, s1, begun[0]);
      assert begun == [begun[0]];
    } else {
      assert s1.executions + begun == s1.executions;
    }
  }

  lemma AddExecution<K, V, O>(job: Job<K, V, O>, s: System<K, V, O>, x: Execution<K, V>)
    requires Inv(job, s) && ExecutionOk(job, s.files, s.coordinator.c.mapTasks, x)
    ensures Inv(job, s.(executions := s.executions + [x]))
  {}

  lemma SetExecution<K, V, O>(job: Job<K, V, O>, s: System<K, V, O>, e: nat, x: Execution<K, V>)
    requires Inv(job, s) && e < |s.executions| && ExecutionOk(job, s.files, s.coordinator.c.mapTasks, x)
    ensures Inv(job, s.(executions := s.executions[e := x]))
  {}

  lemma AddFile<K, V, O>(job: Job<K, V, O>, s: System<K, V, O>, m: nat, r: nat)
    requires Inv(job, s) && m < |job.outputs| && r < job.nReduce
    ensures Inv(job, s.(files := s.files[Intermediate(m, r) := Part(job, m, r)]))
  {
    var s' := s.(files := s.files[Intermediate(m, r) := Part(job, m, r)]);
    forall e | 0 <= e < |s.executions| ensures ExecutionOk(job, s'.files, s'.coordinator.c.mapTasks, s'.executions[e]) {
      assert ExecutionOk(job, s.files, s.coordinator.c.mapTasks, s.executions[e]);
    }
    forall kind, id: nat | Finished(job, s, kind, id) ensures Finished(job, s', kind, id) {}
  }

  lemma RenameKeepsInv<K, V, O>(job: Job<K, V, O>, s: System<K, V, O>, e: nat)
    requires Inv(job, s) && Enabled(job, s, Rename(e))
    ensures Inv(job, Step(job, s, Rename(e)))
  {
    var x := s.executions[e];
    assert ExecutionOk(job, s.files, s.coordinator.c.mapTasks, x);
    AddFile(job, s, x.id, x.renamed);
    var s1 := s.(files := s.files[Intermediate(x.id, x.renamed) := Part(job, x.id, x.renamed)]);
    SetExecution(job, s1, e, x.(renamed := x.renamed + 1));
  }

  lemma GlobKeepsInv<K, V, O>(job: Job<K, V, O>, s: System<K, V, O>, e: nat)
    requires Inv(job, s) && Enabled(job, s, Glob(e))
    ensures Inv(job, Step(job, s, Glob(e)))
  {
    var x := s.executions[e];
    assert ExecutionOk(job, s.files, s.coordinator.c.mapTasks, x);
    GlobFindsAll(job, s, x.id);
    SetExecution(job, s, e, x.(todo := Some(Found(s.files, x.id))));
  }

  lemma ReadKeepsInv<K, V, O>(job: Job<K, V, O>, s: System<K, V, O>, e: nat, m: nat)
    requires Inv(job, s) && Enabled(job, s, Read(e, m))
    ensures Inv(job, Step(job, s, Read(e, m)))
  {
    var x := s.executions[e];
    assert ExecutionOk(job, s.files, s.coordinator.c.mapTasks, x);
    ReadRemains(job, x.id, x.todo.value, x.read, m);
    SetExecution(job, s, e, x.(todo := Some(x.todo.value - {m}), read := x.read + s.files[Intermediate(m, x.id)]));
  }

  lemma WritePrints<K(!new), V(!new), O>(job: Job<K, V, O>, r: nat, read: seq<KeyValue<K, V>>, out: seq<Line<K, O>>)
    requires job.nReduce > 0 && OrderInsensitive(job.reducef) && Remains(job, r, {}, read)
    requires Printed(out, read, job.reducef)
    ensures Printed(out, Input(job, r), job.reducef)
  {
    MissingNothing(Parts(job, r), |job.outputs|);
    ExpectedOfPermutation(read, Input(job, r), job.reducef);
  }

  lemma WriteKeepsInv<K(!new), V(!new), O>(job: Job<K, V, O>, s: System<K, V, O>, e: nat, out: seq<Line<K, O>>)
    requires Inv(job, s) && Enabled(job, s, Write(e, out)) && OrderInsensitive(job.reducef)
    ensures Inv(job, Step(job, s, Write(e, out)))
  {
    var x := s.executions[e];
    assert ExecutionOk(job, s.files, s.coordinator.c.mapTasks, x);
    WritePrints(job, x.id, x.read, out);
    var s' := Step(job, s, Write(e, out));
    forall kind, id: nat | Finished(job, s, kind, id) ensures Finished(job, s', kind, id) {}
  }

  lemma StepKeepsInv<K(!new), V(!new), O>(job: Job<K, V, O>, s: System<K, V, O>, a: Action<K, O>)
    requires Inv(job, s) && Enabled(job, s, a) && OrderInsensitive(job.reducef)
    ensures Inv(job, Step(job, s, a))
  {
    match a {
      case Ask(worker) => AskKeepsInv(job, s, worker);
      case Rename(e) => RenameKeepsInv(job, s, e);
      case FinishMap(e) => assert ExecutionOk(job, s.files, s.coordinator.c.mapTasks, s.executions[e]);
      case Glob(e) => GlobKeepsInv(job, s, e);
      case Read(e, m) => ReadKeepsInv(job, s, e, m);
      case Write(e, out) => WriteKeepsInv(job, s, e, out);
      case Deliver(p) => CoordinatorMovesOn(job, s, C.NotifyTaskCompletion(p.worker, p.kind, p.id));
      case Fire(t) => CoordinatorMovesOn(job, s, C.Fire(t));
    }
  }

  lemma {:induction false} RunKeepsInv<K(!new), V(!new), O>(job: Job<K, V, O>, run: seq<Action<K, O>>)
    requires 0 < job.nReduce <= MAX_INT && OrderInsensitive(job.reducef) && IsRun(job, run)
    ensures Inv(job, After(job, run))
    decreases |run|
  {
    if run == [] {
      C.RunKeepsInv(|job.outputs|, job.nReduce, []);
    } else {
      var k := |run| - 1;
      RunKeepsInv(job, run[..k]);
      StepKeepsInv(job, After(job, run[..k]), run[k]);
    }
  }

  // ---------- the job is done ----------

  /** All output files, one after the other. */
  ghost function Output<K, V, O>(job: Job<K, V, O>, s: System<K, V, O>): seq<seq<Line<K, O>>>
    requires forall r: nat :: r < job.nReduce ==> r in s.outs
  {
    seq(job.nReduce, r requires 0 <= r < job.nReduce => s.outs[r])
  }

  lemma DoneHasOutputs<K, V, O>(job: Job<K, V, O>, s: System<K, V, O>, r: nat)
    requires Inv(job, s) && C.Done(s.coordinator.c) && r < job.nReduce
    ensures r in s.outs && Printed(s.outs[r], Input(job, r), job.reducef)
  {
    C.CountIsAll(s.coordinator.c.reduceTasks);
    assert C.IsCompleted(s.coordinator.c, C.ReduceTask, r);
  }

  /** In every run, once the coordinator is done every output file is there, and together their lines are
      exactly the output of the job on all pairs. */
  lemma DoneIsComplete<K(!new), V(!new), O>(job: Job<K, V, O>, run: seq<Action<K, O>>)
    requires 0 < job.nReduce <= MAX_INT && OrderInsensitive(job.reducef) && IsRun(job, run)
    requires C.Done(After(job, run).coordinator.c)
    ensures forall r: nat :: r < job.nReduce ==> r in After(job, run).outs
    ensures Printed(Flat(Output(job, After(job, run))), Flat(job.outputs), job.reducef)
  {
    RunKeepsInv(job, run);
    var s := After(job, run);
    forall r: nat | r < job.nReduce ensures r in s.outs && Printed(s.outs[r], Input(job, r), job.reducef) {
      DoneHasOutputs(job, s, r);
    }
    BucketsMakeTheJob(Output(job, s), Flat(job.outputs), job.hash, job.reducef);
  }

  /** The distributed job prints the same lines as the sequential program on the same inputs. */
  lemma DistributedEqualsSequential<I, K(!new), V(!new), O>(
    job: Job<K, V, O>, run: seq<Action<K, O>>, inputs: seq<I>, mapf: I -> seq<KeyValue<K, V>>,
    less: (K, K) -> bool, out: seq<Line<K, O>>)
    requires 0 < job.nReduce <= MAX_INT && OrderInsensitive(job.reducef) && job.outputs == MapOutputs(inputs, mapf)
    requires IsRun(job, run) && C.Done(After(job, run).coordinator.c)
    requires PrintsSequentially(inputs, mapf, less, job.reducef, out)
    ensures forall r: nat :: r < job.nReduce ==> r in After(job, run).outs
    ensures multiset(Flat(Output(job, After(job, run)))) == multiset(out)
  {
    DoneIsComplete(job, run);
    SequentialPrintsTheJob(inputs, mapf, less, job.reducef, out);
  }
}
