/** The Coordinator object of coordinator.go: its fields, and each lock-held section as a method proved
    against the function that specifies it. */
module MrCoordinatorServer {
  import opened Linearizability
  import opened MrFileNames
  import C = MrCoordinator

  class Coordinator {
    const nMap: nat
    const nReduce: nat
    var mapTasks: seq<C.Task>
    var reduceTasks: seq<C.Task>
    var intermediateFiles: seq<seq<string>>
    var mapTasksCompleted: nat
    var reduceTasksCompleted: nat
    var status: C.Phase

    function View(): C.Coordinator
      reads this
    {
      C.Coordinator(
        mapTasks, reduceTasks, nMap, nReduce, intermediateFiles, mapTasksCompleted, reduceTasksCompleted, status)
    }

    /** MakeCoordinator. */
    constructor (nMap: nat, nReduce: nat)
      ensures View() == C.Make(nMap, nReduce)
    {
      this.nMap, this.nReduce := nMap, nReduce;
      mapTasks, reduceTasks := C.NewTasks(nMap), C.NewTasks(nReduce);
      intermediateFiles := seq(nReduce, _ => []);
      mapTasksCompleted, reduceTasksCompleted := 0, 0;
      status := C.MapPhase;
    }

    /** RequestTask up to the choice of a task: move on to the next phase when this one is over. */
    method UpdatePhase()
      modifies this
      ensures View() == C.NextPhase(old(View()))
    {
      if status == C.MapPhase && mapTasksCompleted == nMap {
        status := C.ReducePhase;
        if |reduceTasks| == 0 {
          for i := 0 to nReduce
            invariant reduceTasks == C.NewTasks(i)
            invariant View() == old(View()).(phase := C.ReducePhase, reduceTasks := reduceTasks)
          {
            reduceTasks := reduceTasks + [C.Task(C.Idle, 0)];
          }
        }
      } else if status == C.ReducePhase && reduceTasksCompleted == nReduce {
        status := C.ExitPhase;
      }
    }

    method RequestTask(worker: int) returns (reply: C.Response)
      requires C.Request(View(), worker).Some?
      modifies this
      ensures Some((View(), reply)) == C.Request(old(View()), worker)
    {
      UpdatePhase();
      if status == C.MapPhase {
        var i := FindIdle(mapTasks);
        if i < |mapTasks| {
          mapTasks := mapTasks[i := C.Task(C.InProgress, worker)];
          return C.DoMap(i, nReduce);
        }
      } else if status == C.ReducePhase {
        var i := FindIdle(reduceTasks);
        if i < |reduceTasks| {
          reduceTasks := reduceTasks[i := C.Task(C.InProgress, worker)];
          return C.DoReduce(i, intermediateFiles[i]);
        }
      } else {
        return C.Exit;
      }
      return C.Wait;
    }

    method NotifyTaskCompletion(m: C.Completion)
      requires C.Notify(View(), m).Some?
      modifies this
      ensures Some(View()) == C.Notify(old(View()), m)
    {
      match m.kind {
        case MapTask =>
          if mapTasks[m.id].status == C.InProgress && mapTasks[m.id].worker == m.worker {
            mapTasks := mapTasks[m.id := C.Task(C.Completed, m.worker)];
            mapTasksCompleted := mapTasksCompleted + 1;
            FileReported(m.outputFiles);
          }
        case ReduceTask =>
          if reduceTasks[m.id].status == C.InProgress && reduceTasks[m.id].worker == m.worker {
            reduceTasks := reduceTasks[m.id := C.Task(C.Completed, m.worker)];
            reduceTasksCompleted := reduceTasksCompleted + 1;
          }
      }
    }

    /** The loop of NotifyTaskCompletion over the reported files. */
    method FileReported(names: seq<string>)
      requires C.FileUnder(intermediateFiles, names).Some?
      modifies this
      ensures View() == old(View()).(intermediateFiles := C.FileUnder(old(intermediateFiles), names).value)
    {
      ghost var files := intermediateFiles;
      for i := 0 to |names|
        invariant C.FileUnder(files, names[..i]) == Some(intermediateFiles)
        invariant View() == old(View()).(intermediateFiles := intermediateFiles)
      {
        FileUnderPrefix(files, names, i + 1);
        assert names[..i + 1][..i] == names[..i];
        var num := ExtractReduceTaskNum(names[i]).value;
        intermediateFiles := intermediateFiles[num := intermediateFiles[num] + [names[i]]];
      }
      assert names[..|names|] == names;
    }

    /** waitTask after its sleep. */
    method WaitTask(kind: C.Kind, id: nat)
      requires id < |C.Tasks(View(), kind)|
      modifies this
      ensures View() == C.TimeOut(old(View()), kind, id)
    {
      match kind {
        case MapTask =>
          if mapTasks[id].status == C.InProgress {
            mapTasks := mapTasks[id := C.Task(C.Idle, 0)];
          }
        case ReduceTask =>
          if reduceTasks[id].status == C.InProgress {
            reduceTasks := reduceTasks[id := C.Task(C.Idle, 0)];
          }
      }
    }

    method Done() returns (ret: bool)
      ensures ret == C.Done(View())
    {
      ret := false;
      if status == C.ExitPhase {
        if mapTasksCompleted == nMap && reduceTasksCompleted == nReduce {
          ret := true;
        }
      }
    }
  }

  /** The scan for an idle task. */
  method FindIdle(tasks: seq<C.Task>) returns (i: nat)
    ensures i == C.FirstIdle(tasks, 0)
  {
    i := 0;
    while i < |tasks|
      invariant i <= |tasks| && C.FirstIdle(tasks, 0) == C.FirstIdle(tasks, i)
    {
      if tasks[i].status == C.Idle {
        return;
      }
      i := i + 1;
    }
  }

  lemma {:induction false} FileUnderPrefix(files: seq<seq<string>>, names: seq<string>, k: nat)
    requires C.FileUnder(files, names).Some? && k <= |names|
    ensures C.FileUnder(files, names[..k]).Some?
    decreases |names|
  {
    if k == |names| {
      assert names[..k] == names;
    } else {
      var front := names[..|names| - 1];
      FileUnderPrefix(files, front, k);
      assert front[..k] == names[..k];
    }
  }
}
