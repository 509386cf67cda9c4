/** The gateway's own plan executor: run ready tasks in waves, stop after the first failing wave. */
module GatewayPlan {
  import opened DependencyGraph
  import opened Tasks

  /** How one task run ends; the last case is a BaseException that is not an Exception, such as a cancellation. */
  datatype RunOutcome = Reference(ref: string) | Exception(message: string) | OtherBaseException(kind: string)

  datatype TaskStatus = Pending | Running | Completed(result: RunOutcome) | Failed(error: string)

  datatype PlanStatus = PlanRunning | PlanCompleted | PlanFailed

  /** Only an Exception counts as a failure; anything else gather returns is stored as the result. */
  function StatusOf(o: RunOutcome): TaskStatus {
    match o
    case Exception(message) => Failed(message)
    case _ => Completed(o)
  }

  predicate IsReady(t: Task, completed: set<Id>) {
    DepSet(t) <= completed
  }

  function ReadyTasks(remaining: seq<Task>, completed: set<Id>): seq<Task> {
    if remaining == [] then []
    else
      var last := remaining[|remaining| - 1];
      ReadyTasks(remaining[..|remaining| - 1], completed) + if IsReady(last, completed) then [last] else []
  }

  /** list.remove: drop the first equal entry. */
  function Remove(tasks: seq<Task>, t: Task): seq<Task> {
    if tasks == [] then []
    else if tasks[0] == t then tasks[1..]
    else [tasks[0]] + Remove(tasks[1..], t)
  }

  // ----- What a run amounts to -----

  /** Statuses when the first |waves| layers were run: settled by their outcomes, the rest untouched. */
  ghost predicate Settles(g: Graph, waves: nat, tasks: map<Id, TaskStatus>, run: (nat, Id) -> RunOutcome) {
    && tasks.Keys == g.Keys
    && (forall k, i :: 0 <= k < waves && i in Layer(g, k) ==> i in tasks && tasks[i] == StatusOf(run(k, i)))
    && (forall i :: i in g && i !in Settled(g, waves) ==> i in tasks && tasks[i] == Pending)
  }

  ghost predicate NoFailureBefore(g: Graph, k: nat, run: (nat, Id) -> RunOutcome) {
    forall j, i :: 0 <= j < k && i in Layer(g, j) ==> !run(j, i).Exception?
  }

  /** The waves are the topological layers, up to the first one with a failure or to the last. */
  ghost predicate FailStop(g: Graph, waves: seq<set<Id>>, run: (nat, Id) -> RunOutcome) {
    && |waves| <= Height(g) && waves == LayersUpTo(g, |waves|)
    && (|waves| > 0 ==> NoFailureBefore(g, |waves| - 1, run))
    && (NoFailureBefore(g, |waves|, run) ==> |waves| == Height(g))
  }

  class Plan {
    var status: PlanStatus
    var tasks: map<Id, TaskStatus>

    /** Submission: the plan is running and each of its tasks pending. */
    constructor (list: seq<Task>)
      ensures status == PlanRunning
      ensures tasks == map i | i in Ids(list) :: Pending
    {
      status := PlanRunning;
      tasks := map i | i in Ids(list) :: Pending;
    }

    /** The start of each task of a wave. */
    method MarkRunning(ready: seq<Task>)
      requires Ids(ready) <= tasks.Keys
      modifies this`tasks
      ensures tasks.Keys == old(tasks).Keys
      ensures forall i :: i in tasks ==> tasks[i] == if i in Ids(ready) then Running else old(tasks)[i]
    {
      for n := 0 to |ready|
        invariant tasks.Keys == old(tasks).Keys
        invariant forall i :: i in tasks ==> tasks[i] == if i in Ids(ready[..n]) then Running else old(tasks)[i]
      {
        IdsSnoc(ready, n);
        tasks := tasks[ready[n].id := Running];
      }
      assert ready[..|ready|] == ready;
    }

    /** Record how one task ended. */
    method Settle(tid: Id, result: RunOutcome, completed0: set<Id>, failed0: bool)
      returns (completed: set<Id>, failed: bool)
      requires tid in tasks
      modifies this`tasks
      ensures tasks == old(tasks)[tid := StatusOf(result)]
      ensures failed == (failed0 || result.Exception?)
      ensures completed == if result.Exception? then completed0 else completed0 + {tid}
    {
      completed, failed := completed0, failed0;
      if result.Exception? {
        tasks := tasks[tid := Failed(result.message)];
        failed := true;
      } else {
        tasks := tasks[tid := Completed(result)];
        completed := completed + {tid};
      }
    }

    /** Run one wave and record how each of its tasks ended. */
    method RunWave(ready: seq<Task>, remaining0: seq<Task>, completed0: set<Id>, round: nat, run: (nat, Id) -> RunOutcome)
      returns (remaining: seq<Task>, completed: set<Id>, failed: bool)
      requires Ids(ready) <= tasks.Keys && UniqueIds(remaining0)
      modifies this`tasks
      ensures tasks.Keys == old(tasks).Keys
      ensures forall i :: i in tasks ==> tasks[i] == if i in Ids(ready) then StatusOf(run(round, i)) else old(tasks)[i]
      ensures failed <==> exists i :: i in Ids(ready) && run(round, i).Exception?
      ensures forall i :: i in completed <==> i in completed0 || (i in Ids(ready) && !run(round, i).Exception?)
      ensures UniqueIds(remaining) && forall t :: t in remaining <==> t in remaining0 && t !in ready
    {
      MarkRunning(ready);
      remaining, completed, failed := remaining0, completed0, false;
      ghost var done: set<Id> := {};
      for n := 0 to |ready|
        invariant done == Ids(ready[..n])
        invariant tasks.Keys == old(tasks).Keys
        invariant forall i :: i in tasks && i !in Ids(ready) ==> tasks[i] == old(tasks)[i]
        invariant forall i :: i in done ==> i in tasks && tasks[i] == StatusOf(run(round, i))
        invariant failed <==> exists i :: i in done && run(round, i).Exception?
        invariant forall i :: i in completed <==> i in completed0 || (i in done && !run(round, i).Exception?)
        invariant UniqueIds(remaining) && forall t :: t in remaining <==> t in remaining0 && t !in ready[..n]
      {
        IdsSnoc(ready, n);
        RemoveUnique(remaining, ready[n]);
        remaining := Remove(remaining, ready[n]);
        var tid := ready[n].id;
        completed, failed := Settle(tid, run(round, tid), completed, failed);
        done := done + {tid};
      }
      assert ready[..|ready|] == ready;
    }

    /** One turn of the loop: run whatever is ready, or give up on a deadlock. */
    method Step(list: seq<Task>, remaining0: seq<Task>, completed0: set<Id>, waves0: seq<set<Id>>,
                run: (nat, Id) -> RunOutcome)
      returns (failed: bool, remaining: seq<Task>, completed: set<Id>, waves: seq<set<Id>>)
      requires Going(list, waves0, remaining0, completed0, tasks, run) && remaining0 != []
      modifies this`tasks
      ensures Executing(list, failed, waves, remaining, completed, tasks, run)
      ensures !failed ==> completed0 < completed <= Ids(list)
    {
      failed, remaining, completed, waves := true, remaining0, completed0, waves0;
      ghost var tasks0 := tasks;
      var ready := ReadyTasks(remaining, completed);
      StartOfStep(list, waves0, remaining0, completed0, tasks, run);
      if ready == [] {
        return;
      }
      remaining, completed, failed := RunWave(ready, remaining, completed, |waves0|, run);
      waves := waves + [Ids(ready)];
      if failed {
        FailedStep(list, waves0, remaining0, completed0, tasks0, run, ready, tasks);
      } else {
        CleanStep(list, waves0, remaining0, completed0, tasks0, run, ready, remaining, completed, tasks);
      }
    }

    /** Execute the whole plan. */
    method Execute(list: seq<Task>, run: (nat, Id) -> RunOutcome) returns (waves: seq<set<Id>>)
      requires UniqueIds(list) && tasks == map i | i in Ids(list) :: Pending
      modifies this
      ensures FailStop(GraphOf(list), waves, run)
      ensures Settles(GraphOf(list), |waves|, tasks, run)
      ensures status == if forall i :: i in tasks ==> tasks[i].Completed? then PlanCompleted else PlanFailed
    {
      var completed: set<Id> := {};
      var remaining := list;
      var failed := false;
      waves := [];
      StartOfRun(list, tasks, run);
      while remaining != [] && !failed
        invariant Executing(list, failed, waves, remaining, completed, tasks, run)
        decreases !failed, Ids(list) - completed
      {
        failed, remaining, completed, waves := Step(list, remaining, completed, waves, run);
      }
      if !failed {
        FinishedRun(list, |waves|, remaining, completed, tasks, run);
      }
      status := if failed then PlanFailed else PlanCompleted;
    }
  }

  lemma {:induction false} RemoveUnique(tasks: seq<Task>, t: Task)
    requires UniqueIds(tasks)
    ensures UniqueIds(Remove(tasks, t)) && forall x :: x in Remove(tasks, t) <==> x in tasks && x != t
  {
    if tasks != [] {
      assert tasks == [tasks[0]] + tasks[1..];
      RemoveUnique(tasks[1..], t);
      forall n | 0 <= n < |Remove(tasks[1..], t)|
        ensures Remove(tasks[1..], t)[n].id != tasks[0].id
      {
        assert Remove(tasks[1..], t)[n] in tasks[1..];
      }
    }
  }

  // ----- The loop of Execute -----

  /** k waves ran without a failure: `completed` is what they settle, `remaining` is the rest. */
  ghost predicate Progress(list: seq<Task>, k: nat, remaining: seq<Task>, completed: set<Id>,
                           tasks: map<Id, TaskStatus>, run: (nat, Id) -> RunOutcome) {
    var g := GraphOf(list);
    && UniqueIds(list) && UniqueIds(remaining)
    && k <= Height(g)
    && completed == Settled(g, k)
    && (forall t :: t in remaining <==> t in list && t.id !in completed)
    && Settles(g, k, tasks, run)
    && NoFailureBefore(g, k, run)
  }

  lemma StartOfRun(list: seq<Task>, tasks: map<Id, TaskStatus>, run: (nat, Id) -> RunOutcome)
    requires UniqueIds(list) && tasks == map i | i in Ids(list) :: Pending
    ensures Progress(list, 0, list, {}, tasks, run)
  {
    ByIdKeys(list);
  }

  lemma {:induction false} ReadyTasksAre(remaining: seq<Task>, completed: set<Id>)
    ensures forall t :: t in ReadyTasks(remaining, completed) <==> t in remaining && IsReady(t, completed)
  {
    if remaining != [] {
      var last := |remaining| - 1;
      ReadyTasksAre(remaining[..last], completed);
      assert remaining == remaining[..last] + [remaining[last]];
    }
  }

  lemma ReadyIsLayer(list: seq<Task>, k: nat, remaining: seq<Task>, completed: set<Id>,
                     tasks: map<Id, TaskStatus>, run: (nat, Id) -> RunOutcome)
    requires Progress(list, k, remaining, completed, tasks, run)
    ensures var ready := ReadyTasks(remaining, completed);
      && Ids(ready) == Layer(GraphOf(list), k) && Ids(ready) <= tasks.Keys
      && (forall t :: t in ready <==> t in list && t.id in Layer(GraphOf(list), k))
  {
    var g, ready := GraphOf(list), ReadyTasks(remaining, completed);
    ReadyTasksAre(remaining, completed);
    forall t | t in list
      ensures t.id in g && g[t.id] == DepSet(t)
    {
      var n :| 0 <= n < |list| && list[n] == t;
      ByIdAt(list, n);
    }
    ByIdKeys(list);
    forall i | i in Layer(g, k)
      ensures i in Ids(ready)
    {
      var t :| t in list && t.id == i;
      assert t in ready;
    }
  }

  ghost predicate Going(list: seq<Task>, waves: seq<set<Id>>, remaining: seq<Task>,
                        completed: set<Id>, tasks: map<Id, TaskStatus>, run: (nat, Id) -> RunOutcome) {
    Progress(list, |waves|, remaining, completed, tasks, run) && waves == LayersUpTo(GraphOf(list), |waves|)
  }

  ghost predicate Stopped(list: seq<Task>, waves: seq<set<Id>>, tasks: map<Id, TaskStatus>, run: (nat, Id) -> RunOutcome) {
    && FailStop(GraphOf(list), waves, run) && Settles(GraphOf(list), |waves|, tasks, run)
    && exists i :: i in tasks && !tasks[i].Completed?
  }

  /** The loop's invariant: still going, or stopped for good with something not completed. */
  ghost predicate Executing(list: seq<Task>, failed: bool, waves: seq<set<Id>>, remaining: seq<Task>,
                            completed: set<Id>, tasks: map<Id, TaskStatus>, run: (nat, Id) -> RunOutcome) {
    if failed then Stopped(list, waves, tasks, run) else Going(list, waves, remaining, completed, tasks, run)
  }

  lemma AfterFailedWave(g: Graph, k: nat, tasks0: map<Id, TaskStatus>, tasks: map<Id, TaskStatus>,
                        run: (nat, Id) -> RunOutcome, i: Id)
    requires k < Height(g) && NoFailureBefore(g, k, run) && Settles(g, k, tasks0, run)
    requires WaveSettled(g, k, tasks0, tasks, run)
    requires i in Layer(g, k) && run(k, i).Exception?
    ensures FailStop(g, LayersUpTo(g, k + 1), run) && Settles(g, k + 1, tasks, run)
    ensures i in tasks && tasks[i].Failed?
  {
    SettlesNext(g, k, tasks0, tasks, run);
  }

  lemma AfterCleanWave(list: seq<Task>, k: nat, run: (nat, Id) -> RunOutcome, remaining: seq<Task>,
                       completed: set<Id>, tasks: map<Id, TaskStatus>)
    requires UniqueIds(list) && k < Height(GraphOf(list)) && NoFailureBefore(GraphOf(list), k, run)
    requires Settles(GraphOf(list), k + 1, tasks, run)
    requires completed == Settled(GraphOf(list), k + 1)
    requires forall i :: i in Layer(GraphOf(list), k) ==> !run(k, i).Exception?
    requires UniqueIds(remaining) && forall t :: t in remaining <==> t in list && t.id !in completed
    ensures Progress(list, k + 1, remaining, completed, tasks, run)
  {
    assert NoFailureBefore(GraphOf(list), k + 1, run);
  }

  /** What one call of RunWave for layer k did. */
  ghost predicate WaveRan(list: seq<Task>, k: nat, ready: seq<Task>, remaining0: seq<Task>, remaining: seq<Task>,
                          completed0: set<Id>, completed: set<Id>, run: (nat, Id) -> RunOutcome) {
    && Ids(ready) == Layer(GraphOf(list), k)
    && (forall t :: t in ready <==> t in list && t.id in Layer(GraphOf(list), k))
    && (forall i :: i in completed <==> i in completed0 || (i in Ids(ready) && !run(k, i).Exception?))
    && UniqueIds(remaining) && forall t :: t in remaining <==> t in remaining0 && t !in ready
  }

  lemma CleanWaveLeaves(list: seq<Task>, k: nat, ready: seq<Task>, remaining0: seq<Task>, remaining: seq<Task>,
                        completed0: set<Id>, completed: set<Id>, run: (nat, Id) -> RunOutcome)
    requires WaveRan(list, k, ready, remaining0, remaining, completed0, completed, run)
    requires forall t :: t in remaining0 <==> t in list && t.id !in completed0
    requires forall i :: i in Ids(ready) ==> !run(k, i).Exception?
    ensures completed == completed0 + Layer(GraphOf(list), k)
    ensures UniqueIds(remaining) && forall t :: t in remaining <==> t in list && t.id !in completed
  {
    assert completed == completed0 + Layer(GraphOf(list), k);
  }

  /** The statuses a wave leaves behind. */
  ghost predicate WaveSettled(g: Graph, k: nat, tasks0: map<Id, TaskStatus>, tasks: map<Id, TaskStatus>,
                              run: (nat, Id) -> RunOutcome) {
    && tasks.Keys == tasks0.Keys
    && forall i :: i in tasks ==> tasks[i] == if i in Layer(g, k) then StatusOf(run(k, i)) else tasks0[i]
  }

  lemma AfterWave(list: seq<Task>, k: nat, remaining0: seq<Task>, completed0: set<Id>, tasks0: map<Id, TaskStatus>,
                  run: (nat, Id) -> RunOutcome, ready: seq<Task>, remaining: seq<Task>, completed: set<Id>,
                  tasks: map<Id, TaskStatus>, waves: seq<set<Id>>)
    requires Progress(list, k, remaining0, completed0, tasks0, run) && k < Height(GraphOf(list))
    requires waves == LayersUpTo(GraphOf(list), k + 1)
    requires WaveRan(list, k, ready, remaining0, remaining, completed0, completed, run)
    requires WaveSettled(GraphOf(list), k, tasks0, tasks, run)
    requires forall i :: i in Layer(GraphOf(list), k) ==> !run(k, i).Exception?
    ensures Going(list, waves, remaining, completed, tasks, run)
    ensures completed == completed0 + Layer(GraphOf(list), k)
  {
    SettlesNext(GraphOf(list), k, tasks0, tasks, run);
    CleanWaveLeaves(list, k, ready, remaining0, remaining, completed0, completed, run);
    AfterCleanWave(list, k, run, remaining, completed, tasks);
  }

  /** Nothing ready is the end of the run; otherwise the ready tasks are the next layer. */
  lemma StartOfStep(list: seq<Task>, waves: seq<set<Id>>, remaining: seq<Task>, completed: set<Id>,
                    tasks: map<Id, TaskStatus>, run: (nat, Id) -> RunOutcome)
    requires Going(list, waves, remaining, completed, tasks, run) && remaining != []
    ensures var ready := ReadyTasks(remaining, completed);
      && Ids(ready) == Layer(GraphOf(list), |waves|) && Ids(ready) <= tasks.Keys
      && (forall t :: t in ready <==> t in list && t.id in Layer(GraphOf(list), |waves|))
      && (ready == [] ==> Stopped(list, waves, tasks, run))
  {
    ReadyIsLayer(list, |waves|, remaining, completed, tasks, run);
    if ReadyTasks(remaining, completed) == [] {
      StalledRun(list, |waves|, remaining, completed, tasks, run);
    }
  }

  lemma LayerIsNext(list: seq<Task>, waves: seq<set<Id>>, remaining: seq<Task>, completed: set<Id>,
                    tasks: map<Id, TaskStatus>, run: (nat, Id) -> RunOutcome)
    requires Going(list, waves, remaining, completed, tasks, run) && ReadyTasks(remaining, completed) != []
    ensures |waves| < Height(GraphOf(list)) && Layer(GraphOf(list), |waves|) != {}
    ensures waves + [Layer(GraphOf(list), |waves|)] == LayersUpTo(GraphOf(list), |waves| + 1)
  {
    var ready := ReadyTasks(remaining, completed);
    ReadyIsLayer(list, |waves|, remaining, completed, tasks, run);
    assert ready[0] in ready && ready[0].id in Ids(ready);
    GreedyRound(GraphOf(list), |waves|);
  }

  lemma FailedStep(list: seq<Task>, waves: seq<set<Id>>, remaining0: seq<Task>, completed0: set<Id>,
                   tasks0: map<Id, TaskStatus>, run: (nat, Id) -> RunOutcome, ready: seq<Task>,
                   tasks: map<Id, TaskStatus>)
    requires Going(list, waves, remaining0, completed0, tasks0, run)
    requires ready == ReadyTasks(remaining0, completed0) != [] && Ids(ready) == Layer(GraphOf(list), |waves|)
    requires WaveSettled(GraphOf(list), |waves|, tasks0, tasks, run)
    requires exists i :: i in Ids(ready) && run(|waves|, i).Exception?
    ensures Stopped(list, waves + [Ids(ready)], tasks, run)
  {
    var i :| i in Ids(ready) && run(|waves|, i).Exception?;
    LayerIsNext(list, waves, remaining0, completed0, tasks0, run);
    AfterFailedWave(GraphOf(list), |waves|, tasks0, tasks, run, i);
  }

  lemma CleanStep(list: seq<Task>, waves: seq<set<Id>>, remaining0: seq<Task>, completed0: set<Id>,
                  tasks0: map<Id, TaskStatus>, run: (nat, Id) -> RunOutcome, ready: seq<Task>,
                  remaining: seq<Task>, completed: set<Id>, tasks: map<Id, TaskStatus>)
    requires Going(list, waves, remaining0, completed0, tasks0, run)
    requires ready == ReadyTasks(remaining0, completed0) != [] && Ids(ready) == Layer(GraphOf(list), |waves|)
    requires WaveSettled(GraphOf(list), |waves|, tasks0, tasks, run)
    requires WaveRan(list, |waves|, ready, remaining0, remaining, completed0, completed, run)
    requires forall i :: i in Ids(ready) ==> !run(|waves|, i).Exception?
    ensures Going(list, waves + [Ids(ready)], remaining, completed, tasks, run)
    ensures completed0 < completed <= Ids(list)
  {
    LayerIsNext(list, waves, remaining0, completed0, tasks0, run);
    AfterWave(list, |waves|, remaining0, completed0, tasks0, run, ready, remaining, completed, tasks,
              waves + [Ids(ready)]);
    CompletedGrows(list, |waves|, completed0, completed);
  }

  lemma CompletedGrows(list: seq<Task>, k: nat, completed0: set<Id>, completed: set<Id>)
    requires completed0 == Settled(GraphOf(list), k) && Layer(GraphOf(list), k) != {}
    requires completed == completed0 + Layer(GraphOf(list), k)
    ensures completed0 < completed <= Ids(list)
  {
    SettledMonotone(GraphOf(list), k + 1, k + 1);
    ByIdKeys(list);
  }

  lemma SettlesNext(g: Graph, k: nat, tasks0: map<Id, TaskStatus>, tasks: map<Id, TaskStatus>, run: (nat, Id) -> RunOutcome)
    requires Settles(g, k, tasks0, run) && WaveSettled(g, k, tasks0, tasks, run)
    ensures Settles(g, k + 1, tasks, run)
  {
    forall j, i | 0 <= j < k + 1 && i in Layer(g, j)
      ensures i in tasks && tasks[i] == StatusOf(run(j, i))
    {
      if j < k {
        LayersDisjoint(g, j, k);
      }
    }
  }

  lemma StalledRun(list: seq<Task>, k: nat, remaining: seq<Task>, completed: set<Id>,
                   tasks: map<Id, TaskStatus>, run: (nat, Id) -> RunOutcome)
    requires Progress(list, k, remaining, completed, tasks, run)
    requires remaining != [] && ReadyTasks(remaining, completed) == []
    ensures FailStop(GraphOf(list), LayersUpTo(GraphOf(list), k), run)
    ensures exists i :: i in tasks && !tasks[i].Completed?
  {
    var g, t := GraphOf(list), remaining[0];
    ReadyIsLayer(list, k, remaining, completed, tasks, run);
    GreedyRound(g, k);
    ByIdKeys(list);
    assert t in remaining && tasks[t.id] == Pending;
  }

  lemma FinishedRun(list: seq<Task>, k: nat, remaining: seq<Task>, completed: set<Id>,
                    tasks: map<Id, TaskStatus>, run: (nat, Id) -> RunOutcome)
    requires Progress(list, k, remaining, completed, tasks, run) && remaining == []
    ensures FailStop(GraphOf(list), LayersUpTo(GraphOf(list), k), run)
    ensures forall i :: i in tasks ==> tasks[i].Completed?
  {
    var g := GraphOf(list);
    ByIdKeys(list);
    GreedyRound(g, k);
    forall i | i in tasks
      ensures i in completed && tasks[i].Completed?
    {
      var t :| t in list && t.id == i;
      assert t !in remaining;
      var j := InSomeLayer(g, k, i);
      assert tasks[i] == StatusOf(run(j, i));
    }
    assert Layer(g, k) == {};
  }

  // ----- Consequences -----

  /** When no task run fails, exactly the tasks that reach no cycle and no undeclared id are completed. */
  lemma CompletesExactlyTheUnblocked(g: Graph, waves: seq<set<Id>>, tasks: map<Id, TaskStatus>,
                                     run: (nat, Id) -> RunOutcome, i: Id)
    requires FailStop(g, waves, run) && Settles(g, |waves|, tasks, run)
    requires forall k, j :: !run(k, j).Exception?
    requires i in g
    ensures tasks[i].Completed? <==> !Blocked(g, i)
  {
    CoreIffNotBlocked(g, i);
    if i in Core(g) {
      var k := InSomeLayer(g, Height(g), i);
    }
  }

  /** After a failure everything up to its wave is settled and everything later untouched. */
  lemma StopsAtFirstFailure(g: Graph, waves: seq<set<Id>>, tasks: map<Id, TaskStatus>,
                            run: (nat, Id) -> RunOutcome, k: nat, i: Id)
    requires FailStop(g, waves, run) && Settles(g, |waves|, tasks, run)
    requires k < |waves| && i in waves[k] && tasks[i].Failed?
    ensures k == |waves| - 1
    ensures forall j :: j in g ==> (tasks[j].Pending? <==> j !in Settled(g, k + 1))
  {
    assert i in Layer(g, k);
    forall j | j in Settled(g, |waves|)
      ensures j in tasks && !tasks[j].Pending?
    {
      var l := InSomeLayer(g, |waves|, j);
      assert tasks[j] == StatusOf(run(l, j));
    }
  }

  /** What is stored for a task that was started: its failure's message, or its result. */
  lemma StartedTaskStatus(g: Graph, waves: seq<set<Id>>, tasks: map<Id, TaskStatus>,
                          run: (nat, Id) -> RunOutcome, k: nat, i: Id)
    requires FailStop(g, waves, run) && Settles(g, |waves|, tasks, run) && k < |waves| && i in waves[k]
    ensures i in tasks
    ensures run(k, i).Exception? ==> tasks[i] == Failed(run(k, i).message)
    ensures !run(k, i).Exception? ==> tasks[i] == Completed(run(k, i))
  {
    assert i in Layer(g, k);
  }
}
