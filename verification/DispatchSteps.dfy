/** The steps of one dispatcher round: layer the plan, pick a wave, invoke it, expand its searches. */
module DispatchSteps {
  import opened Basics
  import opened DependencyGraph
  import opened Tasks
  import opened Expansion
  import opened Schedule
  import opened Growth

  /** The layering used each round; None stands for the "cycle in DAG" error. */
  method TopoLayers(tasks: seq<Task>) returns (r: Option<seq<set<Id>>>)
    ensures r.Some? <==> Schedulable(GraphOf(tasks))
    ensures r.Some? ==> r.value == Layers(GraphOf(tasks))
  {
    r := LayersById(GraphOf(tasks));
  }

  method LayersById(byId: Graph) returns (r: Option<seq<set<Id>>>)
    ensures r.Some? <==> Schedulable(byId)
    ensures r.Some? ==> r.value == Layers(byId)
  {
    var remaining := byId.Keys;
    var done: set<Id> := {};
    var layers: seq<set<Id>> := [];
    ghost var k: nat := 0;
    while remaining != {}
      invariant k <= Height(byId)
      invariant done == Settled(byId, k) && remaining == byId.Keys - done
      invariant layers == LayersUpTo(byId, k)
      decreases remaining
    {
      var layer := set i | i in remaining && byId[i] <= done;
      GreedyRound(byId, k);
      assert layer == Layer(byId, k);
      if layer == {} {
        return None;
      }
      layers := layers + [layer];
      remaining := remaining - layer;
      done := done + layer;
      k := k + 1;
    }
    GreedyRound(byId, k);
    SettledWithinCore(byId, k);
    r := Some(layers);
  }

  /** Scan for the first layer with undispatched non-doc tasks, marking documents on the way. */
  method NextLayer(dag: seq<Task>, layers: seq<set<Id>>, dispatched0: set<Id>, ghost waves: seq<set<Id>>, ghost m: nat)
    returns (pending: set<Id>, dispatched: set<Id>, ghost stop: nat)
    requires Scheduled(dag, dispatched0, waves, m) && layers == Layers(GraphOf(dag))
    ensures Scheduled(dag, dispatched, waves, stop) && dispatched - Docs(dag) == dispatched0 - Docs(dag)
    ensures dispatched0 <= dispatched
    ensures if stop == |layers| then pending == {} else pending == layers[stop] - Docs(dag) != {}
  {
    dispatched := dispatched0;
    pending := {};
    stop := m;
    var docs := Docs(dag);
    for k := 0 to |layers|
      invariant stop == if k < m then m else k
      invariant Scheduled(dag, dispatched, waves, stop)
      invariant dispatched - docs == dispatched0 - docs && dispatched0 <= dispatched
      invariant pending == {}
    {
      ScanLayer(dag, dispatched, waves, m, k);
      pending := layers[k] - docs - dispatched;
      if pending != {} {
        return;
      }
      dispatched := dispatched + layers[k] * docs;
      stop := if k < m then m else k + 1;
    }
  }

  /** Invoke all tasks of a wave at once, then go through the answers in some order. */
  method InvokeWaveTasks(byId: map<Id, Task>, wave: set<Id>, round: nat, results0: map<Id, Output>,
                         dispatched0: set<Id>, env: Env)
    returns (results: map<Id, Output>, dispatched: set<Id>, failed: Option<Id>)
    requires wave <= byId.Keys && wave !! results0.Keys && forall i :: i in wave ==> byId[i].id == i
    ensures failed.None? ==>
      && dispatched == dispatched0 + wave
      && results.Keys == results0.Keys + wave
      && (forall i :: i in results0 ==> results[i] == results0[i])
      && (forall i :: i in wave ==> RecordedIn(results, byId[i], env.invoke(round, RequestOf(byId[i]))))
    ensures failed.Some? ==>
      && failed.value in wave
      && Fatal(byId[failed.value], env.invoke(round, RequestOf(byId[failed.value])))
  {
    var outs := map i | i in wave :: env.invoke(round, RequestOf(byId[i]));
    results, dispatched, failed := results0, dispatched0, None;
    var todo := wave;
    while todo != {}
      invariant todo <= wave
      invariant dispatched == dispatched0 + (wave - todo) && results.Keys == results0.Keys + (wave - todo)
      invariant forall i :: i in results ==>
        if i in wave then results[i] == Record(byId[i], outs[i]) && !Fatal(byId[i], outs[i]) else results[i] == results0[i]
    {
      var tid :| tid in todo;
      todo := todo - {tid};
      if outs[tid].Raised? && !byId[tid].autoExpanded {
        failed := Some(tid);
        return;
      }
      results := results[tid := Record(byId[tid], outs[tid])];
      dispatched := dispatched + {tid};
    }
  }

  /** The expansion step for one finished task of the wave. */
  method ExpandTask(dag0: seq<Task>, t: Task, out: Output, dispatched: set<Id>, env: Env) returns (dag: seq<Task>)
    ensures dag == Splice(dag0, t.id, dispatched, NewFetches(dag0, t, out, env))
    ensures t.action != "web.search" ==> dag == dag0
  {
    SpliceNothing(dag0, t.id, dispatched);
    if t.action != "web.search" {
      return dag0;
    }
    var topK := if t.fetchTopK.Some? then t.fetchTopK.value else env.defaultTopK;
    if topK <= 0 {
      return dag0;
    }
    var hits := if out.Envelope? then out.hits else [];
    if hits == [] {
      return dag0;
    }
    var seed := NextIdSeed(dag0);
    var newTasks := BuildFetchTasks(t.id, hits, topK, seed, t.query, env.safeHttps);
    if newTasks == [] {
      return dag0;
    }
    dag := SpliceInto(dag0, t.id, dispatched, newTasks);
  }

  /** Everything a run keeps from round to round, m layers in. */
  ghost predicate Running(dag0: seq<Task>, dag: seq<Task>, dispatched: set<Id>, waves: seq<set<Id>>,
                          results: map<Id, Output>, finished: set<Id>, m: nat, env: Env) {
    && Scheduled(dag, dispatched, waves, m)
    && Lineage(dag0, dag, results, finished, env)
    && Recorded(dag, waves, results, env)
    && dispatched - Docs(dag) == results.Keys
  }

  lemma SameFinished(dag0: seq<Task>, dag: seq<Task>, results: map<Id, Output>, finished: set<Id>, id: Id, env: Env)
    requires FetchesWanted(dag0, dag, results, finished, env)
    requires forall s :: s in dag0 ==> s.id != id
    ensures FetchesWanted(dag0, dag, results, finished + {id}, env)
  {
  }

  /** A task beyond the submitted ones is a fetch, and expands to nothing. */
  lemma FinishFetch(dag0: seq<Task>, dag: seq<Task>, n: nat, results: map<Id, Output>, finished: set<Id>, env: Env)
    requires Lineage(dag0, dag, results, finished, env) && |dag0| <= n < |dag|
    ensures dag[n].action != "web.search"
    ensures Lineage(dag0, dag, results, finished + {dag[n].id}, env)
  {
    assert IsFetchOfSome(dag[n], dag0);
    var x :| x in dag0 && IsFetchOf(dag[n], x);
    SameFinished(dag0, dag, results, finished, dag[n].id, env);
  }

  /** Expanding one task of layer m, whichever kind it is, keeps the run going. */
  lemma ExpandKeepsRunning(dag0: seq<Task>, dag: seq<Task>, t: Task, dispatched: set<Id>, waves: seq<set<Id>>,
                           results: map<Id, Output>, finished: set<Id>, m: nat, env: Env, dag': seq<Task>)
    requires Running(dag0, dag, dispatched, waves, results, finished, m + 1, env)
    requires t in dag && t.id in Layer(GraphOf(dag), m) && t.id in results && t.id !in finished
    requires dag' == Splice(dag, t.id, dispatched, NewFetches(dag, t, results[t.id], env))
    requires t.action != "web.search" ==> dag' == dag
    ensures Running(dag0, dag', dispatched, waves, results, finished + {t.id}, m + 1, env)
    ensures SameSchedule(dag, dag', m)
  {
    var n :| 0 <= n < |dag| && dag[n] == t;
    var fetches := NewFetches(dag, t, results[t.id], env);
    if n >= |dag0| {
      FinishFetch(dag0, dag, n, results, finished, env);
    } else {
      DependentsOfLayerWait(dag, dispatched, m, t.id);
      assert NewFetches(dag, dag0[n], results[t.id], env) == fetches;
      ExpandKeepsLineage(dag0, dag, dag0[n], dispatched, results, finished, env);
    }
    FetchTasksAreFresh(dag, t.id, Wanted(t, results[t.id], env), t.query);
    ExpandKeepsRecords(dag, t.id, dispatched, fetches, waves, results, env);
    ExpandKeepsSchedule(dag, t.id, dispatched, fetches, m);
    ScheduledAfterExpansion(dag, dag', dispatched, waves, m);
  }

  /** The plan after expanding the listed tasks one after another. */
  ghost function ExpandAll(dag: seq<Task>, order: seq<Id>, dispatched: set<Id>, results: map<Id, Output>, env: Env): seq<Task> {
    if order == [] then dag
    else
      ExpandNext(ExpandAll(dag, order[..|order| - 1], dispatched, results, env), order[|order| - 1], dispatched, results, env)
  }

  ghost function ExpandNext(dag: seq<Task>, id: Id, dispatched: set<Id>, results: map<Id, Output>, env: Env): seq<Task> {
    if id in ById(dag) && id in results
    then Splice(dag, id, dispatched, NewFetches(dag, ById(dag)[id], results[id], env))
    else dag
  }

  ghost function IdSet(order: seq<Id>): set<Id> {
    set i | i in order
  }

  ghost predicate Enumerates(order: seq<Id>, ids: set<Id>) {
    && Distinct(order)
    && IdSet(order) == ids
  }

  method ExpandTaskById(dag0: seq<Task>, tid: Id, dispatched: set<Id>, results: map<Id, Output>, env: Env)
    returns (dag: seq<Task>)
    requires tid in Ids(dag0) && tid in results
    ensures Ids(dag0) <= Ids(dag)
    ensures dag == ExpandNext(dag0, tid, dispatched, results, env)
  {
    ByIdKeys(dag0);
    ByIdFinds(dag0, tid);
    var t := ById(dag0)[tid];
    dag := ExpandTask(dag0, t, results[tid], dispatched, env);
    SpliceIds(dag0, tid, dispatched, NewFetches(dag0, t, results[tid], env));
  }

  /** The expansion loop over a wave: its tasks are expanded once each, in some order. */
  method ExpandWave(dag0: seq<Task>, wave: set<Id>, dispatched: set<Id>, results: map<Id, Output>, env: Env)
    returns (dag: seq<Task>)
    requires wave <= Ids(dag0) && wave <= results.Keys
    ensures exists order :: Enumerates(order, wave) && dag == ExpandAll(dag0, order, dispatched, results, env)
  {
    dag := dag0;
    ghost var order: seq<Id> := [];
    var todo := wave;
    while todo != {}
      invariant todo <= wave && wave <= Ids(dag)
      invariant Enumerates(order, wave - todo)
      invariant dag == ExpandAll(dag0, order, dispatched, results, env)
    {
      var tid :| tid in todo;
      dag := ExpandTaskById(dag, tid, dispatched, results, env);
      assert wave - todo + {tid} == wave - (todo - {tid});
      order := order + [tid];
      todo := todo - {tid};
    }
  }

  lemma ExpandNextKeepsRunning(dag0: seq<Task>, start: seq<Task>, dag: seq<Task>, id: Id, dispatched: set<Id>,
                               waves: seq<set<Id>>, results: map<Id, Output>, finished: set<Id>, m: nat, env: Env)
    requires Running(dag0, dag, dispatched, waves, results, finished, m + 1, env) && SameSchedule(start, dag, m)
    requires id in Layer(GraphOf(start), m) && id in results && id !in finished
    ensures var dag' := ExpandNext(dag, id, dispatched, results, env);
      && Running(dag0, dag', dispatched, waves, results, finished + {id}, m + 1, env)
      && SameSchedule(start, dag', m)
      && (id !in Searches(start) ==> dag' == dag)
  {
    SameLayer(start, dag, m, id);
    ByIdFinds(dag, id);
    SpliceNothing(dag, id, dispatched);
    var dag' := ExpandNext(dag, id, dispatched, results, env);
    ExpandKeepsRunning(dag0, dag, ById(dag)[id], dispatched, waves, results, finished, m, env, dag');
  }

  lemma LastInOrder(order: seq<Id>, finished: set<Id>)
    requires Distinct(order) && order != []
    ensures var last := |order| - 1;
      && Distinct(order[..last]) && IdSet(order) == IdSet(order[..last]) + {order[last]}
      && order[last] !in IdSet(order[..last])
      && finished + IdSet(order[..last]) + {order[last]} == finished + IdSet(order)
  {
    var last := |order| - 1;
    assert order[..last] + [order[last]] == order;
  }

  /** Expanding tasks of layer m in any order keeps the run going. */
  lemma {:induction false} ExpandAllKeepsRunning(
    dag0: seq<Task>, dag: seq<Task>, order: seq<Id>, dispatched: set<Id>, waves: seq<set<Id>>,
    results: map<Id, Output>, finished: set<Id>, m: nat, env: Env)
    requires Running(dag0, dag, dispatched, waves, results, finished, m + 1, env)
    requires SameSchedule(dag, dag, m)
    requires Distinct(order) && IdSet(order) <= Layer(GraphOf(dag), m) && IdSet(order) <= results.Keys
    requires IdSet(order) !! finished
    ensures Running(dag0, ExpandAll(dag, order, dispatched, results, env), dispatched, waves, results,
                    finished + IdSet(order), m + 1, env)
    ensures SameSchedule(dag, ExpandAll(dag, order, dispatched, results, env), m)
    ensures IdSet(order) !! Searches(dag) ==> ExpandAll(dag, order, dispatched, results, env) == dag
  {
    if order == [] {
      assert finished + IdSet(order) == finished;
    } else {
      var last := |order| - 1;
      LastInOrder(order, finished);
      ExpandAllKeepsRunning(dag0, dag, order[..last], dispatched, waves, results, finished, m, env);
      ExpandNextKeepsRunning(dag0, dag, ExpandAll(dag, order[..last], dispatched, results, env), order[last],
                             dispatched, waves, results, finished + IdSet(order[..last]), m, env);
    }
  }

  lemma SameLayer(dag: seq<Task>, dag': seq<Task>, m: nat, i: Id)
    requires SameSchedule(dag, dag', m) && i in Layer(GraphOf(dag), m)
    ensures i in Layer(GraphOf(dag'), m) && i in ById(dag')
  {
    var g, g' := GraphOf(dag), GraphOf(dag');
    AgreeingLayers(g, g', m + 1);
    assert LayersUpTo(g', m + 1)[m] == LayersUpTo(g, m + 1)[m];
  }

  // ----- One round -----

  lemma WaveRecorded(dag: seq<Task>, waves: seq<set<Id>>, wave: set<Id>, results0: map<Id, Output>,
                     results: map<Id, Output>, env: Env)
    requires UniqueIds(dag) && Recorded(dag, waves, results0, env)
    requires wave <= Ids(dag) && wave !! results0.Keys && results.Keys == results0.Keys + wave
    requires forall i :: i in results0 ==> results[i] == results0[i]
    requires forall t :: t in dag && t.id in wave ==> RecordedIn(results, t, env.invoke(|waves|, RequestOf(t)))
    ensures Recorded(dag, waves + [wave], results, env)
  {
    var waves' := waves + [wave];
    forall i
      ensures i in results <==> exists k :: 0 <= k < |waves'| && i in waves'[k]
    {
      if i in wave {
        assert i in waves'[|waves|];
      }
      if k :| 0 <= k < |waves| && i in waves[k] {
        assert i in waves'[k];
      }
    }
    forall k, t | 0 <= k < |waves'| && t in dag && t.id in waves'[k]
      ensures RecordedIn(results, t, env.invoke(k, RequestOf(t)))
    {
      if k < |waves| {
        assert t.id in waves[k] && t.id in results0;
      }
    }
  }

  lemma WaveLineage(dag0: seq<Task>, dag: seq<Task>, results0: map<Id, Output>, results: map<Id, Output>, env: Env)
    requires Lineage(dag0, dag, results0, results0.Keys, env)
    requires results0.Keys <= results.Keys && forall i :: i in results0 ==> results[i] == results0[i]
    ensures Lineage(dag0, dag, results, results0.Keys, env)
  {
  }

  lemma TaskById(dag: seq<Task>, t: Task)
    requires UniqueIds(dag) && t in dag
    ensures t.id in ById(dag) && ById(dag)[t.id] == t
  {
    var n :| 0 <= n < |dag| && dag[n] == t;
    ByIdAt(dag, n);
  }

  /** The wave's tasks, looked up by id, were answered without a fatal failure. */
  ghost predicate Answered(dag: seq<Task>, wave: set<Id>, round: nat, results0: map<Id, Output>,
                           results: map<Id, Output>, env: Env) {
    && wave !! results0.Keys && results.Keys == results0.Keys + wave
    && (forall i :: i in results0 ==> results[i] == results0[i])
    && wave <= ById(dag).Keys
    && (forall i :: i in wave ==> RecordedIn(results, ById(dag)[i], env.invoke(round, RequestOf(ById(dag)[i]))))
  }

  lemma AnsweredRecorded(dag: seq<Task>, waves: seq<set<Id>>, wave: set<Id>, results0: map<Id, Output>,
                         results: map<Id, Output>, env: Env)
    requires UniqueIds(dag) && Recorded(dag, waves, results0, env)
    requires Answered(dag, wave, |waves|, results0, results, env)
    ensures Recorded(dag, waves + [wave], results, env)
  {
    ByIdKeys(dag);
    forall t | t in dag && t.id in wave
      ensures RecordedIn(results, t, env.invoke(|waves|, RequestOf(t)))
    {
      TaskById(dag, t);
    }
    WaveRecorded(dag, waves, wave, results0, results, env);
  }

  /** After a wave without fatal failure the run goes on, its searches still to be expanded. */
  lemma AfterWave(dag0: seq<Task>, dag: seq<Task>, dispatched: set<Id>, waves: seq<set<Id>>, wave: set<Id>,
                  results0: map<Id, Output>, results: map<Id, Output>, m: nat, env: Env)
    requires Running(dag0, dag, dispatched, waves, results0, results0.Keys, m, env)
    requires m < Height(GraphOf(dag)) && wave == Layer(GraphOf(dag), m) - Docs(dag) && wave != {}
    requires Answered(dag, wave, |waves|, results0, results, env)
    ensures Running(dag0, dag, dispatched + wave, waves + [wave], results, results0.Keys, m + 1, env)
  {
    InvokeWave(dag, dispatched, waves, m, wave);
    AnsweredRecorded(dag, waves, wave, results0, results, env);
    WaveLineage(dag0, dag, results0, results, env);
  }

  ghost predicate FailedIn(dag: seq<Task>, wave: set<Id>, round: nat, taskId: Id, env: Env) {
    && taskId in wave && taskId in ById(dag)
    && Fatal(ById(dag)[taskId], env.invoke(round, RequestOf(ById(dag)[taskId])))
  }

  /** Invoke one wave: either all is recorded, or one of its tasks failed for good. */
  method RunWave(dag: seq<Task>, dispatched0: set<Id>, wave: set<Id>, round: nat, results0: map<Id, Output>, env: Env)
    returns (results: map<Id, Output>, dispatched: set<Id>, failed: Option<Id>)
    requires wave <= Ids(dag) && wave !! results0.Keys
    ensures failed.None? ==> dispatched == dispatched0 + wave && Answered(dag, wave, round, results0, results, env)
    ensures failed.Some? ==> FailedIn(dag, wave, round, failed.value, env)
  {
    var byId := ById(dag);
    ByIdKeys(dag);
    forall i | i in wave
      ensures byId[i].id == i
    {
      ByIdFinds(dag, i);
    }
    results, dispatched, failed := InvokeWaveTasks(byId, wave, round, results0, dispatched0, env);
  }

  lemma WaveIsNew(dag0: seq<Task>, dag: seq<Task>, dispatched: set<Id>, waves: seq<set<Id>>,
                  results: map<Id, Output>, m: nat, env: Env)
    requires Running(dag0, dag, dispatched, waves, results, results.Keys, m, env) && m < Height(GraphOf(dag))
    ensures Layer(GraphOf(dag), m) <= Ids(dag)
    ensures Layer(GraphOf(dag), m) !! dispatched && Layer(GraphOf(dag), m) !! results.Keys
  {
    ByIdKeys(dag);
  }

  /** Expand the searches of the wave just invoked. */
  method GrowPlan(ghost dag0: seq<Task>, dag1: seq<Task>, wave: set<Id>, dispatched: set<Id>, ghost waves: seq<set<Id>>,
                  results: map<Id, Output>, ghost finished: set<Id>, ghost m: nat, env: Env)
    returns (dag: seq<Task>)
    requires Running(dag0, dag1, dispatched, waves, results, finished, m + 1, env)
    requires wave <= Layer(GraphOf(dag1), m) && wave <= Ids(dag1) && wave !! finished && results.Keys == finished + wave
    ensures Running(dag0, dag, dispatched, waves, results, results.Keys, m + 1, env)
    ensures SameSchedule(dag1, dag, m)
    ensures wave !! Searches(dag1) ==> dag == dag1
  {
    dag := ExpandWave(dag1, wave, dispatched, results, env);
    ghost var order :| Enumerates(order, wave) && dag == ExpandAll(dag1, order, dispatched, results, env);
    ExpandAllKeepsRunning(dag0, dag1, order, dispatched, waves, results, finished, m, env);
  }
}
