/** The dispatcher node: run a growing plan wave by wave until nothing is left to invoke. */
module Dispatcher {
  import opened Basics
  import opened DependencyGraph
  import opened Tasks
  import opened Schedule
  import opened DispatchSteps
  import AsciiFlow

  datatype Result = Done | CycleInDag | DispatchFailed(taskId: Id)

  /** A finished run: the waves are the offline layers of the final plan without documents. */
  ghost predicate Completed(dag0: seq<Task>, dag: seq<Task>, results: map<Id, Output>, waves: seq<set<Id>>, env: Env) {
    && Schedulable(GraphOf(dag))
    && waves == NonDocWaves(AsciiFlow.Rows(GraphOf(dag)), Docs(dag))
    && results.Keys == Ids(dag) - Docs(dag)
    && Recorded(dag, waves, results, env)
    && Lineage(dag0, dag, results, results.Keys, env)
  }

  /** An aborted run: the last wave holds the failed task, the earlier ones are recorded. */
  ghost predicate Aborted(dag0: seq<Task>, dag: seq<Task>, results: map<Id, Output>, waves: seq<set<Id>>, taskId: Id, env: Env) {
    && Schedulable(GraphOf(dag))
    && waves != [] && waves <= NonDocWaves(AsciiFlow.Rows(GraphOf(dag)), Docs(dag))
    && FailedIn(dag, waves[|waves| - 1], |waves| - 1, taskId, env)
    && Recorded(dag, waves[..|waves| - 1], results, env)
    && Lineage(dag0, dag, results, results.Keys, env)
  }

  /** What each way for a run to end says about it. */
  ghost predicate EndedBy(dag0: seq<Task>, dag: seq<Task>, results: map<Id, Output>, waves: seq<set<Id>>, r: Result, env: Env) {
    match r
    case Done => Completed(dag0, dag, results, waves, env)
    case DispatchFailed(taskId) => Aborted(dag0, dag, results, waves, taskId, env)
    case CycleInDag => true
  }

  lemma CompletedAtEnd(dag0: seq<Task>, dag: seq<Task>, dispatched: set<Id>, waves: seq<set<Id>>,
                       results: map<Id, Output>, env: Env)
    requires Running(dag0, dag, dispatched, waves, results, results.Keys, Height(GraphOf(dag)), env)
    requires Schedulable(GraphOf(dag))
    ensures Completed(dag0, dag, results, waves, env)
  {
    ByIdKeys(dag);
    assert AsciiFlow.Rows(GraphOf(dag)) == Layers(GraphOf(dag));
  }

  lemma AbortedAtEnd(dag0: seq<Task>, dag: seq<Task>, dispatched: set<Id>, waves: seq<set<Id>>, wave: set<Id>,
                     results: map<Id, Output>, m: nat, taskId: Id, env: Env)
    requires Running(dag0, dag, dispatched, waves, results, results.Keys, m, env) && Schedulable(GraphOf(dag))
    requires m < Height(GraphOf(dag)) && wave == Layer(GraphOf(dag), m) - Docs(dag) && wave != {}
    requires FailedIn(dag, wave, |waves|, taskId, env)
    ensures Aborted(dag0, dag, results, waves + [wave], taskId, env)
  {
    var g := GraphOf(dag);
    NonDocWavesStep(g, m, Docs(dag));
    NonDocWavesPrefix(g, m + 1, Height(g), Docs(dag));
    assert AsciiFlow.Rows(g) == Layers(g);
    assert (waves + [wave])[..|waves|] == waves;
  }

  /** Layer the current plan and find the next wave; an empty wave means there is nothing left to invoke. */
  method PickWave(ghost dag0: seq<Task>, dag: seq<Task>, dispatched0: set<Id>, ghost waves: seq<set<Id>>,
                  ghost results: map<Id, Output>, ghost m: nat, env: Env)
    returns (end: Option<Result>, wave: set<Id>, dispatched: set<Id>, ghost next: nat)
    requires Running(dag0, dag, dispatched0, waves, results, results.Keys, m, env)
    ensures end == Some(CycleInDag) <==> !Schedulable(GraphOf(dag))
    ensures end.Some? ==> EndedBy(dag0, dag, results, waves, end.value, env)
    ensures end.None? ==> Running(dag0, dag, dispatched, waves, results, results.Keys, next, env)
    ensures end.None? ==> dispatched0 <= dispatched && IsWave(dag, wave, dispatched, results, next)
  {
    end, wave, dispatched, next := Some(CycleInDag), {}, dispatched0, m;
    var layers := TopoLayers(dag);
    if layers.None? {
      return;
    }
    wave, dispatched, next := NextLayer(dag, layers.value, dispatched, waves, m);
    if wave != {} {
      WaveIsNew(dag0, dag, dispatched, waves, results, next, env);
      end := None;
    } else {
      CompletedAtEnd(dag0, dag, dispatched, waves, results, env);
      end := Some(Done);
    }
  }

  ghost predicate IsWave(dag: seq<Task>, wave: set<Id>, dispatched: set<Id>, results: map<Id, Output>, m: nat) {
    && m < Height(GraphOf(dag)) && wave == Layer(GraphOf(dag), m) - Docs(dag) && wave != {}
    && wave <= Ids(dag) && wave !! dispatched && wave !! results.Keys
  }

  /** What decreases from round to round: first the searches left, then the tasks left. */
  ghost predicate Shrinks(dag: seq<Task>, dispatched: set<Id>, dag': seq<Task>, dispatched': set<Id>) {
    var searches, searches' := Searches(dag) - dispatched, Searches(dag') - dispatched';
    searches' < searches || (searches' == searches && Ids(dag') - dispatched' < Ids(dag) - dispatched)
  }

  lemma WaveShrinks(dag: seq<Task>, dag': seq<Task>, earlier: set<Id>, dispatched: set<Id>, wave: set<Id>)
    requires earlier <= dispatched && wave != {} && wave <= Ids(dag) && wave !! dispatched
    requires Searches(dag') == Searches(dag) && (wave !! Searches(dag) ==> dag' == dag)
    ensures Shrinks(dag, earlier, dag', dispatched + wave)
  {
    assert Searches(dag') - (dispatched + wave) <= Searches(dag) - earlier;
    if i :| i in wave && i in Searches(dag) {
      assert i in Searches(dag) - earlier;
    } else {
      assert wave !! Searches(dag);
      var i :| i in wave;
      assert i in Ids(dag) - earlier;
      assert Ids(dag') - (dispatched + wave) <= Ids(dag) - earlier;
    }
  }

  /** Invoke one wave and expand its searches. */
  method RunAndGrow(ghost dag0: seq<Task>, dag1: seq<Task>, dispatched0: set<Id>, waves0: seq<set<Id>>,
                    results0: map<Id, Output>, wave: set<Id>, ghost earlier: set<Id>, ghost m: nat, env: Env)
    returns (end: Option<Result>, dag: seq<Task>, dispatched: set<Id>, waves: seq<set<Id>>, results: map<Id, Output>)
    requires Running(dag0, dag1, dispatched0, waves0, results0, results0.Keys, m, env)
    requires IsWave(dag1, wave, dispatched0, results0, m) && Schedulable(GraphOf(dag1)) && earlier <= dispatched0
    ensures end != Some(CycleInDag)
    ensures end.Some? ==> EndedBy(dag0, dag, results, waves, end.value, env)
    ensures end.None? ==> Running(dag0, dag, dispatched, waves, results, results.Keys, m + 1, env)
    ensures end.None? ==> Schedulable(GraphOf(dag)) && Shrinks(dag1, earlier, dag, dispatched)
  {
    end, waves, dag := None, waves0 + [wave], dag1;
    var failed;
    results, dispatched, failed := RunWave(dag1, dispatched0, wave, |waves0|, results0, env);
    if failed.Some? {
      AbortedAtEnd(dag0, dag1, dispatched0, waves0, wave, results0, m, failed.value, env);
      end, results := Some(DispatchFailed(failed.value)), results0;
      return;
    }
    AfterWave(dag0, dag1, dispatched0, waves0, wave, results0, results, m, env);
    dag := GrowPlan(dag0, dag1, wave, dispatched, waves, results, results0.Keys, m, env);
    WaveShrinks(dag1, dag, earlier, dispatched0, wave);
  }

  /** One turn of the loop; it either ends the run or goes on with less left to dispatch. */
  method Round(ghost dag0: seq<Task>, dag1: seq<Task>, dispatched1: set<Id>, waves1: seq<set<Id>>,
               results1: map<Id, Output>, ghost m: nat, env: Env)
    returns (end: Option<Result>, dag: seq<Task>, dispatched: set<Id>, waves: seq<set<Id>>,
             results: map<Id, Output>, ghost layer: nat)
    requires Running(dag0, dag1, dispatched1, waves1, results1, results1.Keys, m, env)
    ensures end == Some(CycleInDag) <==> !Schedulable(GraphOf(dag1))
    ensures end == Some(CycleInDag) ==> dag == dag1 && waves == waves1
    ensures end.Some? ==> EndedBy(dag0, dag, results, waves, end.value, env)
    ensures end.None? ==> Running(dag0, dag, dispatched, waves, results, results.Keys, layer + 1, env)
    ensures end.None? ==> Schedulable(GraphOf(dag)) && Shrinks(dag1, dispatched1, dag, dispatched)
  {
    dag, waves, results := dag1, waves1, results1;
    var wave;
    end, wave, dispatched, layer := PickWave(dag0, dag1, dispatched1, waves1, results1, m, env);
    if end.Some? {
      return;
    }
    end, dag, dispatched, waves, results :=
      RunAndGrow(dag0, dag1, dispatched, waves1, results1, wave, dispatched1, layer, env);
  }

  method DispatcherNode(dag0: seq<Task>, env: Env)
    returns (r: Result, dag: seq<Task>, results: map<Id, Output>, waves: seq<set<Id>>)
    requires UniqueIds(dag0)
    ensures r.CycleInDag? <==> !Schedulable(GraphOf(dag0))
    ensures r.CycleInDag? ==> waves == [] && dag == dag0
    ensures EndedBy(dag0, dag, results, waves, r, env)
  {
    dag, results, waves := dag0, map[], [];
    var dispatched: set<Id> := {};
    ghost var m: nat := 0;
    while true
      invariant Running(dag0, dag, dispatched, waves, results, results.Keys, m, env)
      invariant (dag == dag0 && waves == []) || (Schedulable(GraphOf(dag)) && Schedulable(GraphOf(dag0)))
      decreases Searches(dag) - dispatched, Ids(dag) - dispatched
    {
      var end;
      end, dag, dispatched, waves, results, m := Round(dag0, dag, dispatched, waves, results, m, env);
      if end.Some? {
        return end.value, dag, results, waves;
      }
      m := m + 1;
    }
  }

  // ----- What a finished run guarantees -----

  lemma {:induction false} WaveLayer(g: Graph, docs: set<Id>, m: nat, k: nat) returns (a: nat)
    requires k < |NonDocWaves(LayersUpTo(g, m), docs)|
    ensures a < m && NonDocWaves(LayersUpTo(g, m), docs)[k] == Layer(g, a) - docs != {}
    ensures |NonDocWaves(LayersUpTo(g, a), docs)| == k
    decreases m
  {
    assert LayersUpTo(g, 0) == [];
    NonDocWavesStep(g, m - 1, docs);
    if k < |NonDocWaves(LayersUpTo(g, m - 1), docs)| {
      a := WaveLayer(g, docs, m - 1, k);
    } else {
      a := m - 1;
    }
  }

  lemma LayerWave(g: Graph, docs: set<Id>, m: nat, a: nat) returns (k: nat)
    requires a < m && Layer(g, a) - docs != {}
    ensures k == |NonDocWaves(LayersUpTo(g, a), docs)| < |NonDocWaves(LayersUpTo(g, m), docs)|
    ensures NonDocWaves(LayersUpTo(g, m), docs)[k] == Layer(g, a) - docs
  {
    NonDocWavesStep(g, a, docs);
    NonDocWavesPrefix(g, a + 1, m, docs);
    k := |NonDocWaves(LayersUpTo(g, a), docs)|;
  }

  /** Every non-doc task of a schedulable plan is in exactly one wave; documents are in none. */
  lemma EachTaskInvokedOnce(dag: seq<Task>, waves: seq<set<Id>>, i: Id)
    requires Schedulable(GraphOf(dag)) && waves == NonDocWaves(AsciiFlow.Rows(GraphOf(dag)), Docs(dag))
    ensures i in Ids(dag) - Docs(dag) <==> exists k :: 0 <= k < |waves| && i in waves[k]
    ensures forall j, k :: 0 <= j < |waves| && 0 <= k < |waves| && i in waves[j] && i in waves[k] ==> j == k
  {
    var g, docs := GraphOf(dag), Docs(dag);
    ByIdKeys(dag);
    assert AsciiFlow.Rows(g) == Layers(g);
    forall j, k | 0 <= j < |waves| && 0 <= k < |waves| && i in waves[j] && i in waves[k]
      ensures j == k
    {
      SameWave(g, docs, i, j, k);
    }
    if k :| 0 <= k < |waves| && i in waves[k] {
      var a := WaveLayer(g, docs, Height(g), k);
    }
    if i in Ids(dag) - docs {
      var a := InSomeLayer(g, Height(g), i);
      assert i in Layer(g, a) - docs;
      var k := LayerWave(g, docs, Height(g), a);
      assert i in waves[k];
    }
  }

  lemma SameWave(g: Graph, docs: set<Id>, i: Id, j: nat, k: nat)
    requires var waves := NonDocWaves(Layers(g), docs);
      j < |waves| && k < |waves| && i in waves[j] && i in waves[k]
    ensures j == k
  {
    var a := WaveLayer(g, docs, Height(g), j);
    var b := WaveLayer(g, docs, Height(g), k);
    if a < b {
      LayersDisjoint(g, a, b);
    } else if b < a {
      LayersDisjoint(g, b, a);
    }
  }

  /** A task is invoked strictly after every non-doc task it depends on. */
  lemma DepsInvokedEarlier(g: Graph, docs: set<Id>, k: nat, i: Id, d: Id) returns (j: nat)
    requires var waves := NonDocWaves(Layers(g), docs); k < |waves| && i in waves[k]
    requires i in g && d in g[i] && d !in docs
    ensures j < k && j < |NonDocWaves(Layers(g), docs)| && d in NonDocWaves(Layers(g), docs)[j]
  {
    var a := WaveLayer(g, docs, Height(g), k);
    var b := InSomeLayer(g, a, d);
    assert d in Layer(g, b) - docs;
    j := LayerWave(g, docs, Height(g), b);
    var j' := LayerWave(g, docs, a, b);
  }

  /** In the final plan a submitted task depends on every fetch of a search it declared. */
  lemma FetchBecomesDep(dag0: seq<Task>, dag: seq<Task>, n: nat, f: nat)
    requires UniqueIds(dag) && WaitsForFetches(dag0, dag)
    requires n < |dag0| <= f < |dag| && dag[f].deps != [] && dag[f].deps[0] in dag0[n].deps
    ensures dag[n].id in GraphOf(dag) && dag[f].id in GraphOf(dag)[dag[n].id]
  {
    assert dag[|dag0|..][f - |dag0|] == dag[f];
    assert dag[f].id in FetchIdsFor(dag[|dag0|..], dag0[n].deps);
    ByIdAt(dag, n);
  }

  /**
   The splicing barrier: a submitted task that declared a search runs strictly
   after every fetch that search gave rise to.
   */
  lemma WaitsForEveryFetch(dag0: seq<Task>, dag: seq<Task>, waves: seq<set<Id>>, n: nat, k: nat, f: nat)
    returns (j: nat)
    requires UniqueIds(dag) && WaitsForFetches(dag0, dag) && AddsFetches(dag0, dag)
    requires Schedulable(GraphOf(dag)) && waves == NonDocWaves(AsciiFlow.Rows(GraphOf(dag)), Docs(dag))
    requires n < |dag0| <= f < |dag| && dag[f].deps != [] && dag[f].deps[0] in dag0[n].deps
    requires k < |waves| && dag[n].id in waves[k]
    ensures j < k && dag[f].id in waves[j]
  {
    FetchBecomesDep(dag0, dag, n, f);
    assert AsciiFlow.Rows(GraphOf(dag)) == Layers(GraphOf(dag));
    j := DepsInvokedEarlier(GraphOf(dag), Docs(dag), k, dag[n].id, dag[f].id);
  }
}
