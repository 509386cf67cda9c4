/** The dispatcher, the gateway executor and the flow diagram order a plan in the same way. */
module Agreement {
  import opened DependencyGraph
  import opened Tasks
  import opened Schedule
  import AsciiFlow
  import Dispatcher
  import GatewayPlan

  lemma {:induction false} NoDocsNoChange(g: Graph, m: nat)
    requires m <= Height(g)
    ensures NonDocWaves(LayersUpTo(g, m), {}) == LayersUpTo(g, m)
  {
    if m > 0 {
      NoDocsNoChange(g, m - 1);
      NonDocWavesStep(g, m - 1, {});
      LayerBelowHeight(g, m - 1);
      GreedyRound(g, m - 1);
      assert Layer(g, m - 1) - {} == Layer(g, m - 1);
    } else {
      assert LayersUpTo(g, 0) == [];
    }
  }

  lemma FetchNeedsSearch(t: Task, plan: seq<Task>)
    requires IsFetchOfSome(t, plan)
    ensures Searches(plan) != {}
  {
    var s :| s in plan && IsFetchOf(t, s);
    assert s.id in Searches(plan);
  }

  lemma NothingExpanded(plan: seq<Task>, dag: seq<Task>)
    requires UniqueIds(plan) && UniqueIds(dag)
    requires KeepsOriginals(plan, dag) && AddsFetches(plan, dag) && WaitsForFetches(plan, dag)
    requires Searches(plan) == {}
    ensures GraphOf(dag) == GraphOf(plan) && Docs(dag) == Docs(plan)
  {
    if |dag| > |plan| {
      FetchNeedsSearch(dag[|plan|], plan);
    }
    assert dag[|plan|..] == [];
    ByIdKeys(plan);
    ByIdKeys(dag);
    forall n | 0 <= n < |plan|
      ensures dag[n].id == plan[n].id && DepSet(dag[n]) == DepSet(plan[n])
    {
      assert FetchIdsFor([], plan[n].deps) == {};
    }
    forall i
      ensures i in GraphOf(dag) <==> i in GraphOf(plan)
      ensures i in GraphOf(plan) ==> i in GraphOf(dag) && GraphOf(dag)[i] == GraphOf(plan)[i]
    {
      SameEntry(plan, dag, i);
    }
  }

  lemma SameEntry(plan: seq<Task>, dag: seq<Task>, i: Id)
    requires UniqueIds(plan) && UniqueIds(dag) && |plan| == |dag|
    requires forall n :: 0 <= n < |plan| ==> dag[n].id == plan[n].id && DepSet(dag[n]) == DepSet(plan[n])
    ensures i in GraphOf(dag) <==> i in GraphOf(plan)
    ensures i in GraphOf(plan) ==> GraphOf(dag)[i] == GraphOf(plan)[i]
  {
    ByIdKeys(plan);
    ByIdKeys(dag);
    forall t | t in dag
      ensures t.id in Ids(plan)
    {
      var n :| 0 <= n < |dag| && dag[n] == t;
      assert plan[n] in plan;
    }
    if t :| t in plan && t.id == i {
      var n :| 0 <= n < |plan| && plan[n] == t;
      ByIdAt(plan, n);
      ByIdAt(dag, n);
    }
  }

  /**
   For any plan, grown and with documents: however its tasks fare at the gateway,
   the waves there are the first rows of the diagram, and without documents they
   are the first waves of the dispatcher; if no task fails, they are all of them.
   */
  lemma AllThreeAgree(plan: seq<Task>, dag: seq<Task>, results: map<Id, Output>, waves: seq<set<Id>>, env: Env,
                      gatewayWaves: seq<set<Id>>, run: (nat, Id) -> GatewayPlan.RunOutcome)
    requires Dispatcher.Completed(plan, dag, results, waves, env)
    requires GatewayPlan.FailStop(GraphOf(dag), gatewayWaves, run)
    ensures gatewayWaves <= AsciiFlow.Rows(GraphOf(dag))
    ensures NonDocWaves(gatewayWaves, Docs(dag)) <= waves
    ensures (forall k, i :: !run(k, i).Exception?) ==>
      gatewayWaves == AsciiFlow.Rows(GraphOf(dag)) && NonDocWaves(gatewayWaves, Docs(dag)) == waves
  {
    var g := GraphOf(dag);
    assert AsciiFlow.Rows(g) == Layers(g);
    NonDocWavesPrefix(g, |gatewayWaves|, Height(g), Docs(dag));
    if forall k, i :: !run(k, i).Exception? {
      assert GatewayPlan.NoFailureBefore(g, |gatewayWaves|, run);
    }
  }

  /** A plan without searches does not grow, so this holds of the plan as submitted; without documents the waves are equal. */
  lemma SubmittedPlanAgrees(plan: seq<Task>, dag: seq<Task>, results: map<Id, Output>, waves: seq<set<Id>>, env: Env,
                            gatewayWaves: seq<set<Id>>, run: (nat, Id) -> GatewayPlan.RunOutcome)
    requires Dispatcher.Completed(plan, dag, results, waves, env) && Searches(plan) == {}
    requires GatewayPlan.FailStop(GraphOf(plan), gatewayWaves, run) && forall k, i :: !run(k, i).Exception?
    ensures gatewayWaves == AsciiFlow.Rows(GraphOf(plan))
    ensures waves == NonDocWaves(gatewayWaves, Docs(plan))
    ensures Docs(plan) == {} ==> waves == gatewayWaves
  {
    NothingExpanded(plan, dag);
    AllThreeAgree(plan, dag, results, waves, env, gatewayWaves, run);
    NoDocsNoChange(GraphOf(plan), Height(GraphOf(plan)));
  }
}
