/** One search's expansion keeps the lineage of the plan, its records and its schedule. */
module Growth {
  import opened DependencyGraph
  import opened Tasks
  import opened Expansion
  import opened Schedule

  /** The fetch tasks that submitted search s asks for, numbered after the current plan. */
  function NewFetches(dag: seq<Task>, s: Task, out: Output, env: Env): seq<Task> {
    FetchTasks(s.id, Wanted(s, out, env), Seed(dag), s.query)
  }

  /** Nothing that waits for s is dispatched when s expands. */
  ghost predicate DependentsWait(dag: seq<Task>, search: Id, dispatched: set<Id>) {
    forall n :: 0 <= n < |dag| && search in dag[n].deps ==> dag[n].id !in dispatched
  }

  ghost predicate ReadyToExpand(dag0: seq<Task>, dag: seq<Task>, s: Task, dispatched: set<Id>,
                                results: map<Id, Output>, finished: set<Id>, env: Env) {
    && Lineage(dag0, dag, results, finished, env)
    && s in dag0 && s.id in results && s.id !in finished
    && DependentsWait(dag, s.id, dispatched)
  }

  lemma EarlierFetchIndependent(dag0: seq<Task>, dag: seq<Task>, search: Id, n: nat)
    requires AddsFetches(dag0, dag) && |dag0| <= n < |dag|
    requires FetchedUrls(dag[|dag0|..], search) == []
    ensures search !in dag[n].deps
  {
    assert dag[n] == dag[|dag0|..][n - |dag0|];
    NoFetchedUrls(dag[|dag0|..], search, dag[n]);
    assert IsFetchOfSome(dag[n], dag0);
    var x :| x in dag0 && IsFetchOf(dag[n], x);
    assert dag[n].deps == [x.id];
  }

  lemma EarlierFetchesUntouched(dag0: seq<Task>, dag: seq<Task>, search: Id, dispatched: set<Id>, fetches: seq<Task>)
    requires AddsFetches(dag0, dag) && |dag0| <= |dag|
    requires FetchedUrls(dag[|dag0|..], search) == []
    ensures Splice(dag, search, dispatched, fetches)[|dag0|..] == dag[|dag0|..] + fetches
  {
    var dag' := Splice(dag, search, dispatched, fetches);
    forall n | |dag0| <= n < |dag|
      ensures dag'[n] == dag[n]
    {
      EarlierFetchIndependent(dag0, dag, search, n);
    }
  }

  lemma NewIsFetch(dag0: seq<Task>, s: Task, url: string, n: nat)
    requires s in dag0 && s.action == "web.search"
    ensures IsFetchOfSome(FetchTask(s.id, url, n, s.query), dag0)
  {
    NumberedIdNumber(n);
    assert IsFetchOf(FetchTask(s.id, url, n, s.query), s);
  }

  lemma AddedAreFetches(dag0: seq<Task>, dag: seq<Task>, dag': seq<Task>, s: Task, urls: seq<string>, seed: nat)
    requires AddsFetches(dag0, dag) && |dag0| <= |dag| <= |dag'|
    requires dag'[|dag0|..] == dag[|dag0|..] + FetchTasks(s.id, urls, seed, s.query)
    requires s in dag0 && (urls != [] ==> s.action == "web.search")
    ensures AddsFetches(dag0, dag')
  {
    forall n | |dag0| <= n < |dag'|
      ensures IsFetchOfSome(dag'[n], dag0)
    {
      assert dag'[n] == dag'[|dag0|..][n - |dag0|];
      if n < |dag| {
        assert dag'[n] == dag[n];
      } else {
        var j := n - |dag|;
        NewIsFetch(dag0, s, urls[j], seed + j);
        assert dag'[n] == FetchTask(s.id, urls[j], seed + j, s.query);
      }
    }
  }

  lemma WantedAfter(dag0: seq<Task>, older: seq<Task>, s: Task, x: Task, results: map<Id, Output>,
                    finished: set<Id>, env: Env, seed: nat)
    requires UniqueIds(dag0) && s in dag0 && x in dag0 && s.id in results && s.id !in finished
    requires FetchedUrls(older, x.id) == if x.id in finished && x.id in results then Wanted(x, results[x.id], env) else []
    ensures FetchedUrls(older + FetchTasks(s.id, Wanted(s, results[s.id], env), seed, s.query), x.id)
         == if x.id in finished + {s.id} && x.id in results then Wanted(x, results[x.id], env) else []
  {
    var urls := Wanted(s, results[s.id], env);
    FetchedUrlsConcat(older, FetchTasks(s.id, urls, seed, s.query), x.id);
    FetchedUrlsOfFetchTasks(s.id, urls, seed, s.query, x.id);
    assert [] + urls == urls && FetchedUrls(older, x.id) + [] == FetchedUrls(older, x.id);
  }

  lemma ExpandKeepsFetches(dag0: seq<Task>, dag: seq<Task>, dag': seq<Task>, s: Task,
                           results: map<Id, Output>, finished: set<Id>, env: Env, seed: nat)
    requires UniqueIds(dag0) && s in dag0 && s.id in results && s.id !in finished
    requires FetchesWanted(dag0, dag, results, finished, env) && |dag| <= |dag'|
    requires dag'[|dag0|..] == dag[|dag0|..] + FetchTasks(s.id, Wanted(s, results[s.id], env), seed, s.query)
    ensures FetchesWanted(dag0, dag', results, finished + {s.id}, env)
  {
    forall x | x in dag0
      ensures FetchedUrls(dag'[|dag0|..], x.id)
           == if x.id in finished + {s.id} && x.id in results then Wanted(x, results[x.id], env) else []
    {
      WantedAfter(dag0, dag[|dag0|..], s, x, results, finished, env, seed);
    }
  }

  lemma FetchIdsForNew(search: Id, urls: seq<string>, seed: nat, query: string, deps: seq<Id>)
    ensures var fetches := FetchTasks(search, urls, seed, query);
      FetchIdsFor(fetches, deps) == if search in deps then Ids(fetches) else {}
  {
    var fetches := FetchTasks(search, urls, seed, query);
  }

  /** A submitted search is listed by a submitted task now iff it was listed from the start. */
  lemma SearchListedFromStart(dag0: seq<Task>, dag: seq<Task>, s: Task, n: nat)
    requires UniqueIds(dag0) && UniqueIds(dag) && KeepsOriginals(dag0, dag) && WaitsForFetches(dag0, dag)
    requires s in dag0 && n < |dag0|
    ensures s.id in dag[n].deps <==> s.id in dag0[n].deps
  {
    assert s.id in dag[n].deps <==> s.id in DepSet(dag[n]);
    assert s.id in dag0[n].deps <==> s.id in DepSet(dag0[n]);
    var k :| 0 <= k < |dag0| && dag0[k] == s;
    assert dag[k].id == s.id;
    forall j | 0 <= j < |dag| - |dag0|
      ensures dag[|dag0|..][j].id != s.id
    {
      assert dag[|dag0|..][j] == dag[|dag0| + j];
    }
  }

  lemma ExpandKeepsWaiting(dag0: seq<Task>, dag: seq<Task>, s: Task, dispatched: set<Id>, urls: seq<string>, seed: nat)
    requires UniqueIds(dag0) && UniqueIds(dag) && KeepsOriginals(dag0, dag) && WaitsForFetches(dag0, dag)
    requires s in dag0 && DependentsWait(dag, s.id, dispatched)
    requires var fetches := FetchTasks(s.id, urls, seed, s.query);
      Splice(dag, s.id, dispatched, fetches)[|dag0|..] == dag[|dag0|..] + fetches
    ensures WaitsForFetches(dag0, Splice(dag, s.id, dispatched, FetchTasks(s.id, urls, seed, s.query)))
  {
    var fetches := FetchTasks(s.id, urls, seed, s.query);
    var dag' := Splice(dag, s.id, dispatched, fetches);
    forall n | 0 <= n < |dag0|
      ensures DepSet(dag'[n]) == DepSet(dag0[n]) + FetchIdsFor(dag'[|dag0|..], dag0[n].deps)
    {
      SearchListedFromStart(dag0, dag, s, n);
      PatchedDeps(dag[n], s.id, dispatched, fetches);
      FetchIdsForNew(s.id, urls, seed, s.query, dag0[n].deps);
    }
  }

  lemma SpliceKeepsOriginals(dag0: seq<Task>, dag: seq<Task>, search: Id, dispatched: set<Id>, fetches: seq<Task>)
    requires KeepsOriginals(dag0, dag)
    ensures KeepsOriginals(dag0, Splice(dag, search, dispatched, fetches))
  {
    var dag' := Splice(dag, search, dispatched, fetches);
    forall n | 0 <= n < |dag0|
      ensures dag0[n].deps <= dag'[n].deps && dag'[n] == dag0[n].(deps := dag'[n].deps)
    {
      assert dag'[n] == Patched(dag[n], search, dispatched, IdList(fetches));
      assert dag0[n].deps <= dag[n].deps <= dag'[n].deps;
    }
  }

  lemma ExpandKeepsLineage(dag0: seq<Task>, dag: seq<Task>, s: Task, dispatched: set<Id>,
                           results: map<Id, Output>, finished: set<Id>, env: Env)
    requires ReadyToExpand(dag0, dag, s, dispatched, results, finished, env)
    ensures Lineage(dag0, Splice(dag, s.id, dispatched, NewFetches(dag, s, results[s.id], env)),
                    results, finished + {s.id}, env)
  {
    var urls := Wanted(s, results[s.id], env);
    var fetches := FetchTasks(s.id, urls, Seed(dag), s.query);
    var dag' := Splice(dag, s.id, dispatched, fetches);
    assert FetchedUrls(dag[|dag0|..], s.id) == [];
    EarlierFetchesUntouched(dag0, dag, s.id, dispatched, fetches);
    SpliceKeepsOriginals(dag0, dag, s.id, dispatched, fetches);
    AddedAreFetches(dag0, dag, dag', s, urls, Seed(dag));
    ExpandKeepsFetches(dag0, dag, dag', s, results, finished, env, Seed(dag));
    ExpandKeepsWaiting(dag0, dag, s, dispatched, urls, Seed(dag));
    FetchTasksAreFresh(dag, s.id, urls, s.query);
    SpliceUnique(dag, s.id, dispatched, fetches);
  }

  // ----- Records and schedule -----

  lemma ExpandKeepsRecords(dag: seq<Task>, search: Id, dispatched: set<Id>, fetches: seq<Task>,
                           waves: seq<set<Id>>, results: map<Id, Output>, env: Env)
    requires FreshFetches(dag, search, fetches) && Recorded(dag, waves, results, env)
    ensures Recorded(Splice(dag, search, dispatched, fetches), waves, results, env)
  {
    var dag' := Splice(dag, search, dispatched, fetches);
    SpliceIds(dag, search, dispatched, fetches);
    forall k, t | 0 <= k < |waves| && t in dag' && t.id in waves[k]
      ensures RecordedIn(results, t, env.invoke(k, RequestOf(t)))
    {
      assert t.id in Ids(dag);
      assert t in fetches ==> t.id in Ids(fetches);
      var u :| u in dag && t == u.(deps := t.deps);
      assert RecordedIn(results, u, env.invoke(k, RequestOf(u)));
    }
  }

  /** What expanding searches of layer m leaves alone. */
  ghost predicate SameSchedule(dag: seq<Task>, dag': seq<Task>, m: nat) {
    && UniqueIds(dag')
    && AgreeUpTo(GraphOf(dag), GraphOf(dag'), m + 1)
    && (Schedulable(GraphOf(dag)) ==> Schedulable(GraphOf(dag')))
    && Ids(dag) <= Ids(dag')
    && Docs(dag') == Docs(dag)
    && Searches(dag') == Searches(dag)
  }

  lemma ExpandKeepsKinds(dag: seq<Task>, search: Id, dispatched: set<Id>, fetches: seq<Task>)
    requires FreshFetches(dag, search, fetches)
    ensures var dag' := Splice(dag, search, dispatched, fetches);
      Docs(dag') == Docs(dag) && Searches(dag') == Searches(dag)
  {
    var dag' := Splice(dag, search, dispatched, fetches);
    forall t | t in dag
      ensures exists u :: u in dag' && t == u.(deps := t.deps)
    {
      var n :| 0 <= n < |dag| && dag[n] == t;
      assert dag'[n] in dag' && t == dag'[n].(deps := t.deps);
    }
    assert Docs(dag') <= Docs(dag) && Docs(dag) <= Docs(dag');
    assert Searches(dag') <= Searches(dag) && Searches(dag) <= Searches(dag');
  }

  lemma ExpandKeepsSchedule(dag: seq<Task>, search: Id, dispatched: set<Id>, fetches: seq<Task>, m: nat)
    requires UniqueIds(dag) && FreshFetches(dag, search, fetches)
    requires search in Layer(GraphOf(dag), m)
    ensures SameSchedule(dag, Splice(dag, search, dispatched, fetches), m)
  {
    var g, g' := GraphOf(dag), GraphOf(Splice(dag, search, dispatched, fetches));
    SpliceUnique(dag, search, dispatched, fetches);
    SpliceIds(dag, search, dispatched, fetches);
    SpliceExpandsGraph(dag, search, dispatched, fetches);
    ExpandKeepsKinds(dag, search, dispatched, fetches);
    ExpansionKeepsLayers(g, g', search, Ids(fetches), m);
    if Schedulable(g) {
      ExpansionSchedulable(g, g', search, Ids(fetches));
    }
  }

  /** The run invariant survives any expansion that leaves layers 0..m alone. */
  lemma ScheduledAfterExpansion(dag: seq<Task>, dag': seq<Task>, dispatched: set<Id>, waves: seq<set<Id>>, m: nat)
    requires Scheduled(dag, dispatched, waves, m + 1) && SameSchedule(dag, dag', m)
    ensures Scheduled(dag', dispatched, waves, m + 1)
  {
    var g, g' := GraphOf(dag), GraphOf(dag');
    AgreeingLayers(g, g', m + 1);
    assert LayersUpTo(g', m + 1)[m] == LayersUpTo(g, m + 1)[m];
    LayerBelowHeight(g, m);
    LayerBelowHeight(g', m);
  }

  /** Dependents of a task in layer m are beyond layer m, so none of them is dispatched yet. */
  lemma DependentsOfLayerWait(dag: seq<Task>, dispatched: set<Id>, m: nat, search: Id)
    requires UniqueIds(dag) && search in Layer(GraphOf(dag), m)
    requires dispatched <= Settled(GraphOf(dag), m + 1)
    ensures DependentsWait(dag, search, dispatched)
  {
    var g := GraphOf(dag);
    forall n | 0 <= n < |dag| && search in dag[n].deps
      ensures dag[n].id !in dispatched
    {
      ByIdAt(dag, n);
      if dag[n].id in dispatched {
        SettledDeps(g, m + 1, dag[n].id);
        assert search in Settled(g, m);
      }
    }
  }
}
