/**
 What a dispatcher run must keep: how the invoked waves relate to the layers of
 the current plan, how the plan grew from the submitted one, and what was recorded.
 */
module Schedule {
  import opened Basics
  import opened DependencyGraph
  import opened Tasks
  import opened Expansion

  datatype Outcome = Returned(hits: seq<string>) | Raised(error: string)

  /** What `results` keeps: the answer, or the stand-in for a failed auto-expanded task. */
  datatype Output = Envelope(hits: seq<string>) | Placeholder(url: string, error: string)

  datatype Request = Request(
    taskId: Id, target: string, action: string, resource: string, query: string, fetchTopK: Option<int>)

  /** Everything outside the scheduler: the default fan-out, the remote agents, the URL check. */
  datatype Env = Env(
    defaultTopK: int,
    invoke: (nat, Request) -> Outcome,
    safeHttps: string -> bool)

  function RequestOf(t: Task): Request {
    Request(t.id, t.agent, t.action, t.resource, t.query, t.fetchTopK)
  }

  predicate Fatal(t: Task, o: Outcome) {
    o.Raised? && !t.autoExpanded
  }

  function Record(t: Task, o: Outcome): Output {
    match o
    case Returned(hits) => Envelope(hits)
    case Raised(error) => Placeholder(t.resource, if |error| > 200 then error[..200] else error)
  }

  /** The URLs a finished task's output asks to be fetched. */
  function Wanted(t: Task, out: Output, env: Env): seq<string> {
    if t.action != "web.search" then []
    else
      var topK := match t.fetchTopK case Some(k) => k case None => env.defaultTopK;
      Picked(if out.Envelope? then out.hits else [], topK, env.safeHttps)
  }

  function Docs(dag: seq<Task>): set<Id> {
    set t | t in dag && t.agent == "doc_assistant" :: t.id
  }

  function Searches(dag: seq<Task>): set<Id> {
    set t | t in dag && t.action == "web.search" :: t.id
  }

  /** Layers without their doc_assistant tasks, empty ones dropped. */
  ghost function NonDocWaves(layers: seq<set<Id>>, docs: set<Id>): seq<set<Id>> {
    if layers == [] then []
    else
      var wave := layers[|layers| - 1] - docs;
      NonDocWaves(layers[..|layers| - 1], docs) + if wave == {} then [] else [wave]
  }

  // ----- Waves against layers -----

  /** After m layers of the current plan, `dispatched` holds their non-doc tasks and nothing later. */
  ghost predicate Scheduled(dag: seq<Task>, dispatched: set<Id>, waves: seq<set<Id>>, m: nat) {
    var g := GraphOf(dag);
    && UniqueIds(dag)
    && m <= Height(g)
    && Settled(g, m) - Docs(dag) <= dispatched <= Settled(g, m)
    && waves == NonDocWaves(LayersUpTo(g, m), Docs(dag))
  }

  lemma NonDocWavesStep(g: Graph, m: nat, docs: set<Id>)
    ensures NonDocWaves(LayersUpTo(g, m + 1), docs)
         == NonDocWaves(LayersUpTo(g, m), docs) + if Layer(g, m) - docs == {} then [] else [Layer(g, m) - docs]
  {
    assert LayersUpTo(g, m + 1)[..m] == LayersUpTo(g, m);
  }

  lemma {:induction false} NonDocWavesPrefix(g: Graph, m: nat, n: nat, docs: set<Id>)
    requires m <= n
    ensures NonDocWaves(LayersUpTo(g, m), docs) <= NonDocWaves(LayersUpTo(g, n), docs)
  {
    if m < n {
      NonDocWavesPrefix(g, m, n - 1, docs);
      NonDocWavesStep(g, n - 1, docs);
    }
  }

  /** Passing a layer whose tasks are all dispatched or documents changes no wave. */
  lemma PassLayer(dag: seq<Task>, dispatched: set<Id>, waves: seq<set<Id>>, m: nat)
    requires Scheduled(dag, dispatched, waves, m) && m < Height(GraphOf(dag))
    requires Layer(GraphOf(dag), m) - Docs(dag) <= dispatched
    ensures Scheduled(dag, dispatched, waves, m + 1)
    ensures Scheduled(dag, dispatched + Layer(GraphOf(dag), m) * Docs(dag), waves, m + 1)
  {
    var g := GraphOf(dag);
    SettledMonotone(g, m, m + 1);
    assert Layer(g, m) - Docs(dag) == {};
    NonDocWavesStep(g, m, Docs(dag));
  }

  /** One step of the scan for the next wave, at layer k, when the first m layers are already passed. */
  lemma ScanLayer(dag: seq<Task>, dispatched: set<Id>, waves: seq<set<Id>>, m: nat, k: nat)
    requires k < Height(GraphOf(dag)) && Scheduled(dag, dispatched, waves, if k < m then m else k)
    ensures var layer := Layer(GraphOf(dag), k);
      if layer - Docs(dag) - dispatched == {}
      then Scheduled(dag, dispatched + layer * Docs(dag), waves, if k < m then m else k + 1)
      else k >= m && layer - Docs(dag) - dispatched == layer - Docs(dag)
  {
    var g := GraphOf(dag);
    if k < m {
      SettledMonotone(g, k + 1, m);
    } else if Layer(g, k) - Docs(dag) <= dispatched {
      PassLayer(dag, dispatched, waves, k);
    } else {
      var i :| i in Layer(g, k) - Docs(dag) && i !in dispatched;
      assert i in Layer(g, k) - Docs(dag) - dispatched;
    }
  }

  /** Invoking all non-doc tasks of layer m appends one wave. */
  lemma InvokeWave(dag: seq<Task>, dispatched: set<Id>, waves: seq<set<Id>>, m: nat, wave: set<Id>)
    requires Scheduled(dag, dispatched, waves, m) && m < Height(GraphOf(dag))
    requires wave == Layer(GraphOf(dag), m) - Docs(dag) && wave != {}
    ensures Scheduled(dag, dispatched + wave, waves + [wave], m + 1)
  {
    var g := GraphOf(dag);
    SettledMonotone(g, m, m + 1);
    NonDocWavesStep(g, m, Docs(dag));
  }

  // ----- Growth of the plan -----

  /** The submitted tasks stay in front, changed only by dependencies appended to them. */
  ghost predicate KeepsOriginals(dag0: seq<Task>, dag: seq<Task>) {
    && |dag0| <= |dag|
    && forall n :: 0 <= n < |dag0| ==>
         dag0[n].deps <= dag[n].deps && dag[n] == dag0[n].(deps := dag[n].deps)
  }

  ghost predicate IsFetchOf(t: Task, search: Task) {
    && search.action == "web.search"
    && t == FetchTask(search.id, t.resource, IdNumber(t.id), search.query)
  }

  /** Every other task is a fetch for one of the submitted searches. */
  ghost predicate AddsFetches(dag0: seq<Task>, dag: seq<Task>) {
    forall n :: |dag0| <= n < |dag| ==> IsFetchOfSome(dag[n], dag0)
  }

  ghost predicate IsFetchOfSome(t: Task, dag0: seq<Task>) {
    exists s :: s in dag0 && IsFetchOf(t, s)
  }

  function FetchedUrls(tasks: seq<Task>, search: Id): seq<string> {
    if tasks == [] then []
    else
      var last := tasks[|tasks| - 1];
      FetchedUrls(tasks[..|tasks| - 1], search) + if last.deps == [search] then [last.resource] else []
  }

  /** Each finished search has exactly the fetches its output asks for; the others have none. */
  ghost predicate FetchesWanted(dag0: seq<Task>, dag: seq<Task>, results: map<Id, Output>, finished: set<Id>, env: Env) {
    && |dag0| <= |dag|
    && forall s :: s in dag0 ==>
         FetchedUrls(dag[|dag0|..], s.id)
           == if s.id in finished && s.id in results then Wanted(s, results[s.id], env) else []
  }

  ghost function FetchIdsFor(tasks: seq<Task>, deps: seq<Id>): set<Id> {
    set t | t in tasks && t.deps != [] && t.deps[0] in deps :: t.id
  }

  /** A submitted task depends on what it declared plus all fetches of the searches it declared. */
  ghost predicate WaitsForFetches(dag0: seq<Task>, dag: seq<Task>) {
    && |dag0| <= |dag|
    && forall n :: 0 <= n < |dag0| ==>
         DepSet(dag[n]) == DepSet(dag0[n]) + FetchIdsFor(dag[|dag0|..], dag0[n].deps)
  }

  ghost predicate Lineage(dag0: seq<Task>, dag: seq<Task>, results: map<Id, Output>, finished: set<Id>, env: Env) {
    && UniqueIds(dag0) && UniqueIds(dag)
    && KeepsOriginals(dag0, dag)
    && AddsFetches(dag0, dag)
    && FetchesWanted(dag0, dag, results, finished, env)
    && WaitsForFetches(dag0, dag)
  }

  // ----- What was recorded -----

  /** Wave k was invoked in round k, once per task, and every answer was kept; none was fatal. */
  ghost predicate Recorded(dag: seq<Task>, waves: seq<set<Id>>, results: map<Id, Output>, env: Env) {
    && (forall i :: i in results <==> exists k :: 0 <= k < |waves| && i in waves[k])
    && (forall k :: 0 <= k < |waves| ==> waves[k] <= Ids(dag))
    && (forall k, t :: 0 <= k < |waves| && t in dag && t.id in waves[k] ==>
          RecordedIn(results, t, env.invoke(k, RequestOf(t))))
  }

  ghost predicate RecordedIn(results: map<Id, Output>, t: Task, o: Outcome) {
    t.id in results && results[t.id] == Record(t, o) && !Fatal(t, o)
  }

  // ----- One expansion keeps all of it -----

  lemma {:induction false} FetchedUrlsConcat(a: seq<Task>, b: seq<Task>, search: Id)
    ensures FetchedUrls(a + b, search) == FetchedUrls(a, search) + FetchedUrls(b, search)
  {
    if b == [] {
      assert a + b == a;
    } else {
      FetchedUrlsConcat(a, b[..|b| - 1], search);
      assert (a + b)[..|a + b| - 1] == a + b[..|b| - 1];
    }
  }

  lemma {:induction false} FetchedUrlsOfFetchTasks(search: Id, urls: seq<string>, seed: nat, query: string, other: Id)
    ensures FetchedUrls(FetchTasks(search, urls, seed, query), other) == if other == search then urls else []
  {
    if urls != [] {
      var last := |urls| - 1;
      FetchedUrlsOfFetchTasks(search, urls[..last], seed, query, other);
      assert FetchTasks(search, urls, seed, query)[..last] == FetchTasks(search, urls[..last], seed, query);
      assert urls == urls[..last] + [urls[last]];
    }
  }

  lemma {:induction false} NoFetchedUrls(tasks: seq<Task>, search: Id, t: Task)
    requires FetchedUrls(tasks, search) == [] && t in tasks
    ensures t.deps != [search]
  {
    var last := |tasks| - 1;
    if t != tasks[last] {
      assert t in tasks[..last];
      NoFetchedUrls(tasks[..last], search, t);
    }
  }
}
