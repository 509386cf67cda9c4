/**
 What a dispatcher run amounts to, task by task: who was asked what and when, what
 was kept of the answer, which fetches a search led to, and which failures end a run.
 */
module Outcomes {
  import opened Basics
  import opened DependencyGraph
  import opened Tasks
  import opened Expansion
  import opened Schedule
  import opened Dispatcher

  /** What a task asks of its agent. */
  function Asked(t: Task): Request {
    Request(taskId := t.id, target := t.agent, action := t.action, resource := t.resource, query := t.query,
            fetchTopK := t.fetchTopK)
  }

  /** A task the dispatcher added: a best-effort fetch for one of the submitted searches. */
  lemma SpawnedTask(dag0: seq<Task>, dag: seq<Task>, f: nat) returns (s: Task)
    requires AddsFetches(dag0, dag) && |dag0| <= f < |dag|
    ensures s in dag0 && s.action == "web.search"
    ensures dag[f].agent == "web_agent" && dag[f].action == "web.fetch" && dag[f].deps == [s.id]
    ensures dag[f].query == s.query && dag[f].fetchTopK == None && dag[f].autoExpanded
  {
    assert IsFetchOfSome(dag[f], dag0);
    s :| s in dag0 && IsFetchOf(dag[f], s);
  }

  /** A failure ends a run only through a submitted task that is no best-effort one, asked in the last round. */
  lemma FailureIsSubmitted(dag0: seq<Task>, dag: seq<Task>, results: map<Id, Output>, waves: seq<set<Id>>,
                           taskId: Id, env: Env)
    returns (n: nat)
    requires Aborted(dag0, dag, results, waves, taskId, env)
    ensures n < |dag0| && dag0[n].id == taskId && !dag0[n].autoExpanded
    ensures taskId in waves[|waves| - 1] && env.invoke(|waves| - 1, Asked(dag0[n])).Raised?
  {
    ByIdKeys(dag);
    ByIdFinds(dag, taskId);
    var t := ById(dag)[taskId];
    n :| 0 <= n < |dag| && dag[n] == t;
    if n >= |dag0| {
      var s := SpawnedTask(dag0, dag, n);
    }
  }

  /**
   In a finished run, documents are never asked; every other task is asked in
   exactly one round, after the tasks it depends on, and its answer is kept: hits
   as they came, and for a failure the task's own resource and the error's head.
   Only a best-effort task can have failed.
   */
  lemma FinishedTask(dag0: seq<Task>, dag: seq<Task>, results: map<Id, Output>, waves: seq<set<Id>>, env: Env, t: Task)
    returns (k: nat)
    requires Completed(dag0, dag, results, waves, env) && t in dag
    ensures t.id in results <==> t.agent != "doc_assistant"
    ensures forall j :: 0 <= j < |waves| && t.id in waves[j] ==> t.agent != "doc_assistant" && j == k
    ensures t.agent != "doc_assistant" ==> k < |waves| && t.id in waves[k] && t.id in results
    ensures t.agent != "doc_assistant" && env.invoke(k, Asked(t)).Returned? ==>
      results[t.id] == Envelope(env.invoke(k, Asked(t)).hits)
    ensures t.agent != "doc_assistant" && env.invoke(k, Asked(t)).Raised? ==>
      var kept, error := results[t.id], env.invoke(k, Asked(t)).error;
      && t.autoExpanded && kept.Placeholder? && kept.url == t.resource
      && kept.error <= error && |kept.error| == if |error| < 200 then |error| else 200
  {
    IsDocument(dag, t);
    EachTaskInvokedOnce(dag, waves, t.id);
    k := 0;
    if t.agent != "doc_assistant" {
      k :| 0 <= k < |waves| && t.id in waves[k];
      assert RecordedIn(results, t, env.invoke(k, RequestOf(t)));
    }
  }

  lemma IsDocument(dag: seq<Task>, t: Task)
    requires UniqueIds(dag) && t in dag
    ensures t.id in Ids(dag) && (t.id in Docs(dag) <==> t.agent == "doc_assistant")
  {
    var n :| 0 <= n < |dag| && dag[n] == t;
    forall u | u in dag && u.id == t.id
      ensures u == t
    {
      var m :| 0 <= m < |dag| && dag[m] == u;
    }
  }

  /**
   The fetches of a finished search are for distinct safe hits of its answer, in
   the order in which these first came, never more than asked for, and fewer only
   when there are no more.
   */
  lemma FetchesOfSearch(dag0: seq<Task>, dag: seq<Task>, results: map<Id, Output>, waves: seq<set<Id>>, env: Env,
                        n: nat, k: nat)
    requires Completed(dag0, dag, results, waves, env)
    requires n < |dag0| && dag0[n].action == "web.search"
    requires k < |waves| && dag0[n].id in waves[k] && env.invoke(k, Asked(dag0[n])).Returned?
    ensures var urls, hits := FetchedUrls(dag[|dag0|..], dag0[n].id), env.invoke(k, Asked(dag0[n])).hits;
      var topK := if dag0[n].fetchTopK.Some? then dag0[n].fetchTopK.value else env.defaultTopK;
      && (forall u :: u in urls ==> u in hits && u != "" && env.safeHttps(u))
      && FirstComeOrder(hits, urls) && |urls| <= Max0(topK)
      && (|urls| < topK ==> forall u :: u in hits && u != "" && env.safeHttps(u) ==> u in urls)
  {
    var s := dag0[n];
    var hits := env.invoke(k, Asked(s)).hits;
    assert dag[n] in dag && dag[n].id == s.id && RequestOf(dag[n]) == Asked(s);
    assert RecordedIn(results, dag[n], env.invoke(k, RequestOf(dag[n])));
    PickedMeaning(hits, if s.fetchTopK.Some? then s.fetchTopK.value else env.defaultTopK, env.safeHttps);
  }
}
