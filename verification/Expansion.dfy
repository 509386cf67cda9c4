/**
 Dynamic expansion: the fetch tasks one finished search adds to a plan, their
 fresh ids, and how they are spliced into the tasks that wait for the search.
 */
module Expansion {
  import opened Basics
  import opened DependencyGraph
  import opened Tasks
  import Decimal

  // ----- Fresh ids -----

  /** The number an id contributes to the seed: its digits after leading 't's, else nothing. */
  function IdNumber(id: Id): nat {
    var digits := Decimal.StripT(id);
    if Decimal.IsDigits(digits) then Decimal.Parse(digits) else 0
  }

  function NumberedId(n: nat): Id {
    "t" + Decimal.Print(n)
  }

  function Seed(dag: seq<Task>): nat {
    if dag == [] then 1
    else Max(Seed(dag[..|dag| - 1]), IdNumber(dag[|dag| - 1].id) + 1)
  }

  function Max(a: nat, b: nat): nat {
    if a < b then b else a
  }

  method NextIdSeed(dag: seq<Task>) returns (seed: nat)
    ensures seed == Seed(dag)
  {
    var mx := 0;
    for n := 0 to |dag|
      invariant mx + 1 == Seed(dag[..n])
    {
      var tid := Decimal.StripT(dag[n].id);
      if Decimal.IsDigits(tid) {
        mx := Max(mx, Decimal.Parse(tid));
      }
      assert dag[..n + 1][..n] == dag[..n];
    }
    assert dag[..|dag|] == dag;
    seed := mx + 1;
  }

  lemma NumberedIdNumber(n: nat)
    ensures IdNumber(NumberedId(n)) == n
  {
    Decimal.ParsePrint(n);
    assert NumberedId(n)[1..] == Decimal.Print(n);
    assert Decimal.StripT(Decimal.Print(n)) == Decimal.Print(n);
  }

  lemma {:induction false} SeedAboveIds(dag: seq<Task>, id: Id)
    requires id in Ids(dag)
    ensures IdNumber(id) < Seed(dag)
  {
    var t :| t in dag && t.id == id;
    var last := |dag| - 1;
    if t != dag[last] {
      assert t in dag[..last];
      SeedAboveIds(dag[..last], id);
    }
  }

  /** Whatever ids the plan already uses, generated ids from the seed on are new and distinct. */
  lemma GeneratedIdsFresh(dag: seq<Task>, m: nat, n: nat)
    requires Seed(dag) <= m < n
    ensures NumberedId(m) !in Ids(dag) && NumberedId(m) != NumberedId(n)
  {
    NumberedIdNumber(m);
    NumberedIdNumber(n);
    if NumberedId(m) in Ids(dag) {
      SeedAboveIds(dag, NumberedId(m));
    }
  }

  // ----- Which hits become fetch tasks -----

  predicate Fetchable(url: string, safeHttps: string -> bool) {
    url != "" && safeHttps(url)
  }

  /** The fetchable hits, each kept at its first occurrence. */
  function DistinctHits(hits: seq<string>, safeHttps: string -> bool): seq<string> {
    if hits == [] then []
    else
      var earlier := DistinctHits(hits[..|hits| - 1], safeHttps);
      var url := hits[|hits| - 1];
      if Fetchable(url, safeHttps) && url !in earlier then earlier + [url] else earlier
  }

  function Picked(hits: seq<string>, topK: int, safeHttps: string -> bool): seq<string> {
    var urls := DistinctHits(hits, safeHttps);
    if topK <= 0 then [] else if topK < |urls| then urls[..topK] else urls
  }

  lemma {:induction false} DistinctHitsPrefix(hits: seq<string>, n: nat, safeHttps: string -> bool)
    requires n <= |hits|
    ensures DistinctHits(hits[..n], safeHttps) <= DistinctHits(hits, safeHttps)
  {
    if n < |hits| {
      DistinctHitsPrefix(hits[..|hits| - 1], n, safeHttps);
      assert hits[..|hits| - 1][..n] == hits[..n];
    } else {
      assert hits[..n] == hits;
    }
  }

  lemma {:induction false} DistinctHitsMeaning(hits: seq<string>, safeHttps: string -> bool, url: string)
    ensures url in DistinctHits(hits, safeHttps) <==> url in hits && Fetchable(url, safeHttps)
    ensures forall m, n :: 0 <= m < n < |DistinctHits(hits, safeHttps)| ==>
      DistinctHits(hits, safeHttps)[m] != DistinctHits(hits, safeHttps)[n]
  {
    if hits != [] {
      var last := |hits| - 1;
      DistinctHitsMeaning(hits[..last], safeHttps, url);
      assert hits == hits[..last] + [hits[last]];
    }
  }

  /** Where a hit first comes; past the end if it does not. */
  function FirstAt(hits: seq<string>, url: string): (at: nat)
    ensures at <= |hits|
  {
    if hits == [] || hits[0] == url then 0 else 1 + FirstAt(hits[1..], url)
  }

  lemma {:induction false} FirstAtSnoc(hits: seq<string>, last: string, url: string)
    ensures FirstAt(hits + [last], url) == if url in hits then FirstAt(hits, url) else if last == url then |hits| else |hits| + 1
    ensures FirstAt(hits, url) < |hits| <==> url in hits
  {
    if hits != [] {
      assert (hits + [last])[1..] == hits[1..] + [last];
      assert hits == [hits[0]] + hits[1..];
      FirstAtSnoc(hits[1..], last, url);
    } else {
      assert ([] + [last])[1..] == [];
    }
  }

  /** The URLs are listed as they first come in the hits, which also keeps them distinct. */
  ghost predicate FirstComeOrder(hits: seq<string>, urls: seq<string>) {
    forall i, j :: 0 <= i < j < |urls| ==> FirstAt(hits, urls[i]) < FirstAt(hits, urls[j])
  }

  lemma {:induction false} DistinctHitsInOrder(hits: seq<string>, safeHttps: string -> bool)
    ensures FirstComeOrder(hits, DistinctHits(hits, safeHttps))
  {
    if hits != [] {
      var earlier, last := hits[..|hits| - 1], hits[|hits| - 1];
      var urls := DistinctHits(hits, safeHttps);
      DistinctHitsInOrder(earlier, safeHttps);
      assert hits == earlier + [last];
      forall i, j | 0 <= i < j < |urls|
        ensures FirstAt(hits, urls[i]) < FirstAt(hits, urls[j])
      {
        DistinctHitsMeaning(earlier, safeHttps, urls[i]);
        DistinctHitsMeaning(earlier, safeHttps, urls[j]);
        FirstAtSnoc(earlier, last, urls[i]);
        FirstAtSnoc(earlier, last, urls[j]);
      }
    }
  }

  /** The picked URLs: safe hits in order of first occurrence, as many as asked for or all there are. */
  lemma PickedMeaning(hits: seq<string>, topK: int, safeHttps: string -> bool)
    ensures var urls := Picked(hits, topK, safeHttps);
      && (forall u :: u in urls ==> u in hits && u != "" && safeHttps(u))
      && FirstComeOrder(hits, urls) && |urls| <= Max0(topK)
      && (|urls| < topK ==> forall u :: u in hits && u != "" && safeHttps(u) ==> u in urls)
  {
    var all, urls := DistinctHits(hits, safeHttps), Picked(hits, topK, safeHttps);
    DistinctHitsInOrder(hits, safeHttps);
    assert urls == all[..|urls|] && (|urls| < topK ==> urls == all);
    forall u: string
      ensures u in all <==> u in hits && u != "" && safeHttps(u)
    {
      DistinctHitsMeaning(hits, safeHttps, u);
    }
    assert forall j :: 0 <= j < |urls| ==> urls[j] == all[j] && urls[j] in all;
  }

  /** The seed is one past the largest number in use, and one for a plan without numbers. */
  lemma {:induction false} SeedIsLeast(dag: seq<Task>)
    ensures Seed(dag) == 1 || exists n :: 0 <= n < |dag| && Seed(dag) == IdNumber(dag[n].id) + 1
  {
    if dag != [] {
      SeedIsLeast(dag[..|dag| - 1]);
    }
  }

  /** Leading 't's do not matter, a number is itself, and any other text counts as none. */
  lemma IdNumberMeaning(id: Id, n: nat)
    ensures IdNumber("t" + id) == IdNumber(id)
    ensures IdNumber(Decimal.Print(n)) == n
    ensures (exists j :: 0 <= j < |id| && id[j] != 't' && !('0' <= id[j] <= '9')) ==> IdNumber(id) == 0
  {
    Decimal.ParsePrint(n);
    assert ("t" + id)[1..] == id;
    if j :| 0 <= j < |id| && id[j] != 't' && !('0' <= id[j] <= '9') {
      Decimal.StripTKeeps(id, j);
    }
  }

  function FetchTask(search: Id, url: string, n: nat, query: string): Task {
    Task(NumberedId(n), "web_agent", "web.fetch", url, query, None, [search], true)
  }

  function FetchTasks(search: Id, urls: seq<string>, seed: nat, query: string): seq<Task> {
    seq(|urls|, j requires 0 <= j < |urls| => FetchTask(search, urls[j], seed + j, query))
  }

  method BuildFetchTasks(search: Id, hits: seq<string>, topK: int, seed: nat, query: string,
                         safeHttps: string -> bool)
    returns (out: seq<Task>)
    ensures out == FetchTasks(search, Picked(hits, topK, safeHttps), seed, query)
  {
    out := [];
    var seen: seq<string> := [];
    var n := seed;
    for h := 0 to |hits|
      invariant seen == DistinctHits(hits[..h], safeHttps) && (|seen| <= topK || seen == [])
      invariant out == FetchTasks(search, seen, seed, query) && n == seed + |seen|
    {
      DistinctHitsPrefix(hits, h, safeHttps);
      if |out| >= topK {
        assert seen == Picked(hits, topK, safeHttps);
        return;
      }
      var url := hits[h];
      assert hits[..h + 1][..h] == hits[..h];
      if url == "" || url in seen || !safeHttps(url) {
        continue;
      }
      seen := seen + [url];
      out := out + [FetchTask(search, url, n, query)];
      n := n + 1;
    }
    assert hits[..|hits|] == hits;
  }

  // ----- Splicing -----

  function IdList(tasks: seq<Task>): seq<Id> {
    seq(|tasks|, j requires 0 <= j < |tasks| => tasks[j].id)
  }

  function Patched(t: Task, search: Id, dispatched: set<Id>, newIds: seq<Id>): Task {
    if t.id !in dispatched && search in t.deps then t.(deps := t.deps + newIds) else t
  }

  function Splice(dag: seq<Task>, search: Id, dispatched: set<Id>, fetches: seq<Task>): seq<Task> {
    seq(|dag|, n requires 0 <= n < |dag| => Patched(dag[n], search, dispatched, IdList(fetches))) + fetches
  }

  lemma SpliceNothing(dag: seq<Task>, search: Id, dispatched: set<Id>)
    ensures Splice(dag, search, dispatched, []) == dag
  {
    assert IdList([]) == [];
    forall n | 0 <= n < |dag|
      ensures Patched(dag[n], search, dispatched, []) == dag[n]
    {
      assert dag[n].deps + [] == dag[n].deps;
    }
  }

  method SpliceInto(dag0: seq<Task>, search: Id, dispatched: set<Id>, newTasks: seq<Task>)
    returns (dag: seq<Task>)
    ensures dag == Splice(dag0, search, dispatched, newTasks)
  {
    dag := dag0;
    var newIds := IdList(newTasks);
    for n := 0 to |dag0|
      invariant |dag| == |dag0|
      invariant forall j :: 0 <= j < n ==> dag[j] == Patched(dag0[j], search, dispatched, newIds)
      invariant forall j :: n <= j < |dag| ==> dag[j] == dag0[j]
    {
      if dag[n].id in dispatched {
        continue;
      }
      var deps := dag[n].deps;
      if search in deps {
        dag := dag[n := dag[n].(deps := deps + newIds)];
      }
    }
    dag := dag + newTasks;
  }

  /** g' is g plus new ids that depend on `search` only, and that may be added to its dependents. */
  ghost predicate ExpandedGraph(g: Graph, g': Graph, search: Id, added: set<Id>) {
    && added !! g.Keys
    && g'.Keys == g.Keys + added
    && (forall i :: i in g ==> g'[i] == g[i] || (search in g[i] && g'[i] == g[i] + added))
    && (forall i :: i in added ==> g'[i] == {search})
  }

  /** Expanding a search of layer m leaves layers 0..m as they were. */
  lemma ExpansionKeepsLayers(g: Graph, g': Graph, search: Id, added: set<Id>, m: nat)
    requires ExpandedGraph(g, g', search, added) && search in Layer(g, m)
    ensures AgreeUpTo(g, g', m + 1)
  {
    SettledMonotone(g, m, m + 1);
    forall i | i in Settled(g, m + 1)
      ensures i in g && i in g' && g'[i] == g[i]
    {
      SettledDeps(g, m + 1, i);
    }
    forall i | i in g' && i !in Settled(g, m + 1)
      ensures !(g'[i] <= Settled(g, m))
    {
      SettledIff(g, m, i);
    }
    forall j | 0 <= j <= m + 1
      ensures Settled(g', j) == Settled(g, j)
    {
      SettledStable(g, g', m + 1, j);
    }
  }

  /** In the expanded graph every old id settles after at most twice as many rounds. */
  lemma {:induction false} ExpandedSettles(g: Graph, g': Graph, search: Id, added: set<Id>, k: nat)
    requires ExpandedGraph(g, g', search, added)
    ensures Settled(g, k) <= Settled(g', 2 * k)
  {
    if k > 0 {
      ExpandedSettles(g, g', search, added, k - 1);
      forall i | i in Settled(g, k)
        ensures i in Settled(g', 2 * k)
      {
      }
    }
  }

  lemma ExpansionSchedulable(g: Graph, g': Graph, search: Id, added: set<Id>)
    requires ExpandedGraph(g, g', search, added) && search in g
    requires Schedulable(g)
    ensures Schedulable(g')
  {
    var r := 2 * Height(g);
    ExpandedSettles(g, g', search, added, Height(g));
    SettledMonotone(g', r, r + 1);
    SettledWithinCore(g', r + 1);
  }

  ghost predicate FreshFetches(dag: seq<Task>, search: Id, fetches: seq<Task>) {
    && UniqueIds(fetches) && Ids(fetches) !! Ids(dag)
    && forall f :: f in fetches ==> f.deps == [search] && f.agent == "web_agent" && f.action == "web.fetch"
  }

  lemma FetchTasksAreFresh(dag: seq<Task>, search: Id, urls: seq<string>, query: string)
    ensures FreshFetches(dag, search, FetchTasks(search, urls, Seed(dag), query))
  {
    var s := Seed(dag);
    var fetches := FetchTasks(search, urls, s, query);
    forall m, n | 0 <= m < n < |fetches|
      ensures fetches[m].id != fetches[n].id
    {
      GeneratedIdsFresh(dag, s + m, s + n);
    }
    forall m | 0 <= m < |fetches|
      ensures fetches[m].id !in Ids(dag)
    {
      GeneratedIdsFresh(dag, s + m, s + m + 1);
    }
  }

  lemma SpliceUnique(dag: seq<Task>, search: Id, dispatched: set<Id>, fetches: seq<Task>)
    requires UniqueIds(dag) && FreshFetches(dag, search, fetches)
    ensures UniqueIds(Splice(dag, search, dispatched, fetches))
  {
    var dag' := Splice(dag, search, dispatched, fetches);
    forall m, n | 0 <= m < n < |dag'|
      ensures dag'[m].id != dag'[n].id
    {
      if m < |dag| <= n {
        assert dag'[m].id == dag[m].id && dag[m] in dag;
        assert dag'[n] == fetches[n - |dag|] && dag'[n] in fetches;
        assert dag'[n].id in Ids(fetches);
      } else if n < |dag| {
        assert dag'[m].id == dag[m].id && dag'[n].id == dag[n].id;
      } else {
        assert dag'[m] == fetches[m - |dag|] && dag'[n] == fetches[n - |dag|];
      }
    }
  }

  lemma SpliceIds(dag: seq<Task>, search: Id, dispatched: set<Id>, fetches: seq<Task>)
    ensures Ids(Splice(dag, search, dispatched, fetches)) == Ids(dag) + Ids(fetches)
  {
    var dag' := Splice(dag, search, dispatched, fetches);
    forall i
      ensures i in Ids(dag') <==> i in Ids(dag) + Ids(fetches)
    {
      if t :| t in dag && t.id == i {
        var n :| 0 <= n < |dag| && dag[n] == t;
        assert dag'[n] in dag';
      }
      if t :| t in dag' && t.id == i {
        var n :| 0 <= n < |dag'| && dag'[n] == t;
        if n < |dag| {
          assert dag[n] in dag && dag[n].id == i;
        } else {
          assert fetches[n - |dag|] in fetches;
        }
      }
      if t :| t in fetches && t.id == i {
        assert t in dag';
      }
    }
  }

  lemma SplicedOldDeps(dag: seq<Task>, search: Id, dispatched: set<Id>, fetches: seq<Task>, n: nat)
    requires UniqueIds(dag) && FreshFetches(dag, search, fetches) && n < |dag|
    ensures var i, g, g' := dag[n].id, GraphOf(dag), GraphOf(Splice(dag, search, dispatched, fetches));
      && i in g && i in g' && g[i] == DepSet(dag[n])
      && g'[i] == if i !in dispatched && search in g[i] then g[i] + Ids(fetches) else g[i]
  {
    var dag' := Splice(dag, search, dispatched, fetches);
    SpliceUnique(dag, search, dispatched, fetches);
    ByIdAt(dag, n);
    ByIdAt(dag', n);
    PatchedDeps(dag[n], search, dispatched, fetches);
  }

  lemma SplicedNewDeps(dag: seq<Task>, search: Id, dispatched: set<Id>, fetches: seq<Task>, n: nat)
    requires UniqueIds(dag) && FreshFetches(dag, search, fetches) && n < |fetches|
    ensures var i, g' := fetches[n].id, GraphOf(Splice(dag, search, dispatched, fetches));
      i in g' && g'[i] == {search}
  {
    var dag' := Splice(dag, search, dispatched, fetches);
    SpliceUnique(dag, search, dispatched, fetches);
    ByIdAt(dag', |dag| + n);
    assert dag'[|dag| + n] == fetches[n] && fetches[n] in fetches;
  }

  lemma SpliceExpandsGraph(dag: seq<Task>, search: Id, dispatched: set<Id>, fetches: seq<Task>)
    requires UniqueIds(dag) && FreshFetches(dag, search, fetches)
    ensures ExpandedGraph(GraphOf(dag), GraphOf(Splice(dag, search, dispatched, fetches)), search, Ids(fetches))
  {
    var dag' := Splice(dag, search, dispatched, fetches);
    SpliceIds(dag, search, dispatched, fetches);
    ByIdKeys(dag);
    ByIdKeys(dag');
    var g, g' := GraphOf(dag), GraphOf(dag');
    forall i | i in g
      ensures g'[i] == g[i] || (search in g[i] && g'[i] == g[i] + Ids(fetches))
    {
      var n := IndexOf(dag, i);
      SplicedOldDeps(dag, search, dispatched, fetches, n);
    }
    forall i | i in Ids(fetches)
      ensures g'[i] == {search}
    {
      var n := IndexOf(fetches, i);
      SplicedNewDeps(dag, search, dispatched, fetches, n);
    }
  }

  lemma IndexOf(tasks: seq<Task>, i: Id) returns (n: nat)
    requires i in Ids(tasks)
    ensures n < |tasks| && tasks[n].id == i
  {
    var t :| t in tasks && t.id == i;
    n :| 0 <= n < |tasks| && tasks[n] == t;
  }

  lemma PatchedDeps(t: Task, search: Id, dispatched: set<Id>, fetches: seq<Task>)
    ensures DepSet(Patched(t, search, dispatched, IdList(fetches)))
         == if t.id !in dispatched && search in t.deps then DepSet(t) + Ids(fetches) else DepSet(t)
  {
    IdListIds(fetches);
  }

  lemma IdListIds(tasks: seq<Task>)
    ensures forall i :: i in IdList(tasks) <==> i in Ids(tasks)
  {
    forall i
      ensures i in IdList(tasks) <==> i in Ids(tasks)
    {
      if i in Ids(tasks) {
        var n := IndexOf(tasks, i);
        assert IdList(tasks)[n] == i;
      }
    }
  }
}
