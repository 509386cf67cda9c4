/** Plan tasks and the dependency graph they declare. */
module Tasks {
  import opened Basics
  import opened DependencyGraph

  /** One entry of a plan; `query` and `fetchTopK` are the two parameters the scheduler reads. */
  datatype Task = Task(
    id: Id,
    agent: string,
    action: string,
    resource: string,
    query: string,
    fetchTopK: Option<int>,
    deps: seq<Id>,
    autoExpanded: bool)

  function DepSet(t: Task): set<Id> {
    set d | d in t.deps
  }

  /** Lookup by id; a later task with the same id replaces an earlier one. */
  function ById(dag: seq<Task>): map<Id, Task> {
    if dag == [] then map[] else ById(dag[..|dag| - 1])[dag[|dag| - 1].id := dag[|dag| - 1]]
  }

  function GraphOf(dag: seq<Task>): Graph {
    var byId := ById(dag);
    map i | i in byId :: DepSet(byId[i])
  }

  ghost predicate UniqueIds(dag: seq<Task>) {
    forall m, n :: 0 <= m < n < |dag| ==> dag[m].id != dag[n].id
  }

  function Ids(dag: seq<Task>): set<Id> {
    set t | t in dag :: t.id
  }

  lemma {:induction false} ByIdKeys(dag: seq<Task>)
    ensures ById(dag).Keys == Ids(dag)
  {
    if dag != [] {
      ByIdKeys(dag[..|dag| - 1]);
      assert dag == dag[..|dag| - 1] + [dag[|dag| - 1]];
    }
  }

  lemma {:induction false} ByIdFinds(dag: seq<Task>, i: Id)
    requires i in ById(dag)
    ensures ById(dag)[i].id == i && ById(dag)[i] in dag
  {
    var last := |dag| - 1;
    if dag[last].id != i {
      ByIdFinds(dag[..last], i);
    }
  }

  lemma {:induction false} ByIdAt(dag: seq<Task>, n: nat)
    requires UniqueIds(dag) && n < |dag|
    ensures dag[n].id in ById(dag) && ById(dag)[dag[n].id] == dag[n]
  {
    if n < |dag| - 1 {
      ByIdAt(dag[..|dag| - 1], n);
    }
  }

  lemma IdsSnoc(tasks: seq<Task>, n: nat)
    requires n < |tasks|
    ensures Ids(tasks[..n + 1]) == Ids(tasks[..n]) + {tasks[n].id}
    ensures tasks[n].id in Ids(tasks)
    ensures forall t :: t in tasks[..n + 1] <==> t in tasks[..n] || t == tasks[n]
  {
    assert tasks[..n + 1] == tasks[..n] + [tasks[n]];
    assert tasks[n] in tasks;
  }
}
