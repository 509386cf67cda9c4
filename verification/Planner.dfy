/** Plan validation and the rule-based planner, and what they give the scheduler. */
module Planner {
  import opened Basics
  import opened DependencyGraph
  import opened Tasks
  import opened Expansion

  datatype PlanError = BadId | BadAgent | BadAction | BadResource | UndeclaredDep(dep: Id)

  const AGENTS: set<string> := {"data_agent", "web_agent", "doc_assistant"}

  const ACTIONS: set<string> := {
    "feishu.bitable.read", "feishu.bitable.read_all", "feishu.contact.read", "feishu.calendar.read",
    "feishu.docx.read", "web.search", "web.fetch", "feishu.doc.write"}

  predicate ResourceChar(c: char) {
    'A' <= c <= 'Z' || 'a' <= c <= 'z' || '0' <= c <= '9' || c in "._:/*@-?=&#%~+"
  }

  predicate AllResourceChars(s: string) {
    s != "" && forall n :: 0 <= n < |s| ==> ResourceChar(s[n])
  }

  /** The pattern's `$` also accepts one newline at the very end. */
  predicate ResourceOk(s: string) {
    AllResourceChars(s) || (s != "" && s[|s| - 1] == '\n' && AllResourceChars(s[..|s| - 1]))
  }

  /** The first of `deps` outside `seen`. */
  function FirstUndeclared(deps: seq<Id>, seen: set<Id>): Option<Id> {
    if deps == [] then None
    else if deps[0] !in seen then Some(deps[0])
    else FirstUndeclared(deps[1..], seen)
  }

  /** The first check a task fails when `earlier` are the ids before it; its own id counts as declared. */
  function TaskError(t: Task, earlier: set<Id>): Option<PlanError> {
    if t.id == "" || t.id in earlier then Some(BadId)
    else if t.agent !in AGENTS then Some(BadAgent)
    else if t.action !in ACTIONS then Some(BadAction)
    else if !ResourceOk(t.resource) then Some(BadResource)
    else match FirstUndeclared(t.deps, earlier + {t.id})
      case None => None
      case Some(d) => Some(UndeclaredDep(d))
  }

  ghost predicate ValidPlan(dag: seq<Task>) {
    PassesUpTo(dag, |dag|)
  }

  /** The first m tasks pass their checks against the ids before them. */
  ghost predicate PassesUpTo(dag: seq<Task>, m: nat)
    requires m <= |dag|
  {
    forall n :: 0 <= n < m ==> TaskError(dag[n], Ids(dag[..n])).None?
  }

  predicate KnownAgent(agent: string) {
    agent == "data_agent" || agent == "web_agent" || agent == "doc_assistant"
  }

  predicate KnownAction(action: string) {
    || action == "feishu.bitable.read" || action == "feishu.bitable.read_all" || action == "feishu.contact.read"
    || action == "feishu.calendar.read" || action == "feishu.docx.read" || action == "feishu.doc.write"
    || action == "web.search" || action == "web.fetch"
  }

  /** What the validator asks of one task, given the ids before it, and what it complains of first. */
  lemma TaskErrorMeaning(t: Task, earlier: set<Id>)
    ensures TaskError(t, earlier).None? <==>
      && t.id != "" && t.id !in earlier && KnownAgent(t.agent) && KnownAction(t.action) && ResourceOk(t.resource)
      && forall d :: d in t.deps ==> d in earlier || d == t.id
    ensures TaskError(t, earlier) == Some(BadId) <==> t.id == "" || t.id in earlier
    ensures TaskError(t, earlier) == Some(BadAgent) ==> !KnownAgent(t.agent)
    ensures TaskError(t, earlier) == Some(BadAction) ==> KnownAgent(t.agent) && !KnownAction(t.action)
    ensures TaskError(t, earlier) == Some(BadResource) ==> KnownAgent(t.agent) && KnownAction(t.action) && !ResourceOk(t.resource)
  {
    UndeclaredMeans(t.deps, earlier + {t.id});
  }

  /** Addresses with a query pass; white space does not. */
  lemma ResourceExamples()
    ensures ResourceOk("https://a-b.example/p_q?x=1&y=%20#z~+@*:9")
    ensures !ResourceOk("a b") && !ResourceOk("") && ResourceOk("a\n")
  {
    assert AllResourceChars("https://a-b.example/p_q?x=1&y=%20#z~+@*:9");
    assert "a b"[1] == ' ';
    assert "a\n"[..1] == "a";
  }

  /** The checks on one task, in order. */
  method CheckTask(t: Task, earlier: set<Id>) returns (error: Option<PlanError>)
    ensures error == TaskError(t, earlier)
  {
    if t.id == "" || t.id in earlier {
      return Some(BadId);
    }
    var seen := earlier + {t.id};
    if t.agent !in AGENTS {
      return Some(BadAgent);
    }
    if t.action !in ACTIONS {
      return Some(BadAction);
    }
    if !ResourceOk(t.resource) {
      return Some(BadResource);
    }
    for m := 0 to |t.deps|
      invariant FirstUndeclared(t.deps, seen) == FirstUndeclared(t.deps[m..], seen)
    {
      if t.deps[m] !in seen {
        return Some(UndeclaredDep(t.deps[m]));
      }
    }
    error := None;
  }

  /** Accepts exactly the valid plans, and otherwise reports the first failed check of the first bad task. */
  method ValidateDag(dag: seq<Task>) returns (error: Option<PlanError>)
    ensures error.None? <==> ValidPlan(dag)
    ensures error.Some? ==> exists n :: 0 <= n < |dag| && ValidPlan(dag[..n]) && error == TaskError(dag[n], Ids(dag[..n]))
  {
    var seen: set<Id> := {};
    error := None;
    for n := 0 to |dag|
      invariant error.None? && seen == Ids(dag[..n]) && PassesUpTo(dag, n)
    {
      error := CheckTask(dag[n], seen);
      if error.Some? {
        FirstRejected(dag, n, error);
        return;
      }
      IdsSnoc(dag, n);
      seen := seen + {dag[n].id};
    }
  }

  lemma FirstRejected(dag: seq<Task>, n: nat, error: Option<PlanError>)
    requires n < |dag| && error.Some? && error == TaskError(dag[n], Ids(dag[..n])) && PassesUpTo(dag, n)
    ensures !ValidPlan(dag)
    ensures exists n :: 0 <= n < |dag| && ValidPlan(dag[..n]) && error == TaskError(dag[n], Ids(dag[..n]))
  {
    PrefixValid(dag, n);
  }

  lemma PrefixValid(dag: seq<Task>, n: nat)
    requires n <= |dag| && PassesUpTo(dag, n)
    ensures ValidPlan(dag[..n])
  {
    forall j | 0 <= j < n
      ensures TaskError(dag[..n][j], Ids(dag[..n][..j])).None?
    {
      assert dag[..n][..j] == dag[..j];
    }
  }

  // ----- From validation to scheduling -----

  lemma {:induction false} UndeclaredMeans(deps: seq<Id>, seen: set<Id>)
    ensures FirstUndeclared(deps, seen).None? <==> forall d :: d in deps ==> d in seen
  {
    if deps != [] {
      UndeclaredMeans(deps[1..], seen);
      assert deps == [deps[0]] + deps[1..];
    }
  }

  lemma ValidPlanUnique(dag: seq<Task>)
    requires ValidPlan(dag)
    ensures UniqueIds(dag)
  {
    forall m, n | 0 <= m < n < |dag|
      ensures dag[m].id != dag[n].id
    {
      assert dag[..n][m] in dag[..n];
      assert TaskError(dag[n], Ids(dag[..n])).None?;
    }
  }

  ghost predicate SelfDependent(t: Task) {
    t.id in t.deps
  }

  lemma {:induction false} ValidTaskSettles(dag: seq<Task>, n: nat)
    requires ValidPlan(dag) && n < |dag| && forall t :: t in dag ==> !SelfDependent(t)
    ensures dag[n].id in Settled(GraphOf(dag), n + 1)
    decreases n
  {
    var g, t := GraphOf(dag), dag[n];
    ValidPlanUnique(dag);
    ByIdAt(dag, n);
    assert TaskError(t, Ids(dag[..n])).None?;
    UndeclaredMeans(t.deps, Ids(dag[..n]) + {t.id});
    forall d | d in g[t.id]
      ensures d in Settled(g, n)
    {
      assert t in dag && d in t.deps;
      assert d in Ids(dag[..n]);
      var m := IndexOf(dag[..n], d);
      ValidTaskSettles(dag, m);
      SettledMonotone(g, m + 1, n);
    }
    SettledIff(g, n, t.id);
  }

  lemma {:induction false} SelfDependentNeverSettles(g: Graph, i: Id, k: nat)
    requires i in g && i in g[i]
    ensures i !in Settled(g, k)
  {
    if k > 0 {
      SelfDependentNeverSettles(g, i, k - 1);
      SettledIff(g, k - 1, i);
    }
  }

  /**
   A validated plan can be scheduled exactly when no task lists itself: the
   validator declares a task's id before it looks at the task's own deps.
   */
  lemma ValidPlanSchedulableIff(dag: seq<Task>)
    requires ValidPlan(dag)
    ensures Schedulable(GraphOf(dag)) <==> forall t :: t in dag ==> !SelfDependent(t)
  {
    var g := GraphOf(dag);
    ValidPlanUnique(dag);
    ByIdKeys(dag);
    SettledWithinCore(g, 0);
    if forall t :: t in dag ==> !SelfDependent(t) {
      forall i | i in g
        ensures i in Core(g)
      {
        var n := IndexOf(dag, i);
        ValidTaskSettles(dag, n);
        SettledWithinCore(g, n + 1);
      }
    } else {
      var t :| t in dag && SelfDependent(t);
      var n :| 0 <= n < |dag| && dag[n] == t;
      ByIdAt(dag, n);
      SelfDependentNeverSettles(g, t.id, Height(g));
    }
  }

  /** The validator does accept such a plan. */
  lemma SelfDependencyPassesValidation()
    ensures exists dag :: ValidPlan(dag) && !Schedulable(GraphOf(dag))
  {
    var t := Task("t1", "web_agent", "web.search", "*", "", None, ["t1"], false);
    var dag := [t];
    assert FirstUndeclared(["t1"], Ids(dag[..0]) + {"t1"}) == FirstUndeclared([], Ids(dag[..0]) + {"t1"});
    assert ResourceChar("*"[0]);
    assert ValidPlan(dag);
    assert t in dag && SelfDependent(t);
    ValidPlanSchedulableIff(dag);
  }

  // ----- The rule-based planner -----

  /** One data source picked in the front end; `kind` is already lower-case. */
  datatype Selection = Selection(kind: string, appToken: string, tableId: string, documentId: string)

  /** What the prompt and the configuration say. */
  datatype Hints = Hints(
    prompt: string,
    mentionsData: bool, mentionsTeam: bool, mentionsResearch: bool,
    bitable: Option<string>, department: Option<string>)

  function DataTask(n: nat, action: string, resource: string): Task {
    Task(NumberedId(n), "data_agent", action, resource, "", None, [], false)
  }

  function SearchTask(n: nat, prompt: string): Task {
    Task(NumberedId(n), "web_agent", "web.search", "*", prompt, Some(2), [], false)
  }

  function SourceTask(sel: Selection, n: nat): Option<Task> {
    var kind := if sel.kind == "" && sel.appToken != "" then "bitable" else sel.kind;
    if kind == "bitable" && sel.appToken != "" && sel.tableId != "" then
      Some(DataTask(n, "feishu.bitable.read", "app_token:" + sel.appToken + "/table:" + sel.tableId))
    else if kind == "bitable" && sel.appToken != "" then
      Some(DataTask(n, "feishu.bitable.read_all", "app_token:" + sel.appToken))
    else if kind == "docx" && sel.documentId != "" then
      Some(DataTask(n, "feishu.docx.read", "document_id:" + sel.documentId))
    else None
  }

  /** Independent tasks t1, t2, ... as the planner emits them before the final write. */
  ghost predicate NumberedSources(tasks: seq<Task>) {
    forall n :: 0 <= n < |tasks| ==>
      tasks[n].id == NumberedId(n + 1) && tasks[n].deps == [] && Known(tasks[n])
  }

  predicate Known(t: Task) {
    t.agent in AGENTS && t.action in ACTIONS && !t.autoExpanded
  }

  /** Numbered sources followed by one write that depends on all of them. */
  ghost predicate RulePlanShape(plan: seq<Task>) {
    var last := |plan| - 1;
    && |plan| > 1
    && NumberedSources(plan[..last])
    && plan[last].id == NumberedId(last + 1)
    && plan[last].deps == IdList(plan[..last])
    && plan[last].agent == "doc_assistant" && plan[last].action == "feishu.doc.write"
    && plan[last].resource == "doc_token:auto" && !plan[last].autoExpanded
  }

  /** The kind of work a task stands for, apart from its number. */
  datatype Work = Work(agent: string, action: string, resource: string, query: string, fetchTopK: Option<int>)

  function WorkOf(tasks: seq<Task>): seq<Work> {
    seq(|tasks|, n requires 0 <= n < |tasks| => 
      Work(tasks[n].agent, tasks[n].action, tasks[n].resource, tasks[n].query, tasks[n].fetchTopK))
  }

  /** The complete selections, in order; incomplete ones are skipped. */
  function SelectedWork(selections: seq<Selection>): seq<Work> {
    if selections == [] then []
    else
      var task := SourceTask(selections[|selections| - 1], 0);
      SelectedWork(selections[..|selections| - 1]) + if task.None? then [] else WorkOf([task.value])
  }

  function DataWork(selections: seq<Selection>, h: Hints): seq<Work> {
    var selected := SelectedWork(selections);
    if selected == [] && h.mentionsData && h.bitable.Some?
    then [Work("data_agent", "feishu.bitable.read", h.bitable.value, "", None)]
    else selected
  }

  function ContextWork(haveData: bool, h: Hints): seq<Work> {
    var team :=
      if h.mentionsTeam && h.department.Some?
      then [Work("data_agent", "feishu.contact.read", "department:" + h.department.value, "", None)] else [];
    team + if h.mentionsResearch || (!haveData && team == []) then [Work("web_agent", "web.search", "*", h.prompt, Some(2))] else []
  }

  /** What a rule plan gathers before writing: explicit selections win over keywords, and never nothing. */
  function GatheredWork(selections: seq<Selection>, h: Hints): seq<Work> {
    var data := DataWork(selections, h);
    data + ContextWork(data != [], h)
  }

  lemma AppendSource(tasks: seq<Task>, t: Task)
    requires NumberedSources(tasks)
    requires t.id == NumberedId(|tasks| + 1) && t.deps == [] && Known(t)
    ensures NumberedSources(tasks + [t]) && WorkOf(tasks + [t]) == WorkOf(tasks) + WorkOf([t])
  {
  }

  /** One selected table, a whole base, or a document; anything incomplete is no source. */
  lemma SourceTaskMeaning(sel: Selection, n: nat)
    ensures var base := sel.appToken != "" && (sel.kind == "bitable" || sel.kind == "");
      && (SourceTask(sel, n).Some? <==> base || (sel.kind == "docx" && sel.documentId != ""))
      && (base && sel.tableId != "" ==> SourceTask(sel, n) == Some(Task(
            id := NumberedId(n), agent := "data_agent", action := "feishu.bitable.read",
            resource := "app_token:" + sel.appToken + "/table:" + sel.tableId,
            query := "", fetchTopK := None, deps := [], autoExpanded := false)))
      && (base && sel.tableId == "" ==> SourceTask(sel, n) == Some(Task(
            id := NumberedId(n), agent := "data_agent", action := "feishu.bitable.read_all",
            resource := "app_token:" + sel.appToken,
            query := "", fetchTopK := None, deps := [], autoExpanded := false)))
      && (sel.kind == "docx" && sel.documentId != "" ==> SourceTask(sel, n) == Some(Task(
            id := NumberedId(n), agent := "data_agent", action := "feishu.docx.read",
            resource := "document_id:" + sel.documentId,
            query := "", fetchTopK := None, deps := [], autoExpanded := false)))
  {
    assert "bitable"[0] == 'b' && "docx"[0] == 'd';
  }

  /** What a rule plan gathers, case by case. */
  lemma GatheredWorkMeaning(selections: seq<Selection>, h: Hints)
    ensures var selected := SelectedWork(selections);
      var data := selected == [] && h.mentionsData && h.bitable.Some?;
      var team := h.mentionsTeam && h.department.Some?;
      var search := h.mentionsResearch || (selected == [] && !data && !team);
      GatheredWork(selections, h) ==
        selected
        + (if data then [Work(agent := "data_agent", action := "feishu.bitable.read", resource := h.bitable.value,
                              query := "", fetchTopK := None)] else [])
        + (if team then [Work(agent := "data_agent", action := "feishu.contact.read",
                              resource := "department:" + h.department.value, query := "", fetchTopK := None)] else [])
        + if search then [Work(agent := "web_agent", action := "web.search", resource := "*",
                            query := h.prompt, fetchTopK := Some(2))] else []
  {
  }

  method DataSourceTasks(selections: seq<Selection>) returns (tasks: seq<Task>)
    ensures NumberedSources(tasks) && WorkOf(tasks) == SelectedWork(selections)
  {
    tasks := [];
    for s := 0 to |selections|
      invariant NumberedSources(tasks) && WorkOf(tasks) == SelectedWork(selections[..s])
    {
      assert selections[..s + 1][..s] == selections[..s];
      var task := SourceTask(selections[s], |tasks| + 1);
      if task.Some? {
        AppendSource(tasks, task.value);
        tasks := tasks + [task.value];
      }
    }
    assert selections[..|selections|] == selections;
  }

  method TeamAndSearch(data: seq<Task>, h: Hints) returns (tasks: seq<Task>)
    requires NumberedSources(data)
    ensures NumberedSources(tasks) && tasks != []
    ensures WorkOf(tasks) == WorkOf(data) + ContextWork(data != [], h)
  {
    tasks := data;
    if h.mentionsTeam && h.department.Some? {
      var t := DataTask(|tasks| + 1, "feishu.contact.read", "department:" + h.department.value);
      AppendSource(tasks, t);
      tasks := tasks + [t];
    }
    if h.mentionsResearch || tasks == [] {
      var t := SearchTask(|tasks| + 1, h.prompt);
      AppendSource(tasks, t);
      tasks := tasks + [t];
    }
  }

  method RuleSources(selections: seq<Selection>, h: Hints) returns (tasks: seq<Task>)
    ensures NumberedSources(tasks) && tasks != []
    ensures WorkOf(tasks) == GatheredWork(selections, h)
  {
    var data := DataSourceTasks(selections);
    assert |WorkOf(data)| == |data|;
    if data == [] && h.mentionsData && h.bitable.Some? {
      data := [DataTask(1, "feishu.bitable.read", h.bitable.value)];
    }
    tasks := TeamAndSearch(data, h);
  }

  method RulePlan(selections: seq<Selection>, h: Hints) returns (plan: seq<Task>)
    ensures RulePlanShape(plan)
    ensures WorkOf(plan[..|plan| - 1]) == GatheredWork(selections, h)
  {
    var tasks := RuleSources(selections, h);
    var write := Task(NumberedId(|tasks| + 1), "doc_assistant", "feishu.doc.write", "doc_token:auto", "", None,
                      IdList(tasks), false);
    plan := tasks + [write];
    assert plan[..|plan| - 1] == tasks;
  }

  lemma RulePlanIds(plan: seq<Task>, n: nat)
    requires RulePlanShape(plan) && n < |plan|
    ensures plan[n].id == NumberedId(n + 1) && plan[n].id !in Ids(plan[..n])
  {
    var last := |plan| - 1;
    assert n < last ==> plan[n] == plan[..last][n];
    if plan[n].id in Ids(plan[..n]) {
      var m := IndexOf(plan[..n], plan[n].id);
      assert plan[..n][m] == plan[..last][m];
      NumberedIdNumber(m + 1);
      NumberedIdNumber(n + 1);
    }
  }

  lemma RulePlanDeps(plan: seq<Task>, n: nat)
    requires RulePlanShape(plan) && n < |plan|
    ensures forall d :: d in plan[n].deps ==> d in Ids(plan[..n])
  {
    var last := |plan| - 1;
    if n < last {
      assert plan[n] == plan[..last][n];
    } else {
      IdListIds(plan[..last]);
    }
  }

  lemma RuleTaskError(plan: seq<Task>, n: nat)
    requires RulePlanShape(plan) && n < |plan|
    ensures TaskError(plan[n], Ids(plan[..n])).None? <==> ResourceOk(plan[n].resource)
  {
    var last := |plan| - 1;
    assert n < last ==> plan[n] == plan[..last][n];
    RulePlanIds(plan, n);
    RulePlanDeps(plan, n);
    UndeclaredMeans(plan[n].deps, Ids(plan[..n]) + {plan[n].id});
  }

  /** The resources of a rule plan are those of the gathered work, and the write's own. */
  lemma RulePlanResources(plan: seq<Task>, work: seq<Work>)
    requires RulePlanShape(plan) && WorkOf(plan[..|plan| - 1]) == work
    ensures (forall n :: 0 <= n < |plan| ==> ResourceOk(plan[n].resource)) <==>
      (forall n :: 0 <= n < |work| ==> ResourceOk(work[n].resource))
  {
    var last := |plan| - 1;
    forall n | 0 <= n < last
      ensures work[n].resource == plan[n].resource
    {
      assert plan[..last][n] == plan[n];
    }
  }

  /**
   A rule plan passes validation iff the resources it gathers, as selected and
   configured, do; it is then always schedulable.
   */
  lemma RulePlanValidIff(selections: seq<Selection>, h: Hints, plan: seq<Task>)
    requires RulePlanShape(plan) && WorkOf(plan[..|plan| - 1]) == GatheredWork(selections, h)
    ensures ValidPlan(plan) <==>
      var work := GatheredWork(selections, h); forall n :: 0 <= n < |work| ==> ResourceOk(work[n].resource)
    ensures ValidPlan(plan) ==> Schedulable(GraphOf(plan))
  {
    forall n | 0 <= n < |plan|
      ensures TaskError(plan[n], Ids(plan[..n])).None? <==> ResourceOk(plan[n].resource)
      ensures !SelfDependent(plan[n])
    {
      RuleTaskError(plan, n);
      RulePlanIds(plan, n);
      RulePlanDeps(plan, n);
    }
    RulePlanResources(plan, GatheredWork(selections, h));
    if ValidPlan(plan) {
      ValidPlanSchedulableIff(plan);
    }
  }
}
