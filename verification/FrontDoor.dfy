/**
 Which scopes the exchange accepts, action by action, and that what the planner
 plans can be asked for.
 */
module FrontDoor {
  import opened Basics
  import opened Scope
  import opened Exchange
  import opened Tasks
  import Planner

  /** Text that can follow the colon as it stands: not empty, and no white space around it. */
  predicate Stripped(s: string) {
    s != "" && !IsSpace(s[0]) && !IsSpace(s[|s| - 1])
  }

  /** A plain action and a stripped resource are taken apart again, and then looked up. */
  lemma TakenApart(action: string, resource: string)
    requires PlainAction(action) && action != "" && Stripped(resource)
    ensures ParseScope(action + ":" + resource) == Checked(action, resource)
  {
    CutAtColon(Request(action, resource));
    assert ScopeString(Request(action, resource)) == action + ":" + resource;
  }

  lemma ParsedExactly(action: string, resource: string)
    requires action in ACTION_ENUM && Stripped(resource)
    ensures ParseScope(action + ":" + resource) == Checked(action, resource)
  {
    ActionsAreNames(action);
    PlainName(action);
    TakenApart(action, resource);
  }

  lemma {:induction false} StripOuter(u: string, s: string, v: string)
    requires Stripped(s) && Blank(u) && Blank(v)
    ensures Strip(u + s + v) == s
    decreases |u| + |v|
  {
    if u != "" {
      assert (u + s + v)[0] == u[0] && (u + s + v)[1..] == u[1..] + s + v;
      StripOuter(u[1..], s, v);
    } else {
      assert u + s + v == s + v && (s + v)[0] == s[0];
      StripTail(s, v);
    }
  }

  lemma {:induction false} StripTail(s: string, v: string)
    requires Stripped(s) && Blank(v)
    ensures StripEnd(s + v) == s
    decreases |v|
  {
    if v == "" {
      assert s + v == s;
    } else {
      var earlier, last := v[..|v| - 1], v[|v| - 1];
      assert v == earlier + [last];
      StripTail(s, earlier);
      Regrouped(s, earlier, [last]);
    }
  }

  lemma Regrouped(a: string, b: string, c: string)
    ensures a + (b + c) == a + b + c
  {
  }

  predicate Blank(s: string) {
    forall n :: 0 <= n < |s| ==> IsSpace(s[n])
  }

  lemma CutAnywhere(before: string, after: string)
    requires ':' !in before
    ensures ParseScope(before + ":" + after) == Checked(Strip(before), Strip(after))
  {
    FirstColon(before, after);
    var s := before + ":" + after;
    assert s[..|before|] == before && s[|before| + 1..] == after;
  }

  lemma NoColonAround(u: string, action: string, v: string)
    requires Blank(u) && Blank(v) && PlainAction(action)
    ensures ':' !in u + action + v
  {
    assert ":*?["[0] == ':' && !IsSpace(':');
  }

  /** White space around the action and around the resource does not matter. */
  lemma OuterSpaceIgnored(u: string, action: string, v: string, w: string, resource: string, z: string)
    requires PlainAction(action) && action != "" && Stripped(resource) && Blank(u) && Blank(v) && Blank(w) && Blank(z)
    ensures ParseScope((u + action + v) + ":" + (w + resource + z)) == ParseScope(action + ":" + resource)
  {
    TakenApart(action, resource);
    NoColonAround(u, action, v);
    CutAnywhere(u + action + v, w + resource + z);
    StripOuter(u, action, v);
    StripOuter(w, resource, z);
  }

  /** The accepted resources are the prefix and at least one more character, all on one line. */
  ghost predicate OneLineOf(prefix: string, s: string) {
    exists id :: id != "" && '\n' !in id && s == prefix + id
  }

  lemma OneLineIs(prefix: string, s: string)
    ensures OneLineAfter(prefix, s) <==> OneLineOf(prefix, s)
  {
    if OneLineAfter(prefix, s) {
      assert s == prefix + s[|prefix|..];
    }
    if id :| id != "" && '\n' !in id && s == prefix + id {
      assert s[|prefix|..] == id;
    }
  }

  lemma ContactScopes(resource: string)
    requires Stripped(resource)
    ensures ParseScope("feishu.contact.read" + ":" + resource) ==
      if OneLineOf("department:", resource) then Some(Request("feishu.contact.read", resource)) else None
  {
    ParsedExactly("feishu.contact.read", resource);
    OneLineIs("department:", resource);
  }

  lemma CalendarScopes(resource: string)
    requires Stripped(resource)
    ensures ParseScope("feishu.calendar.read" + ":" + resource) ==
      if OneLineOf("calendar:", resource) then Some(Request("feishu.calendar.read", resource)) else None
  {
    ParsedExactly("feishu.calendar.read", resource);
    OneLineIs("calendar:", resource);
  }

  lemma DocumentScopes(resource: string)
    requires Stripped(resource)
    ensures ParseScope("feishu.docx.read" + ":" + resource) ==
      if OneLineOf("document_id:", resource) then Some(Request("feishu.docx.read", resource)) else None
  {
    ParsedExactly("feishu.docx.read", resource);
    OneLineIs("document_id:", resource);
  }

  lemma WriteScopes(resource: string)
    requires Stripped(resource)
    ensures ParseScope("feishu.doc.write" + ":" + resource) ==
      if OneLineOf("doc_token:", resource) then Some(Request("feishu.doc.write", resource)) else None
  {
    ParsedExactly("feishu.doc.write", resource);
    OneLineIs("doc_token:", resource);
  }

  ghost predicate BaseOf(s: string) {
    exists app :: app != "" && '/' !in app && s == "app_token:" + app
  }

  lemma BaseScopes(resource: string)
    requires Stripped(resource)
    ensures ParseScope("feishu.bitable.read_all" + ":" + resource) ==
      if BaseOf(resource) then Some(Request("feishu.bitable.read_all", resource)) else None
  {
    var prefix := "app_token:";
    ParsedExactly("feishu.bitable.read_all", resource);
    if prefix <= resource {
      assert resource == prefix + resource[|prefix|..];
    }
    if app :| app != "" && '/' !in app && resource == prefix + app {
      assert resource[|prefix|..] == app;
    }
  }

  /** A table of a base; only the star, all tables, may go without a base. */
  ghost predicate TableOf(s: string) {
    exists app, table :: IsTable(s, app, table)
  }

  predicate IsTable(s: string, app: string, table: string) {
    table != "" && '/' !in app && '/' !in table && (app != "" || table == "*") && s == "app_token:" + app + "/table:" + table
  }

  lemma TableScopes(resource: string)
    requires Stripped(resource)
    ensures ParseScope("feishu.bitable.read" + ":" + resource) ==
      if TableOf(resource) then Some(Request("feishu.bitable.read", resource)) else None
  {
    ParsedExactly("feishu.bitable.read", resource);
    TableIs(resource);
  }

  lemma TableIs(s: string)
    ensures TableResource(s) <==> TableOf(s)
  {
    if k :| |"app_token:"| <= k < |s| && TableAt(s, k) {
      TableFound(s, k);
    }
    if app, table :| IsTable(s, app, table) {
      TableGiven(s, app, table, "app_token:", "/table:");
    }
  }

  lemma TableFound(s: string, k: nat)
    requires |"app_token:"| <= k < |s| && TableAt(s, k)
    ensures TableOf(s)
  {
    var prefix, mid := "app_token:", "/table:";
    var app, table := s[|prefix|..k], s[k + |mid|..];
    assert s[..k] == prefix + app && s[k..] == mid + table && s == s[..k] + s[k..];
    assert IsTable(s, app, table);
  }

  lemma TableGiven(s: string, app: string, table: string, prefix: string, mid: string)
    requires prefix == "app_token:" && mid == "/table:" && IsTable(s, app, table)
    ensures TableResource(s)
  {
    var k := |prefix| + |app|;
    assert s == prefix + app + (mid + table);
    assert s[..k] == prefix + app && s[|prefix|..k] == app;
    assert s[k..] == mid + table && s[k + |mid|..] == table;
    assert TableAt(s, k);
  }

  ghost predicate AddressOf(prefix: string, s: string) {
    exists rest :: rest != "" && rest[0] != '\n' && s == prefix + rest
  }

  lemma AddressIs(prefix: string, s: string)
    ensures StartsWith(prefix, s) <==> AddressOf(prefix, s)
  {
    if StartsWith(prefix, s) {
      assert s == prefix + s[|prefix|..];
    }
  }

  lemma SearchScopes(resource: string)
    requires Stripped(resource)
    ensures ParseScope("web.search" + ":" + resource) ==
      if resource == "*" || AddressOf("http://", resource) || AddressOf("https://", resource)
      then Some(Request("web.search", resource)) else None
  {
    ParsedExactly("web.search", resource);
    AddressIs("http://", resource);
    AddressIs("https://", resource);
  }

  lemma FetchScopes(resource: string)
    requires Stripped(resource)
    ensures ParseScope("web.fetch" + ":" + resource) ==
      if AddressOf("https://", resource) then Some(Request("web.fetch", resource)) else None
  {
    ParsedExactly("web.fetch", resource);
    AddressIs("https://", resource);
  }

  ghost predicate AgentOf(prefix: string, s: string) {
    exists name :: LowerName(name) && s == prefix + name
  }

  /** An agent is named by lower-case letters and underscores. */
  lemma AgentScopes(resource: string)
    requires Stripped(resource)
    ensures ParseScope("a2a.invoke" + ":" + resource) ==
      if AgentOf("agent:", resource) then Some(Request("a2a.invoke", resource)) else None
  {
    ParsedExactly("a2a.invoke", resource);
  }

  // ----- What the planner plans -----

  predicate Parses(t: Task) {
    ParseScope(t.action + ":" + t.resource) == Some(Request(t.action, t.resource))
  }

  /** Every rule plan ends in a task the exchange can be asked for. */
  lemma WriteTaskParses(plan: seq<Task>)
    requires Planner.RulePlanShape(plan)
    ensures Parses(plan[|plan| - 1])
  {
    AutoDocument(plan[|plan| - 1].resource);
    WriteScopes(plan[|plan| - 1].resource);
  }

  lemma AutoDocument(resource: string)
    requires resource == "doc_token:auto"
    ensures Stripped(resource) && OneLineOf("doc_token:", resource)
  {
    assert resource == "doc_token:" + "auto";
  }

  /** A selection of plain ids makes a task the exchange can be asked for. */
  lemma SourceTaskParses(sel: Planner.Selection, n: nat)
    requires '/' !in sel.appToken && '/' !in sel.tableId && '\n' !in sel.documentId
    requires sel.appToken != "" ==> Stripped(sel.appToken)
    requires sel.tableId != "" ==> Stripped(sel.tableId)
    requires sel.documentId != "" ==> Stripped(sel.documentId)
    ensures Planner.SourceTask(sel, n).Some? ==> Parses(Planner.SourceTask(sel, n).value)
  {
    Planner.SourceTaskMeaning(sel, n);
    if sel.appToken != "" && (sel.kind == "bitable" || sel.kind == "") {
      if sel.tableId != "" {
        var resource := "app_token:" + sel.appToken + "/table:" + sel.tableId;
        assert IsTable(resource, sel.appToken, sel.tableId);
        TableScopes(resource);
      } else {
        BaseScopes("app_token:" + sel.appToken);
      }
    } else if sel.kind == "docx" && sel.documentId != "" {
      DocumentScopes("document_id:" + sel.documentId);
    }
  }
}
