/**
 The scope of a token exchange, from the requested string to what the agent
 accepts under the token.  The policies of user and callee and the agent's own
 capability are arbitrary.
 */
module Exchange {
  import opened Basics
  import opened Glob
  import opened Scope
  import opened GlobMarks
  import opened Coverage

  const ACTION_ENUM: set<string> := {
    "feishu.bitable.read", "feishu.bitable.read_all", "feishu.contact.read", "feishu.calendar.read",
    "feishu.docx.read", "feishu.doc.write", "web.search", "web.fetch", "a2a.invoke"}

  // ----- Parsing the requested scope -----

  function StripStart(s: string): (t: string)
    ensures t == "" || !IsSpace(t[0])
  {
    if s != "" && IsSpace(s[0]) then StripStart(s[1..]) else s
  }

  function StripEnd(s: string): (t: string)
    ensures t <= s && (t == "" || !IsSpace(t[|t| - 1]))
  {
    if s != "" && IsSpace(s[|s| - 1]) then StripEnd(s[..|s| - 1]) else s
  }

  function Strip(s: string): string {
    StripEnd(StripStart(s))
  }

  /** A non-empty rest of one line after the prefix. */
  predicate OneLineAfter(prefix: string, s: string) {
    prefix <= s && s != prefix && '\n' !in s[|prefix|..]
  }

  /** At least one more character on the line after the prefix; what follows a line end is not looked at. */
  predicate StartsWith(prefix: string, s: string) {
    prefix <= s && s != prefix && s[|prefix|] != '\n'
  }

  /** app_token:A/table:T with T non-empty and A non-empty unless T is a star. */
  predicate TableResource(s: string) {
    exists k :: |"app_token:"| <= k < |s| && TableAt(s, k)
  }

  predicate TableAt(s: string, k: nat)
    requires k < |s|
  {
    var app, table := "app_token:", "/table:";
    && app <= s[..k] && '/' !in s[|app|..k]
    && table <= s[k..] && '/' !in s[k + |table|..]
    && k + |table| < |s| && (k > |app| || s[k + |table|..] == "*")
  }

  predicate LowerName(s: string) {
    s != "" && forall n :: 0 <= n < |s| ==> 'a' <= s[n] <= 'z' || s[n] == '_'
  }

  /** The resource pattern of each listed action, all of which have one; the resource is already stripped. */
  predicate ResourceFits(action: string, s: string) {
    || (action == "feishu.bitable.read" && TableResource(s))
    || (action == "feishu.bitable.read_all" && "app_token:" <= s && s != "app_token:" && '/' !in s[|"app_token:"|..])
    || (action == "feishu.contact.read" && OneLineAfter("department:", s))
    || (action == "feishu.calendar.read" && OneLineAfter("calendar:", s))
    || (action == "feishu.docx.read" && OneLineAfter("document_id:", s))
    || (action == "feishu.doc.write" && OneLineAfter("doc_token:", s))
    || (action == "web.search" && (s == "*" || StartsWith("http://", s) || StartsWith("https://", s)))
    || (action == "web.fetch" && StartsWith("https://", s))
    || (action == "a2a.invoke" && "agent:" <= s && LowerName(s[|"agent:"|..]))
  }

  function Checked(action: string, resource: string): Option<Request> {
    if action in ACTION_ENUM && ResourceFits(action, resource) then Some(Request(action, resource)) else None
  }

  /** None stands for the invalid-request error. */
  function ParseScope(scope: string): Option<Request> {
    var k := ColonAt(scope);
    if k == |scope| then None else Checked(Strip(scope[..k]), Strip(scope[k + 1..]))
  }

  predicate NameChar(c: char) {
    'a' <= c <= 'z' || c == '2' || c == '.' || c == '_'
  }

  predicate NameChars(s: string) {
    s != "" && forall n :: 0 <= n < |s| ==> NameChar(s[n])
  }

  lemma ActionsAreNames(a: string)
    requires a in ACTION_ENUM
    ensures NameChars(a)
  {
  }

  lemma NamesArePlain(a: string)
    requires NameChars(a)
    ensures PlainAction(a)
  {
  }

  lemma FittingIsNotEmpty(action: string, s: string)
    requires action in ACTION_ENUM && ResourceFits(action, s)
    ensures s != ""
  {
  }

  lemma {:induction false} NamesHaveNoMarks(a: string)
    requires forall n :: 0 <= n < |a| ==> NameChar(a[n])
    ensures Marks(a) == multiset{}
  {
    if a != "" {
      NamesHaveNoMarks(a[1..]);
    }
  }

  lemma PlainName(a: string)
    requires NameChars(a)
    ensures PlainAction(a) && Marks(a) == multiset{}
  {
    NamesArePlain(a);
    NamesHaveNoMarks(a);
  }

  /** What the parser lets through: a plain action, and a resource that is not empty and does not begin or end with a space. */
  lemma ParsedIsPlain(scope: string, r: Request)
    requires ParseScope(scope) == Some(r)
    ensures r.action in ACTION_ENUM && PlainAction(r.action) && r.action != "" && Marks(r.action) == multiset{}
    ensures r.resource != "" && !IsSpace(r.resource[0]) && !IsSpace(r.resource[|r.resource| - 1])
  {
    ActionsAreNames(r.action);
    PlainName(r.action);
    FittingIsNotEmpty(r.action, r.resource);
  }

  // ----- Words of the scope claim -----

  function Spaces(s: string): nat {
    if s == "" then 0 else (if IsSpace(s[0]) then 1 else 0) + Spaces(s[1..])
  }

  lemma {:induction false} SpacesIff(s: string)
    ensures Spaces(s) == 0 <==> SpaceFree(s)
    ensures Spaces(s) <= |Marks(s)|
  {
    if s != "" {
      SpacesIff(s[1..]);
      assert forall n :: 0 < n < |s| ==> s[n] == s[1..][n - 1];
    }
  }

  /** No word of a claim has the marks of the white space around it. */
  lemma {:induction false} WordMarks(s: string, word: string, w: string)
    requires w in SplitWords(s, word)
    ensures |Marks(w)| + Spaces(s) <= |Marks(word)| + |Marks(s)|
    decreases |s|
  {
    SpacesIff(s);
    if s != "" {
      if !IsSpace(s[0]) {
        WordMarks(s[1..], word + [s[0]], w);
        MarksConcat(word, [s[0]]);
        assert [s[0]][1..] == "";
      } else if w in SplitWords(s[1..], "") {
        WordMarks(s[1..], "", w);
      }
    }
  }

  /** The first word of a claim ends at the first white space. */
  lemma FirstWord(head: string, rest: string)
    requires SpaceFree(head) && head != "" && (rest != "" ==> IsSpace(rest[0]))
    ensures head in Split(head + rest) && (rest == "" ==> Split(head + rest) == [head])
  {
    SplitWord(head, rest, "");
    assert "" + head == head;
  }

  // ----- When a granted scope stays within the policies -----

  ghost predicate TightCaps(caps: seq<Cap>) {
    forall n :: 0 <= n < |caps| ==> Tight(caps[n].pattern)
  }

  ghost predicate ColonFree(caps: seq<Cap>) {
    forall n :: 0 <= n < |caps| ==> ':' !in caps[n].action
  }

  /** The scopes an agent reads from a token minted for one request. */
  function TokenScopes(callee: seq<Cap>, user: seq<Cap>, r: Request): seq<string> {
    Split(Join(ScopeStrings(Granted(callee, user, [r]))))
  }

  /** Whatever any agent accepts under such a token, both policies match directly. */
  ghost predicate Attenuates(r: Request) {
    forall callee, user, cap, b, x ::
      TightCaps(callee) && TightCaps(user) && ColonFree(cap) && Accepted(TokenScopes(callee, user, r), cap, b, x) ==>
        AnyCap(callee, b, x) && AnyCap(user, b, x)
  }

  lemma TokenScopesAre(callee: seq<Cap>, user: seq<Cap>, r: Request)
    ensures TokenScopes(callee, user, r) ==
      if AnyCap(callee, r.action, r.resource) && AnyCap(user, r.action, r.resource) then Split(ScopeString(r)) else []
  {
    assert [r][..0] == [];
    assert Granted(callee, user, []) == [];
    assert Granted(callee, user, [r]) == [] || Granted(callee, user, [r]) == [r];
    assert ScopeStrings([]) == [] && ScopeStrings([r]) == [ScopeString(r)];
  }

  /** A policy that grants the request but not what the token then covers. */
  lemma Escape(r: Request, policy: string, b: string, x: string)
    requires Tight(policy) && FnMatch(r.resource, policy) && Covers(Split(ScopeString(r)), b, x)
    requires b != r.action || !FnMatch(x, policy)
    ensures !Attenuates(r)
  {
    var caps, cap := [Cap(r.action, policy)], [Cap(b, "*")];
    StarMatches(x);
    assert CapMatch(caps[0], r.action, r.resource) && CapMatch(cap[0], b, x);
    TokenScopesAre(caps, caps, r);
    assert Accepted(TokenScopes(caps, caps, r), cap, b, x);
    assert !AnyCap(caps, b, x);
  }

  /** After matching a prefix, a pattern goes on as one of its ends. */
  lemma {:induction false} AfterPrefix(tokens: seq<Token>, p: string, s: string) returns (k: nat)
    requires Match(tokens, p + s)
    ensures k <= |tokens| && Match(tokens[k..], s)
    ensures forall t :: Match(tokens[k..], t) ==> Match(tokens, p + t)
    decreases |tokens| + |p|
  {
    if p == "" {
      k := 0;
      assert p + s == s && tokens[0..] == tokens && forall t: string :: p + t == t;
    } else {
      assert forall t: string :: (p + t)[0] == p[0] && (p + t)[1..] == p[1..] + t;
      if tokens[0].Star? && !Match(tokens[1..], p + s) {
        k := AfterPrefix(tokens, p[1..], s);
      } else if tokens[0].Star? {
        k := AfterPrefix(tokens[1..], p, s);
        k := k + 1;
      } else {
        k := AfterPrefix(tokens[1..], p[1..], s);
        k := k + 1;
      }
    }
  }

  lemma {:induction false} TailWeight(tokens: seq<Token>, k: nat)
    requires k <= |tokens|
    ensures Weight(tokens[k..]) <= Weight(tokens)
  {
    if k > 0 {
      TailWeight(tokens[1..], k - 1);
    }
  }

  /** With a space in the resource, a word that covers something also covers something with fewer marks. */
  lemma SpacedEscape(r: Request, x: string)
    requires Marks(r.action) == multiset{} && !SpaceFree(r.resource) && Covers(Split(ScopeString(r)), r.action, x)
    ensures !Attenuates(r)
  {
    var scopes := Split(ScopeString(r));
    var n :| 0 <= n < |scopes| && FnMatch(ScopeString(Request(r.action, x)), scopes[n]);
    var tokens := Tokens(scopes[n]);
    var k := AfterPrefix(tokens, r.action + ":", x);
    var y := FewMarksNonEmpty(tokens[k..], x);
    assert FnMatch(ScopeString(Request(r.action, y)), scopes[n]);
    TailWeight(tokens, k);
    WeightWithinMarks(scopes[n]);
    WordMarks(ScopeString(r), "", scopes[n]);
    ScopeMarks(r);
    var policy := FewerMarksEscape(r.resource, y);
    Escape(r, policy, r.action, y);
  }

  lemma ScopeMarks(r: Request)
    requires Marks(r.action) == multiset{} && !SpaceFree(r.resource)
    ensures |Marks(ScopeString(r))| == |Marks(r.resource)| && Spaces(ScopeString(r)) > 0
  {
    var head := r.action + ":";
    MarksConcat(r.action, ":");
    MarksConcat(head, r.resource);
    assert ":"[1..] == "";
    SpacesConcat(head, r.resource);
    SpacesIff(r.resource);
  }

  lemma {:induction false} SpacesConcat(a: string, b: string)
    ensures Spaces(a + b) == Spaces(a) + Spaces(b)
  {
    if a == "" {
      assert a + b == b;
    } else {
      assert (a + b)[0] == a[0] && (a + b)[1..] == a[1..] + b;
      SpacesConcat(a[1..], b);
    }
  }

  /** With a class in the resource, the one scope covers something with fewer marks. */
  lemma ClassEscape(r: Request, x: string)
    requires PlainAction(r.action) && r.action != "" && x != ""
    requires SpaceFree(r.resource) && !ClassFree(r.resource) && FnMatch(x, r.resource)
    ensures !Attenuates(r)
  {
    var tokens := Tokens(r.resource);
    var y := FewMarksNonEmpty(tokens, x);
    ClassesIff(tokens);
    WeightWithinMarks(r.resource);
    var policy := FewerMarksEscape(r.resource, y);
    WholeScope(r, y);
    Escape(r, policy, r.action, y);
  }

  lemma WholeScope(r: Request, x: string)
    requires PlainAction(r.action) && r.action != "" && SpaceFree(r.resource)
    ensures Split(ScopeString(r)) == [ScopeString(r)]
    ensures FnMatch(x, r.resource) ==> Covered(Split(ScopeString(r)), r.action, x)
  {
    var head, s := r.action + ":", ScopeString(Request(r.action, x));
    FirstWord(ScopeString(r), "");
    assert ScopeString(r) + "" == ScopeString(r);
    PatternConcat(head, r.resource, s);
    LiteralMatches(head, head);
    assert s[..|head|] == head && s[|head|..] == x;
    assert FnMatch(x, r.resource) ==> FnMatch(s, Split(ScopeString(r))[0]);
  }

  lemma SafeAttenuates(r: Request)
    requires WellFormedRequest(r)
    ensures Attenuates(r)
  {
    forall callee, user, cap, b, x |
      TightCaps(callee) && TightCaps(user) && ColonFree(cap) && Accepted(TokenScopes(callee, user, r), cap, b, x)
      ensures AnyCap(callee, b, x) && AnyCap(user, b, x)
    {
      DelegationAttenuates(callee, user, [r], cap, b, x);
    }
  }

  lemma AcceptedIsCovered(callee: seq<Cap>, user: seq<Cap>, cap: seq<Cap>, r: Request, b: string, x: string)
    requires ColonFree(cap) && Accepted(TokenScopes(callee, user, r), cap, b, x)
    ensures Covers(Split(ScopeString(r)), b, x)
  {
    TokenScopesAre(callee, user, r);
  }

  lemma LeakIsCovered(r: Request)
    ensures !Attenuates(r) ==> Usable(Split(ScopeString(r)))
  {
    if callee, user, cap, b, x :|
      ColonFree(cap) && Accepted(TokenScopes(callee, user, r), cap, b, x) && !(AnyCap(callee, b, x) && AnyCap(user, b, x))
    {
      AcceptedIsCovered(callee, user, cap, r, b, x);
      UsableIff(Split(ScopeString(r)));
    }
  }

  /**
   For every scope the exchange parses: whatever the tight policies, the token
   stays within them exactly when the resource has neither white space nor a
   class, or none of the token's words can match a request.
   */
  lemma AttenuatesIff(scope: string, r: Request)
    requires ParseScope(scope) == Some(r)
    ensures Attenuates(r) <==>
      (SpaceFree(r.resource) && ClassFree(r.resource)) || !Usable(Split(ScopeString(r)))
  {
    ParsedIsPlain(scope, r);
    if SpaceFree(r.resource) && ClassFree(r.resource) {
      SafeAttenuates(r);
    } else if Usable(Split(ScopeString(r))) {
      UsableIff(Split(ScopeString(r)));
      var b, x :| Covers(Split(ScopeString(r)), b, x);
      CoveredEscapes(r, b, x);
    } else {
      LeakIsCovered(r);
    }
  }

  lemma CoveredEscapes(r: Request, b: string, x: string)
    requires PlainAction(r.action) && r.action != "" && Marks(r.action) == multiset{}
    requires Covers(Split(ScopeString(r)), b, x) && !(SpaceFree(r.resource) && ClassFree(r.resource))
    ensures !Attenuates(r)
  {
    if b != r.action {
      StarTokens();
      StarOnlyIsTight("*");
      StarMatches(r.resource);
      Escape(r, "*", b, x);
    } else if SpaceFree(r.resource) {
      WholeScope(r, x);
      ScopeCovers(r, b, x);
      ClassEscape(r, x);
    } else {
      SpacedEscape(r, x);
    }
  }

  // ----- Without brackets, white space alone decides -----

  lemma {:induction false} SomethingMatches(pattern: string) returns (x: string)
    requires '[' !in pattern && pattern != ""
    ensures x != "" && FnMatch(x, pattern)
  {
    var rest := "";
    if |pattern| > 1 {
      rest := SomethingMatches(pattern[1..]);
    }
    BracketFreeTokens(pattern);
    TokensTail(pattern);
    x := [if pattern[0] == '?' || pattern[0] == '*' then 'a' else pattern[0]] + rest;
    assert x[1..] == rest;
    assert pattern[0] == '*' ==> Match(Tokens(pattern), rest);
  }

  lemma {:induction false} UpToSpace(s: string) returns (n: nat)
    ensures n <= |s| && SpaceFree(s[..n]) && (n < |s| ==> IsSpace(s[n]))
  {
    if s == "" || IsSpace(s[0]) {
      n := 0;
    } else {
      n := UpToSpace(s[1..]);
      n := n + 1;
      assert forall j :: 0 < j < n ==> s[j] == s[1..][j - 1];
    }
  }

  /** Without a bracket, the token covers something: a match of its first word. */
  lemma FirstWordCovers(r: Request) returns (x: string)
    requires PlainAction(r.action) && r.action != ""
    requires r.resource != "" && !IsSpace(r.resource[0]) && '[' !in r.resource
    ensures Covers(Split(ScopeString(r)), r.action, x)
  {
    var n := UpToSpace(r.resource);
    var first, rest := r.resource[..n], r.resource[n..];
    x := SomethingMatches(first);
    var head := Request(r.action, first);
    WholeScope(head, x);
    assert ScopeString(head) + rest == ScopeString(r);
    FirstWord(ScopeString(head), rest);
  }

  /** So white space is then what decides. */
  lemma BracketFreeAttenuatesIff(scope: string, r: Request)
    requires ParseScope(scope) == Some(r) && '[' !in r.resource
    ensures Attenuates(r) <==> SpaceFree(r.resource)
  {
    ParsedIsPlain(scope, r);
    BracketFreeTokens(r.resource);
    var x := FirstWordCovers(r);
    UsableIff(Split(ScopeString(r)));
    AttenuatesIff(scope, r);
  }

  // ----- A request of that kind -----

  lemma CutAtColon(r: Request)
    requires PlainAction(r.action) && r.action != ""
    requires r.resource != "" && !IsSpace(r.resource[0]) && !IsSpace(r.resource[|r.resource| - 1])
    ensures var s, k := ScopeString(r), |r.action|;
      k < |s| && ColonAt(s) == k && Strip(s[..k]) == r.action && Strip(s[k + 1..]) == r.resource
  {
    var s := ScopeString(r);
    FirstColon(r.action, r.resource);
    assert s[..|r.action|] == r.action && s[|r.action| + 1..] == r.resource;
  }

  /** A listed action and a fitting resource parse back from the scope they make up. */
  lemma ParsesBack(r: Request)
    requires r.action in ACTION_ENUM && ResourceFits(r.action, r.resource)
    requires r.resource != "" && !IsSpace(r.resource[0]) && !IsSpace(r.resource[|r.resource| - 1])
    ensures ParseScope(ScopeString(r)) == Some(r)
  {
    ActionsAreNames(r.action);
    PlainName(r.action);
    CutAtColon(r);
  }

  lemma TwoWords(first: string)
    requires SpaceFree(first) && first != ""
    ensures Split(first + " *") == [first, "*"]
  {
    var scopes := [first, "*"];
    JoinSplit(scopes);
    assert scopes[1..] == ["*"] && " " + "*" == " *";
    assert Join(scopes) == first + (" " + "*");
  }

  /** A user who may do a but not b, and an agent that may do both: the second word of the token covers b. */
  lemma SecondWordLeaks(a: string, b: string, first: string, pattern: string, x: string)
    requires PlainAction(a) && a != "" && b != "" && a != b && x != ""
    requires SpaceFree(first) && FnMatch(first + " *", pattern)
    ensures var user, callee := [Cap(a, pattern)], [Cap(a, pattern), Cap(b, "*")];
      var r := Request(a, first + " *");
      Accepted(TokenScopes(callee, user, r), callee, b, x) && !AnyCap(user, b, x)
  {
    var user, callee := [Cap(a, pattern)], [Cap(a, pattern), Cap(b, "*")];
    var r := Request(a, first + " *");
    assert CapMatch(user[0], a, r.resource) && CapMatch(callee[0], a, r.resource);
    StarMatches(x);
    assert CapMatch(callee[1], b, x);
    TokenScopesAre(callee, user, r);
    TwoWords(a + ":" + first);
    assert ScopeString(r) == a + ":" + first + " *";
    StarMatches(ScopeString(Request(b, x)));
    assert Split(ScopeString(r))[1] == "*";
  }

  lemma DepartmentMatches(s: string)
    ensures FnMatch("department:" + s, "department:*")
  {
    var head := "department:";
    assert head + "*" == "department:*";
    PatternConcat(head, "*", head + s);
    LiteralMatches(head, head);
    StarMatches(s);
    assert (head + s)[..|head|] == head && (head + s)[|head|..] == s;
  }

  lemma ContactMatches(first: string)
    requires first == "department:x"
    ensures FnMatch(first + " *", "department:*")
  {
    assert first + " *" == "department:" + "x *";
    DepartmentMatches("x *");
  }

  lemma ContactParses(first: string)
    requires first == "department:x"
    ensures ParseScope(ScopeString(Request("feishu.contact.read", first + " *"))) == Some(Request("feishu.contact.read", first + " *"))
  {
    ParsesBack(Request("feishu.contact.read", first + " *"));
  }

  lemma ContactNames()
    ensures PlainAction("feishu.contact.read") && "feishu.contact.read" != "feishu.calendar.read"
  {
    NamesArePlain("feishu.contact.read");
    assert "feishu.contact.read"[8] == 'o' && "feishu.calendar.read"[8] == 'a';
  }

  lemma StarAfter(head: string)
    requires Literal(head)
    ensures Tight(head + "*")
  {
    BracketFreeTokens(head + "*");
    StarOnlyIsTight(head + "*");
  }

  lemma DepartmentPolicy(policy: string)
    requires policy == "department:*"
    ensures Tight(policy)
  {
    var head := "department:";
    assert policy == head + "*";
    StarAfter(head);
  }

  lemma DepartmentText(first: string)
    requires first == "department:x"
    ensures SpaceFree(first)
  {
  }

  /** Under tight policies, some agent accepts work of kind b under the token for r that the user's policy does not match. */
  ghost predicate Leaks(r: Request, b: string) {
    exists callee, user, x ::
      && TightCaps(callee) && TightCaps(user)
      && Accepted(TokenScopes(callee, user, r), callee, b, x) && !AnyCap(user, b, x)
  }

  lemma SpacedRequestLeaks(a: string, first: string, pattern: string, b: string)
    requires PlainAction(a) && a != "" && b != "" && a != b
    requires SpaceFree(first) && Tight(pattern) && FnMatch(first + " *", pattern)
    ensures Leaks(Request(a, first + " *"), b)
  {
    SecondWordLeaks(a, b, first, pattern, "x");
    StarTokens();
    StarOnlyIsTight("*");
    assert TightCaps([Cap(a, pattern)]) && TightCaps([Cap(a, pattern), Cap(b, "*")]);
  }

  /**
   The exchange parses feishu.contact.read:department:x *, a policy for all
   departments grants it, and an agent then accepts reading calendars.
   */
  lemma ContactRequestLeaks(first: string, r: Request)
    requires first == "department:x" && r == Request("feishu.contact.read", first + " *")
    ensures ParseScope(ScopeString(r)) == Some(r) && Leaks(r, "feishu.calendar.read")
  {
    ContactParses(first);
    ContactMatches(first);
    ContactNames();
    DepartmentText(first);
    DepartmentPolicy("department:*");
    SpacedRequestLeaks("feishu.contact.read", first, "department:*", "feishu.calendar.read");
  }
}
