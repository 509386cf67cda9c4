/**
 Delegated scopes: the identity provider grants "action:resource" strings that
 both policies match, the token carries them space-separated, and the agent reads
 each one back as a pattern.
 */
module Scope {
  import opened Glob

  /** One policy or capability entry. */
  datatype Cap = Cap(action: string, pattern: string)

  datatype Request = Request(action: string, resource: string)

  predicate CapMatch(cap: Cap, action: string, resource: string) {
    cap.action == action && FnMatch(resource, cap.pattern)
  }

  predicate AnyCap(caps: seq<Cap>, action: string, resource: string) {
    exists n :: 0 <= n < |caps| && CapMatch(caps[n], action, resource)
  }

  function ScopeString(r: Request): string {
    r.action + ":" + r.resource
  }

  function Granted(callee: seq<Cap>, user: seq<Cap>, requested: seq<Request>): seq<Request> {
    if requested == [] then []
    else
      Granted(callee, user, requested[..|requested| - 1]) + IfGranted(callee, user, requested[|requested| - 1])
  }

  function IfGranted(callee: seq<Cap>, user: seq<Cap>, r: Request): seq<Request> {
    if AnyCap(callee, r.action, r.resource) && AnyCap(user, r.action, r.resource) then [r] else []
  }

  function ScopeStrings(rs: seq<Request>): seq<string> {
    seq(|rs|, n requires 0 <= n < |rs| => ScopeString(rs[n]))
  }

  /** any(cap_match(c, action, resource) for c in caps) */
  method AnyMatch(caps: seq<Cap>, action: string, resource: string) returns (found: bool)
    ensures found <==> AnyCap(caps, action, resource)
  {
    for n := 0 to |caps|
      invariant forall j :: 0 <= j < n ==> !CapMatch(caps[j], action, resource)
    {
      if CapMatch(caps[n], action, resource) {
        return true;
      }
    }
    found := false;
  }

  method Intersect(callee: seq<Cap>, user: seq<Cap>, requested: seq<Request>) returns (result: seq<string>)
    ensures result == ScopeStrings(Granted(callee, user, requested))
  {
    result := [];
    for n := 0 to |requested|
      invariant result == ScopeStrings(Granted(callee, user, requested[..n]))
    {
      assert requested[..n + 1][..n] == requested[..n];
      var calleeOk := AnyMatch(callee, requested[n].action, requested[n].resource);
      var userOk := AnyMatch(user, requested[n].action, requested[n].resource);
      if calleeOk && userOk {
        result := result + [ScopeString(requested[n])];
      }
    }
    assert requested[..|requested|] == requested;
  }

  /** A request is granted iff it was asked for and both policies match it literally. */
  lemma {:induction false} GrantedIff(callee: seq<Cap>, user: seq<Cap>, requested: seq<Request>, r: Request)
    ensures r in Granted(callee, user, requested) <==>
      r in requested && AnyCap(callee, r.action, r.resource) && AnyCap(user, r.action, r.resource)
  {
    if requested != [] {
      var last := |requested| - 1;
      GrantedIff(callee, user, requested[..last], r);
      assert requested == requested[..last] + [requested[last]];
    }
  }

  /** One more request at the end adds its grant at the end, or nothing. */
  lemma GrantedInOrder(callee: seq<Cap>, user: seq<Cap>, requested: seq<Request>, r: Request)
    ensures Granted(callee, user, requested + [r]) == Granted(callee, user, requested) +
      if AnyCap(callee, r.action, r.resource) && AnyCap(user, r.action, r.resource) then [r] else []
  {
    assert (requested + [r])[..|requested|] == requested;
  }

  // ----- The scope claim on the wire -----

  predicate IsSpace(c: char) {
    c in " \t\n\r" || c in ['\U{b}', '\U{c}', '\U{1c}', '\U{1d}', '\U{1e}', '\U{1f}', '\U{85}', '\U{a0}', '\U{1680}',
      '\U{2028}', '\U{2029}', '\U{202f}', '\U{205f}', '\U{3000}'] || '\U{2000}' <= c <= '\U{200a}'
  }

  predicate SpaceFree(s: string) {
    forall n :: 0 <= n < |s| ==> !IsSpace(s[n])
  }

  /** " ".join */
  function Join(scopes: seq<string>): string {
    if scopes == [] then ""
    else if |scopes| == 1 then scopes[0]
    else scopes[0] + " " + Join(scopes[1..])
  }

  /** str.split(): `word` is the word being read. */
  function SplitWords(s: string, word: string): seq<string>
    decreases |s|
  {
    if s == "" then if word == "" then [] else [word]
    else if IsSpace(s[0]) then (if word == "" then [] else [word]) + SplitWords(s[1..], "")
    else SplitWords(s[1..], word + [s[0]])
  }

  function Split(s: string): seq<string> {
    SplitWords(s, "")
  }

  lemma {:induction false} SplitWord(w: string, rest: string, word: string)
    requires SpaceFree(w)
    ensures SplitWords(w + rest, word) == SplitWords(rest, word + w)
    decreases |w|
  {
    if w == "" {
      assert w + rest == rest && word + w == word;
    } else {
      assert (w + rest)[0] == w[0] && (w + rest)[1..] == w[1..] + rest;
      SplitWord(w[1..], rest, word + [w[0]]);
      assert word + [w[0]] + w[1..] == word + w;
    }
  }

  lemma {:induction false} JoinSplit(scopes: seq<string>)
    requires forall n :: 0 <= n < |scopes| ==> scopes[n] != "" && SpaceFree(scopes[n])
    ensures Split(Join(scopes)) == scopes
  {
    if scopes != [] {
      var w := scopes[0];
      if |scopes| == 1 {
        SplitWord(w, "", "");
        assert w + "" == w && "" + w == w;
      } else {
        JoinSplit(scopes[1..]);
        var rest := " " + Join(scopes[1..]);
        SplitWord(w, rest, "");
        assert Join(scopes) == w + rest;
        assert rest[1..] == Join(scopes[1..]);
        assert "" + w == w;
      }
    }
  }

  /** A claim is split at spaces, line ends, tabs and the wider blanks. */
  lemma SplitsAt(c: char, a: string, b: string)
    requires c in " \t\n\r" || c == '\U{b}' || c == '\U{c}' || c == '\U{85}' || c == '\U{a0}' || c == '\U{2003}' || c == '\U{3000}'
    requires a != "" && SpaceFree(a) && b != "" && SpaceFree(b)
    ensures Split(a + [c] + b) == [a, b]
  {
    var rest := [c] + b;
    assert a + [c] + b == a + rest && rest[1..] == b && "" + a == a && "" + b == b && b + "" == b;
    SplitWord(a, rest, "");
    SplitWord(b, "", "");
  }

  /** Words read back from a claim never contain white space. */
  lemma {:induction false} SplitSpaceFree(s: string, word: string, w: string)
    requires SpaceFree(word) && w in SplitWords(s, word)
    ensures SpaceFree(w)
    decreases |s|
  {
    if s != "" {
      if IsSpace(s[0]) {
        if w in SplitWords(s[1..], "") {
          SplitSpaceFree(s[1..], "", w);
        }
      } else {
        SplitSpaceFree(s[1..], word + [s[0]], w);
      }
    }
  }

  /** A single granted scope survives the token unchanged exactly when it has no white space. */
  lemma SingleScopeSurvivesIff(scope: string)
    requires scope != ""
    ensures Split(Join([scope])) == [scope] <==> SpaceFree(scope)
  {
    if SpaceFree(scope) {
      JoinSplit([scope]);
    }
    if Split(scope) == [scope] {
      assert scope in Split(scope);
      SplitSpaceFree(scope, "", scope);
    }
  }

  // ----- The agent's check -----

  ghost predicate Accepted(scopes: seq<string>, cap: seq<Cap>, action: string, resource: string) {
    && action != "" && resource != ""
    && AnyCap(cap, action, resource)
    && Covered(scopes, action, resource)
  }

  ghost predicate Covered(scopes: seq<string>, action: string, resource: string) {
    exists n :: 0 <= n < |scopes| && FnMatch(ScopeString(Request(action, resource)), scopes[n])
  }

  method ExtractDenyReasons(scopes: seq<string>, action: string, resource: string, cap: seq<Cap>)
    returns (reasons: seq<string>)
    ensures reasons == [] <==> Accepted(scopes, cap, action, resource)
    ensures "intent_missing" in reasons <==> action == "" || resource == ""
    ensures "capability_missing" in reasons <==> action != "" && resource != "" && !AnyCap(cap, action, resource)
    ensures "scope_exceeded" in reasons <==> action != "" && resource != "" && !Covered(scopes, action, resource)
  {
    reasons := [];
    if action == "" || resource == "" {
      return ["intent_missing"];
    }
    var found := AnyMatch(cap, action, resource);
    if !found {
      reasons := reasons + ["capability_missing"];
    }
    var needed := ScopeString(Request(action, resource));
    var covered := false;
    for n := 0 to |scopes|
      invariant !covered && forall j :: 0 <= j < n ==> !FnMatch(needed, scopes[j])
    {
      if FnMatch(needed, scopes[n]) {
        covered := true;
        break;
      }
    }
    if !covered {
      reasons := reasons + ["scope_exceeded"];
    }
  }

  // ----- Attenuation -----

  /** Actions as policies name them: no separator, no pattern character, no white space. */
  predicate PlainAction(a: string) {
    SpaceFree(a) && forall n :: 0 <= n < |a| ==> a[n] !in ":*?["
  }

  predicate Literal(a: string) {
    forall n :: 0 <= n < |a| ==> a[n] !in "*?["
  }

  lemma {:induction false} LiteralMatches(a: string, s: string)
    requires Literal(a)
    ensures FnMatch(s, a) <==> s == a
  {
    if a != "" {
      assert a[0] !in "*?[";
      assert Tokens(a)[1..] == Tokens(a[1..]);
      if s != "" {
        LiteralMatches(a[1..], s[1..]);
        assert s == [s[0]] + s[1..] && a == [a[0]] + a[1..];
      }
    }
  }

  function ColonAt(s: string): (n: nat)
    ensures n <= |s|
  {
    if s == "" || s[0] == ':' then 0 else 1 + ColonAt(s[1..])
  }

  lemma {:induction false} FirstColon(a: string, r: string)
    requires ':' !in a
    ensures ColonAt(a + ":" + r) == |a|
  {
    var s := a + ":" + r;
    if a != "" {
      assert s[0] == a[0] && s[1..] == a[1..] + ":" + r;
      FirstColon(a[1..], r);
    }
  }

  /** Strings equal across their first colon agree on both sides. */
  lemma SplitAtColon(a: string, r: string, b: string, x: string)
    requires ':' !in a && ':' !in b && a + ":" + r == b + ":" + x
    ensures a == b && r == x
  {
    FirstColon(a, r);
    FirstColon(b, x);
    var s := a + ":" + r;
    assert s[..|a|] == a && s[..|b|] == b && s[|a| + 1..] == r && s[|b| + 1..] == x;
  }

  /** A literal head of a pattern matches exactly itself. */
  lemma MatchAfterHead(head: string, rest: string, s: string)
    requires Literal(head) && FnMatch(s, head + rest)
    ensures |head| <= |s| && s == head + s[|head|..] && FnMatch(s[|head|..], rest)
  {
    PatternConcat(head, rest, s);
    var k :| 0 <= k <= |s| && FnMatch(s[..k], head) && FnMatch(s[k..], rest);
    LiteralMatches(head, s[..k]);
    assert s == s[..k] + s[k..];
  }

  /** Scope "a:R" covers "b:x" only if b is a and x matches R. */
  lemma ScopeCovers(granted: Request, b: string, x: string)
    requires PlainAction(granted.action) && ':' !in b
    requires FnMatch(ScopeString(Request(b, x)), ScopeString(granted))
    ensures b == granted.action && FnMatch(x, granted.resource)
  {
    var head := granted.action + ":";
    var s := ScopeString(Request(b, x));
    assert ScopeString(granted) == head + granted.resource;
    MatchAfterHead(head, granted.resource, s);
    SplitAtColon(granted.action, s[|head|..], b, x);
  }

  lemma PolicyCovers(caps: seq<Cap>, granted: Request, x: string)
    requires forall n :: 0 <= n < |caps| ==> Tight(caps[n].pattern)
    requires AnyCap(caps, granted.action, granted.resource)
    requires ClassFree(granted.resource) && FnMatch(x, granted.resource)
    ensures AnyCap(caps, granted.action, x)
  {
    var n :| 0 <= n < |caps| && CapMatch(caps[n], granted.action, granted.resource);
    GlobTransitive(caps[n].pattern, granted.resource, x);
    assert CapMatch(caps[n], granted.action, x);
  }

  ghost predicate WellFormedRequest(r: Request) {
    PlainAction(r.action) && SpaceFree(r.resource) && ClassFree(r.resource)
  }

  lemma ScopesSurvive(granted: seq<Request>)
    requires forall n :: 0 <= n < |granted| ==> WellFormedRequest(granted[n])
    ensures Split(Join(ScopeStrings(granted))) == ScopeStrings(granted)
  {
    JoinSplit(ScopeStrings(granted));
  }

  /**
   Whatever the agent accepts under a token minted from an exchange is something
   the user's policy and the callee's policy match directly.
   */
  lemma DelegationAttenuates(callee: seq<Cap>, user: seq<Cap>, requested: seq<Request>, cap: seq<Cap>, b: string, x: string)
    requires forall n :: 0 <= n < |callee| ==> Tight(callee[n].pattern)
    requires forall n :: 0 <= n < |user| ==> Tight(user[n].pattern)
    requires forall n :: 0 <= n < |cap| ==> ':' !in cap[n].action
    requires forall r :: r in requested ==> WellFormedRequest(r)
    requires Accepted(Split(Join(ScopeStrings(Granted(callee, user, requested)))), cap, b, x)
    ensures AnyCap(callee, b, x) && AnyCap(user, b, x) && AnyCap(cap, b, x)
  {
    var granted := Granted(callee, user, requested);
    forall n | 0 <= n < |granted|
      ensures granted[n] in requested && WellFormedRequest(granted[n])
    {
      GrantedIff(callee, user, requested, granted[n]);
    }
    ScopesSurvive(granted);
    var n :| 0 <= n < |granted| && FnMatch(ScopeString(Request(b, x)), ScopeStrings(granted)[n]);
    var r := granted[n];
    GrantedIff(callee, user, requested, r);
    ScopeCovers(r, b, x);
    PolicyCovers(callee, r, x);
    PolicyCovers(user, r, x);
  }
}
