/**
 Which scope words cover anything: a word, read as a pattern, has to match some
 "action:resource" with both sides present.  A request text is read in four
 stages, and a pattern is followed through the same stages.
 */
module Coverage {
  import opened Basics
  import opened Glob
  import opened Scope

  /** Before the action, in it, just after the colon, in the resource. */
  datatype Stage = Start | InAction | AfterColon | InResource

  function Next(st: Stage, c: char): Option<Stage> {
    match st
    case Start => if c == ':' then None else Some(InAction)
    case InAction => if c == ':' then Some(AfterColon) else Some(InAction)
    case AfterColon => Some(InResource)
    case InResource => Some(InResource)
  }

  /** The rest of a request text, read from a stage. */
  predicate Rest(st: Stage, s: string)
    decreases |s|
  {
    if s == "" then st == InResource
    else match Next(st, s[0]) case None => false case Some(st') => Rest(st', s[1..])
  }

  /** Some text leads from one stage to the other. */
  predicate Leads(from: Stage, to: Stage) {
    match to
    case Start => from == Start
    case InAction => from == Start || from == InAction
    case AfterColon => from != InResource
    case InResource => true
  }

  /** Token by token: what is left of a pattern can match the rest of some request text. */
  ghost predicate CanEnd(tokens: seq<Token>, st: Stage) {
    if tokens == [] then st == InResource
    else if tokens[0].Star? then exists to :: Leads(st, to) && CanEnd(tokens[1..], to)
    else exists c :: Accepts(tokens[0], c) && Next(st, c).Some? && CanEnd(tokens[1..], Next(st, c).value)
  }

  lemma {:induction false} MatchEnds(tokens: seq<Token>, st: Stage, s: string)
    requires Match(tokens, s) && Rest(st, s)
    ensures CanEnd(tokens, st)
    decreases |tokens| + |s|
  {
    if tokens != [] {
      if tokens[0].Star? && Match(tokens[1..], s) {
        MatchEnds(tokens[1..], st, s);
        assert Leads(st, st);
      } else if tokens[0].Star? {
        MatchEnds(tokens, Next(st, s[0]).value, s[1..]);
        var to :| Leads(Next(st, s[0]).value, to) && CanEnd(tokens[1..], to);
      } else {
        MatchEnds(tokens[1..], Next(st, s[0]).value, s[1..]);
      }
    }
  }

  /** A text that leads from one stage to another. */
  function Lead(from: Stage, to: Stage): string
    requires Leads(from, to)
  {
    match to
    case Start => ""
    case InAction => if from == Start then "a" else ""
    case AfterColon => if from == Start then "a:" else if from == InAction then ":" else ""
    case InResource => if from == Start then "a:a" else if from == InAction then ":a" else if from == AfterColon then "a" else ""
  }

  lemma {:induction false} LeadRest(from: Stage, to: Stage, s: string)
    requires Leads(from, to) && Rest(to, s)
    ensures Rest(from, Lead(from, to) + s)
    decreases |Lead(from, to)|
  {
    var lead := Lead(from, to);
    if lead == "" {
      assert lead + s == s;
    } else {
      var mid := Next(from, lead[0]).value;
      LeadRest(mid, to, s);
      assert lead + s == [lead[0]] + (Lead(mid, to) + s);
    }
  }

  lemma {:induction false} EndMatches(tokens: seq<Token>, st: Stage) returns (s: string)
    requires CanEnd(tokens, st)
    ensures Match(tokens, s) && Rest(st, s)
    decreases |tokens|
  {
    if tokens == [] {
      s := "";
    } else if tokens[0].Star? {
      var to :| Leads(st, to) && CanEnd(tokens[1..], to);
      var rest := EndMatches(tokens[1..], to);
      LeadRest(st, to, rest);
      StarTokens();
      StarMatches(Lead(st, to));
      ConcatMatches([Star], tokens[1..], Lead(st, to), rest);
      assert tokens == [Star] + tokens[1..];
      s := Lead(st, to) + rest;
    } else {
      var c :| Accepts(tokens[0], c) && Next(st, c).Some? && CanEnd(tokens[1..], Next(st, c).value);
      var rest := EndMatches(tokens[1..], Next(st, c).value);
      assert tokens == [tokens[0]] + tokens[1..];
      s := [c] + rest;
    }
  }

  // ----- Stages and "action:resource" -----

  lemma {:induction false} ResourceRest(s: string)
    ensures Rest(InResource, s)
  {
    if s != "" {
      ResourceRest(s[1..]);
    }
  }

  lemma {:induction false} ActionRest(b: string, x: string)
    requires ':' !in b && x != ""
    ensures Rest(InAction, b + ":" + x)
  {
    var s := b + ":" + x;
    if b == "" {
      assert s[1..] == x;
      ResourceRest(x[1..]);
    } else {
      assert s[0] == b[0] && s[1..] == b[1..] + ":" + x;
      ActionRest(b[1..], x);
    }
  }

  lemma RequestRest(b: string, x: string)
    requires b != "" && ':' !in b && x != ""
    ensures Rest(Start, b + ":" + x)
  {
    var s := b + ":" + x;
    assert s[0] == b[0] && s[1..] == b[1..] + ":" + x;
    ActionRest(b[1..], x);
  }

  lemma {:induction false} RestIsAction(s: string) returns (b: string, x: string)
    requires Rest(InAction, s)
    ensures s == b + ":" + x && ':' !in b && x != ""
  {
    if s[0] == ':' {
      b, x := "", s[1..];
    } else {
      var b';
      b', x := RestIsAction(s[1..]);
      b := [s[0]] + b';
      assert s == [s[0]] + s[1..];
    }
  }

  lemma RestIsRequest(s: string) returns (b: string, x: string)
    requires Rest(Start, s)
    ensures s == b + ":" + x && b != "" && ':' !in b && x != ""
  {
    var b';
    b', x := RestIsAction(s[1..]);
    b := [s[0]] + b';
    assert s == [s[0]] + s[1..];
  }

  /** The scopes of a token cover something of the form "b:x" with both sides present. */
  ghost predicate Covers(scopes: seq<string>, b: string, x: string) {
    b != "" && x != "" && ':' !in b && Covered(scopes, b, x)
  }

  /** Some word can, by its tokens, match a request text. */
  ghost predicate Usable(scopes: seq<string>) {
    exists n :: 0 <= n < |scopes| && CanEnd(Tokens(scopes[n]), Start)
  }

  lemma UsableIff(scopes: seq<string>)
    ensures Usable(scopes) <==> exists b, x :: Covers(scopes, b, x)
  {
    if n :| 0 <= n < |scopes| && CanEnd(Tokens(scopes[n]), Start) {
      var s := EndMatches(Tokens(scopes[n]), Start);
      var b, x := RestIsRequest(s);
      assert FnMatch(ScopeString(Request(b, x)), scopes[n]);
      assert Covers(scopes, b, x);
    }
    if b, x :| Covers(scopes, b, x) {
      var n :| 0 <= n < |scopes| && FnMatch(ScopeString(Request(b, x)), scopes[n]);
      RequestRest(b, x);
      MatchEnds(Tokens(scopes[n]), Start, ScopeString(Request(b, x)));
    }
  }
}
