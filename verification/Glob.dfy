/**
 Shell-style patterns as the policies and scopes use them: `*`, `?`, `[...]`,
 everything else literal; an unclosed `[` is literal too.
 */
module Glob {
  datatype Token = Star | AnyOne | Lit(c: char) | Class(items: string)

  function Tokens(pattern: string): seq<Token>
    decreases |pattern|
  {
    if pattern == "" then []
    else if pattern[0] == '*' then [Star] + Tokens(pattern[1..])
    else if pattern[0] == '?' then [AnyOne] + Tokens(pattern[1..])
    else if pattern[0] == '[' && ClassEnd(pattern) < |pattern| then
      [Class(pattern[1..ClassEnd(pattern)])] + Tokens(pattern[ClassEnd(pattern) + 1..])
    else [Lit(pattern[0])] + Tokens(pattern[1..])
  }

  /** Where the class opened at position 0 closes: a `]` right after `[` or `[!` belongs to the class. */
  function ClassEnd(pattern: string): (end: nat)
    requires pattern != ""
    ensures 1 <= end <= |pattern| && (end < |pattern| ==> pattern[end] == ']')
  {
    var bang := if 1 < |pattern| && pattern[1] == '!' then 2 else 1;
    var first := if bang < |pattern| && pattern[bang] == ']' then bang + 1 else bang;
    FindBracket(pattern, first)
  }

  function FindBracket(pattern: string, from: nat): (at: nat)
    requires from <= |pattern|
    ensures from <= at <= |pattern| && (at < |pattern| ==> pattern[at] == ']')
    decreases |pattern| - from
  {
    if from == |pattern| || pattern[from] == ']' then from else FindBracket(pattern, from + 1)
  }

  predicate InClass(items: string, c: char) {
    if items != "" && items[0] == '!' then !InItems(items[1..], c) else InItems(items, c)
  }

  predicate InItems(items: string, c: char)
    decreases |items|
  {
    if items == "" then false
    else if |items| > 2 && items[1] == '-' then items[0] <= c <= items[2] || InItems(items[3..], c)
    else c == items[0] || InItems(items[1..], c)
  }

  predicate Accepts(t: Token, c: char) {
    match t
    case Star => false
    case AnyOne => true
    case Lit(l) => c == l
    case Class(items) => InClass(items, c)
  }

  predicate Match(tokens: seq<Token>, s: string)
    decreases |tokens| + |s|
  {
    || (tokens == [] && s == "")
    || (tokens != [] && tokens[0] == Star && (Match(tokens[1..], s) || (s != "" && Match(tokens, s[1..]))))
    || (tokens != [] && s != "" && Accepts(tokens[0], s[0]) && Match(tokens[1..], s[1..]))
  }

  /** fnmatch on a case-sensitive file system, and fnmatchcase. */
  predicate FnMatch(s: string, pattern: string) {
    Match(Tokens(pattern), s)
  }

  // ----- What classes match -----

  lemma {:induction false} PlainItems(items: string, c: char)
    requires '-' !in items
    ensures InItems(items, c) <==> c in items
    decreases |items|
  {
    if items != "" {
      assert items == [items[0]] + items[1..];
      PlainItems(items[1..], c);
    }
  }

  lemma {:induction false} ClosesAt(pattern: string, from: nat, end: nat)
    requires from <= end < |pattern| && pattern[end] == ']' && ']' !in pattern[from..end]
    ensures FindBracket(pattern, from) == end
    decreases end - from
  {
    if from < end {
      assert pattern[from..end][0] == pattern[from] && pattern[from..end][1..] == pattern[from + 1..end];
      ClosesAt(pattern, from + 1, end);
    }
  }

  lemma ClassToken(items: string)
    requires items != "" && ']' !in items && items != "!"
    ensures Tokens("[" + items + "]") == [Class(items)]
  {
    var pattern := "[" + items + "]";
    var end := |items| + 1;
    assert pattern[1..end] == items && pattern[end] == ']' && pattern[end + 1..] == "";
    ClosesAt(pattern, if items[0] == '!' then 2 else 1, end);
  }

  /** A class of plain characters matches one of them; with `!` in front, one character that is none of them. */
  lemma ClassMeaning(items: string, s: string)
    requires items != "" && ']' !in items && '-' !in items && '!' !in items
    ensures FnMatch(s, "[" + items + "]") <==> |s| == 1 && s[0] in items
    ensures FnMatch(s, "[!" + items + "]") <==> |s| == 1 && s[0] !in items
  {
    assert items[0] in items;
    ClassToken(items);
    assert ("!" + items)[1..] == items && "[!" + items + "]" == "[" + ("!" + items) + "]";
    ClassToken("!" + items);
    OneToken(Class(items), s);
    OneToken(Class("!" + items), s);
    if s != "" {
      PlainItems(items, s[0]);
    }
  }

  lemma OneToken(t: Token, s: string)
    requires !t.Star?
    ensures Match([t], s) <==> |s| == 1 && Accepts(t, s[0])
  {
    assert [t][1..] == [];
  }

  /** A range matches what lies between its ends; `?` matches any one character; a bracket that is never closed, itself. */
  lemma RangeMeaning(lo: char, hi: char, s: string)
    requires lo != ']' && lo != '!' && hi != ']'
    ensures FnMatch(s, "[" + [lo, '-', hi] + "]") <==> |s| == 1 && lo <= s[0] <= hi
    ensures FnMatch(s, "?") <==> |s| == 1
    ensures FnMatch(s, "[") <==> s == "["
  {
    var range: string := [lo, '-', hi];
    ClassToken(range);
    OneToken(Class(range), s);
    assert range[3..] == "";
    assert s != "" ==> !InItems(range[3..], s[0]);
    assert "?"[1..] == "" && "["[1..] == "";
    assert Tokens("?") == [AnyOne] && Tokens("[") == [Lit('[')];
    OneToken(AnyOne, s);
    OneToken(Lit('['), s);
  }

  /** A closing bracket that comes first belongs to its class. */
  lemma ClosingBracketFirst(s: string)
    ensures FnMatch(s, "[]]") <==> s == "]"
    ensures FnMatch(s, "[!]]") <==> |s| == 1 && s != "]"
  {
    assert "[]]"[1..2] == "]" && "[]]"[3..] == "" && "[!]]"[1..3] == "!]" && "[!]]"[4..] == "";
    assert Tokens("[]]") == [Class("]")] && Tokens("[!]]") == [Class("!]")];
    OneToken(Class("]"), s);
    OneToken(Class("!]"), s);
    if s != "" {
      assert "!]"[1..] == "]" && "]"[1..] == "";
      assert InItems("]", s[0]) <==> s[0] == ']';
    }
  }

  // ----- Concatenation -----

  lemma {:induction false} MatchConcat(a: seq<Token>, b: seq<Token>, s: string)
    ensures Match(a + b, s) <==> exists k :: 0 <= k <= |s| && Match(a, s[..k]) && Match(b, s[k..])
    decreases |a| + |s|
  {
    if a == [] {
      assert a + b == b && s[0..] == s;
      assert forall k :: 0 <= k <= |s| && Match(a, s[..k]) ==> k == 0;
    } else {
      assert (a + b)[1..] == a[1..] + b;
      if Match(a + b, s) {
        var k := SplitMatch(a, b, s);
      }
      if k :| 0 <= k <= |s| && Match(a, s[..k]) && Match(b, s[k..]) {
        JoinMatch(a, b, s, k);
      }
    }
  }

  lemma {:induction false} SplitMatch(a: seq<Token>, b: seq<Token>, s: string) returns (k: nat)
    requires Match(a + b, s)
    ensures k <= |s| && Match(a, s[..k]) && Match(b, s[k..])
    decreases |a| + |s|
  {
    if a == [] {
      assert a + b == b;
      k := 0;
    } else {
      assert (a + b)[1..] == a[1..] + b;
      if a[0] == Star && Match(a[1..] + b, s) {
        k := SplitMatch(a[1..], b, s);
      } else {
        var j := SplitMatch(if a[0] == Star then a else a[1..], b, s[1..]);
        k := j + 1;
        assert s[..k][1..] == s[1..][..j] && s[k..] == s[1..][j..];
      }
    }
  }

  lemma {:induction false} JoinMatch(a: seq<Token>, b: seq<Token>, s: string, k: nat)
    requires k <= |s| && Match(a, s[..k]) && Match(b, s[k..])
    ensures Match(a + b, s)
    decreases |a| + k
  {
    if a == [] {
      assert a + b == b && s[k..] == s;
    } else {
      assert (a + b)[1..] == a[1..] + b;
      if a[0] == Star && Match(a[1..], s[..k]) {
        JoinMatch(a[1..], b, s, k);
      } else {
        assert s[..k][1..] == s[1..][..k - 1] && s[k..] == s[1..][k - 1..];
        JoinMatch(if a[0] == Star then a else a[1..], b, s[1..], k - 1);
      }
    }
  }

  lemma {:induction false} BracketFreeConcat(a: string, b: string)
    requires '[' !in a
    ensures Tokens(a + b) == Tokens(a) + Tokens(b)
  {
    if a == "" {
      assert a + b == b;
    } else {
      BracketFreeConcat(a[1..], b);
      CharacterBefore(a[0], a[1..], b);
      assert a == [a[0]] + a[1..];
    }
  }

  lemma CharacterBefore(c: char, a: string, b: string)
    ensures [c] + (a + b) == [c] + a + b
  {
  }

  /** The token of a character outside classes. */
  function CharToken(c: char): Token {
    if c == '*' then Star else if c == '?' then AnyOne else Lit(c)
  }

  /** On pattern strings: no class may start in the first part, where it could swallow some of the second. */
  lemma PatternConcat(a: string, b: string, s: string)
    requires '[' !in a
    ensures FnMatch(s, a + b) <==> exists k :: 0 <= k <= |s| && FnMatch(s[..k], a) && FnMatch(s[k..], b)
  {
    BracketFreeConcat(a, b);
    MatchConcat(Tokens(a), Tokens(b), s);
    assert forall k :: 0 <= k <= |s| ==>
      (FnMatch(s[..k], a) && FnMatch(s[k..], b) <==> Match(Tokens(a), s[..k]) && Match(Tokens(b), s[k..]));
  }

  // ----- Transitivity: using a granted string as a pattern -----

  /** Patterns without `?` and without character classes. */
  ghost predicate StarOnly(pattern: string) {
    forall t :: t in Tokens(pattern) ==> t.Star? || t.Lit?
  }

  ghost predicate ClassFree(pattern: string) {
    forall t :: t in Tokens(pattern) ==> !t.Class?
  }

  /** Only a star matches the characters that are wild in a pattern. */
  ghost predicate Tight(pattern: string) {
    forall t :: t in Tokens(pattern) ==> !Loose(t)
  }

  predicate Loose(t: Token) {
    Accepts(t, '*') || Accepts(t, '?')
  }

  /** A pattern is its first token and the rest; a literal token is never a wild character. */
  lemma FirstOf(pattern: string) returns (t: Token, n: nat)
    requires pattern != ""
    ensures 0 < n <= |pattern| && Tokens(pattern) == [t] + Tokens(pattern[n..])
    ensures t.Class? ==> n > 1 && pattern[0] == '[' && pattern[n - 1] == ']'
    ensures !t.Class? ==> n == 1 && (t == CharToken(pattern[0]) || t == Lit(pattern[0]))
    ensures t.Lit? ==> !Loose(t)
  {
    t, n := Tokens(pattern)[0], 1;
    if pattern[0] == '[' && ClassEnd(pattern) < |pattern| {
      n := ClassEnd(pattern) + 1;
    }
  }

  lemma {:induction false} StarOnlyIsTight(pattern: string)
    ensures forall t :: t in Tokens(pattern) && t.Lit? ==> !Loose(t)
    ensures StarOnly(pattern) ==> Tight(pattern)
    decreases |pattern|
  {
    if pattern != "" {
      var first, n := FirstOf(pattern);
      StarOnlyIsTight(pattern[n..]);
    }
  }

  lemma TokensTail(pattern: string)
    requires pattern != "" && ClassFree(pattern)
    ensures Tokens(pattern) == [CharToken(pattern[0])] + Tokens(pattern[1..]) && ClassFree(pattern[1..])
  {
    assert Tokens(pattern)[0] in Tokens(pattern);
    assert forall t :: t in Tokens(pattern)[1..] ==> t in Tokens(pattern);
  }

  /**
   If the string `granted` matches a tight policy, and x matches `granted` read
   as a pattern, then x matches the policy.
   */
  lemma GlobTransitive(policy: string, granted: string, x: string)
    requires Tight(policy) && ClassFree(granted)
    requires FnMatch(granted, policy) && FnMatch(x, granted)
    ensures FnMatch(x, policy)
  {
    MatchTransitive(Tokens(policy), granted, x);
  }

  lemma {:induction false} MatchTransitive(tokens: seq<Token>, granted: string, x: string)
    requires (forall t :: t in tokens ==> !Loose(t)) && ClassFree(granted)
    requires Match(tokens, granted) && FnMatch(x, granted)
    ensures Match(tokens, x)
    decreases |tokens| + |granted| + |x|
  {
    if tokens != [] {
      if granted != "" {
        TokensTail(granted);
        assert Tokens(granted)[1..] == Tokens(granted[1..]);
      }
      if tokens[0].Star? {
        if Match(tokens[1..], granted) {
          MatchTransitive(tokens[1..], granted, x);
        } else if granted[0] == '*' && FnMatch(x, granted[1..]) {
          MatchTransitive(tokens, granted[1..], x);
        } else if granted[0] == '*' {
          MatchTransitive(tokens, granted, x[1..]);
        } else {
          MatchTransitive(tokens, granted[1..], x[1..]);
        }
      } else {
        assert !Loose(tokens[0]);
        MatchTransitive(tokens[1..], granted[1..], x[1..]);
      }
    }
  }

  // ----- Exactly which policies contain what they grant -----

  function MinLength(tokens: seq<Token>): nat {
    if tokens == [] then 0 else (if tokens[0].Star? then 0 else 1) + MinLength(tokens[1..])
  }

  lemma {:induction false} MinLengthConcat(a: seq<Token>, b: seq<Token>)
    ensures MinLength(a + b) == MinLength(a) + MinLength(b)
  {
    if a == [] {
      assert a + b == b;
    } else {
      assert (a + b)[1..] == a[1..] + b;
      MinLengthConcat(a[1..], b);
    }
  }

  lemma {:induction false} MatchMinLength(tokens: seq<Token>, s: string)
    requires Match(tokens, s)
    ensures |s| >= MinLength(tokens)
    decreases |tokens| + |s|
  {
    if tokens != [] {
      if tokens[0].Star? && !Match(tokens[1..], s) {
        MatchMinLength(tokens, s[1..]);
      } else {
        MatchMinLength(tokens[1..], if tokens[0].Star? then s else s[1..]);
      }
    }
  }

  /** Without brackets every character is its own token. */
  lemma {:induction false} TokensAreCharacters(pattern: string)
    requires '[' !in pattern
    ensures |Tokens(pattern)| == |pattern|
    ensures forall n :: 0 <= n < |pattern| ==> Tokens(pattern)[n] == CharToken(pattern[n])
  {
    if pattern != "" {
      TokensAreCharacters(pattern[1..]);
      assert pattern == [pattern[0]] + pattern[1..];
      forall n | 0 < n < |pattern|
        ensures Tokens(pattern)[n] == CharToken(pattern[n])
      {
        assert Tokens(pattern)[n] == Tokens(pattern[1..])[n - 1];
      }
    }
  }

  lemma BracketFreeTokens(pattern: string)
    requires '[' !in pattern
    ensures ClassFree(pattern)
    ensures StarOnly(pattern) <==> '?' !in pattern
  {
    TokensAreCharacters(pattern);
    if n :| 0 <= n < |pattern| && pattern[n] == '?' {
      assert Tokens(pattern)[n] in Tokens(pattern);
    }
  }

  /** No bracket-free request a policy literally matches can be used to reach beyond the policy. */
  ghost predicate Contains(policy: string) {
    forall granted, x :: '[' !in granted && FnMatch(granted, policy) && FnMatch(x, granted) ==> FnMatch(x, policy)
  }

  ghost predicate AcceptsUnbracketed(t: Token) {
    t.Star? || exists c :: c != '[' && Accepts(t, c)
  }

  /** Every token leaves a choice other than an opening bracket. */
  ghost predicate GrantsUnbracketed(tokens: seq<Token>) {
    forall t :: t in tokens ==> AcceptsUnbracketed(t)
  }

  lemma {:induction false} GrantedIsUnbracketed(tokens: seq<Token>, s: string)
    requires Match(tokens, s) && '[' !in s
    ensures GrantsUnbracketed(tokens)
    decreases |tokens| + |s|
  {
    if tokens != [] {
      if tokens[0].Star? && !Match(tokens[1..], s) {
        GrantedIsUnbracketed(tokens, s[1..]);
      } else {
        GrantedIsUnbracketed(tokens[1..], if tokens[0].Star? then s else s[1..]);
        assert tokens == [tokens[0]] + tokens[1..];
        assert tokens[0].Star? || (s[0] in s && Accepts(tokens[0], s[0]));
      }
    }
  }

  /** One character for each token but the stars. */
  lemma {:induction false} Spelled(tokens: seq<Token>) returns (s: string)
    requires GrantsUnbracketed(tokens)
    ensures Match(tokens, s) && '[' !in s && |s| == MinLength(tokens)
  {
    if tokens == [] {
      s := "";
    } else {
      assert AcceptsUnbracketed(tokens[0]);
      s := Spelled(tokens[1..]);
      if !tokens[0].Star? {
        var c :| c != '[' && Accepts(tokens[0], c);
        var rest := s;
        s := [c] + rest;
        assert s[1..] == rest;
      }
    }
  }

  lemma {:induction false} SelfMatch(s: string)
    requires '[' !in s
    ensures FnMatch(s, s)
  {
    if s != "" {
      SelfMatch(s[1..]);
      assert s == [s[0]] + s[1..];
    }
  }

  /** A wild character between two bracket-free strings, and what it then stands for. */
  lemma WildBetween(a: string, wild: char, b: string, y: string)
    requires '[' !in a && '[' !in b && (wild == '*' || wild == '?')
    requires Match([CharToken(wild)], y)
    ensures FnMatch(a + y + b, a + [wild] + b)
  {
    BracketFreeConcat(a + [wild], b);
    BracketFreeConcat(a, [wild]);
    assert [wild] + "" == [wild] && Tokens([wild]) == [CharToken(wild)];
    SelfMatch(a);
    SelfMatch(b);
    ConcatMatches(Tokens(a), Tokens([wild]), a, y);
    ConcatMatches(Tokens(a) + Tokens([wild]), Tokens(b), a + y, b);
  }

  lemma ConcatMatches(a: seq<Token>, b: seq<Token>, s: string, t: string)
    requires Match(a, s) && Match(b, t)
    ensures Match(a + b, s + t)
  {
    assert (s + t)[..|s|] == s && (s + t)[|s|..] == t;
    JoinMatch(a, b, s + t, |s|);
  }

  lemma SplitLengths(a: seq<Token>, b: seq<Token>, s: string) returns (k: nat)
    requires Match(a + b, s)
    ensures MinLength(a) <= k <= |s| - MinLength(b) && Match(b, s[k..])
  {
    k := SplitMatch(a, b, s);
    MatchMinLength(a, s[..k]);
    MatchMinLength(b, s[k..]);
  }

  /** A shortest text for a concatenation gives each part its own share. */
  lemma ShortestEnds(a: seq<Token>, b: seq<Token>, s: string, t: string)
    requires |s| == MinLength(a) && |t| == MinLength(b) && Match(a + b, s + t)
    ensures Match(b, t)
  {
    var k := SplitLengths(a, b, s + t);
    assert (s + t)[k..] == t;
  }

  /** A loose token lets a granted string reach beyond the policy. */
  lemma LooseEscapes(policy: string) returns (granted: string, x: string)
    requires GrantsUnbracketed(Tokens(policy)) && !Tight(policy)
    ensures '[' !in granted && FnMatch(granted, policy) && FnMatch(x, granted) && !FnMatch(x, policy)
  {
    var t :| t in Tokens(policy) && Loose(t);
    var n :| 0 <= n < |Tokens(policy)| && Tokens(policy)[n] == t;
    var pre, post := Tokens(policy)[..n], Tokens(policy)[n + 1..];
    assert Tokens(policy) == pre + [t] + post;
    var a := Spelled(pre);
    var b := Spelled(post);
    granted, x := LooseBetween(pre, t, post, a, b);
  }

  lemma LooseBetween(pre: seq<Token>, t: Token, post: seq<Token>, a: string, b: string) returns (granted: string, x: string)
    requires Loose(t) && Match(pre, a) && Match(post, b) && '[' !in a && '[' !in b
    requires |a| == MinLength(pre) && |b| == MinLength(post)
    ensures '[' !in granted && Match(pre + [t] + post, granted) && FnMatch(x, granted) && !Match(pre + [t] + post, x)
  {
    var wild := if Accepts(t, '*') then '*' else '?';
    var y := if Accepts(t, '*') then "" else "*";
    granted, x := a + [wild] + b, a + y + b;
    assert [t] + [] == [t] && [wild] + "" == [wild];
    ConcatMatches(pre, [t], a, [wild]);
    ConcatMatches(pre + [t], post, a + [wild], b);
    WildBetween(a, wild, b, y);
    TooShort(t, post, y, b);
    Rejected(pre, t, post, a, y, b);
  }

  lemma TooShort(t: Token, post: seq<Token>, y: string, b: string)
    requires !t.Star? && |b| == MinLength(post) && (y == "" || (y == "*" && !Accepts(t, '*')))
    ensures !Match([t] + post, y + b) && |y + b| <= MinLength([t] + post)
  {
    MinLengthConcat([t], post);
    if y == "" && Match([t] + post, y + b) {
      MatchMinLength([t] + post, y + b);
    }
  }

  lemma Rejected(pre: seq<Token>, t: Token, post: seq<Token>, a: string, y: string, b: string)
    requires |a| == MinLength(pre) && |y + b| <= MinLength([t] + post) && !Match([t] + post, y + b)
    ensures !Match(pre + [t] + post, a + y + b)
  {
    assert pre + [t] + post == pre + ([t] + post) && a + y + b == a + (y + b);
    MinLengthConcat(pre, [t] + post);
    if Match(pre + ([t] + post), a + (y + b)) {
      MatchMinLength(pre + ([t] + post), a + (y + b));
      ShortestEnds(pre, [t] + post, a, y + b);
    }
  }

  /**
   For every policy: it contains what it grants exactly when it is tight, or it
   grants no bracket-free request at all.
   */
  lemma PolicyContainsIff(policy: string)
    ensures Contains(policy) <==> Tight(policy) || !GrantsUnbracketed(Tokens(policy))
  {
    if Tight(policy) || !GrantsUnbracketed(Tokens(policy)) {
      forall granted, x | '[' !in granted && FnMatch(granted, policy) && FnMatch(x, granted)
        ensures FnMatch(x, policy)
      {
        BracketFreeTokens(granted);
        GrantedIsUnbracketed(Tokens(policy), granted);
        GlobTransitive(policy, granted, x);
      }
    } else {
      var granted, x := LooseEscapes(policy);
    }
  }

  /** Without classes, it is `?` that breaks containment. */
  lemma BracketFreeContainsIff(policy: string)
    requires '[' !in policy
    ensures Contains(policy) <==> '?' !in policy
  {
    PolicyContainsIff(policy);
    BracketFreeTokens(policy);
    StarOnlyIsTight(policy);
    BracketFreeGrants(policy);
  }

  lemma BracketFreeGrants(policy: string)
    requires '[' !in policy
    ensures GrantsUnbracketed(Tokens(policy)) && ('?' in policy ==> !Tight(policy))
  {
    TokensAreCharacters(policy);
    forall t | t in Tokens(policy)
      ensures AcceptsUnbracketed(t)
    {
      var n :| 0 <= n < |policy| && Tokens(policy)[n] == t;
      assert t.Star? || Accepts(t, policy[n]);
    }
    if n :| 0 <= n < |policy| && policy[n] == '?' {
      assert Tokens(policy)[n] in Tokens(policy) && Loose(AnyOne);
    }
  }

  lemma StarTokens()
    ensures Tokens("*") == [Star] && StarOnly("*")
  {
    assert "*"[1..] == "";
  }

  lemma {:induction false} StarMatches(s: string)
    ensures FnMatch(s, "*")
  {
    StarTokens();
    if s != "" {
      StarMatches(s[1..]);
    }
  }
}
