/**
 What a pattern can match beyond the policy that granted it.  Brackets and white
 space are counted: a class spells two brackets and matches one character, and a
 policy can ask for any number of one bracket or space.
 */
module GlobMarks {
  import opened Glob
  import opened Scope

  predicate Mark(c: char) {
    c == '[' || c == ']' || IsSpace(c)
  }

  function Marks(s: string): multiset<char> {
    if s == "" then multiset{} else (if Mark(s[0]) then multiset{s[0]} else multiset{}) + Marks(s[1..])
  }

  lemma {:induction false} MarksConcat(a: string, b: string)
    ensures Marks(a + b) == Marks(a) + Marks(b)
  {
    if a == "" {
      assert a + b == b;
    } else {
      assert (a + b)[0] == a[0] && (a + b)[1..] == a[1..] + b;
      MarksConcat(a[1..], b);
    }
  }

  lemma {:induction false} OnlyMarks(s: string, c: char)
    requires Marks(s)[c] > 0
    ensures Mark(c)
  {
    if Marks(s[1..])[c] > 0 {
      OnlyMarks(s[1..], c);
    }
  }

  lemma SizeOfPart(a: multiset<char>, b: multiset<char>)
    ensures a <= b ==> |a| <= |b|
  {
    if a <= b {
      assert b == a + (b - a);
    }
  }

  /** Fewer marks in all means fewer of some mark. */
  lemma RarerMark(y: string, s: string) returns (c: char)
    requires |Marks(y)| < |Marks(s)|
    ensures Mark(c) && Marks(y)[c] < Marks(s)[c]
  {
    SizeOfPart(Marks(s), Marks(y));
    c :| Marks(s)[c] > Marks(y)[c];
    OnlyMarks(s, c);
  }

  // ----- Policies that count a mark -----

  /** Star-only: at least n times the character c. */
  function AtLeast(c: char, n: nat): string {
    if n == 0 then "*" else "*" + [c] + AtLeast(c, n - 1)
  }

  lemma {:induction false} AtLeastHasNoClosing(c: char, n: nat)
    requires c != ']'
    ensures ']' !in AtLeast(c, n)
  {
    if n > 0 {
      AtLeastHasNoClosing(c, n - 1);
    }
  }

  lemma AtLeastTokens(c: char, n: nat)
    requires Mark(c) && n > 0
    ensures Tokens(AtLeast(c, n)) == [Star, Lit(c)] + Tokens(AtLeast(c, n - 1))
  {
    var rest := AtLeast(c, n - 1);
    if c == '[' {
      AtLeastHasNoClosing(c, n - 1);
    }
    LiteralHead(c, rest);
    StarHead([c] + rest);
    assert AtLeast(c, n) == "*" + ([c] + rest);
  }

  lemma StarHead(rest: string)
    ensures Tokens("*" + rest) == [Star] + Tokens(rest)
  {
    assert ("*" + rest)[1..] == rest;
  }

  lemma {:induction false} AtLeastIsStarOnly(c: char, n: nat)
    requires Mark(c)
    ensures StarOnly(AtLeast(c, n))
  {
    if n == 0 {
      StarTokens();
    } else {
      AtLeastIsStarOnly(c, n - 1);
      AtLeastTokens(c, n);
    }
  }

  lemma LiteralHead(c: char, rest: string)
    requires Mark(c) && (c == '[' ==> ']' !in rest)
    ensures Tokens([c] + rest) == [Lit(c)] + Tokens(rest)
  {
    var pattern := [c] + rest;
    assert pattern[1..] == rest;
  }

  lemma FindLiteral(c: char, rest: seq<Token>, s: string)
    ensures Match([Star, Lit(c)] + rest, s) <==>
      s != "" && ((s[0] == c && Match(rest, s[1..])) || Match([Star, Lit(c)] + rest, s[1..]))
  {
    var tokens := [Star, Lit(c)] + rest;
    assert tokens[1..] == [Lit(c)] + rest && tokens[1..][1..] == rest;
  }

  lemma MarksFirst(c: char, s: string)
    requires Mark(c) && s != ""
    ensures Marks(s)[c] == Marks(s[1..])[c] + if s[0] == c then 1 else 0
  {
  }

  lemma {:induction false} AtLeastMatches(c: char, n: nat, s: string)
    requires Mark(c)
    ensures FnMatch(s, AtLeast(c, n)) <==> Marks(s)[c] >= n
    decreases n, |s|
  {
    if n == 0 {
      StarMatches(s);
    } else {
      AtLeastTokens(c, n);
      FindLiteral(c, Tokens(AtLeast(c, n - 1)), s);
      if s != "" {
        MarksFirst(c, s);
        AtLeastMatches(c, n - 1, s[1..]);
        AtLeastMatches(c, n, s[1..]);
      }
    }
  }

  /** A string with fewer marks escapes some policy, even a star-only one. */
  lemma FewerMarksEscape(granted: string, y: string) returns (policy: string)
    requires |Marks(y)| < |Marks(granted)|
    ensures Tight(policy) && FnMatch(granted, policy) && !FnMatch(y, policy)
  {
    var c := RarerMark(y, granted);
    var n := Marks(granted)[c];
    policy := AtLeast(c, n);
    AtLeastIsStarOnly(c, n);
    StarOnlyIsTight(policy);
    AtLeastMatches(c, n, granted);
    AtLeastMatches(c, n, y);
  }

  // ----- Matches with few marks -----

  /** The marks a pattern spells for a token, at least. */
  function WeightOf(t: Token): nat {
    match t
    case Lit(c) => if Mark(c) then 1 else 0
    case Class(_) => 2
    case _ => 0
  }

  function Weight(tokens: seq<Token>): nat {
    if tokens == [] then 0 else WeightOf(tokens[0]) + Weight(tokens[1..])
  }

  function Classes(tokens: seq<Token>): nat {
    if tokens == [] then 0 else (if tokens[0].Class? then 1 else 0) + Classes(tokens[1..])
  }

  lemma {:induction false} ClassesIff(tokens: seq<Token>)
    ensures Classes(tokens) == 0 <==> forall t :: t in tokens ==> !t.Class?
  {
    if tokens != [] {
      ClassesIff(tokens[1..]);
      assert forall t :: t in tokens <==> t == tokens[0] || t in tokens[1..];
    }
  }

  /** The text of the first token spells its weight. */
  lemma FirstWeight(pattern: string, t: Token, n: nat)
    requires 0 < n <= |pattern|
    requires t.Class? ==> n > 1 && pattern[0] == '[' && pattern[n - 1] == ']'
    requires !t.Class? ==> n == 1 && (t == CharToken(pattern[0]) || t == Lit(pattern[0]))
    ensures WeightOf(t) <= |Marks(pattern[..n])|
  {
    if t.Class? {
      ClassSpellsTwo(pattern[..n]);
    }
  }

  lemma {:induction false} WeightWithinMarks(pattern: string)
    ensures Weight(Tokens(pattern)) <= |Marks(pattern)|
    decreases |pattern|
  {
    if pattern != "" {
      var t, n := FirstOf(pattern);
      WeightWithinMarks(pattern[n..]);
      FirstWeight(pattern, t, n);
      MarksOfParts(pattern, n);
    }
  }

  lemma MarksOfParts(s: string, n: nat)
    requires n <= |s|
    ensures |Marks(s)| == |Marks(s[..n])| + |Marks(s[n..])|
  {
    assert s == s[..n] + s[n..];
    MarksConcat(s[..n], s[n..]);
  }

  lemma ClassSpellsTwo(text: string)
    requires |text| >= 2 && text[0] == '[' && text[|text| - 1] == ']'
    ensures |Marks(text)| >= 2
  {
    var last := |text| - 1;
    assert text[1..] == text[1..last] + "]";
    MarksConcat(text[1..last], "]");
  }

  /** Whatever matches at all, something with few marks matches: stars empty, one character for each other token. */
  lemma {:induction false} FewMarks(tokens: seq<Token>, x: string) returns (y: string)
    requires Match(tokens, x)
    ensures Match(tokens, y) && |Marks(y)| + Classes(tokens) <= Weight(tokens)
    decreases |tokens| + |x|
  {
    if tokens == [] {
      y := "";
    } else if tokens[0].Star? && Match(tokens[1..], x) {
      y := FewMarks(tokens[1..], x);
    } else if tokens[0].Star? {
      y := FewMarks(tokens, x[1..]);
    } else {
      var rest := FewMarks(tokens[1..], x[1..]);
      y := [if tokens[0].AnyOne? then 'a' else x[0]] + rest;
      assert y[1..] == rest;
    }
  }

  /** The same without coming up empty, when something non-empty matches. */
  lemma FewMarksNonEmpty(tokens: seq<Token>, x: string) returns (y: string)
    requires Match(tokens, x) && x != ""
    ensures y != "" && Match(tokens, y) && |Marks(y)| + Classes(tokens) <= Weight(tokens)
  {
    y := FewMarks(tokens, x);
    if y == "" {
      y := "a";
      AllStars(tokens, y);
      assert y[1..] == "";
    }
  }

  lemma {:induction false} AllStars(tokens: seq<Token>, s: string)
    requires tokens != [] && Match(tokens, "")
    ensures Match(tokens, s)
    decreases |tokens|, |s|
  {
    if s != "" {
      AllStars(tokens, s[1..]);
    }
  }

  ghost predicate AcceptsSome(t: Token) {
    t.Star? || exists c :: Accepts(t, c)
  }

  /** Every token, a class in particular, accepts some character. */
  ghost predicate Matchable(tokens: seq<Token>) {
    tokens == [] || (AcceptsSome(tokens[0]) && Matchable(tokens[1..]))
  }

  lemma {:induction false} MatchableMatches(tokens: seq<Token>) returns (s: string)
    requires Matchable(tokens)
    ensures Match(tokens, s)
  {
    if tokens == [] {
      s := "";
    } else {
      var rest := MatchableMatches(tokens[1..]);
      var c :| tokens[0].Star? || Accepts(tokens[0], c);
      assert tokens == [tokens[0]] + tokens[1..];
      s := [c] + rest;
    }
  }

  lemma {:induction false} MatchedIsMatchable(tokens: seq<Token>, s: string)
    requires Match(tokens, s)
    ensures Matchable(tokens)
    decreases |tokens| + |s|
  {
    if tokens != [] {
      if tokens[0].Star? && !Match(tokens[1..], s) {
        MatchedIsMatchable(tokens, s[1..]);
      } else {
        MatchedIsMatchable(tokens[1..], if tokens[0].Star? then s else s[1..]);
      }
    }
  }

  /**
   A granted string, read as a pattern, stays within every tight policy that
   matches it exactly when it has no character class, or has one that accepts no
   character, so that it matches nothing.
   */
  lemma GrantedContainedIff(granted: string)
    ensures ClassFree(granted) || !Matchable(Tokens(granted)) <==>
      (forall policy, x :: Tight(policy) && FnMatch(granted, policy) && FnMatch(x, granted) ==> FnMatch(x, policy))
  {
    if ClassFree(granted) || !Matchable(Tokens(granted)) {
      forall policy, x | Tight(policy) && FnMatch(granted, policy) && FnMatch(x, granted)
        ensures FnMatch(x, policy)
      {
        MatchedIsMatchable(Tokens(granted), x);
        GlobTransitive(policy, granted, x);
      }
    } else {
      var x := MatchableMatches(Tokens(granted));
      var y := FewMarks(Tokens(granted), x);
      ClassesIff(Tokens(granted));
      WeightWithinMarks(granted);
      var policy := FewerMarksEscape(granted, y);
    }
  }
}
