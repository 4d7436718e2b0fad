/** Splitting names and queries into lower-case tokens, and expanding a query with synonyms. */
module Tokens {
  import opened Text

  datatype Token = Token(text: string)

  predicate IsBreak(c: char) {
    IsSpace(c) || c == '.' || c == '_' || c == '-'
  }

  /** The tokens closed so far and the run still open. */
  function Runs(s: string): (seq<Token>, string) {
    if s == [] then ([], [])
    else
      var (closed, open) := Runs(s[..|s| - 1]);
      var c := s[|s| - 1];
      if IsBreak(c) then (Closed(closed, open), []) else (closed, open + [c])
  }

  function Closed(closed: seq<Token>, open: string): seq<Token> {
    if open == [] then closed else closed + [Token(open)]
  }

  function Fields(s: string): seq<Token> {
    Closed(Runs(s).0, Runs(s).1)
  }

  function Tokenize(s: string): seq<Token> {
    Fields(Fold(s))
  }

  lemma {:induction false} RunsOfWord(s: string)
    requires forall i | 0 <= i < |s| :: !IsBreak(s[i])
    ensures Runs(s) == ([], s)
  {
    if s != [] {
      RunsOfWord(s[..|s| - 1]);
      assert s == s[..|s| - 1] + [s[|s| - 1]];
    }
  }

  lemma ClosedAppends(before: seq<Token>, closed: seq<Token>, open: string)
    ensures Closed(before + closed, open) == before + Closed(closed, open)
  {}

  lemma {:induction false} RunsAfterBreak(a: string, c: char, b: string)
    requires IsBreak(c)
    ensures Runs(a + [c] + b) == (Fields(a) + Runs(b).0, Runs(b).1)
  {
    var s := a + [c] + b;
    if b == [] {
      assert s[..|s| - 1] == a;
      assert Fields(a) + [] == Fields(a);
    } else {
      var init := b[..|b| - 1];
      RunsAfterBreak(a, c, init);
      assert s[..|s| - 1] == a + [c] + init;
      ClosedAppends(Fields(a), Runs(init).0, Runs(init).1);
    }
  }

  /** A run without breaks is one token. */
  lemma WordIsOneToken(s: string)
    requires s != [] && forall i | 0 <= i < |s| :: !IsBreak(s[i])
    ensures Fields(s) == [Token(s)]
  {
    RunsOfWord(s);
  }

  /** A break separates: the tokens on either side are found independently.
      Together with WordIsOneToken this determines every splitting. */
  lemma BreakSplits(a: string, c: char, b: string)
    requires IsBreak(c)
    ensures Fields(a + [c] + b) == Fields(a) + Fields(b)
  {
    RunsAfterBreak(a, c, b);
    ClosedAppends(Fields(a), Runs(b).0, Runs(b).1);
  }

  /** White space, dots, underscores and hyphens separate; letters and digits do not;
      and the case of letters does not matter. */
  lemma PartsOfAName(a: string, c: char, b: string, s: string, t: string)
    ensures c in {' ', '\t', '\n', '.', '_', '-'} ==> Fields(a + [c] + b) == Fields(a) + Fields(b)
    ensures 'a' <= c <= 'z' || 'A' <= c <= 'Z' || '0' <= c <= '9' ==> Fields([c]) == [Token([c])]
    ensures EqualFold(s, t) ==> Tokenize(s) == Tokenize(t)
  {
    if IsBreak(c) { BreakSplits(a, c, b); } else { WordIsOneToken([c]); }
  }

  // ----- synonyms

  /** The first occurrence of each element, in order. */
  function FirstOccurrences(s: seq<Token>): seq<Token> {
    if s == [] then []
    else
      var init, last := s[..|s| - 1], s[|s| - 1];
      if last in init then FirstOccurrences(init) else FirstOccurrences(init) + [last]
  }

  function Synonyms(tokens: seq<Token>, lookup: Token -> seq<Token>): seq<Token> {
    if tokens == [] then []
    else Synonyms(tokens[..|tokens| - 1], lookup) + lookup(tokens[|tokens| - 1])
  }

  function Expanded(tokens: seq<Token>, lookup: Token -> seq<Token>): seq<Token> {
    FirstOccurrences(tokens + Synonyms(tokens, lookup))
  }

  predicate Distinct(s: seq<Token>) {
    forall i, j | 0 <= i < j < |s| :: s[i] != s[j]
  }

  lemma {:induction false} FirstOccurrencesHold(s: seq<Token>)
    ensures Distinct(FirstOccurrences(s))
    ensures forall t :: t in FirstOccurrences(s) <==> t in s
  {
    if s != [] {
      FirstOccurrencesHold(s[..|s| - 1]);
      assert s == s[..|s| - 1] + [s[|s| - 1]];
    }
  }

  lemma FirstOccurrencesSnoc(s: seq<Token>, t: Token)
    ensures FirstOccurrences(s + [t]) == if t in s then FirstOccurrences(s) else FirstOccurrences(s) + [t]
  {
    assert (s + [t])[..|s|] == s;
  }

  lemma {:induction false} FirstOccurrencesExtend(a: seq<Token>, b: seq<Token>)
    ensures FirstOccurrences(a) <= FirstOccurrences(a + b)
  {
    if b == [] {
      assert a + b == a;
    } else {
      FirstOccurrencesExtend(a, b[..|b| - 1]);
      assert (a + b)[..|a + b| - 1] == a + b[..|b| - 1];
    }
  }

  lemma {:induction false} SynonymsHold(tokens: seq<Token>, lookup: Token -> seq<Token>, t: Token)
    ensures t in Synonyms(tokens, lookup) <==> exists q :: q in tokens && t in lookup(q)
  {
    if tokens != [] {
      SynonymsHold(tokens[..|tokens| - 1], lookup, t);
      assert tokens == tokens[..|tokens| - 1] + [tokens[|tokens| - 1]];
    }
  }

  /** The expansion holds each query token and each synonym of one, once, and the
      query's own tokens come first. */
  lemma ExpansionIsExact(tokens: seq<Token>, lookup: Token -> seq<Token>)
    ensures Distinct(Expanded(tokens, lookup))
    ensures forall t :: t in Expanded(tokens, lookup) <==>
                        t in tokens || exists q :: q in tokens && t in lookup(q)
    ensures FirstOccurrences(tokens) <= Expanded(tokens, lookup)
  {
    FirstOccurrencesHold(tokens + Synonyms(tokens, lookup));
    FirstOccurrencesExtend(tokens, Synonyms(tokens, lookup));
    forall t ensures t in Synonyms(tokens, lookup) <==> exists q :: q in tokens && t in lookup(q) {
      SynonymsHold(tokens, lookup, t);
    }
  }

  ghost function Elements(s: seq<Token>): set<Token> {
    set t | t in s
  }

  lemma ElementsSnoc(s: seq<Token>, t: Token)
    ensures Elements(s + [t]) == Elements(s) + {t}
    ensures t in Elements(s) <==> t in s
  {}

  method AppendNew(expanded: seq<Token>, seen: set<Token>, more: seq<Token>, ghost done: seq<Token>)
    returns (expanded': seq<Token>, seen': set<Token>)
    requires expanded == FirstOccurrences(done) && seen == Elements(done)
    ensures expanded' == FirstOccurrences(done + more) && seen' == Elements(done + more)
  {
    hide FirstOccurrences, Elements;
    expanded', seen' := expanded, seen;
    assert done + more[..0] == done;
    for i := 0 to |more|
      invariant expanded' == FirstOccurrences(done + more[..i])
      invariant seen' == Elements(done + more[..i])
    {
      FirstOccurrencesSnoc(done + more[..i], more[i]);
      ElementsSnoc(done + more[..i], more[i]);
      assert done + more[..i + 1] == done + more[..i] + [more[i]];
      if more[i] !in seen' {
        seen' := seen' + {more[i]};
        expanded' := expanded' + [more[i]];
      }
    }
    assert more[..|more|] == more;
  }

  method ExpandQueryWith(tokens: seq<Token>, lookup: Token -> seq<Token>) returns (expanded: seq<Token>)
    ensures expanded == Expanded(tokens, lookup)
  {
    if |tokens| == 0 {
      return [];
    }
    var seen: set<Token>;
    expanded, seen := AppendNew([], {}, tokens, []);
    assert [] + tokens == tokens + Synonyms(tokens[..0], lookup);
    for i := 0 to |tokens|
      invariant expanded == FirstOccurrences(tokens + Synonyms(tokens[..i], lookup))
      invariant seen == Elements(tokens + Synonyms(tokens[..i], lookup))
    {
      ghost var done := tokens + Synonyms(tokens[..i], lookup);
      expanded, seen := AppendNew(expanded, seen, lookup(tokens[i]), done);
      assert tokens[..i + 1][..i] == tokens[..i];
      assert done + lookup(tokens[i]) == tokens + Synonyms(tokens[..i + 1], lookup);
    }
    assert tokens[..|tokens|] == tokens;
  }
}
