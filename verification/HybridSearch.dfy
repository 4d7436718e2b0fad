/** Lexical and semantic search together, with the lexical engine as the fallback. */
module HybridSearch {
  import opened Common
  import opened Ranking
  import opened RankFusion
  import opened Tokens
  import opened Bm25Scores
  import opened Bm25

  ghost function Lexical(log: real -> real, c: Corpus, query: string, lookup: Token -> seq<Token>): seq<Scored> {
    Ranked(ScanScores(log, c, Expanded(Tokenize(query), lookup)))
  }

  /** `semantic` is what the vector engine answered, or nothing when it failed. */
  method Search(engine: Engine, query: string, semantic: Option<seq<Scored>>, limit: int) returns (results: seq<Scored>)
    requires engine.Valid()
    ensures var lexical := Lexical(engine.log, engine.Contents(), query, engine.lookup);
            var all := match semantic case None => lexical case Some(list) => Ranked(Fused(lexical, list));
            results == Limited(all, limit) && BestOf(all, limit, results)
  {
    hide *;
    var lexical := engine.Search(query, 0);
    LexicalIs(engine.log, engine.Contents(), query, engine.lookup);
    match semantic {
      case None => {
        LimitedIsBest(lexical, limit);
        results := Limited(lexical, limit);
      }
      case Some(list) => {
        var fused := FuseRRF(lexical, list);
        RankedSorted(Fused(lexical, list));
        LimitedIsBest(fused, limit);
        results := Limited(fused, limit);
      }
    }
  }

  lemma LexicalIs(log: real -> real, c: Corpus, query: string, lookup: Token -> seq<Token>)
    ensures Lexical(log, c, query, lookup) ==
            Limited(Ranked(ScanScores(log, c, Expanded(Tokenize(query), lookup))), 0)
    ensures Sorted(Lexical(log, c, query, lookup))
  {
    RankedSorted(ScanScores(log, c, Expanded(Tokenize(query), lookup)));
  }

  /** Without a limit, fusion finds what either engine finds, each key once. */
  lemma HybridFindsBoth(log: real -> real, c: Corpus, query: string, lookup: Token -> seq<Token>, semantic: seq<Scored>)
    requires IsLog(log)
    ensures var results := Ranked(Fused(Lexical(log, c, query, lookup), semantic));
            && DistinctKeys(results)
            && forall key :: key in Keys(results) <==>
                             key in Keys(semantic) || Found(c, key, Expanded(Tokenize(query), lookup))
  {
    var lexical := Lexical(log, c, query, lookup);
    FusionListsTheUnion(lexical, semantic);
    SearchFindsExactly(log, c, query, lookup);
    forall key ensures key in Keys(lexical) <==> Listed(lexical, key) {
      KeysAreListed(lexical, key);
    }
    hide Found, Expanded, Tokenize, Fused, Ranked, Keys, Listed;
  }

  lemma KeysAreListed(list: seq<Scored>, key: string)
    ensures key in Keys(list) <==> Listed(list, key)
  {
    if i :| 0 <= i < |list| && list[i].key == key { assert list[i] in list; }
  }
}
