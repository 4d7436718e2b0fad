/**
 Okapi BM25 by a plain scan: every document is scored on its own from the token
 counts of its fields.  The search engine is proved to compute the same.
 */
module Bm25Scores {
  import opened Ranking
  import opened Totals
  import opened Tokens
  import opened Bm25Postings

  type Corpus = map<string, seq<Document>>

  datatype Ref = Ref(partition: string, index: nat)

  predicate InCorpus(c: Corpus, r: Ref) {
    r.partition in c && r.index < |c[r.partition]|
  }

  function Refs(c: Corpus): (refs: set<Ref>)
    ensures forall r :: r in refs <==> InCorpus(c, r)
  {
    set partition, index: nat | partition in c && 0 <= index < |c[partition]| :: Ref(partition, index)
  }

  function At(c: Corpus, r: Ref): Document
    requires InCorpus(c, r)
  {
    c[r.partition][r.index]
  }

  ghost predicate Holds(doc: Document, t: Token) {
    exists f: Field :: t in FieldTokens(doc, f)
  }

  ghost predicate HoldsAny(doc: Document, terms: seq<Token>) {
    exists t :: t in terms && Holds(doc, t)
  }

  ghost function Holders(c: Corpus, t: Token): set<Ref> {
    set r | r in Refs(c) && Holds(At(c, r), t)
  }

  // ----- inverse document frequency

  /** All that is used of the logarithm. */
  ghost predicate IsLog(log: real -> real) {
    forall x: real :: x > 1.0 ==> log(x) > 0.0
  }

  function Rarity(total: nat, df: nat): real {
    (total as real - df as real + 0.5) / (df as real + 0.5) + 1.0
  }

  ghost function Idf(log: real -> real, c: Corpus, t: Token): real {
    log(Rarity(|Refs(c)|, |Holders(c, t)|))
  }

  lemma SubsetIsSmaller<T>(a: set<T>, b: set<T>)
    requires a <= b
    ensures |a| <= |b|
  {
    assert b == a + (b - a);
  }

  lemma IdfIsPositive(log: real -> real, c: Corpus, t: Token)
    requires IsLog(log)
    ensures |Holders(c, t)| <= |Refs(c)|
    ensures Idf(log, c, t) > 0.0
  {
    SubsetIsSmaller(Holders(c, t), Refs(c));
    RarityExceedsOne(|Refs(c)|, |Holders(c, t)|);
  }

  /** The rarer token weighs more. */
  lemma RarerWeighsMore(log: real -> real, c: Corpus, rare: Token, common: Token)
    requires forall x: real, y: real :: 0.0 < x < y ==> log(x) < log(y)
    requires |Holders(c, rare)| < |Holders(c, common)|
    ensures Idf(log, c, rare) > Idf(log, c, common)
  {
    SubsetIsSmaller(Holders(c, common), Refs(c));
    RarityFalls(|Refs(c)|, |Holders(c, rare)|, |Holders(c, common)|);
  }

  /** The argument of the logarithm in one fraction. */
  lemma RarityIs(total: nat, df: nat)
    ensures Rarity(total, df) == (total as real + 1.0) / (df as real + 0.5)
  {
    WholeParts(total as real + 1.0, df as real + 0.5);
  }

  lemma RarityFalls(total: nat, few: nat, many: nat)
    requires few < many <= total
    ensures Rarity(total, few) > Rarity(total, many) > 1.0
  {
    var n, a, b := total as real + 1.0, few as real + 0.5, many as real + 0.5;
    RarityExceedsOne(total, many);
    WholeParts(n, a);
    WholeParts(n, b);
    Quotients(n, n, b, a);
  }

  lemma WholeParts(p: real, a: real)
    requires a > 0.0
    ensures (p - a) / a + 1.0 == p / a
  {
    assert p / a - (p - a) / a == (p - (p - a)) / a;
    assert a / a == 1.0;
  }

  lemma Quotients(a: real, b: real, m: real, n: real)
    requires 0.0 < a && 0.0 < m && 0.0 < b && 0.0 < n && a * n < b * m
    ensures a / m < b / n
  {
    assert b / n - a / m == (b * m - a * n) / (n * m);
    assert n * m > 0.0;
  }

  lemma RarityExceedsOne(total: nat, df: nat)
    requires df <= total
    ensures Rarity(total, df) > 1.0
  {
    var above, below := total as real - df as real + 0.5, df as real + 0.5;
    assert above > 0.0 && below > 0.0;
  }

  // ----- term scores

  const K1: real := 1.5
  const B: real := 0.75

  function Weight(f: Field): real {
    match f
    case Name => 3.0
    case Title => 2.0
    case Description => 1.0
    case Tags => 2.0
  }

  /** Longer documents than average are damped. */
  function Damping(len: nat, avgDocLen: real): (damping: real)
    requires avgDocLen >= 0.0
    ensures damping > 0.0
  {
    var avgdl := if avgDocLen == 0.0 then 1.0 else avgDocLen;
    assert B * len as real / avgdl >= 0.0;
    K1 * (1.0 - B + B * len as real / avgdl)
  }

  function TfScore(tf: nat, len: nat, avgDocLen: real): (score: real)
    requires tf > 0 && avgDocLen >= 0.0
    ensures score > 0.0
  {
    tf as real * (K1 + 1.0) / (tf as real + Damping(len, avgDocLen))
  }

  /** More occurrences score more, up to a ceiling of K1 + 1; a longer field scores
      less; at average length the damping is K1. */
  lemma TfScoreShape(tf: nat, more: nat, len: nat, longer: nat, avgDocLen: real)
    requires 0 < tf < more && len < longer && avgDocLen > 0.0
    ensures TfScore(tf, len, avgDocLen) < TfScore(more, len, avgDocLen) < K1 + 1.0
    ensures TfScore(tf, longer, avgDocLen) < TfScore(tf, len, avgDocLen)
    ensures len as real == avgDocLen ==> Damping(len, avgDocLen) == K1
    ensures Damping(0, avgDocLen) == K1 / 4.0
  {
    assert B * 0 as real / avgDocLen == 0.0;
    var x, y, d, e := tf as real, more as real, Damping(len, avgDocLen), Damping(longer, avgDocLen);
    LongerIsDampedMore(len, longer, avgDocLen);
    Saturates(x, y, d);
    Falls(x, d, e);
    hide Damping;
  }

  lemma LongerIsDampedMore(len: nat, longer: nat, avgDocLen: real)
    requires len < longer && avgDocLen > 0.0
    ensures Damping(len, avgDocLen) < Damping(longer, avgDocLen)
    ensures len as real == avgDocLen ==> Damping(len, avgDocLen) == K1
  {
    assert B * len as real / avgDocLen < B * longer as real / avgDocLen by {
      var a, b := B * len as real, B * longer as real;
      assert b / avgDocLen - a / avgDocLen == (b - a) / avgDocLen;
    }
    assert B * avgDocLen / avgDocLen == B;
  }

  lemma Saturates(x: real, y: real, d: real)
    requires 0.0 < x < y && d > 0.0
    ensures x * (K1 + 1.0) / (x + d) < y * (K1 + 1.0) / (y + d) < K1 + 1.0
  {
    assert x * d < y * d;
    Quotients(x * 2.5, y * 2.5, x + d, y + d);
    Quotients(y * 2.5, 2.5, y + d, 1.0);
  }

  lemma Falls(x: real, d: real, e: real)
    requires 0.0 < x && 0.0 < d < e
    ensures x * (K1 + 1.0) / (x + e) < x * (K1 + 1.0) / (x + d)
  {
    assert x * d < x * e;
    Quotients(x * 2.5, x * 2.5, x + e, x + d);
  }

  function Weighted(weight: real, idf: real, score: real): real {
    weight * idf * score
  }

  lemma WeightedIsPositive(weight: real, idf: real, score: real)
    requires weight > 0.0 && idf > 0.0 && score > 0.0
    ensures Weighted(weight, idf, score) > 0.0
  {
    assert weight * idf > 0.0;
  }

  /** Other things equal, a match in the name gains more than one in the title or the
      tags, and those more than one in the description. */
  lemma HeavierFieldGainsMore(
      idf: real, docs: seq<Document>, d: nat, f: Field, others: seq<Document>, e: nat, g: Field, t: Token)
    requires idf > 0.0 && d < |docs| && e < |others| && t in FieldTokens(docs[d], f)
    requires Count(FieldTokens(docs[d], f), t) == Count(FieldTokens(others[e], g), t)
    requires |FieldTokens(docs[d], f)| == |FieldTokens(others[e], g)|
    requires AverageLength(docs, f) == AverageLength(others, g)
    ensures f.Name? && !g.Name? ==> Gain(idf, docs, d, f, t) > Gain(idf, others, e, g, t)
    ensures (f.Title? || f.Tags?) && g.Description? ==> Gain(idf, docs, d, f, t) > Gain(idf, others, e, g, t)
    ensures f.Title? && g.Tags? ==> Gain(idf, docs, d, f, t) == Gain(idf, others, e, g, t)
  {
    AverageLengthIsNatural(docs, f);
    CountIsPositiveIfHeld(FieldTokens(docs[d], f), t);
    var score := TfScore(Count(FieldTokens(docs[d], f), t), |FieldTokens(docs[d], f)|, AverageLength(docs, f));
    WeightedGrows(Weight(f), Weight(g), idf, score);
    hide TfScore, FieldTokens, Count, AverageLength, Weighted;
  }

  lemma WeightedGrows(more: real, less: real, idf: real, score: real)
    requires idf > 0.0 && score > 0.0
    ensures more > less ==> Weighted(more, idf, score) > Weighted(less, idf, score)
  {
    if more > less {
      WeightedIsPositive(more - less, idf, score);
      assert more * idf - less * idf == (more - less) * idf;
      assert more * idf * score - less * idf * score == (more - less) * idf * score;
    }
  }

  /** A token that weighs more gains more wherever it occurs. */
  lemma RarerTokenGainsMore(more: real, less: real, docs: seq<Document>, d: nat, f: Field, t: Token)
    requires more > less > 0.0 && d < |docs| && t in FieldTokens(docs[d], f)
    ensures Gain(more, docs, d, f, t) > Gain(less, docs, d, f, t)
  {
    AverageLengthIsNatural(docs, f);
    CountIsPositiveIfHeld(FieldTokens(docs[d], f), t);
    var score := TfScore(Count(FieldTokens(docs[d], f), t), |FieldTokens(docs[d], f)|, AverageLength(docs, f));
    WeightedGrows(more, less, Weight(f), score);
    SwapWeights(Weight(f), more, score);
    SwapWeights(Weight(f), less, score);
    hide TfScore, FieldTokens, Count, AverageLength, Weighted;
  }

  lemma SwapWeights(a: real, b: real, score: real)
    ensures Weighted(a, b, score) == Weighted(b, a, score)
  {
    assert a * b == b * a;
  }

  /** Of two equally long fields of the partition the one with more occurrences gains more. */
  lemma MoreOccurrencesGainMore(idf: real, docs: seq<Document>, d: nat, e: nat, f: Field, t: Token)
    requires idf > 0.0 && d < |docs| && e < |docs| && |FieldTokens(docs[d], f)| == |FieldTokens(docs[e], f)|
    requires 0 < Count(FieldTokens(docs[d], f), t) < Count(FieldTokens(docs[e], f), t)
    ensures Gain(idf, docs, d, f, t) < Gain(idf, docs, e, f, t)
  {
    AverageLengthIsNatural(docs, f);
    var tf, more := Count(FieldTokens(docs[d], f), t), Count(FieldTokens(docs[e], f), t);
    var len := |FieldTokens(docs[d], f)|;
    var damping := Damping(len, AverageLength(docs, f));
    Saturates(tf as real, more as real, damping);
    var x, y := TfScore(tf, len, AverageLength(docs, f)), TfScore(more, len, AverageLength(docs, f));
    assert x < y;
    hide TfScore, FieldTokens, Count, AverageLength, Weighted, Damping;
    ScoreGrows(Weight(f), idf, x, y);
  }

  lemma ScoreGrows(weight: real, idf: real, x: real, y: real)
    requires weight > 0.0 && idf > 0.0 && x < y
    ensures Weighted(weight, idf, x) < Weighted(weight, idf, y)
  {
    assert weight * idf > 0.0;
    assert weight * idf * (y - x) > 0.0;
  }

  lemma AverageLengthIsNatural(docs: seq<Document>, f: Field)
    ensures AverageLength(docs, f) >= 0.0
  {
    hide TotalLength;
    if docs != [] { Natural(TotalLength(docs, f) as real, |docs| as real); }
  }

  predicate IsAverage(average: real, n: real, total: real) {
    average * n == total
  }

  /** The average length times the number of documents is the tokens they hold. */
  lemma AverageLengthIs(docs: seq<Document>, f: Field)
    requires docs != []
    ensures IsAverage(AverageLength(docs, f), |docs| as real, TotalLength(docs, f) as real)
    ensures TotalLength(docs, f) == TotalLength(docs[..|docs| - 1], f) + |FieldTokens(docs[|docs| - 1], f)|
  {
    QuotientIsAverage(TotalLength(docs, f) as real, |docs| as real);
    hide IsAverage, FieldTokens;
  }

  lemma QuotientIsAverage(total: real, n: real)
    requires n > 0.0
    ensures IsAverage(total / n, n, total)
  {}

  lemma Natural(a: real, b: real)
    requires a >= 0.0 && b > 0.0
    ensures a / b >= 0.0
  {}

  ghost function Gain(idf: real, docs: seq<Document>, d: nat, f: Field, t: Token): real
    requires d < |docs|
  {
    var tokens := FieldTokens(docs[d], f);
    AverageLengthIsNatural(docs, f);
    if Count(tokens, t) == 0 then 0.0
    else Weighted(Weight(f), idf, TfScore(Count(tokens, t), |tokens|, AverageLength(docs, f)))
  }

  lemma GainSign(idf: real, docs: seq<Document>, d: nat, f: Field, t: Token)
    requires d < |docs| && idf > 0.0
    ensures Gain(idf, docs, d, f, t) >= 0.0
    ensures Gain(idf, docs, d, f, t) > 0.0 <==> t in FieldTokens(docs[d], f)
  {
    var tokens := FieldTokens(docs[d], f);
    CountIsPositiveIfHeld(tokens, t);
    AverageLengthIsNatural(docs, f);
    if Count(tokens, t) > 0 {
      WeightedIsPositive(Weight(f), idf, TfScore(Count(tokens, t), |tokens|, AverageLength(docs, f)));
    }
  }

  ghost function TermScore(idf: real, docs: seq<Document>, d: nat, t: Token): real
    requires d < |docs|
  {
    Gain(idf, docs, d, Name, t) + Gain(idf, docs, d, Title, t) +
    Gain(idf, docs, d, Description, t) + Gain(idf, docs, d, Tags, t)
  }

  lemma TermScoreSign(idf: real, docs: seq<Document>, d: nat, t: Token)
    requires d < |docs| && idf > 0.0
    ensures TermScore(idf, docs, d, t) >= 0.0
    ensures TermScore(idf, docs, d, t) > 0.0 <==> Holds(docs[d], t)
  {
    forall f: Field
      ensures Gain(idf, docs, d, f, t) >= 0.0
      ensures Gain(idf, docs, d, f, t) > 0.0 <==> t in FieldTokens(docs[d], f)
    {
      GainSign(idf, docs, d, f, t);
    }
    hide Gain, FieldTokens;
    if Holds(docs[d], t) {
      var f: Field :| t in FieldTokens(docs[d], f);
      assert Gain(idf, docs, d, f, t) > 0.0;
      assert f == Name || f == Title || f == Description || f == Tags;
    }
  }

  ghost function DocScore(log: real -> real, c: Corpus, r: Ref, terms: seq<Token>): real
    requires InCorpus(c, r)
  {
    if terms == [] then 0.0
    else
      var t := terms[|terms| - 1];
      DocScore(log, c, r, terms[..|terms| - 1]) + TermScore(Idf(log, c, t), c[r.partition], r.index, t)
  }

  /** A document scores above zero exactly when it holds one of the terms. */
  lemma {:induction false} DocScoreSign(log: real -> real, c: Corpus, r: Ref, terms: seq<Token>)
    requires IsLog(log) && InCorpus(c, r)
    ensures DocScore(log, c, r, terms) >= 0.0
    ensures DocScore(log, c, r, terms) > 0.0 <==> HoldsAny(At(c, r), terms)
  {
    if terms != [] {
      var init, t := terms[..|terms| - 1], terms[|terms| - 1];
      assert terms == init + [t];
      DocScoreSign(log, c, r, init);
      IdfIsPositive(log, c, t);
      TermScoreSign(Idf(log, c, t), c[r.partition], r.index, t);
      hide Holds, TermScore, Idf;
    }
  }

  // ----- the scan

  ghost function Scan(log: real -> real, c: Corpus, terms: seq<Token>): map<Ref, Scored> {
    map r | r in Refs(c) :: Scored(At(c, r).key, DocScore(log, c, r, terms))
  }

  /** Per key, the sum over the documents that carry it. */
  ghost function ScanScores(log: real -> real, c: Corpus, terms: seq<Token>): Scores {
    Totalled(Scan(log, c, terms))
  }

  lemma ScanSigns(log: real -> real, c: Corpus, terms: seq<Token>)
    requires IsLog(log)
    ensures NoNegatives(Scan(log, c, terms))
    ensures forall r | r in Refs(c) :: Scan(log, c, terms)[r].score > 0.0 <==> HoldsAny(At(c, r), terms)
  {
    forall r | r in Refs(c)
      ensures DocScore(log, c, r, terms) >= 0.0
      ensures DocScore(log, c, r, terms) > 0.0 <==> HoldsAny(At(c, r), terms)
    {
      DocScoreSign(log, c, r, terms);
    }
  }

  /** Some document with this key holds one of the terms. */
  ghost predicate Found(c: Corpus, key: string, terms: seq<Token>) {
    exists r :: InCorpus(c, r) && At(c, r).key == key && HoldsAny(At(c, r), terms)
  }

  /** The scan lists exactly the keys of the documents that hold some term, all
      with positive scores. */
  lemma ScanFindsExactly(log: real -> real, c: Corpus, terms: seq<Token>)
    requires IsLog(log)
    ensures forall key :: key in ScanScores(log, c, terms) <==> Found(c, key, terms)
    ensures forall key | key in ScanScores(log, c, terms) :: ScanScores(log, c, terms)[key] > 0.0
  {
    ScanSigns(log, c, terms);
    var scan := Scan(log, c, terms);
    forall key ensures key in PositiveKeys(scan) <==> Found(c, key, terms) {
      KeyFound(log, c, terms, key);
    }
    forall key | key in ScanScores(log, c, terms) ensures ScanScores(log, c, terms)[key] > 0.0 {
      SumForSign(scan, key);
    }
  }

  lemma KeyFound(log: real -> real, c: Corpus, terms: seq<Token>, key: string)
    requires IsLog(log)
    ensures key in PositiveKeys(Scan(log, c, terms)) <==> Found(c, key, terms)
  {
    ScanSigns(log, c, terms);
    hide HoldsAny, DocScore;
    var scan := Scan(log, c, terms);
    if r :| InCorpus(c, r) && At(c, r).key == key && HoldsAny(At(c, r), terms) {
      assert scan[r].score > 0.0;
    }
  }
}
