/**
 The lexical search engine: partitions of inverted indexes, kept together with a
 global table of inverse document frequencies.  A search over the posting lists
 gives exactly the ranking of the plain scan.
 */
module Bm25 {
  import opened Ranking
  import opened Totals
  import opened Tokens
  import opened Bm25Postings
  import opened Bm25Scores
  import opened Bm25Idf

  // ----- scoring one partition

  lemma GainOfPosting(fi: FieldIndex, docs: seq<Document>, f: Field, idf: real, t: Token, d: nat)
    requires Indexes(fi, docs, f) && d < |docs| && fi.avgDocLen >= 0.0
    ensures d !in Posting(fi.postings, t) ==> Gain(idf, docs, d, f, t) == 0.0
    ensures d in Posting(fi.postings, t) ==>
              && Posting(fi.postings, t)[d] > 0
              && Gain(idf, docs, d, f, t) ==
                 Weighted(Weight(f), idf, TfScore(Posting(fi.postings, t)[d], fi.docLens[d], fi.avgDocLen))
  {
    assert Frequency(fi.postings, t, d) == Count(FieldTokens(docs[d], f), t);
  }

  method AccumulateField(
      scores: array<real>, fi: FieldIndex, ghost docs: seq<Document>, ghost f: Field, t: Token, idf: real, weight: real)
    requires Indexes(fi, docs, f) && weight == Weight(f) && scores.Length == |docs|
    modifies scores
    ensures forall d | 0 <= d < |docs| :: scores[d] == old(scores[d]) + Gain(idf, docs, d, f, t)
  {
    AverageLengthIsNatural(docs, f);
    forall d: nat | d < |docs|
      ensures d !in Posting(fi.postings, t) ==> Gain(idf, docs, d, f, t) == 0.0
    {
      GainOfPosting(fi, docs, f, idf, t, d);
    }
    if t !in fi.postings {
      return;
    }
    var posting := fi.postings[t];
    forall d | d in posting ensures d < |docs| {
      PostingIsHeld(fi, docs, f, t, d);
    }
    assert |fi.docLens| == |docs|;
    var rest := posting.Keys;
    while rest != {}
      invariant rest <= posting.Keys
      invariant forall d: nat | d < |docs| ::
                  scores[d] == old(scores[d]) + if d in rest then 0.0 else Gain(idf, docs, d, f, t)
      decreases rest
    {
      var d :| d in rest;
      GainOfPosting(fi, docs, f, idf, t, d);
      hide Gain, TfScore, Weighted, Weight, Indexes;
      scores[d] := scores[d] + Weighted(weight, idf, TfScore(posting[d], fi.docLens[d], fi.avgDocLen));
      rest := rest - {d};
    }
  }

  method AccumulateTerm(scores: array<real>, p: Partition, t: Token, idf: real)
    requires Built(p, p.serverId, p.docs) && scores.Length == |p.docs|
    modifies scores
    ensures forall d | 0 <= d < |p.docs| :: scores[d] == old(scores[d]) + TermScore(idf, p.docs, d, t)
  {
    assert forall f: Field :: Indexes(IndexOf(p, f), p.docs, f);
    assert Indexes(p.name, p.docs, Name) by { assert p.name == IndexOf(p, Name); }
    assert Indexes(p.title, p.docs, Title) by { assert p.title == IndexOf(p, Title); }
    assert Indexes(p.description, p.docs, Description) by { assert p.description == IndexOf(p, Description); }
    assert Indexes(p.tags, p.docs, Tags) by { assert p.tags == IndexOf(p, Tags); }
    hide Indexes, Built, Gain;
    AccumulateField(scores, p.name, p.docs, Name, t, idf, 3.0);
    AccumulateField(scores, p.title, p.docs, Title, t, idf, 2.0);
    AccumulateField(scores, p.description, p.docs, Description, t, idf, 1.0);
    AccumulateField(scores, p.tags, p.docs, Tags, t, idf, 2.0);
  }

  /** A token without a table entry is in no document, so the default of zero does no harm. */
  lemma LookedUpIdf(log: real -> real, c: Corpus, table: map<Token, real>, id: string, d: nat, t: Token)
    requires IsIdfTable(log, c, table) && id in c && d < |c[id]|
    ensures TermScore(if t in table then table[t] else 0.0, c[id], d, t) == TermScore(Idf(log, c, t), c[id], d, t)
  {
    if t !in table {
      assert Ref(id, d) !in Holders(c, t);
      forall f: Field, idf: real ensures Gain(idf, c[id], d, f, t) == 0.0 {
        CountIsPositiveIfHeld(FieldTokens(c[id][d], f), t);
      }
    }
  }

  ghost predicate AreScores(scores: seq<real>, log: real -> real, c: Corpus, id: string, terms: seq<Token>) {
    id in c && |scores| == |c[id]| && forall d: nat | d < |scores| :: scores[d] == DocScore(log, c, Ref(id, d), terms)
  }

  /** One more term adds its own score to every document. */
  lemma OneMoreTerm(
      before: seq<real>, after: seq<real>,
      log: real -> real, c: Corpus, table: map<Token, real>, id: string, terms: seq<Token>, t: Token)
    requires IsIdfTable(log, c, table) && AreScores(before, log, c, id, terms) && |after| == |before|
    requires var idf := if t in table then table[t] else 0.0;
             forall d: nat | d < |before| :: after[d] == before[d] + TermScore(idf, c[id], d, t)
    ensures AreScores(after, log, c, id, terms + [t])
  {
    assert (terms + [t])[..|terms|] == terms;
    forall d: nat | d < |after| ensures after[d] == DocScore(log, c, Ref(id, d), terms + [t]) {
      LookedUpIdf(log, c, table, id, d, t);
      hide IsIdfTable, TermScore, Idf;
    }
  }

  method ScorePartition(log: real -> real, table: map<Token, real>, p: Partition, terms: seq<Token>, ghost c: Corpus)
    returns (scores: array<real>)
    requires IsIdfTable(log, c, table) && Built(p, p.serverId, p.docs)
    requires p.serverId in c && c[p.serverId] == p.docs
    ensures fresh(scores)
    ensures AreScores(scores[..], log, c, p.serverId, terms)
  {
    scores := new real[|p.docs|](_ => 0.0);
    assert terms[..0] == [];
    for i := 0 to |terms|
      invariant AreScores(scores[..], log, c, p.serverId, terms[..i])
    {
      var t := terms[i];
      var idf := if t in table then table[t] else 0.0;
      ghost var before := scores[..];
      hide DocScore, TermScore, Built, IsIdfTable;
      AccumulateTerm(scores, p, t, idf);
      OneMoreTerm(before, scores[..], log, c, table, p.serverId, terms[..i], t);
      assert terms[..i + 1] == terms[..i] + [t];
    }
    assert terms[..|terms|] == terms;
  }

  // ----- adding up the partitions

  /** The entries of the scan that belong to the partitions visited so far. */
  ghost function Visited(scan: map<Ref, Scored>, ids: set<string>): map<Ref, Scored> {
    map r | r in scan && r.partition in ids :: scan[r]
  }

  /** ... and to the first n documents of one more. */
  ghost function VisitedUpTo(scan: map<Ref, Scored>, ids: set<string>, id: string, n: nat): map<Ref, Scored> {
    map r | r in scan && (r.partition in ids || (r.partition == id && r.index < n)) :: scan[r]
  }

  lemma OneMoreVisited(scan: map<Ref, Scored>, ids: set<string>, id: string, n: nat)
    requires Ref(id, n) in scan && id !in ids
    ensures VisitedUpTo(scan, ids, id, n + 1) == VisitedUpTo(scan, ids, id, n)[Ref(id, n) := scan[Ref(id, n)]]
    ensures Ref(id, n) !in VisitedUpTo(scan, ids, id, n)
  {
    assert forall r: Ref | r.partition == id && r.index < n + 1 && !(r.index < n) :: r == Ref(id, n);
  }

  lemma PartitionVisited(scan: map<Ref, Scored>, ids: set<string>, id: string, n: nat)
    requires id !in ids && forall r: Ref | r in scan && r.partition == id :: r.index < n
    ensures VisitedUpTo(scan, ids, id, 0) == Visited(scan, ids)
    ensures VisitedUpTo(scan, ids, id, n) == Visited(scan, ids + {id})
  {}

  method AddPartitionScores(
      scores: Scores, docs: seq<Document>, partitionScores: array<real>,
      ghost scan: map<Ref, Scored>, ghost ids: set<string>, ghost id: string)
    returns (scores': Scores)
    requires partitionScores.Length == |docs| && NoNegatives(scan) && id !in ids
    requires forall d: nat | d < |docs| ::
               Ref(id, d) in scan && scan[Ref(id, d)] == Scored(docs[d].key, partitionScores[d])
    requires forall r: Ref | r in scan && r.partition == id :: r.index < |docs|
    requires scores == Totalled(Visited(scan, ids))
    ensures scores' == Totalled(Visited(scan, ids + {id}))
  {
    scores' := scores;
    PartitionVisited(scan, ids, id, |docs|);
    for d := 0 to |docs|
      invariant scores' == Totalled(VisitedUpTo(scan, ids, id, d))
    {
      var score := partitionScores[d];
      OneMoreVisited(scan, ids, id, d);
      TotalledOneMore(VisitedUpTo(scan, ids, id, d), Ref(id, d), scan[Ref(id, d)]);
      hide Totalled, VisitedUpTo;
      if score > 0.0 {
        scores' := Bumped(scores', docs[d].key, score);
      }
    }
  }

  lemma PartitionOfScan(log: real -> real, c: Corpus, terms: seq<Token>, id: string)
    requires id in c
    ensures var scan := Scan(log, c, terms);
            && (forall d: nat | d < |c[id]| :: Ref(id, d) in scan &&
                  scan[Ref(id, d)] == Scored(c[id][d].key, DocScore(log, c, Ref(id, d), terms)))
            && forall r: Ref | r in scan && r.partition == id :: r.index < |c[id]|
  {}

  method ScoreAll(log: real -> real, table: map<Token, real>, partitions: Partitions, terms: seq<Token>)
    returns (scores: Scores)
    requires IsLog(log) && AllBuilt(partitions) && IsIdfTable(log, CorpusOf(partitions), table)
    ensures scores == ScanScores(log, CorpusOf(partitions), terms)
  {
    scores := map[];
    ghost var c := CorpusOf(partitions);
    ghost var scan := Scan(log, c, terms);
    ScanSigns(log, c, terms);
    hide DocScore, Totalled, IsIdfTable, IsLog, Built, HoldsAny, Scan, Refs;
    assert Visited(scan, {}) == map[];
    TotalledNone<Ref>();
    var rest := partitions.Keys;
    while rest != {}
      invariant rest <= partitions.Keys
      invariant scores == Totalled(Visited(scan, partitions.Keys - rest))
      decreases rest
    {
      var id :| id in rest;
      var p := partitions[id];
      hide Visited;
      var partitionScores := ScorePartition(log, table, p, terms, c);
      PartitionOfScan(log, c, terms, id);
      scores := AddPartitionScores(scores, p.docs, partitionScores, scan, partitions.Keys - rest, id);
      assert partitions.Keys - rest + {id} == partitions.Keys - (rest - {id});
      rest := rest - {id};
    }
    AllVisited(log, c, terms);
    assert partitions.Keys - rest == c.Keys;
  }

  lemma AllVisited(log: real -> real, c: Corpus, terms: seq<Token>)
    ensures Visited(Scan(log, c, terms), c.Keys) == Scan(log, c, terms)
  {}

  // ----- queries that match nothing

  lemma NothingToFind(log: real -> real, c: Corpus, terms: seq<Token>)
    requires IsLog(log) && (terms == [] || c == map[])
    ensures Ranked(ScanScores(log, c, terms)) == []
  {
    ScanFindsExactly(log, c, terms);
    assert ScanScores(log, c, terms) == map[];
    RankingIsUnique(map[], Ranked(map[]), []);
  }

  /** An unlimited search lists, once each and by score then key, exactly the keys of
      the documents holding a query token or one of its synonyms. */
  lemma SearchFindsExactly(log: real -> real, c: Corpus, query: string, lookup: Token -> seq<Token>)
    requires IsLog(log)
    ensures var terms := Expanded(Tokenize(query), lookup);
            var results := Ranked(ScanScores(log, c, terms));
            && Sorted(results) && DistinctKeys(results)
            && (forall i | 0 <= i < |results| :: results[i].score > 0.0)
            && forall key :: Listed(results, key) <==> Found(c, key, terms)
  {
    var terms := Expanded(Tokenize(query), lookup);
    ScanFindsExactly(log, c, terms);
    hide ScanScores, Found, Expanded, Tokenize;
    var scores := ScanScores(log, c, terms);
    RankedOnce(scores);
    forall key ensures Listed(Ranked(scores), key) <==> key in scores {
      RankedLists(scores, key);
    }
    hide Listed, Ranked;
  }

  /** With a limit, the best of them: that many, or all there are. */
  lemma LimitedSearchFindsBest(log: real -> real, c: Corpus, query: string, lookup: Token -> seq<Token>, limit: int)
    requires IsLog(log)
    ensures var terms := Expanded(Tokenize(query), lookup);
            var all := Ranked(ScanScores(log, c, terms));
            && BestOf(all, limit, Limited(all, limit))
            && |all| == |set r | r in Refs(c) && HoldsAny(At(c, r), terms) :: At(c, r).key|
  {
    var terms := Expanded(Tokenize(query), lookup);
    var scores := ScanScores(log, c, terms);
    LimitedIsBest(Ranked(scores), limit);
    RankedCounts(scores);
    ScanFindsExactly(log, c, terms);
    hide Ranked, ScanScores, HoldsAny, Expanded, Tokenize;
    var found := set r | r in Refs(c) && HoldsAny(At(c, r), terms) :: At(c, r).key;
    assert scores.Keys == found;
  }

  // ----- the engine

  const DEFAULT_PARTITION: string := "__default__"

  ghost predicate HasKey(c: Corpus, key: string) {
    exists r :: InCorpus(c, r) && At(c, r).key == key
  }

  function Without(docs: seq<Document>, d: nat): seq<Document>
    requires d < |docs|
  {
    docs[..d] + docs[d + 1..]
  }

  /** The first document with the key has been taken from one of the partitions; a
      partition left empty is gone. */
  ghost predicate OneRemoved(before: Corpus, after: Corpus, key: string) {
    exists r ::
      && InCorpus(before, r) && At(before, r).key == key
      && (forall d: nat | d < r.index :: before[r.partition][d].key != key)
      && after == AfterTaking(before, r)
  }

  /** No two documents share this key. */
  ghost predicate AtMostOnce(c: Corpus, key: string) {
    forall r, q :: InCorpus(c, r) && InCorpus(c, q) && At(c, r).key == At(c, q).key == key ==> r == q
  }

  ghost function AfterTaking(c: Corpus, r: Ref): Corpus
    requires InCorpus(c, r)
  {
    if |c[r.partition]| == 1 then c - {r.partition}
    else c[r.partition := Without(c[r.partition], r.index)]
  }

  /** Taking a document away moves the later ones of its partition down by one. */
  lemma TakingKeepsTheOthers(c: Corpus, r: Ref, q: Ref)
    requires InCorpus(c, r) && InCorpus(c, q) && q != r
    ensures var q' := if q.partition == r.partition && q.index > r.index then Ref(q.partition, q.index - 1) else q;
            InCorpus(AfterTaking(c, r), q') && At(AfterTaking(c, r), q') == At(c, q)
  {}

  lemma TakingAddsNothing(c: Corpus, r: Ref, q': Ref)
    requires InCorpus(c, r) && InCorpus(AfterTaking(c, r), q')
    ensures var q := if q'.partition == r.partition && q'.index >= r.index then Ref(q'.partition, q'.index + 1) else q';
            q != r && InCorpus(c, q) && At(c, q) == At(AfterTaking(c, r), q')
  {}

  /** Removing takes a key away exactly when it occurred at most once, otherwise a
      duplicate stays behind; no other key comes or goes. */
  lemma RemovedKeyIsGone(before: Corpus, after: Corpus, key: string, other: string)
    requires OneRemoved(before, after, key) && other != key
    ensures !HasKey(after, key) <==> AtMostOnce(before, key)
    ensures HasKey(after, other) <==> HasKey(before, other)
  {
    var r :| InCorpus(before, r) && At(before, r).key == key && after == AfterTaking(before, r);
    hide AfterTaking;
    if q' :| InCorpus(after, q') && At(after, q').key == key {
      TakingAddsNothing(before, r, q');
    }
    if q :| InCorpus(before, q) && At(before, q).key == key && q != r {
      TakingKeepsTheOthers(before, r, q);
    }
    if q' :| InCorpus(after, q') && At(after, q').key == other {
      TakingAddsNothing(before, r, q');
    }
    if q :| InCorpus(before, q) && At(before, q).key == other {
      TakingKeepsTheOthers(before, r, q);
    }
  }

  method FindKey(docs: seq<Document>, key: string) returns (found: int)
    ensures -1 <= found < |docs|
    ensures found >= 0 ==> docs[found].key == key
    ensures forall d: nat | d < (if found < 0 then |docs| else found) :: docs[d].key != key
  {
    for d := 0 to |docs|
      invariant forall e: nat | e < d :: docs[e].key != key
    {
      if docs[d].key == key {
        return d;
      }
    }
    return -1;
  }

  lemma OnlyPartition(id: string, docs: seq<Document>, p: Partition)
    requires Built(p, id, docs)
    ensures AllBuilt(map[id := p]) && CorpusOf(map[id := p]) == map[id := docs]
  {}

  class Engine {
    const log: real -> real
    const lookup: Token -> seq<Token>
    var partitions: Partitions
    var globalIdf: map<Token, real>

    ghost predicate Valid()
      reads this
    {
      IsLog(log) && AllBuilt(partitions) && IsIdfTable(log, CorpusOf(partitions), globalIdf)
    }

    ghost function Contents(): Corpus
      reads this
    {
      CorpusOf(partitions)
    }

    constructor (log: real -> real, lookup: Token -> seq<Token>)
      requires IsLog(log)
      ensures Valid() && Contents() == map[]
      ensures this.log == log && this.lookup == lookup
    {
      this.log, this.lookup := log, lookup;
      partitions, globalIdf := map[], map[];
    }

    method Install(updated: Partitions)
      requires IsLog(log) && AllBuilt(updated)
      modifies this
      ensures Valid() && Contents() == CorpusOf(updated)
    {
      hide IsLog, AllBuilt, IsIdfTable;
      partitions := updated;
      globalIdf := RecomputeGlobalIDF(log, updated);
    }

    method ReplaceAll(id: string, docs: seq<Document>)
      requires IsLog(log)
      modifies this
      ensures Valid() && Contents() == map[id := docs]
    {
      var p := BuildPartition(id, docs);
      OnlyPartition(id, docs, p);
      hide *;
      Install(map[id := p]);
    }

    method Index(docs: seq<Document>)
      requires Valid()
      modifies this
      ensures Valid() && Contents() == map[DEFAULT_PARTITION := docs]
    {
      hide IsLog, IsIdfTable, AllBuilt, CorpusOf;
      ReplaceAll(DEFAULT_PARTITION, docs);
    }

    method AddPartition(id: string, docs: seq<Document>)
      requires Valid()
      modifies this
      ensures Valid() && Contents() == old(Contents())[id := docs]
    {
      var p := BuildPartition(id, docs);
      assert p.docs == docs;
      hide Built, IsLog, IsIdfTable;
      Install(partitions[id := p]);
    }

    method RemovePartition(id: string)
      requires Valid()
      modifies this
      ensures Valid() && Contents() == old(Contents()) - {id}
    {
      hide Built, IsLog, IsIdfTable;
      Install(partitions - {id});
    }

    method Remove(key: string)
      requires Valid()
      modifies this
      ensures Valid()
      ensures if HasKey(old(Contents()), key) then OneRemoved(old(Contents()), Contents(), key)
              else Contents() == old(Contents())
    {
      var rest := partitions.Keys;
      while rest != {}
        invariant unchanged(this)
        invariant forall id | id in partitions && id !in rest ::
                    forall d: nat | d < |Contents()[id]| :: Contents()[id][d].key != key
        decreases rest
      {
        var id :| id in rest;
        var docs := partitions[id].docs;
        var d := FindKey(docs, key);
        if d >= 0 {
          ghost var r := Ref(id, d);
          assert InCorpus(Contents(), r) && At(Contents(), r).key == key;
          if |docs| == 1 {
            RemovePartition(id);
          } else {
            AddPartition(id, Without(docs, d));
          }
          assert Contents() == AfterTaking(old(Contents()), r);
          return;
        }
        rest := rest - {id};
      }
    }

    method Search(query: string, limit: int) returns (results: seq<Scored>)
      requires Valid()
      ensures var all := Ranked(ScanScores(log, Contents(), Expanded(Tokenize(query), lookup)));
              results == Limited(all, limit) && BestOf(all, limit, results)
    {
      assert Expanded([], lookup) == [];
      hide Tokenize, Expanded, Ranked, IsLog, IsIdfTable, AllBuilt, BestOf;
      LimitedIsBest(Ranked(ScanScores(log, Contents(), Expanded(Tokenize(query), lookup))), limit);
      var tokens := Tokenize(query);
      var terms := ExpandQueryWith(tokens, lookup);
      if |tokens| == 0 {
        NothingToFind(log, Contents(), terms);
        return [];
      }
      if |partitions| == 0 {
        assert Contents() == map[];
        NothingToFind(log, Contents(), terms);
        return [];
      }
      var scores := ScoreAll(log, globalIdf, partitions, terms);
      results := Rank(scores);
      results := Limited(results, limit);
    }
  }
}
