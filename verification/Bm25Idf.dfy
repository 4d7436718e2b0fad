/** Recomputing the global inverse document frequencies from the posting lists. */
module Bm25Idf {
  import opened Tokens
  import opened Bm25Postings
  import opened Bm25Scores

  type Partitions = map<string, Partition>

  type DocSets = map<Token, set<Ref>>

  function CorpusOf(partitions: Partitions): Corpus {
    map id | id in partitions :: partitions[id].docs
  }

  ghost predicate AllBuilt(partitions: Partitions) {
    forall id | id in partitions :: Built(partitions[id], id, partitions[id].docs)
  }

  /** The table has an entry for exactly the tokens some document holds. */
  ghost predicate IsIdfTable(log: real -> real, c: Corpus, idf: map<Token, real>) {
    forall t :: (t in idf <==> Holders(c, t) != {}) && (t in idf ==> idf[t] == Idf(log, c, t))
  }

  // ----- postings and holders

  lemma PostingIsHeld(fi: FieldIndex, docs: seq<Document>, f: Field, t: Token, d: nat)
    requires Indexes(fi, docs, f)
    ensures d in Posting(fi.postings, t) <==> d < |docs| && t in FieldTokens(docs[d], f)
  {
    assert d in Posting(fi.postings, t) <==> Frequency(fi.postings, t, d) > 0;
    if d < |docs| {
      CountIsPositiveIfHeld(FieldTokens(docs[d], f), t);
    }
  }

  function RefsTo(id: string, indexes: set<nat>): (refs: set<Ref>)
    ensures forall r :: r in refs <==> r.partition == id && r.index in indexes
  {
    var refs := set d | d in indexes :: Ref(id, d);
    assert forall r: Ref | r.partition == id && r.index in indexes :: r == Ref(id, r.index);
    refs
  }

  function SetFor(sets: DocSets, t: Token): set<Ref> {
    if t in sets then sets[t] else {}
  }

  predicate NoEmptySets(sets: DocSets) {
    forall t | t in sets :: sets[t] != {}
  }

  ghost function PartHolders(id: string, docs: seq<Document>, t: Token): (refs: set<Ref>)
    ensures forall r :: r in refs <==> r.partition == id && r.index < |docs| && Holds(docs[r.index], t)
  {
    set r | r in FirstRefs(id, |docs|) && Holds(docs[r.index], t)
  }

  ghost function FieldHolders(id: string, docs: seq<Document>, f: Field, t: Token): (refs: set<Ref>)
    ensures forall r :: r in refs <==> r.partition == id && r.index < |docs| && t in FieldTokens(docs[r.index], f)
  {
    set r | r in FirstRefs(id, |docs|) && t in FieldTokens(docs[r.index], f)
  }

  ghost function FirstRefs(id: string, n: nat): (refs: set<Ref>)
    ensures forall r :: r in refs <==> r.partition == id && r.index < n
    ensures |refs| == n
  {
    if n == 0 then {} else FirstRefs(id, n - 1) + {Ref(id, n - 1)}
  }

  // ----- adding a partition

  lemma RefsOneMore(c: Corpus, id: string, docs: seq<Document>)
    requires id !in c
    ensures |Refs(c[id := docs])| == |Refs(c)| + |docs|
  {
    hide Refs;
    var mine := FirstRefs(id, |docs|);
    assert Refs(c[id := docs]) == Refs(c) + mine;
    assert Refs(c) !! mine;
  }

  lemma HoldersOneMore(c: Corpus, id: string, docs: seq<Document>, t: Token)
    requires id !in c
    ensures Holders(c[id := docs], t) == Holders(c, t) + PartHolders(id, docs, t)
  {
    hide Holds;
    var more := c[id := docs];
    forall r ensures r in Holders(more, t) <==> r in Holders(c, t) || r in PartHolders(id, docs, t) {
      if r.partition != id && InCorpus(c, r) {
        assert At(more, r) == At(c, r);
      }
    }
  }

  // ----- the loops

  /** One field's postings have been added to the document sets. */
  ghost predicate FieldAdded(sets: DocSets, sets': DocSets, id: string, postings: Postings) {
    && NoEmptySets(sets')
    && forall t :: SetFor(sets', t) == SetFor(sets, t) + RefsTo(id, Posting(postings, t).Keys)
  }

  method AddPostings(sets: DocSets, id: string, postings: Postings) returns (sets': DocSets)
    requires NoEmptySets(sets) && NoZeros(postings)
    ensures FieldAdded(sets, sets', id, postings)
  {
    sets' := sets;
    var rest := postings.Keys;
    while rest != {}
      invariant rest <= postings.Keys
      invariant NoEmptySets(sets')
      invariant forall t | t in rest :: SetFor(sets', t) == SetFor(sets, t)
      invariant forall t | t !in rest :: SetFor(sets', t) == SetFor(sets, t) + RefsTo(id, Posting(postings, t).Keys)
      decreases rest
    {
      var t :| t in rest;
      var d :| d in postings[t];
      var refs := RefsTo(id, postings[t].Keys);
      assert Ref(id, d) in refs;
      sets' := sets'[t := SetFor(sets', t) + refs];
      rest := rest - {t};
    }
  }

  /** A whole partition has been added: each document once, whichever fields hold the token. */
  ghost predicate PartitionAdded(sets: DocSets, sets': DocSets, id: string, docs: seq<Document>) {
    && NoEmptySets(sets')
    && forall t :: SetFor(sets', t) == SetFor(sets, t) + PartHolders(id, docs, t)
  }

  lemma FieldPostingsAreHolders(p: Partition, f: Field, t: Token)
    requires Built(p, p.serverId, p.docs)
    ensures RefsTo(p.serverId, Posting(IndexOf(p, f).postings, t).Keys) == FieldHolders(p.serverId, p.docs, f, t)
  {
    forall r: Ref
      ensures r.index in Posting(IndexOf(p, f).postings, t) <==>
              r.index < |p.docs| && t in FieldTokens(p.docs[r.index], f)
    {
      PostingIsHeld(IndexOf(p, f), p.docs, f, t, r.index);
    }
    hide FieldTokens, Posting, Built;
  }

  lemma HoldersAreInSomeField(id: string, docs: seq<Document>, t: Token)
    ensures PartHolders(id, docs, t) ==
            FieldHolders(id, docs, Name, t) + FieldHolders(id, docs, Title, t) +
            FieldHolders(id, docs, Description, t) + FieldHolders(id, docs, Tags, t)
  {
    hide FieldTokens;
    forall r | r in PartHolders(id, docs, t)
      ensures r in FieldHolders(id, docs, Name, t) + FieldHolders(id, docs, Title, t) +
                   FieldHolders(id, docs, Description, t) + FieldHolders(id, docs, Tags, t)
    {
      var f: Field :| t in FieldTokens(docs[r.index], f);
      assert f == Name || f == Title || f == Description || f == Tags;
    }
  }

  lemma FourFieldsMakeAPartition(s0: DocSets, s1: DocSets, s2: DocSets, s3: DocSets, s4: DocSets, p: Partition)
    requires Built(p, p.serverId, p.docs)
    requires FieldAdded(s0, s1, p.serverId, IndexOf(p, Name).postings)
    requires FieldAdded(s1, s2, p.serverId, IndexOf(p, Title).postings)
    requires FieldAdded(s2, s3, p.serverId, IndexOf(p, Description).postings)
    requires FieldAdded(s3, s4, p.serverId, IndexOf(p, Tags).postings)
    ensures PartitionAdded(s0, s4, p.serverId, p.docs)
  {
    hide Built, PartHolders, FieldHolders, Posting, SetFor, RefsTo, IndexOf;
    forall t ensures SetFor(s4, t) == SetFor(s0, t) + PartHolders(p.serverId, p.docs, t) {
      FieldPostingsAreHolders(p, Name, t);
      FieldPostingsAreHolders(p, Title, t);
      FieldPostingsAreHolders(p, Description, t);
      FieldPostingsAreHolders(p, Tags, t);
      HoldersAreInSomeField(p.serverId, p.docs, t);
      UnionOfFour(SetFor(s0, t), FieldHolders(p.serverId, p.docs, Name, t), FieldHolders(p.serverId, p.docs, Title, t),
                  FieldHolders(p.serverId, p.docs, Description, t), FieldHolders(p.serverId, p.docs, Tags, t));
    }
  }

  lemma UnionOfFour<T>(x: set<T>, a: set<T>, b: set<T>, c: set<T>, d: set<T>)
    ensures x + a + b + c + d == x + (a + b + c + d)
  {}

  method AddPartitionPostings(sets: DocSets, p: Partition) returns (sets': DocSets)
    requires NoEmptySets(sets) && Built(p, p.serverId, p.docs)
    ensures PartitionAdded(sets, sets', p.serverId, p.docs)
  {
    assert forall f: Field :: Indexes(IndexOf(p, f), p.docs, f) && NoZeros(IndexOf(p, f).postings);
    assert NoZeros(IndexOf(p, Name).postings) && NoZeros(IndexOf(p, Title).postings);
    assert NoZeros(IndexOf(p, Description).postings) && NoZeros(IndexOf(p, Tags).postings);
    hide Built, PartitionAdded, NoZeros, Indexes;
    var s1 := AddPostings(sets, p.serverId, p.name.postings);
    var s2 := AddPostings(s1, p.serverId, p.title.postings);
    var s3 := AddPostings(s2, p.serverId, p.description.postings);
    sets' := AddPostings(s3, p.serverId, p.tags.postings);
    FourFieldsMakeAPartition(sets, s1, s2, s3, sets', p);
  }

  /** The sets hold, for every token, exactly the documents of the corpus that hold it. */
  ghost predicate Collected(sets: DocSets, c: Corpus) {
    NoEmptySets(sets) && forall t :: SetFor(sets, t) == Holders(c, t)
  }

  lemma CollectedOneMore(sets: DocSets, sets': DocSets, c: Corpus, id: string, docs: seq<Document>)
    requires id !in c && Collected(sets, c) && PartitionAdded(sets, sets', id, docs)
    ensures Collected(sets', c[id := docs])
  {
    hide Holders, PartHolders, SetFor;
    forall t ensures SetFor(sets', t) == Holders(c[id := docs], t) {
      HoldersOneMore(c, id, docs, t);
    }
  }

  method RecomputeGlobalIDF(log: real -> real, partitions: Partitions) returns (idf: map<Token, real>)
    requires AllBuilt(partitions)
    ensures IsIdfTable(log, CorpusOf(partitions), idf)
  {
    var totalDocs := 0;
    var sets: DocSets := map[];
    var rest := partitions.Keys;
    ghost var seen: Corpus := map[];
    while rest != {}
      invariant rest <= partitions.Keys
      invariant seen == CorpusOf(partitions - rest)
      invariant totalDocs == |Refs(seen)|
      invariant Collected(sets, seen)
      decreases rest
    {
      var id :| id in rest;
      var p := partitions[id];
      assert Built(p, id, p.docs);
      hide Built, Refs, PartitionAdded;
      totalDocs := totalDocs + |p.docs|;
      var sets' := AddPartitionPostings(sets, p);
      CollectedOneMore(sets, sets', seen, id, p.docs);
      hide Collected;
      RefsOneMore(seen, id, p.docs);
      sets := sets';
      seen := seen[id := p.docs];
      assert seen == CorpusOf(partitions - (rest - {id}));
      rest := rest - {id};
    }
    assert partitions - rest == partitions;
    idf := map t | t in sets :: log(Rarity(totalDocs, |sets[t]|));
    TableIsRight(log, sets, CorpusOf(partitions), idf);
  }

  lemma TableIsRight(log: real -> real, sets: DocSets, c: Corpus, idf: map<Token, real>)
    requires Collected(sets, c)
    requires idf == map t | t in sets :: log(Rarity(|Refs(c)|, |sets[t]|))
    ensures IsIdfTable(log, c, idf)
  {
    hide Holders, Refs, Rarity;
    forall t ensures (t in idf <==> Holders(c, t) != {}) && (t in idf ==> idf[t] == Idf(log, c, t)) {
      assert SetFor(sets, t) == Holders(c, t);
    }
  }
}
