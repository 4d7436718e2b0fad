/**
 Inverted indexes.  A partition keeps, for each of the four fields, a posting
 list per token; the posting of a token for a document is the number of times
 the token occurs in that field of that document.
 */
module Bm25Postings {
  import opened Tokens

  datatype Document = Document(key: string, name: string, title: string, description: string, tags: seq<string>)

  datatype Field = Name | Title | Description | Tags

  type Postings = map<Token, map<nat, nat>>

  datatype FieldIndex = FieldIndex(postings: Postings, docLens: seq<nat>, avgDocLen: real)

  datatype Partition = Partition(
    serverId: string, docs: seq<Document>,
    name: FieldIndex, title: FieldIndex, description: FieldIndex, tags: FieldIndex)

  function IndexOf(p: Partition, f: Field): FieldIndex {
    match f
    case Name => p.name
    case Title => p.title
    case Description => p.description
    case Tags => p.tags
  }

  // ----- what a document holds

  function TagTokens(tags: seq<string>): seq<Token> {
    if tags == [] then [] else TagTokens(tags[..|tags| - 1]) + Tokenize(tags[|tags| - 1])
  }

  function FieldTokens(doc: Document, f: Field): seq<Token> {
    match f
    case Name => Tokenize(doc.name)
    case Title => Tokenize(doc.title)
    case Description => Tokenize(doc.description)
    case Tags => TagTokens(doc.tags)
  }

  function Count(tokens: seq<Token>, t: Token): nat {
    if tokens == [] then 0
    else Count(tokens[..|tokens| - 1], t) + if tokens[|tokens| - 1] == t then 1 else 0
  }

  lemma {:induction false} CountIsPositiveIfHeld(tokens: seq<Token>, t: Token)
    ensures Count(tokens, t) > 0 <==> t in tokens
  {
    if tokens != [] {
      CountIsPositiveIfHeld(tokens[..|tokens| - 1], t);
      assert tokens == tokens[..|tokens| - 1] + [tokens[|tokens| - 1]];
    }
  }

  function TotalLength(docs: seq<Document>, f: Field): nat {
    if docs == [] then 0 else TotalLength(docs[..|docs| - 1], f) + |FieldTokens(docs[|docs| - 1], f)|
  }

  function AverageLength(docs: seq<Document>, f: Field): real {
    if docs == [] then 0.0 else TotalLength(docs, f) as real / |docs| as real
  }

  // ----- what an index holds

  function Frequency(postings: Postings, t: Token, d: nat): nat {
    if t in postings && d in postings[t] then postings[t][d] else 0
  }

  /** No empty posting list and no zero entry. */
  predicate NoZeros(postings: Postings) {
    forall t | t in postings :: postings[t] != map[] && forall d | d in postings[t] :: postings[t][d] > 0
  }

  /** The postings of the first n documents are their token counts. */
  ghost predicate Posted(postings: Postings, docs: seq<Document>, f: Field, n: nat)
    requires n <= |docs|
  {
    && NoZeros(postings)
    && forall t: Token, d: nat ::
         Frequency(postings, t, d) == if d < n then Count(FieldTokens(docs[d], f), t) else 0
  }

  ghost predicate Measured(lens: seq<nat>, docs: seq<Document>, f: Field, n: nat)
    requires n <= |docs|
  {
    |lens| == |docs| && forall d | 0 <= d < n :: lens[d] == |FieldTokens(docs[d], f)|
  }

  ghost predicate Indexes(fi: FieldIndex, docs: seq<Document>, f: Field) {
    && Posted(fi.postings, docs, f, |docs|)
    && Measured(fi.docLens, docs, f, |docs|)
    && fi.avgDocLen == AverageLength(docs, f)
  }

  /** A partition whose four indexes describe exactly its documents. */
  ghost predicate Built(p: Partition, serverId: string, docs: seq<Document>) {
    p.serverId == serverId && p.docs == docs && forall f: Field :: Indexes(IndexOf(p, f), docs, f)
  }

  // ----- building

  function Posting(postings: Postings, t: Token): map<nat, nat> {
    if t in postings then postings[t] else map[]
  }

  function Incremented(postings: Postings, t: Token, d: nat): Postings {
    postings[t := Posting(postings, t)[d := Frequency(postings, t, d) + 1]]
  }

  lemma IncrementedCounts(postings: Postings, t: Token, d: nat)
    requires NoZeros(postings)
    ensures NoZeros(Incremented(postings, t, d))
    ensures forall t', d' :: Frequency(Incremented(postings, t, d), t', d') ==
                             Frequency(postings, t', d') + if t' == t && d' == d then 1 else 0
  {
    assert d in Incremented(postings, t, d)[t];
  }

  method IndexField(fi: FieldIndex, docIdx: nat, tokens: seq<Token>) returns (fi': FieldIndex)
    requires docIdx < |fi.docLens| && NoZeros(fi.postings)
    ensures fi'.docLens == fi.docLens[docIdx := |tokens|] && fi'.avgDocLen == fi.avgDocLen
    ensures NoZeros(fi'.postings)
    ensures forall t, d :: Frequency(fi'.postings, t, d) ==
                           Frequency(fi.postings, t, d) + if d == docIdx then Count(tokens, t) else 0
  {
    var postings := fi.postings;
    assert tokens[..0] == [];
    assert forall t :: Count(tokens[..0], t) == 0;
    for i := 0 to |tokens|
      invariant NoZeros(postings)
      invariant forall t, d :: Frequency(postings, t, d) ==
                               Frequency(fi.postings, t, d) + if d == docIdx then Count(tokens[..i], t) else 0
    {
      CountSnoc(tokens, i);
      IncrementedCounts(postings, tokens[i], docIdx);
      hide Frequency, NoZeros, Count, Incremented;
      postings := Incremented(postings, tokens[i], docIdx);
    }
    assert tokens[..|tokens|] == tokens;
    fi' := fi.(postings := postings, docLens := fi.docLens[docIdx := |tokens|]);
  }

  lemma CountSnoc(tokens: seq<Token>, i: nat)
    requires i < |tokens|
    ensures forall t :: Count(tokens[..i + 1], t) == Count(tokens[..i], t) + if t == tokens[i] then 1 else 0
  {
    assert tokens[..i + 1][..i] == tokens[..i];
  }

  method CollectTagTokens(tags: seq<string>) returns (tokens: seq<Token>)
    ensures tokens == TagTokens(tags)
  {
    tokens := [];
    for i := 0 to |tags|
      invariant tokens == TagTokens(tags[..i])
    {
      assert tags[..i + 1][..i] == tags[..i];
      tokens := tokens + Tokenize(tags[i]);
    }
    assert tags[..|tags|] == tags;
  }

  /** The index describes the first n documents; the average is not known yet. */
  ghost predicate Covers(fi: FieldIndex, docs: seq<Document>, f: Field, n: nat)
    requires n <= |docs|
  {
    Posted(fi.postings, docs, f, n) && Measured(fi.docLens, docs, f, n) && fi.avgDocLen == 0.0
  }

  method IndexDocument(fi: FieldIndex, docs: seq<Document>, d: nat, ghost f: Field, tokens: seq<Token>)
    returns (fi': FieldIndex)
    requires d < |docs| && tokens == FieldTokens(docs[d], f) && Covers(fi, docs, f, d)
    ensures Covers(fi', docs, f, d + 1)
  {
    hide FieldTokens, Count, Frequency, NoZeros;
    fi' := IndexField(fi, d, tokens);
  }

  method NewFieldIndex(docs: seq<Document>, ghost f: Field) returns (fi: FieldIndex)
    ensures Covers(fi, docs, f, 0)
  {
    fi := FieldIndex(map[], seq(|docs|, _ => 0), 0.0);
  }

  method ComputeAvgDocLen(fi: FieldIndex, ghost docs: seq<Document>, ghost f: Field) returns (fi': FieldIndex)
    requires Covers(fi, docs, f, |docs|)
    ensures Indexes(fi', docs, f)
  {
    if |fi.docLens| == 0 {
      return fi;
    }
    var total := 0;
    for d := 0 to |fi.docLens|
      invariant total == TotalLength(docs[..d], f)
    {
      assert docs[..d + 1][..d] == docs[..d];
      total := total + fi.docLens[d];
    }
    assert docs[..|docs|] == docs;
    fi' := fi.(avgDocLen := total as real / |fi.docLens| as real);
  }

  method BuildPartition(serverId: string, docs: seq<Document>) returns (p: Partition)
    ensures Built(p, serverId, docs)
  {
    hide Covers, Indexes, Tokenize, TagTokens;
    var name := NewFieldIndex(docs, Name);
    var title := NewFieldIndex(docs, Title);
    var description := NewFieldIndex(docs, Description);
    var tags := NewFieldIndex(docs, Tags);
    for d := 0 to |docs|
      invariant Covers(name, docs, Name, d) && Covers(title, docs, Title, d)
      invariant Covers(description, docs, Description, d) && Covers(tags, docs, Tags, d)
    {
      name := IndexDocument(name, docs, d, Name, Tokenize(docs[d].name));
      title := IndexDocument(title, docs, d, Title, Tokenize(docs[d].title));
      description := IndexDocument(description, docs, d, Description, Tokenize(docs[d].description));
      var tagTokens := CollectTagTokens(docs[d].tags);
      tags := IndexDocument(tags, docs, d, Tags, tagTokens);
    }
    name := ComputeAvgDocLen(name, docs, Name);
    title := ComputeAvgDocLen(title, docs, Title);
    description := ComputeAvgDocLen(description, docs, Description);
    tags := ComputeAvgDocLen(tags, docs, Tags);
    p := Partition(serverId, docs, name, title, description, tags);
  }
}
