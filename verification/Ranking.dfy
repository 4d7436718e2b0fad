/**
 Search results in order: by descending score, then by ascending key.  Whatever
 order a score map is walked in, it has exactly one such listing.
 */
module Ranking {
  datatype Scored = Scored(key: string, score: real)

  type Scores = map<string, real>

  /** Lexicographic order on keys. */
  predicate KeyLess(a: string, b: string) {
    b != [] && (a == [] || a[0] < b[0] || (a[0] == b[0] && KeyLess(a[1..], b[1..])))
  }

  predicate Before(x: Scored, y: Scored) {
    if x.score != y.score then x.score > y.score else KeyLess(x.key, y.key)
  }

  predicate Sorted(list: seq<Scored>) {
    forall i, j | 0 <= i < j < |list| :: Before(list[i], list[j])
  }

  // ----- the order

  lemma {:induction false} KeyLessAsymmetric(a: string, b: string)
    requires KeyLess(a, b)
    ensures !KeyLess(b, a)
  {
    if a != [] && a[0] == b[0] { KeyLessAsymmetric(a[1..], b[1..]); }
  }

  lemma {:induction false} KeyLessTransitive(a: string, b: string, c: string)
    requires KeyLess(a, b) && KeyLess(b, c)
    ensures KeyLess(a, c)
  {
    if a != [] && a[0] == b[0] && b[0] == c[0] { KeyLessTransitive(a[1..], b[1..], c[1..]); }
  }

  lemma {:induction false} KeyLessTotal(a: string, b: string)
    ensures a == b || KeyLess(a, b) || KeyLess(b, a)
  {
    if a != [] && b != [] && a[0] == b[0] {
      KeyLessTotal(a[1..], b[1..]);
      assert a == [a[0]] + a[1..] && b == [b[0]] + b[1..];
    }
  }

  /** A key precedes those it is a proper start of, and otherwise the smaller first
      difference decides. */
  lemma {:induction false} KeyLessMeans(a: string, b: string)
    ensures KeyLess(a, b) <==>
            exists n: nat :: n <= |a| && n < |b| && a[..n] == b[..n] && (n == |a| || a[n] < b[n])
  {
    if a != [] && b != [] && a[0] == b[0] {
      KeyLessMeans(a[1..], b[1..]);
      if KeyLess(a, b) {
        var n: nat :| n <= |a[1..]| && n < |b[1..]| && a[1..][..n] == b[1..][..n]
                      && (n == |a[1..]| || a[1..][n] < b[1..][n]);
        assert a[..n + 1] == [a[0]] + a[1..][..n] && b[..n + 1] == [b[0]] + b[1..][..n];
      }
      if n: nat :| n <= |a| && n < |b| && a[..n] == b[..n] && (n == |a| || a[n] < b[n]) {
        assert n > 0;
        assert a[1..][..n - 1] == a[..n][1..] && b[1..][..n - 1] == b[..n][1..];
      }
    } else if b != [] {
      assert a[..0] == b[..0];
      if n: nat :| n <= |a| && n < |b| && a[..n] == b[..n] && (n == |a| || a[n] < b[n]) {
        if a != [] && n > 0 { assert a[..n][0] == b[..n][0]; }
      }
    }
  }

  lemma BeforeAsymmetric(x: Scored, y: Scored)
    requires Before(x, y)
    ensures !Before(y, x)
  {
    if x.score == y.score { KeyLessAsymmetric(x.key, y.key); }
  }

  lemma BeforeTransitive(x: Scored, y: Scored, z: Scored)
    requires Before(x, y) && Before(y, z)
    ensures Before(x, z)
  {
    if x.score == y.score == z.score { KeyLessTransitive(x.key, y.key, z.key); }
  }

  // ----- rankings

  predicate ListsExactly(scores: Scores, list: seq<Scored>) {
    && (forall i | 0 <= i < |list| :: list[i].key in scores && scores[list[i].key] == list[i].score)
    && (forall key | key in scores :: Scored(key, scores[key]) in list)
  }

  predicate IsRanking(scores: Scores, list: seq<Scored>) {
    ListsExactly(scores, list) && Sorted(list)
  }

  /** A strictly sorted list is determined by its elements. */
  lemma {:induction false} SortedIsUnique(a: seq<Scored>, b: seq<Scored>)
    requires Sorted(a) && Sorted(b)
    requires (forall x | x in a :: x in b) && (forall x | x in b :: x in a)
    ensures a == b
  {
    if a == [] {
      HasAnElement(b);
    } else {
      assert a[0] in b;
      SameHead(a, b);
      SameTail(a, b);
      SameTail(b, a);
      SortedIsUnique(a[1..], b[1..]);
      assert a == [a[0]] + a[1..] && b == [b[0]] + b[1..];
    }
  }

  lemma HasAnElement(a: seq<Scored>)
    ensures a == [] || exists x :: x in a
  {
    if a != [] { assert a[0] in a; }
  }

  lemma SameHead(a: seq<Scored>, b: seq<Scored>)
    requires Sorted(a) && Sorted(b) && a != [] && b != []
    requires a[0] in b && b[0] in a
    ensures a[0] == b[0]
  {
    var i :| 0 <= i < |a| && a[i] == b[0];
    var j :| 0 <= j < |b| && b[j] == a[0];
    if i > 0 && j > 0 { BeforeAsymmetric(a[0], a[i]); }
  }

  lemma SameTail(a: seq<Scored>, b: seq<Scored>)
    requires Sorted(a) && Sorted(b) && a != [] && b != [] && a[0] == b[0]
    requires forall x | x in a :: x in b
    ensures forall x | x in a[1..] :: x in b[1..]
  {
    forall x | x in a[1..] ensures x in b[1..] {
      var i :| 1 <= i < |a| && a[i] == x;
      BeforeAsymmetric(a[0], a[i]);
      assert x in b;
      var j :| 0 <= j < |b| && b[j] == x;
      assert b[1..][j - 1] == x;
    }
  }

  /** There is only one ranking of a score map. */
  lemma RankingIsUnique(scores: Scores, a: seq<Scored>, b: seq<Scored>)
    requires IsRanking(scores, a) && IsRanking(scores, b)
    ensures a == b
  {
    ListedTwice(scores, a, b);
    ListedTwice(scores, b, a);
    SortedIsUnique(a, b);
  }

  lemma ListedTwice(scores: Scores, a: seq<Scored>, b: seq<Scored>)
    requires ListsExactly(scores, a) && ListsExactly(scores, b)
    ensures forall x | x in a :: x in b
  {
    forall x | x in a ensures x in b {
      assert x == Scored(x.key, scores[x.key]);
    }
  }

  // ----- sorting

  function Insert(list: seq<Scored>, x: Scored): seq<Scored> {
    if list == [] || Before(x, list[0]) then [x] + list else [list[0]] + Insert(list[1..], x)
  }

  lemma {:induction false} InsertHolds(list: seq<Scored>, x: Scored)
    ensures forall y :: y in Insert(list, x) <==> y == x || y in list
  {
    if list != [] && !Before(x, list[0]) {
      InsertHolds(list[1..], x);
      assert list == [list[0]] + list[1..];
    }
  }

  lemma {:induction false} InsertSorts(list: seq<Scored>, x: Scored)
    requires Sorted(list) && forall y | y in list :: y.key != x.key
    ensures Sorted(Insert(list, x))
  {
    if list != [] {
      assert list == [list[0]] + list[1..];
      assert list[0] in list;
      if Before(x, list[0]) {
        forall j | 0 <= j < |list| ensures Before(x, list[j]) {
          if j > 0 { BeforeTransitive(x, list[0], list[j]); }
        }
      } else {
        KeyLessTotal(x.key, list[0].key);
        InsertSorts(list[1..], x);
        InsertHolds(list[1..], x);
        var rest := Insert(list[1..], x);
        forall j | 0 <= j < |rest| ensures Before(list[0], rest[j]) {
          assert rest[j] in rest;
        }
      }
    }
  }

  predicate DistinctKeys(list: seq<Scored>) {
    forall i, j | 0 <= i < j < |list| :: list[i].key != list[j].key
  }

  function Sort(list: seq<Scored>): seq<Scored> {
    if list == [] then [] else Insert(Sort(list[..|list| - 1]), list[|list| - 1])
  }

  lemma {:induction false} SortSorts(list: seq<Scored>)
    requires DistinctKeys(list)
    ensures Sorted(Sort(list))
    ensures forall x :: x in Sort(list) <==> x in list
  {
    if list != [] {
      var init, last := list[..|list| - 1], list[|list| - 1];
      assert list == init + [last];
      SortSorts(init);
      InsertSorts(Sort(init), last);
      InsertHolds(Sort(init), last);
    }
  }

  lemma SortRanks(scores: Scores, list: seq<Scored>)
    requires DistinctKeys(list) && ListsExactly(scores, list)
    ensures IsRanking(scores, Sort(list))
  {
    SortSorts(list);
    var sorted := Sort(list);
    assert forall i | 0 <= i < |sorted| :: sorted[i] in sorted;
  }

  /** Collects a score map in any order, then sorts. */
  method Rank(scores: Scores) returns (results: seq<Scored>)
    ensures results == Ranked(scores)
  {
    results := [];
    var rest := scores.Keys;
    while rest != {}
      invariant rest <= scores.Keys
      invariant DistinctKeys(results)
      invariant forall i | 0 <= i < |results| ::
                  results[i].key in scores && results[i].key !in rest && scores[results[i].key] == results[i].score
      invariant forall key | key in scores && key !in rest :: Scored(key, scores[key]) in results
      decreases rest
    {
      var key :| key in rest;
      results := results + [Scored(key, scores[key])];
      rest := rest - {key};
    }
    SortRanks(scores, results);
    results := Sort(results);
    RankingIsUnique(scores, results, Ranked(scores));
  }

  ghost function Collected(scores: Scores): seq<Scored>
    decreases |scores|
  {
    if scores == map[] then []
    else
      var key :| key in scores;
      Collected(scores - {key}) + [Scored(key, scores[key])]
  }

  lemma {:induction false} CollectedLists(scores: Scores)
    ensures DistinctKeys(Collected(scores)) && ListsExactly(scores, Collected(scores))
    decreases |scores|
  {
    if scores != map[] {
      var key :| key in scores && Collected(scores) == Collected(scores - {key}) + [Scored(key, scores[key])];
      CollectedLists(scores - {key});
      hide Collected;
      OneMoreListed(scores, key, Collected(scores - {key}));
    }
  }

  lemma OneMoreListed(scores: Scores, key: string, list: seq<Scored>)
    requires key in scores
    requires DistinctKeys(list) && ListsExactly(scores - {key}, list)
    ensures DistinctKeys(list + [Scored(key, scores[key])])
    ensures ListsExactly(scores, list + [Scored(key, scores[key])])
  {
    forall k | k in scores ensures Scored(k, scores[k]) in list + [Scored(key, scores[key])] {
      if k != key { assert k in scores - {key}; }
    }
  }

  /** The ranking of a score map. */
  ghost function Ranked(scores: Scores): (list: seq<Scored>)
    ensures IsRanking(scores, list)
  {
    CollectedLists(scores);
    SortRanks(scores, Collected(scores));
    Sort(Collected(scores))
  }

  lemma RankedSorted(scores: Scores)
    ensures Sorted(Ranked(scores))
  {}

  lemma RankedOnce(scores: Scores)
    ensures DistinctKeys(Ranked(scores))
  {
    var list := Ranked(scores);
    forall i, j | 0 <= i < j < |list| ensures list[i].key != list[j].key {
      assert Before(list[i], list[j]);
      if list[i].key == list[j].key { BeforeAsymmetric(list[i], list[j]); }
    }
  }

  predicate Listed(list: seq<Scored>, key: string) {
    exists i :: 0 <= i < |list| && list[i].key == key
  }

  lemma RankedLists(scores: Scores, key: string)
    ensures Listed(Ranked(scores), key) <==> key in scores
  {
    if key in scores { assert Scored(key, scores[key]) in Ranked(scores); }
  }

  // ----- truncation

  function Limited(list: seq<Scored>, limit: int): seq<Scored> {
    if 0 < limit < |list| then list[..limit] else list
  }

  /** The best of a ranking: as many as the limit asks for, all when it asks for none,
      and each of them scores more than any left out, or as much with a smaller key. */
  ghost predicate BestOf(all: seq<Scored>, limit: int, results: seq<Scored>) {
    && results <= all
    && |results| == (if 0 < limit < |all| then limit else |all|)
    && forall i, j | 0 <= i < |results| <= j < |all| ::
         all[i].score > all[j].score || (all[i].score == all[j].score && KeyLess(all[i].key, all[j].key))
  }

  lemma LimitedIsBest(list: seq<Scored>, limit: int)
    requires Sorted(list)
    ensures BestOf(list, limit, Limited(list, limit))
  {
    hide KeyLess;
    forall i, j | 0 <= i < |Limited(list, limit)| <= j < |list| ensures Before(list[i], list[j]) {
    }
  }

  ghost function KeysOf(list: seq<Scored>): (keys: set<string>)
    ensures forall key :: key in keys <==> Listed(list, key)
  {
    set i | 0 <= i < |list| :: list[i].key
  }

  lemma {:induction false} KeysOfCounts(list: seq<Scored>)
    requires DistinctKeys(list)
    ensures |KeysOf(list)| == |list|
  {
    if list == [] {
      assert KeysOf(list) == {};
    } else {
      var init, last := list[..|list| - 1], list[|list| - 1];
      KeysOfCounts(init);
      assert !Listed(init, last.key);
      assert KeysOf(list) == KeysOf(init) + {last.key} by {
        assert forall i | 0 <= i < |init| :: list[i] == init[i];
      }
    }
  }

  /** A ranking has one place for every scored key. */
  lemma RankedCounts(scores: Scores)
    ensures |Ranked(scores)| == |scores|
  {
    RankedOnce(scores);
    KeysOfCounts(Ranked(scores));
    forall key ensures key in KeysOf(Ranked(scores)) <==> key in scores.Keys {
      RankedLists(scores, key);
    }
    hide Ranked;
    assert KeysOf(Ranked(scores)) == scores.Keys;
  }
}
