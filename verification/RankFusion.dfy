/**
 Reciprocal rank fusion: merging the lexical and the semantic ranking.  A key
 earns 1 / (60 + rank + 1) from each list it appears in.
 */
module RankFusion {
  import opened Ranking
  import opened Totals

  const RRF_K: nat := 60

  function Reciprocal(rank: nat): real {
    1.0 / (RRF_K + rank + 1) as real
  }

  function Keys(list: seq<Scored>): set<string> {
    set x | x in list :: x.key
  }

  /** What a list gives a key, summed over all its occurrences. */
  function Contribution(list: seq<Scored>, key: string): real {
    if list == [] then 0.0
    else
      Contribution(list[..|list| - 1], key) +
      if list[|list| - 1].key == key then Reciprocal(|list| - 1) else 0.0
  }

  function Fused(a: seq<Scored>, b: seq<Scored>): Scores {
    map key | key in Keys(a) + Keys(b) :: Contribution(a, key) + Contribution(b, key)
  }


  lemma {:induction false} AbsentGivesNothing(list: seq<Scored>, key: string)
    requires key !in Keys(list)
    ensures Contribution(list, key) == 0.0
  {
    if list != [] {
      assert list[|list| - 1] in list;
      assert forall x | x in list[..|list| - 1] :: x in list;
      AbsentGivesNothing(list[..|list| - 1], key);
    }
  }

  lemma KeysSnoc(list: seq<Scored>, x: Scored)
    ensures Keys(list + [x]) == Keys(list) + {x.key}
  {
    assert forall y :: y in list + [x] <==> y in list || y == x;
  }

  lemma ContributionSnoc(list: seq<Scored>, x: Scored)
    ensures forall key :: Contribution(list + [x], key) ==
                          Contribution(list, key) + if key == x.key then Reciprocal(|list|) else 0.0
  {
    assert (list + [x])[..|list|] == list;
  }

  lemma FusedSnoc(a: seq<Scored>, b: seq<Scored>, x: Scored)
    ensures Fused(a, b + [x]) == Bumped(Fused(a, b), x.key, Reciprocal(|b|))
  {
    hide Keys, Reciprocal, Contribution;
    KeysSnoc(b, x);
    ContributionSnoc(b, x);
    if x.key !in Keys(a) + Keys(b) {
      AbsentGivesNothing(a, x.key);
      AbsentGivesNothing(b, x.key);
    }
  }

  /** Swapping the two lists changes nothing. */
  lemma FusionIsSymmetric(a: seq<Scored>, b: seq<Scored>)
    ensures Ranked(Fused(a, b)) == Ranked(Fused(b, a))
  {
    assert Fused(a, b) == Fused(b, a);
  }

  method FuseRRF(a: seq<Scored>, b: seq<Scored>) returns (results: seq<Scored>)
    ensures results == Ranked(Fused(a, b))
  {
    var scores: Scores := map[];
    assert Fused([], []) == map[] && Fused([], a) == Fused(a, []);
    hide Fused, Contribution, Keys, Bumped, Ranked;
    for rank := 0 to |a|
      invariant scores == Fused([], a[..rank])
    {
      FusedSnoc([], a[..rank], a[rank]);
      assert a[..rank + 1] == a[..rank] + [a[rank]];
      scores := Bumped(scores, a[rank].key, Reciprocal(rank));
    }
    assert a[..|a|] == a;
    for rank := 0 to |b|
      invariant scores == Fused(a, b[..rank])
    {
      FusedSnoc(a, b[..rank], b[rank]);
      assert b[..rank + 1] == b[..rank] + [b[rank]];
      scores := Bumped(scores, b[rank].key, Reciprocal(rank));
    }
    assert b[..|b|] == b;
    results := Rank(scores);
  }

  // ----- what a fused ranking says

  /** Every key of either list is in the result once, and no other. */
  lemma FusionListsTheUnion(a: seq<Scored>, b: seq<Scored>)
    ensures DistinctKeys(Ranked(Fused(a, b)))
    ensures Keys(Ranked(Fused(a, b))) == Keys(a) + Keys(b)
    ensures |Ranked(Fused(a, b))| == |Keys(a) + Keys(b)|
  {
    var scores := Fused(a, b);
    RankedOnce(scores);
    RankedCounts(scores);
    assert scores.Keys == Keys(a) + Keys(b);
    forall key | key in scores ensures key in Keys(Ranked(scores)) {
      assert Scored(key, scores[key]) in Ranked(scores);
    }
  }

  lemma {:induction false} ContributionAt(list: seq<Scored>, i: nat)
    requires DistinctKeys(list) && i < |list|
    ensures Contribution(list, list[i].key) == Reciprocal(i)
  {
    var init := list[..|list| - 1];
    if i == |list| - 1 {
      assert list[i].key !in Keys(init) by {
        assert forall j | 0 <= j < |init| :: init[j].key != list[i].key;
      }
      AbsentGivesNothing(init, list[i].key);
    } else {
      ContributionAt(init, i);
    }
  }

  /** A first place earns 1/61, a second 1/62, and so on. */
  lemma PlaceEarns(list: seq<Scored>, i: nat)
    requires DistinctKeys(list) && i < |list|
    ensures Contribution(list, list[i].key) == 1.0 / (61 + i) as real
  {
    ContributionAt(list, i);
  }

  ghost predicate RanksBetter(list: seq<Scored>, x: string, y: string) {
    exists i :: 0 <= i < |list| && list[i].key == x && forall j | 0 <= j <= i :: list[j].key != y
  }

  ghost predicate NoWorse(list: seq<Scored>, x: string, y: string) {
    RanksBetter(list, x, y) || (x !in Keys(list) && y !in Keys(list))
  }

  lemma ReciprocalFalls(i: nat, j: nat)
    requires i < j
    ensures Reciprocal(i) > Reciprocal(j) > 0.0
  {
    InverseFalls((RRF_K + i + 1) as real, (RRF_K + j + 1) as real);
  }

  lemma InverseFalls(p: real, q: real)
    requires 0.0 < p < q
    ensures 1.0 / p > 1.0 / q > 0.0
  {
    assert 1.0 / p - 1.0 / q == (q - p) / (p * q);
  }

  lemma BetterEarnsMore(list: seq<Scored>, x: string, y: string)
    requires DistinctKeys(list) && RanksBetter(list, x, y)
    ensures Contribution(list, x) > Contribution(list, y) && x in Keys(list)
  {
    var i: nat :| i < |list| && list[i].key == x && forall j | 0 <= j <= i :: list[j].key != y;
    ContributionAt(list, i);
    ReciprocalFalls(i, i + 1);
    assert list[i] in list;
    if y in Keys(list) {
      var at :| at in list && at.key == y;
      var j: nat :| j < |list| && list[j] == at;
      ContributionAt(list, j);
      ReciprocalFalls(i, j);
    } else {
      AbsentGivesNothing(list, y);
    }
  }

  lemma NoWorseEarnsNoLess(list: seq<Scored>, x: string, y: string)
    requires DistinctKeys(list) && NoWorse(list, x, y)
    ensures Contribution(list, x) >= Contribution(list, y)
  {
    if RanksBetter(list, x, y) {
      BetterEarnsMore(list, x, y);
    } else {
      AbsentGivesNothing(list, x);
      AbsentGivesNothing(list, y);
    }
  }

  /** A key no worse in both lists and better in one comes out ahead. */
  lemma DominatingKeyComesFirst(a: seq<Scored>, b: seq<Scored>, x: string, y: string)
    requires DistinctKeys(a) && DistinctKeys(b)
    requires NoWorse(a, x, y) && NoWorse(b, x, y) && (RanksBetter(a, x, y) || RanksBetter(b, x, y))
    ensures RanksBetter(Ranked(Fused(a, b)), x, y)
  {
    NoWorseEarnsNoLess(a, x, y);
    NoWorseEarnsNoLess(b, x, y);
    if RanksBetter(a, x, y) { BetterEarnsMore(a, x, y); } else { BetterEarnsMore(b, x, y); }
    HigherScoreComesFirst(Fused(a, b), x, y);
  }

  lemma HigherScoreComesFirst(scores: Scores, x: string, y: string)
    requires x in scores && (y in scores ==> scores[x] > scores[y])
    ensures RanksBetter(Ranked(scores), x, y)
  {
    var list := Ranked(scores);
    assert Scored(x, scores[x]) in list;
    var i :| 0 <= i < |list| && list[i] == Scored(x, scores[x]);
    forall j | 0 <= j <= i ensures list[j].key != y {
      assert j < i ==> Before(list[j], list[i]);
    }
  }
}
