/**
 Rendezvous hashing: a session goes to the candidate with the highest score.
 Scores come from a hash of the session and candidate identifiers.
 */
module SessionAffinity {
  import opened Common
  import opened Registry

  /** The position of the winner: the first candidate of maximal score. */
  function Winner<C>(candidates: seq<C>, score: C -> nat): (w: nat)
    requires candidates != []
    ensures w < |candidates|
  {
    var last := |candidates| - 1;
    if last == 0 then 0
    else
      var best := Winner(candidates[..last], score);
      if score(candidates[last]) > score(candidates[best]) then last else best
  }

  function Best<C>(candidates: seq<C>, score: C -> nat): C
    requires candidates != []
  {
    candidates[Winner(candidates, score)]
  }

  method Select(candidates: seq<Record>, session: string, hash: string -> nat, fallback: seq<Record> -> Option<Record>)
    returns (selected: Option<Record>)
    ensures selected == if candidates == [] then None
                        else if session == "" then fallback(candidates)
                        else Some(Best(candidates, (r: Record) => hash(session + r.id)))
  {
    if |candidates| == 0 {
      return None;
    }
    if session == "" {
      return fallback(candidates);
    }
    ghost var score := (r: Record) => hash(session + r.id);
    selected := None;
    var bestScore := 0;
    for i := 0 to |candidates|
      invariant i == 0 ==> selected.None?
      invariant i > 0 ==> selected == Some(Best(candidates[..i], score)) && bestScore == score(selected.value)
    {
      assert candidates[..i + 1][..i] == candidates[..i];
      var s := hash(session + candidates[i].id);
      if selected.None? || s > bestScore {
        bestScore := s;
        selected := Some(candidates[i]);
      }
    }
    assert candidates[..|candidates|] == candidates;
  }

  // ----- the winner

  /** Nobody scores more, and nobody before the winner scores as much. */
  lemma {:induction false} WinnerIsFirstMaximal<C>(candidates: seq<C>, score: C -> nat)
    requires candidates != []
    ensures var w := Winner(candidates, score);
            forall i | 0 <= i < |candidates| ::
              && score(candidates[i]) <= score(candidates[w])
              && (i < w ==> score(candidates[i]) < score(candidates[w]))
  {
    var last := |candidates| - 1;
    if last > 0 {
      var init := candidates[..last];
      WinnerIsFirstMaximal(init, score);
      assert forall i | 0 <= i < last :: candidates[i] == init[i];
    }
  }

  lemma BestIsMaximal<C>(candidates: seq<C>, score: C -> nat)
    requires candidates != []
    ensures Best(candidates, score) in candidates
    ensures forall c | c in candidates :: score(c) <= score(Best(candidates, score))
  {
    WinnerIsFirstMaximal(candidates, score);
  }

  // ----- removing candidates

  /** The candidates whose mark is set, in order. */
  function Kept<C>(candidates: seq<C>, marks: seq<bool>): seq<C>
    requires |marks| == |candidates|
  {
    if candidates == [] then []
    else
      var last := |candidates| - 1;
      Kept(candidates[..last], marks[..last]) + if marks[last] then [candidates[last]] else []
  }

  lemma {:induction false} KeptAreCandidates<C>(candidates: seq<C>, marks: seq<bool>)
    requires |marks| == |candidates|
    ensures forall c | c in Kept(candidates, marks) :: c in candidates
  {
    if candidates != [] {
      var last := |candidates| - 1;
      KeptAreCandidates(candidates[..last], marks[..last]);
      assert candidates == candidates[..last] + [candidates[last]];
    }
  }

  lemma WinnerSnoc<C>(init: seq<C>, x: C, score: C -> nat)
    ensures Winner(init + [x], score) ==
            if init == [] || score(x) > score(Best(init, score)) then |init| else Winner(init, score)
    ensures Best(init + [x], score) ==
            if init == [] || score(x) > score(Best(init, score)) then x else Best(init, score)
  {
    assert (init + [x])[..|init|] == init;
  }

  /** Whoever else goes away, the winner keeps the session. */
  lemma {:induction false} RemovalKeepsTheWinner<C>(candidates: seq<C>, marks: seq<bool>, score: C -> nat)
    requires candidates != [] && |marks| == |candidates| && marks[Winner(candidates, score)]
    ensures Kept(candidates, marks) != []
    ensures Best(Kept(candidates, marks), score) == Best(candidates, score)
  {
    var last := |candidates| - 1;
    var init, x, marks' := candidates[..last], candidates[last], marks[..last];
    var kept := Kept(init, marks');
    assert candidates == init + [x];
    WinnerSnoc(init, x, score);
    WinnerSnoc(kept, x, score);
    assert Kept(candidates, marks) == kept + if marks[last] then [x] else [];
    assert init == [] ==> kept == [];
    KeptAreCandidates(init, marks');
    hide Winner, Best, Kept;
    if init != [] {
      BestIsMaximal(init, score);
      if Winner(candidates, score) == last {
        if kept != [] { BestIsMaximal(kept, score); }
      } else {
        RemovalKeepsTheWinner(init, marks', score);
        assert kept + [] == kept;
      }
    }
  }

  // ----- adding a candidate

  function AllMarked(n: nat): (marks: seq<bool>)
    ensures |marks| == n && forall i | 0 <= i < n :: marks[i]
  {
    seq(n, _ => true)
  }

  lemma {:induction false} AllMarkedKeepsAll<C>(candidates: seq<C>, marks: seq<bool>)
    requires |marks| == |candidates| && forall i | 0 <= i < |marks| :: marks[i]
    ensures Kept(candidates, marks) == candidates
  {
    if candidates != [] {
      var last := |candidates| - 1;
      AllMarkedKeepsAll(candidates[..last], marks[..last]);
      assert candidates == candidates[..last] + [candidates[last]];
    }
  }

  lemma {:induction false} KeptConcat<C>(a: seq<C>, b: seq<C>, ma: seq<bool>, mb: seq<bool>)
    requires |a| == |ma| && |b| == |mb|
    ensures Kept(a + b, ma + mb) == Kept(a, ma) + Kept(b, mb)
  {
    if b == [] {
      assert a + b == a && ma + mb == ma;
    } else {
      var last := |b| - 1;
      KeptConcat(a, b[..last], ma, mb[..last]);
      assert (a + b)[..|a + b| - 1] == a + b[..last] && (ma + mb)[..|a + b| - 1] == ma + mb[..last];
      var tail := if mb[last] then [b[last]] else [];
      assert Kept(a, ma) + (Kept(b[..last], mb[..last]) + tail) == (Kept(a, ma) + Kept(b[..last], mb[..last])) + tail;
    }
  }

  lemma KeptWithoutOne<C>(a: seq<C>, x: C, b: seq<C>)
    ensures Kept(a + [x] + b, AllMarked(|a|) + [false] + AllMarked(|b|)) == a + b
  {
    AllMarkedKeepsAll(a, AllMarked(|a|));
    AllMarkedKeepsAll(b, AllMarked(|b|));
    KeptConcat(a, [x], AllMarked(|a|), [false]);
    KeptConcat(a + [x], b, AllMarked(|a|) + [false], AllMarked(|b|));
    assert Kept([x], [false]) == [];
    assert a + [] == a;
  }

  /** Inserting a candidate anywhere leaves the session where it was or moves it to
      the new candidate. */
  lemma InsertionMovesOnlyToTheNew<C>(a: seq<C>, x: C, b: seq<C>, score: C -> nat)
    requires a + b != []
    ensures Best(a + [x] + b, score) == x || Best(a + [x] + b, score) == Best(a + b, score)
  {
    var more := a + [x] + b;
    var marks := AllMarked(|a|) + [false] + AllMarked(|b|);
    if Winner(more, score) != |a| {
      RemovalKeepsTheWinner(more, marks, score);
      KeptWithoutOne(a, x, b);
    }
  }

  // ----- the order of the candidates

  ghost predicate UniqueTop<C>(candidates: seq<C>, score: C -> nat)
    requires candidates != []
  {
    forall c | c in candidates :: score(c) == score(Best(candidates, score)) ==> c == Best(candidates, score)
  }

  predicate Reordered<C(==)>(a: seq<C>, b: seq<C>) {
    multiset(a) == multiset(b)
  }

  lemma ReorderedHolds<C>(a: seq<C>, b: seq<C>)
    requires Reordered(a, b)
    ensures forall c | c in a :: c in b
    ensures |a| == |b|
  {
    assert |multiset(a)| == |a| && |multiset(b)| == |b|;
    forall c | c in a ensures c in b { assert multiset(a)[c] > 0; }
  }

  /** A unique top candidate is chosen in whatever order the candidates come ... */
  lemma UniqueTopIgnoresOrder<C>(candidates: seq<C>, other: seq<C>, score: C -> nat)
    requires candidates != [] && Reordered(candidates, other) && UniqueTop(candidates, score)
    ensures other != [] && Best(other, score) == Best(candidates, score)
  {
    ReorderedHolds(candidates, other);
    ReorderedHolds(other, candidates);
    BestIsMaximal(candidates, score);
    BestIsMaximal(other, score);
  }

  /** ... and a tie between different candidates is broken by the order. */
  lemma TieDependsOnOrder<C>(candidates: seq<C>, j: nat, score: C -> nat)
    requires j < |candidates| && candidates[j] != Best(candidates, score)
    requires score(candidates[j]) == score(Best(candidates, score))
    ensures var other := [candidates[j]] + candidates[..j] + candidates[j + 1..];
            Reordered(candidates, other) && Best(other, score) == candidates[j] != Best(candidates, score)
  {
    var x := candidates[j];
    var other := [x] + candidates[..j] + candidates[j + 1..];
    assert candidates == candidates[..j] + [x] + candidates[j + 1..];
    assert Reordered(candidates, other);
    ReorderedHolds(candidates, other);
    ReorderedHolds(other, candidates);
    BestIsMaximal(candidates, score);
    WinnerIsFirstMaximal(other, score);
    assert other[0] == x;
    assert other[Winner(other, score)] in other;
  }
}
