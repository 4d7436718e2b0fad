/** Adding up scores per key: the order in which the entries are visited does not matter. */
module Totals {
  import opened Ranking

  function Bumped(scores: Scores, key: string, amount: real): Scores {
    scores[key := (if key in scores then scores[key] else 0.0) + amount]
  }

  function Part(x: Scored, key: string): real {
    if x.key == key then x.score else 0.0
  }

  ghost function SumFor<R>(entries: map<R, Scored>, key: string): real
    decreases |entries|
  {
    if entries == map[] then 0.0
    else
      var r :| r in entries;
      SumFor(entries - {r}, key) + Part(entries[r], key)
  }

  lemma {:induction false} SumForRemove<R>(entries: map<R, Scored>, key: string, r: R)
    requires r in entries
    ensures SumFor(entries, key) == SumFor(entries - {r}, key) + Part(entries[r], key)
    decreases |entries|
  {
    var p :| p in entries && SumFor(entries, key) == SumFor(entries - {p}, key) + Part(entries[p], key);
    if p != r {
      SumForRemove(entries - {p}, key, r);
      SumForRemove(entries - {r}, key, p);
      assert entries - {p} - {r} == entries - {r} - {p};
    }
  }

  ghost function PositiveKeys<R>(entries: map<R, Scored>): set<string> {
    set r | r in entries && entries[r].score > 0.0 :: entries[r].key
  }

  predicate NoNegatives<R>(entries: map<R, Scored>) {
    forall r | r in entries :: entries[r].score >= 0.0
  }

  ghost function Totalled<R>(entries: map<R, Scored>): Scores {
    map key | key in PositiveKeys(entries) :: SumFor(entries, key)
  }

  lemma TotalledNone<R>()
    ensures Totalled<R>(map[]) == map[]
  {}

  lemma PositiveKeysInsert<R>(entries: map<R, Scored>, r: R, x: Scored)
    requires r !in entries
    ensures PositiveKeys(entries[r := x]) == PositiveKeys(entries) + if x.score > 0.0 then {x.key} else {}
  {
    var more := entries[r := x];
    forall key | key in PositiveKeys(entries) ensures key in PositiveKeys(more) {
      var q :| q in entries && entries[q].score > 0.0 && entries[q].key == key;
      assert more[q] == entries[q];
    }
    assert more[r] == x;
  }

  lemma {:induction false} SumForSign<R>(entries: map<R, Scored>, key: string)
    requires NoNegatives(entries)
    ensures SumFor(entries, key) >= 0.0
    ensures SumFor(entries, key) > 0.0 <==> key in PositiveKeys(entries)
    decreases |entries|
  {
    if entries != map[] {
      var r :| r in entries;
      SumForRemove(entries, key, r);
      SumForSign(entries - {r}, key);
      PositiveKeysInsert(entries - {r}, r, entries[r]);
      assert entries == (entries - {r})[r := entries[r]];
      hide PositiveKeys, SumFor;
    }
  }

  lemma TotalledOneMore<R>(entries: map<R, Scored>, r: R, x: Scored)
    requires NoNegatives(entries) && r !in entries && x.score >= 0.0
    ensures Totalled(entries[r := x]) ==
            if x.score > 0.0 then Bumped(Totalled(entries), x.key, x.score) else Totalled(entries)
  {
    var more := entries[r := x];
    assert more - {r} == entries;
    forall key ensures SumFor(more, key) == SumFor(entries, key) + Part(x, key) {
      SumForRemove(more, key, r);
    }
    PositiveKeysInsert(entries, r, x);
    SumForSign(entries, x.key);
    hide PositiveKeys, SumFor;
  }
}
