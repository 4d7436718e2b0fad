/**
 The embedding cache: a map of entries and a list of keys, least recently used
 first, for any type of keys.  The reference it is held against is `Recency`, the distinct keys of a
 history in order of their last touch.
 */
module EmbeddingCache {
  import opened Common

  datatype Op<K, V> = Get(key: K) | Set(key: K, value: V)

  datatype Cache<K, V> = Cache(maxSize: nat, entries: map<K, V>, order: seq<K>)

  // ----- lists of keys

  function Remove<K(==)>(s: seq<K>, k: K): seq<K> {
    if s == [] then []
    else Remove(s[..|s| - 1], k) + (if s[|s| - 1] == k then [] else [s[|s| - 1]])
  }

  predicate Distinct<K(==)>(s: seq<K>) {
    forall i, j | 0 <= i < j < |s| :: s[i] != s[j]
  }

  lemma {:induction false} RemoveMembers<K>(s: seq<K>, k: K)
    ensures forall x | x in Remove(s, k) :: x in s && x != k
    ensures forall x | x in s && x != k :: x in Remove(s, k)
  {
    if s != [] {
      RemoveMembers(s[..|s| - 1], k);
      assert s == s[..|s| - 1] + [s[|s| - 1]];
    }
  }

  lemma {:induction false} RemoveAbsent<K>(s: seq<K>, k: K)
    requires k !in s
    ensures Remove(s, k) == s
  {
    if s != [] { RemoveAbsent(s[..|s| - 1], k); }
  }

  lemma {:induction false} RemoveDistinct<K>(s: seq<K>, k: K)
    requires Distinct(s)
    ensures Distinct(Remove(s, k))
  {
    if s != [] {
      var init, last := s[..|s| - 1], s[|s| - 1];
      RemoveDistinct(init, k);
      RemoveMembers(init, k);
      var rest := Remove(init, k);
      forall i | 0 <= i < |rest| ensures rest[i] != last {
        assert rest[i] in rest;
      }
    }
  }

  /** Taking out the one occurrence leaves what is before it and what is after it. */
  lemma RemoveAt<K>(s: seq<K>, i: nat)
    requires i < |s| && Distinct(s)
    ensures Remove(s, s[i]) == s[..i] + s[i + 1..]
  {
    assert s == s[..i] + [s[i]] + s[i + 1..];
    RemoveBetween(s[..i], s[i], s[i + 1..]);
  }

  lemma RemoveBetween<K>(a: seq<K>, k: K, b: seq<K>)
    requires k !in a && k !in b
    ensures Remove(a + [k] + b, k) == a + b
  {
    hide Remove;
    RemoveSelf(k);
    RemoveConcat(a + [k], b, k);
    RemoveConcat(a, [k], k);
    RemoveAbsent(a, k);
    RemoveAbsent(b, k);
    assert a + [] == a;
  }

  lemma RemoveSelf<K>(k: K)
    ensures Remove([k], k) == []
  {
    assert [k][..0] == [];
  }

  lemma {:induction false} RemoveConcat<K>(a: seq<K>, b: seq<K>, k: K)
    ensures Remove(a + b, k) == Remove(a, k) + Remove(b, k)
  {
    if b == [] {
      assert a + b == a;
    } else {
      RemoveConcat(a, b[..|b| - 1], k);
      assert (a + b)[..|a + b| - 1] == a + b[..|b| - 1];
    }
  }

  // ----- the reference

  /** The distinct keys touched, in the order of their last touch. */
  function Recency<K(==)>(touches: seq<K>): seq<K> {
    if touches == [] then []
    else Remove(Recency(touches[..|touches| - 1]), touches[|touches| - 1]) + [touches[|touches| - 1]]
  }

  /** The n last of them; 0 means no bound. */
  function Kept<K>(recency: seq<K>, n: nat): seq<K> {
    if n == 0 || |recency| <= n then recency else recency[|recency| - n..]
  }

  function LastTouch<K(==)>(touches: seq<K>, k: K): int {
    if touches == [] then -1
    else if touches[|touches| - 1] == k then |touches| - 1
    else LastTouch(touches[..|touches| - 1], k)
  }

  lemma {:induction false} RecencyKeys<K>(touches: seq<K>)
    ensures Distinct(Recency(touches))
    ensures forall k :: k in Recency(touches) <==> k in touches
  {
    if touches != [] {
      var init, last := touches[..|touches| - 1], touches[|touches| - 1];
      RecencyKeys(init);
      RemoveMembers(Recency(init), last);
      RemoveDistinct(Recency(init), last);
      var rest := Remove(Recency(init), last);
      forall i | 0 <= i < |rest| ensures rest[i] != last {
        assert rest[i] in rest;
      }
      assert touches == init + [last];
    }
  }

  lemma {:induction false} LastTouchBelow<K>(touches: seq<K>, k: K)
    ensures -1 <= LastTouch(touches, k) < |touches|
  {
    if touches != [] { LastTouchBelow(touches[..|touches| - 1], k); }
  }

  lemma {:induction false} RemoveKeepsOrder<K>(s: seq<K>, k: K, i: nat, j: nat)
    requires i < j < |Remove(s, k)|
    ensures exists a, b :: 0 <= a < b < |s| && s[a] == Remove(s, k)[i] && s[b] == Remove(s, k)[j]
  {
    var init, last := s[..|s| - 1], s[|s| - 1];
    var rest := Remove(init, k);
    if j < |rest| {
      RemoveKeepsOrder(init, k, i, j);
      var a, b :| 0 <= a < b < |init| && init[a] == rest[i] && init[b] == rest[j];
      assert s[a] == init[a] && s[b] == init[b];
    } else {
      RemoveMembers(init, k);
      assert rest[i] in rest;
      assert rest[i] in init;
      var a :| 0 <= a < |init| && init[a] == rest[i];
      assert s[a] == init[a];
    }
  }

  /** Recency is what its name says: earlier in the list means touched less recently. */
  lemma {:induction false} RecencyIsByLastTouch<K>(touches: seq<K>, i: nat, j: nat)
    requires i < j < |Recency(touches)|
    ensures LastTouch(touches, Recency(touches)[i]) < LastTouch(touches, Recency(touches)[j])
  {
    var init, last := touches[..|touches| - 1], touches[|touches| - 1];
    var rest := Remove(Recency(init), last);
    RemoveMembers(Recency(init), last);
    assert rest[i] in rest;
    LastTouchBelow(init, rest[i]);
    if j < |rest| {
      assert rest[j] in rest;
      RemoveKeepsOrder(Recency(init), last, i, j);
      var a, b :| 0 <= a < b < |Recency(init)| && Recency(init)[a] == rest[i] && Recency(init)[b] == rest[j];
      RecencyIsByLastTouch(init, a, b);
    }
  }

  ghost function Forgotten<K>(recency: seq<K>, n: nat): seq<K> {
    recency[..|recency| - |Kept(recency, n)|]
  }

  lemma KeptSplit<K>(l: seq<K>, n: nat)
    ensures l == Forgotten(l, n) + Kept(l, n)
    ensures n == 0 ==> Forgotten(l, n) == []
    ensures n > 0 ==> |Kept(l, n)| <= n
    ensures n > 0 && Forgotten(l, n) != [] ==> |Kept(l, n)| == n
  {}

  lemma DistinctConcat<K>(a: seq<K>, b: seq<K>, k: K)
    requires Distinct(a + b) && k in b
    ensures k !in a && Distinct(b)
  {
    var all := a + b;
    var j :| 0 <= j < |b| && b[j] == k;
    assert all[|a| + j] == k;
    assert forall i | 0 <= i < |a| :: all[i] == a[i];
    assert forall i | 0 <= i < |b| :: all[|a| + i] == b[i];
  }

  lemma KeptOfConcat<K>(a: seq<K>, b: seq<K>, n: nat)
    requires n > 0 && a != [] ==> |b| == n
    requires n == 0 ==> a == []
    requires n > 0 ==> |b| <= n
    ensures Kept(a + b, n) == b
  {
    assert a == [] ==> a + b == b;
  }

  /** Touching a kept key moves it to the end of what is kept. */
  lemma KeptTouched<K>(l: seq<K>, n: nat, k: K)
    requires Distinct(l) && k in Kept(l, n)
    ensures Kept(Remove(l, k) + [k], n) == Remove(Kept(l, n), k) + [k]
  {
    hide Remove;
    var kept, rest := Kept(l, n), Forgotten(l, n);
    KeptSplit(l, n);
    hide Kept, Forgotten;
    RemoveConcat(rest, kept, k);
    DistinctConcat(rest, kept, k);
    RemoveAbsent(rest, k);
    RemoveLength(kept, k);
    assert Remove(l, k) + [k] == rest + (Remove(kept, k) + [k]);
    KeptOfConcat(rest, Remove(kept, k) + [k], n);
  }

  lemma RemoveLength<K>(s: seq<K>, k: K)
    requires Distinct(s) && k in s
    ensures |Remove(s, k)| == |s| - 1
  {
    var i :| 0 <= i < |s| && s[i] == k;
    RemoveAt(s, i);
  }

  /** A key that is not kept comes in at the end, pushing out the first if full. */
  lemma KeptInserted<K>(l: seq<K>, n: nat, k: K)
    requires Distinct(l) && k !in Kept(l, n)
    ensures Kept(Remove(l, k) + [k], n) ==
            (if n > 0 && |Kept(l, n)| >= n then Kept(l, n)[1..] else Kept(l, n)) + [k]
  {
    hide Remove;
    var kept, rest := Kept(l, n), Forgotten(l, n);
    KeptSplit(l, n);
    hide Kept, Forgotten;
    RemoveConcat(rest, kept, k);
    RemoveAbsent(kept, k);
    if n > 0 && |kept| >= n {
      assert Remove(l, k) + [k] == (Remove(rest, k) + [kept[0]]) + (kept[1..] + [k]);
      KeptOfConcat(Remove(rest, k) + [kept[0]], kept[1..] + [k], n);
    } else {
      assert rest == [];
      RemoveAbsent(rest, k);
      assert Remove(l, k) + [k] == [] + (kept + [k]);
      KeptOfConcat([], kept + [k], n);
    }
  }

  // ----- runs

  function MoveToEnd<K(==)>(order: seq<K>, k: K): seq<K> {
    if k in order then Remove(order, k) + [k] else order
  }

  function Evict<K(==), V>(c: Cache<K, V>): Cache<K, V> {
    if c.order == [] then c else c.(order := c.order[1..], entries := c.entries - {c.order[0]})
  }

  /** The cache after one operation, and what Get returns. */
  function Step<K(==), V>(c: Cache<K, V>, op: Op<K, V>): (Cache<K, V>, Option<V>) {
    match op
    case Get(k) =>
      if k in c.entries then (c.(order := MoveToEnd(c.order, k)), Some(c.entries[k])) else (c, None)
    case Set(k, v) =>
      if k in c.entries then (c.(entries := c.entries[k := v], order := MoveToEnd(c.order, k)), None)
      else
        var c1 := if c.maxSize > 0 && |c.entries| >= c.maxSize then Evict(c) else c;
        (c1.(entries := c1.entries[k := v], order := c1.order + [k]), None)
  }

  function Run<K(==), V>(maxSize: nat, ops: seq<Op<K, V>>): Cache<K, V> {
    if ops == [] then Cache(maxSize, map[], []) else Step(Run(maxSize, ops[..|ops| - 1]), ops[|ops| - 1]).0
  }

  /** The keys touched, with no cache in sight: a Set touches its key, a Get one that
      is among the last maxSize touched. */
  function Touches<K(==), V>(maxSize: nat, ops: seq<Op<K, V>>): seq<K> {
    if ops == [] then []
    else
      var before, op := Touches(maxSize, ops[..|ops| - 1]), ops[|ops| - 1];
      if op.Set? || op.key in Kept(Recency(before), maxSize) then before + [op.key] else before
  }

  function LastSet<K(==), V>(ops: seq<Op<K, V>>, k: K): Option<V> {
    if ops == [] then None
    else
      var op := ops[|ops| - 1];
      if op.Set? && op.key == k then Some(op.value) else LastSet(ops[..|ops| - 1], k)
  }

  ghost predicate SameKeys<K, V>(c: Cache<K, V>) {
    (forall k | k in c.entries :: k in c.order) && (forall k | k in c.order :: k in c.entries)
  }

  ghost predicate Inv<K, V>(c: Cache<K, V>, touches: seq<K>, ops: seq<Op<K, V>>) {
    && c.order == Kept(Recency(touches), c.maxSize)
    && SameKeys(c)
    && (forall k | k in c.entries :: LastSet(ops, k) == Some(c.entries[k]))
  }

  lemma {:induction false} SizeOfDistinct<K>(s: seq<K>)
    requires Distinct(s)
    ensures |set k | k in s| == |s|
  {
    if s != [] {
      var init, last := s[..|s| - 1], s[|s| - 1];
      SizeOfDistinct(init);
      assert s == init + [last];
      assert (set k | k in s) == (set k | k in init) + {last};
    }
  }

  lemma KeptDistinct<K>(l: seq<K>, n: nat)
    requires Distinct(l)
    ensures Distinct(Kept(l, n))
  {}

  lemma EntriesSize<K, V>(c: Cache<K, V>)
    requires Distinct(c.order) && SameKeys(c)
    ensures |c.entries| == |c.order|
  {
    SizeOfDistinct(c.order);
    assert c.entries.Keys == set k | k in c.order;
  }

  lemma RecencySnoc<K>(touches: seq<K>, k: K)
    ensures Recency(touches + [k]) == Remove(Recency(touches), k) + [k]
  {
    assert (touches + [k])[..|touches + [k]| - 1] == touches;
  }

  lemma LastSetSnoc<K, V>(ops: seq<Op<K, V>>, op: Op<K, V>, k: K)
    ensures LastSet(ops + [op], k) == if op.Set? && op.key == k then Some(op.value) else LastSet(ops, k)
  {
    assert (ops + [op])[..|ops + [op]| - 1] == ops;
  }

  lemma HitStep<K, V>(c: Cache<K, V>, touches: seq<K>, ops: seq<Op<K, V>>, op: Op<K, V>)
    requires Inv(c, touches, ops) && op.key in c.entries
    ensures Inv(Step(c, op).0, touches + [op.key], ops + [op])
  {
    hide Remove, Recency, LastSet;
    var c' := Step(c, op).0;
    RecencyKeys(touches);
    RecencySnoc(touches, op.key);
    KeptTouched(Recency(touches), c.maxSize, op.key);
    assert c'.order == Remove(c.order, op.key) + [op.key];
    RemoveMembers(c.order, op.key);
    forall k | k in c'.entries ensures k in c'.order && LastSet(ops + [op], k) == Some(c'.entries[k]) {
      LastSetSnoc(ops, op, k);
    }
  }

  lemma EvictKeepsKeys<K, V>(c: Cache<K, V>)
    requires Distinct(c.order) && SameKeys(c) && c.order != []
    ensures SameKeys(Evict(c)) && Evict(c).order == c.order[1..]
    ensures forall k | k in Evict(c).entries :: k in c.entries && Evict(c).entries[k] == c.entries[k]
  {
    assert c.order == [c.order[0]] + c.order[1..];
  }

  lemma InsertStep<K, V>(c: Cache<K, V>, touches: seq<K>, ops: seq<Op<K, V>>, op: Op<K, V>)
    requires Inv(c, touches, ops) && op.Set? && op.key !in c.entries
    ensures Inv(Step(c, op).0, touches + [op.key], ops + [op])
  {
    RecencyKeys(touches);
    RecencySnoc(touches, op.key);
    KeptDistinct(Recency(touches), c.maxSize);
    EntriesSize(c);
    KeptInserted(Recency(touches), c.maxSize, op.key);
    hide Remove, Recency, LastSet, Kept, Distinct;
    var full := c.maxSize > 0 && |c.entries| >= c.maxSize;
    if full {
      EvictKeepsKeys(c);
    }
    var c1 := if full then Evict(c) else c;
    Appended(c1, ops, op);
  }

  lemma Appended<K, V>(c: Cache<K, V>, ops: seq<Op<K, V>>, op: Op<K, V>)
    requires SameKeys(c) && op.Set?
    requires forall k | k in c.entries :: LastSet(ops, k) == Some(c.entries[k])
    ensures var c' := c.(entries := c.entries[op.key := op.value], order := c.order + [op.key]);
            SameKeys(c') && forall k | k in c'.entries :: LastSet(ops + [op], k) == Some(c'.entries[k])
  {
    forall k | k in c.entries[op.key := op.value]
      ensures LastSet(ops + [op], k) == Some(c.entries[op.key := op.value][k])
    {
      LastSetSnoc(ops, op, k);
    }
  }

  /** After any run the cache holds exactly the maxSize keys touched last, in order,
      each with the value last set for it. */
  lemma {:induction false} CacheIsRecencyList<K, V>(maxSize: nat, ops: seq<Op<K, V>>)
    ensures var c := Run(maxSize, ops);
            c.maxSize == maxSize && Inv(c, Touches(maxSize, ops), ops)
  {
    if ops != [] {
      var init, op := ops[..|ops| - 1], ops[|ops| - 1];
      CacheIsRecencyList(maxSize, init);
      var c, touches := Run(maxSize, init), Touches(maxSize, init);
      assert ops == init + [op];
      assert op.key in c.entries <==> op.key in Kept(Recency(touches), maxSize);
      if op.key in c.entries {
        HitStep(c, touches, init, op);
      } else if op.Set? {
        InsertStep(c, touches, init, op);
      }
    }
  }

  /** The cache never holds more than maxSize keys, and its list has no duplicates. */
  lemma CacheIsBounded<K, V>(maxSize: nat, ops: seq<Op<K, V>>)
    ensures var c := Run(maxSize, ops);
            && Distinct(c.order) && |c.entries| == |c.order|
            && c.entries.Keys == (set k | k in c.order)
            && (maxSize > 0 ==> |c.entries| <= maxSize)
  {
    CacheIsRecencyList(maxSize, ops);
    var touches := Touches(maxSize, ops);
    hide Run, Touches, Recency;
    RecencyKeys(touches);
    KeptDistinct(Recency(touches), maxSize);
    EntriesSize(Run(maxSize, ops));
  }

  lemma MovedToEnd<K>(order: seq<K>, k: K)
    requires Distinct(order)
    ensures Distinct(MoveToEnd(order, k))
    ensures forall x | x in MoveToEnd(order, k) :: x in order
    ensures forall x | x in order :: x in MoveToEnd(order, k)
  {
    RemoveMembers(order, k);
    RemoveDistinct(order, k);
    var rest := Remove(order, k);
    forall i | 0 <= i < |rest| ensures rest[i] != k {
      assert rest[i] in rest;
    }
  }

  // ----- the object

  class LruCache<K(==), V> {
    const maxSize: nat
    var entries: map<K, V>
    var order: seq<K>

    ghost function View(): Cache<K, V>
      reads this
    {
      Cache(maxSize, entries, order)
    }

    ghost predicate Valid()
      reads this
    {
      Distinct(order) && SameKeys(View())
    }

    constructor (maxSize: int)
      ensures Valid() && View() == Cache(if maxSize <= 0 then 0 else maxSize, map[], [])
    {
      this.maxSize := if maxSize <= 0 then 0 else maxSize;
      entries, order := map[], [];
    }

    method MoveToEndLocked(key: K)
      requires Distinct(order)
      modifies this`order
      ensures order == MoveToEnd(old(order), key)
    {
      var i := 0;
      while i < |order|
        invariant 0 <= i <= |order| && order == old(order)
        invariant key !in order[..i]
      {
        if order[i] == key {
          RemoveAt(order, i);
          order := order[..i] + order[i + 1..];
          order := order + [key];
          return;
        }
        i := i + 1;
      }
    }

    method EvictLocked()
      modifies this
      ensures View() == Evict(old(View()))
    {
      if |order| == 0 {
        return;
      }
      var oldest := order[0];
      order := order[1..];
      entries := entries - {oldest};
    }

    method Get(key: K) returns (value: Option<V>)
      requires Valid()
      modifies this
      ensures Valid()
      ensures View() == Step(old(View()), Op.Get(key)).0 && value == Step(old(View()), Op.Get(key)).1
    {
      if key !in entries {
        return None;
      }
      MovedToEnd(order, key);
      MoveToEndLocked(key);
      return Some(entries[key]);
    }

    method Set(key: K, value: V)
      requires Valid()
      modifies this
      ensures Valid()
      ensures View() == Step(old(View()), Op.Set(key, value)).0
    {
      if key in entries {
        entries := entries[key := value];
        MovedToEnd(order, key);
        MoveToEndLocked(key);
        return;
      }
      if maxSize > 0 && |entries| >= maxSize {
        EntriesSize(View());
        EvictKeepsKeys(View());
        EvictLocked();
      }
      entries := entries[key := value];
      order := order + [key];
    }
  }
}
