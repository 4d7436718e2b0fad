/**
 The in-memory token bucket in front of the discovery endpoints.

 Requests reach the limiter in the order they take its mutex; each carries the
 time read before that, so the times need not be ordered.  Which of several
 equally old entries is evicted depends on map iteration: an event names its
 victim and is skipped when that is not an oldest entry.

 The machine measures time in tokens, that is in units of 1/rate seconds, so
 that a bucket gains one token per unit; the object works in seconds and is
 tied to the machine through `InTokens`.
 */
module MetaRateLimiter {
  import opened Common
  import Text

  datatype Limiter = Limiter(burst: real, maxEntries: nat, tokens: map<string, real>, last: map<string, real>)

  datatype Event = Request(key: string, now: real, victim: string)

  datatype Out =
    | Skipped
    | Answer(key: string, at: real, granted: bool, evicted: Option<string>)

  function KeyOf(raw: string): (key: string)
    ensures key != ""
  {
    if Text.Trim(raw) == "" then "unknown" else raw
  }

  predicate Oldest(last: map<string, real>, key: string) {
    key in last && forall k | k in last :: last[key] <= last[k]
  }

  predicate Crowded(l: Limiter, key: string) {
    key !in l.last && |l.last| >= l.maxEntries
  }

  function Evict(l: Limiter, key: string): Limiter {
    l.(tokens := l.tokens - {key}, last := l.last - {key})
  }

  function Min(a: real, b: real): real {
    if a < b then a else b
  }

  function Refilled(l: Limiter, key: string, now: real): real {
    if key in l.last && key in l.tokens
    then Min(l.burst, l.tokens[key] + (now - l.last[key]))
    else l.burst
  }

  function Spend(l: Limiter, key: string, now: real): (Limiter, bool) {
    var tokens := Refilled(l, key, now);
    var granted := tokens >= 1.0;
    (l.(tokens := l.tokens[key := if granted then tokens - 1.0 else tokens], last := l.last[key := now]), granted)
  }

  function Step(l: Limiter, e: Event): (Limiter, Out) {
    var key := KeyOf(e.key);
    if Crowded(l, key) then
      if Oldest(l.last, e.victim) then
        var (l', granted) := Spend(Evict(l, e.victim), key, e.now);
        (l', Answer(key, e.now, granted, Some(e.victim)))
      else (l, Skipped)
    else
      var (l', granted) := Spend(l, key, e.now);
      (l', Answer(key, e.now, granted, None))
  }

  function Run(l: Limiter, events: seq<Event>): (Limiter, seq<Out>) {
    if events == [] then (l, [])
    else
      var (before, outs) := Run(l, events[..|events| - 1]);
      var (after, out) := Step(before, events[|events| - 1]);
      (after, outs + [out])
  }

  function New(burst: real, maxEntries: nat): Limiter {
    Limiter(burst, maxEntries, map[], map[])
  }

  // ----- what is tracked

  ghost predicate Inv(l: Limiter) {
    && l.burst > 0.0 && l.maxEntries > 0
    && l.tokens.Keys == l.last.Keys
    && |l.last| <= l.maxEntries
    && "" !in l.last
    && (forall key | key in l.tokens :: l.tokens[key] <= l.burst)
  }

  lemma MapGrowth(m: map<string, real>, k: string, v: real)
    ensures |m[k := v]| == if k in m then |m| else |m| + 1
  {
    assert m[k := v].Keys == m.Keys + {k};
    assert |m[k := v]| == |m[k := v].Keys|;
    assert |m| == |m.Keys|;
  }

  lemma MapShrink(m: map<string, real>, k: string)
    requires k in m
    ensures |m - {k}| == |m| - 1
  {
    assert (m - {k}).Keys == m.Keys - {k};
    assert |m - {k}| == |(m - {k}).Keys|;
  }

  lemma StepKeepsInv(l: Limiter, e: Event)
    requires Inv(l)
    ensures Inv(Step(l, e).0)
    ensures Step(l, e).0.(tokens := l.tokens, last := l.last) == l
  {
    var key := KeyOf(e.key);
    if Crowded(l, key) {
      if Oldest(l.last, e.victim) {
        MapShrink(l.last, e.victim);
        MapGrowth(Evict(l, e.victim).last, key, e.now);
      }
    } else {
      MapGrowth(l.last, key, e.now);
    }
  }

  /** A step is the eviction it needs, if any, and then the spending. */
  lemma StepSpends(before: Limiter, e: Event, l: Limiter, key: string)
    requires key == KeyOf(e.key)
    requires Crowded(before, key) ==> Oldest(before.last, e.victim) && l == Evict(before, e.victim)
    requires !Crowded(before, key) ==> l == before
    ensures var (next, out) := Step(before, e);
            next == Spend(l, key, e.now).0 && out.Answer? && out.granted == Spend(l, key, e.now).1
  {}

  /** The limiter never tracks more than maxEntries keys, and no bucket exceeds the burst. */
  lemma {:induction false} NeverOverfull(l: Limiter, events: seq<Event>)
    requires Inv(l)
    ensures Inv(Run(l, events).0)
    ensures Run(l, events).0.(tokens := l.tokens, last := l.last) == l
  {
    if events != [] {
      var prefix := events[..|events| - 1];
      NeverOverfull(l, prefix);
      StepKeepsInv(Run(l, prefix).0, events[|events| - 1]);
    }
  }

  // ----- who is evicted

  ghost function KeysSeen(events: seq<Event>): set<string> {
    set i | 0 <= i < |events| :: KeyOf(events[i].key)
  }

  predicate NobodyEvicted(outs: seq<Out>) {
    forall i | 0 <= i < |outs| :: outs[i].Answer? && outs[i].evicted.None?
  }

  lemma KeysSeenSnoc(events: seq<Event>, e: Event)
    ensures KeysSeen(events + [e]) == KeysSeen(events) + {KeyOf(e.key)}
  {
    var all := events + [e];
    assert all[|events|] == e && forall i | 0 <= i < |events| :: all[i] == events[i];
  }

  /** Until somebody is evicted every key seen is tracked; so nobody is exactly when
      the keys fit. */
  lemma {:induction false} EvictsOnlyWhenFull(burst: real, maxEntries: nat, events: seq<Event>)
    requires burst > 0.0 && maxEntries > 0
    ensures var (l, outs) := Run(New(burst, maxEntries), events);
            && (NobodyEvicted(outs) <==> |KeysSeen(events)| <= maxEntries)
            && l.last.Keys <= KeysSeen(events) && (NobodyEvicted(outs) ==> l.last.Keys == KeysSeen(events))
  {
    if events == [] {
      assert KeysSeen(events) == {};
    } else {
      var prefix, e := events[..|events| - 1], events[|events| - 1];
      assert events == prefix + [e];
      EvictsOnlyWhenFull(burst, maxEntries, prefix);
      NeverOverfull(New(burst, maxEntries), prefix);
      KeysSeenSnoc(prefix, e);
      var (l, outs) := Run(New(burst, maxEntries), prefix);
      EvictedSnoc(outs, Step(l, e).1);
      assert Run(New(burst, maxEntries), events).1 == outs + [Step(l, e).1];
      assert l.maxEntries == maxEntries;
      hide Run, KeysSeen, NobodyEvicted;
      FullStep(l, e, KeysSeen(prefix), NobodyEvicted(outs));
    }
  }

  lemma EvictedSnoc(outs: seq<Out>, out: Out)
    ensures NobodyEvicted(outs + [out]) <==> NobodyEvicted(outs) && out.Answer? && out.evicted.None?
  {
    var all := outs + [out];
    assert all[|outs|] == out && forall i | 0 <= i < |outs| :: all[i] == outs[i];
  }

  lemma FullStep(l: Limiter, e: Event, seen: set<string>, nobody: bool)
    requires Inv(l) && l.last.Keys <= seen
    requires nobody <==> |seen| <= l.maxEntries
    requires nobody ==> l.last.Keys == seen
    ensures var (l', out) := Step(l, e);
            var all := seen + {KeyOf(e.key)};
            && (nobody && out.Answer? && out.evicted.None? <==> |all| <= l.maxEntries)
            && l'.last.Keys <= all && (nobody && out.Answer? && out.evicted.None? ==> l'.last.Keys == all)
  {
    var key := KeyOf(e.key);
    assert |l.last| == |l.last.Keys|;
    if key in seen {
      assert seen + {key} == seen;
    } else {
      assert |seen + {key}| == |seen| + 1;
    }
    hide KeyOf, Refilled;
  }

  /** When a key last asked. */
  function LastAsked(outs: seq<Out>, key: string): Option<real> {
    if outs == [] then None else AskedThen(LastAsked(outs[..|outs| - 1], key), outs[|outs| - 1], key)
  }

  function AskedThen(before: Option<real>, out: Out, key: string): Option<real> {
    if out.Answer? && out.key == key then Some(out.at) else before
  }

  ghost predicate TimesAreLastAsked(l: Limiter, outs: seq<Out>) {
    forall key | key in l.last :: LastAsked(outs, key) == Some(l.last[key])
  }

  lemma {:induction false} TimesKept(burst: real, maxEntries: nat, events: seq<Event>)
    requires burst > 0.0 && maxEntries > 0
    ensures var (l, outs) := Run(New(burst, maxEntries), events);
            TimesAreLastAsked(l, outs)
  {
    if events != [] {
      var prefix, e := events[..|events| - 1], events[|events| - 1];
      TimesKept(burst, maxEntries, prefix);
      var (l, outs) := Run(New(burst, maxEntries), prefix);
      var out := Step(l, e).1;
      forall key | key in Step(l, e).0.last ensures LastAsked(outs + [out], key) == Some(Step(l, e).0.last[key]) {
        assert (outs + [out])[..|outs|] == outs;
      }
    }
  }

  /** In every run the key that is evicted asked last no later than any other tracked. */
  lemma EvictedIsOldest(burst: real, maxEntries: nat, events: seq<Event>, e: Event, other: string)
    requires burst > 0.0 && maxEntries > 0
    ensures var (l, outs) := Run(New(burst, maxEntries), events);
            var out := Step(l, e).1;
            out.Answer? && out.evicted.Some? && other in l.last ==>
              var victim, kept := LastAsked(outs, out.evicted.value), LastAsked(outs, other);
              victim.Some? && kept.Some? && victim.value <= kept.value
  {
    TimesKept(burst, maxEntries, events);
  }

  // ----- how much is granted

  predicate GrantedWithin(out: Out, key: string, a: real, b: real) {
    out.Answer? && out.granted && out.key == key && a <= out.at <= b
  }

  /** Requests of one key granted with a time in [a, b]. */
  function GrantsWithin(outs: seq<Out>, key: string, a: real, b: real): nat {
    if outs == [] then 0
    else GrantsWithin(outs[..|outs| - 1], key, a, b) + (if GrantedWithin(outs[|outs| - 1], key, a, b) then 1 else 0)
  }

  predicate Evicts(out: Out, key: string) {
    out.Answer? && out.evicted == Some(key)
  }

  /** How often the key was evicted. */
  function Evictions(outs: seq<Out>, key: string): nat {
    if outs == [] then 0
    else Evictions(outs[..|outs| - 1], key) + (if Evicts(outs[|outs| - 1], key) then 1 else 0)
  }

  /** The same grants, counted from the key's last eviction on. */
  function GrantsSinceEviction(outs: seq<Out>, key: string, a: real, b: real): nat {
    if outs == [] then 0
    else
      var out := outs[|outs| - 1];
      if Evicts(out, key) then 0
      else GrantsSinceEviction(outs[..|outs| - 1], key, a, b) + (if GrantedWithin(out, key, a, b) then 1 else 0)
  }

  /** Tokens in hand less the time they were last counted: refilling cannot raise
      it and every grant lowers it by one. */
  ghost function Potential(l: Limiter, key: string): real
    requires key in l.tokens && key in l.last
  {
    l.tokens[key] - l.last[key]
  }

  /** The grants so far in [a, b] are paid for by the burst and the refill since a. */
  ghost predicate Paid(l: Limiter, key: string, a: real, b: real, grants: nat) {
    && grants as real <= l.burst + (b - a)
    && (grants > 0 ==> key in l.tokens && key in l.last && Potential(l, key) <= l.burst - a - grants as real)
  }

  /** n quotas, that is n times the quota. */
  function Quotas(n: nat, quota: real): real {
    if n == 0 then 0.0 else Quotas(n - 1, quota) + quota
  }

  lemma {:induction false} QuotasMultiply(n: nat, quota: real)
    ensures Quotas(n, quota) == n as real * quota
  {
    if n > 0 {
      QuotasMultiply(n - 1, quota);
      assert n as real * quota == (n - 1) as real * quota + quota;
    }
  }

  /** Each eviction starts a new quota, and the grants since the last are paid for. */
  ghost predicate Accounted(l: Limiter, outs: seq<Out>, key: string, a: real, b: real) {
    var since := GrantsSinceEviction(outs, key, a, b);
    && Paid(l, key, a, b, since)
    && Within(GrantsWithin(outs, key, a, b), since, Evictions(outs, key), l.burst + (b - a))
  }

  predicate Within(grants: nat, since: nat, evictions: nat, quota: real) {
    grants as real <= Quotas(evictions, quota) + since as real && since as real <= quota
  }

  lemma WithinStep(grants: nat, since: nat, evictions: nat, quota: real, evicted: bool, hit: nat)
    requires Within(grants, since, evictions, quota) && (evicted ==> hit == 0)
    requires !evicted ==> (since + hit) as real <= quota
    ensures Within(grants + hit, if evicted then 0 else since + hit, evictions + (if evicted then 1 else 0), quota)
  {}

  lemma CountersSnoc(outs: seq<Out>, out: Out, key: string, a: real, b: real)
    ensures var all, hit := outs + [out], if GrantedWithin(out, key, a, b) then 1 else 0;
            && GrantsWithin(all, key, a, b) == GrantsWithin(outs, key, a, b) + hit
            && Evictions(all, key) == Evictions(outs, key) + (if Evicts(out, key) then 1 else 0)
            && GrantsSinceEviction(all, key, a, b) ==
               if Evicts(out, key) then 0 else GrantsSinceEviction(outs, key, a, b) + hit
  {
    var all := outs + [out];
    assert all[..|all| - 1] == outs && all[|all| - 1] == out;
  }

  /** One step keeps the grants since the last eviction paid for. */
  lemma StepKeepsPaid(l: Limiter, e: Event, key: string, a: real, b: real, grants: nat)
    requires Inv(l) && a <= b && Paid(l, key, a, b, grants)
    ensures var (l', out) := Step(l, e);
            && Paid(l', key, a, b, if Evicts(out, key) then 0
                                   else grants + if GrantedWithin(out, key, a, b) then 1 else 0)
            && l'.burst == l.burst && !(Evicts(out, key) && GrantedWithin(out, key, a, b))
  {}

  /** Whatever the order in which concurrent requests reach the mutex, from any state:
      between two evictions of a key, burst + d of its requests are granted with times
      in an interval of length d, at most. */
  lemma {:induction false} RunKeepsPaid(l: Limiter, events: seq<Event>, key: string, a: real, b: real)
    requires Inv(l) && a <= b
    ensures Accounted(Run(l, events).0, Run(l, events).1, key, a, b)
    ensures Run(l, events).0.burst == l.burst
  {
    if events != [] {
      var prefix, e := events[..|events| - 1], events[|events| - 1];
      RunKeepsPaid(l, prefix, key, a, b);
      NeverOverfull(l, prefix);
      var (before, outs) := Run(l, prefix);
      var out, since := Step(before, e).1, GrantsSinceEviction(outs, key, a, b);
      assert Run(l, events) == (Step(before, e).0, outs + [out]);
      assert Paid(before, key, a, b, since);
      hide *;
      StepKeepsPaid(before, e, key, a, b, since);
      AccountedStep(before, Step(before, e).0, outs, out, key, a, b);
    }
  }

  lemma AccountedStep(l: Limiter, l': Limiter, outs: seq<Out>, out: Out, key: string, a: real, b: real)
    requires Accounted(l, outs, key, a, b) && l'.burst == l.burst
    requires var since := GrantsSinceEviction(outs, key, a, b);
             Paid(l', key, a, b, if Evicts(out, key) then 0
                                 else since + if GrantedWithin(out, key, a, b) then 1 else 0)
    requires !(Evicts(out, key) && GrantedWithin(out, key, a, b))
    ensures Accounted(l', outs + [out], key, a, b)
  {
    hide Paid, GrantsWithin, GrantsSinceEviction, Evictions, GrantedWithin, Evicts, Within, Quotas;
    var since := GrantsSinceEviction(outs, key, a, b);
    var evicted, hit := Evicts(out, key), if GrantedWithin(out, key, a, b) then 1 else 0;
    CountersSnoc(outs, out, key, a, b);
    PaidMeans(l', key, a, b, if evicted then 0 else since + hit);
    WithinStep(GrantsWithin(outs, key, a, b), since, Evictions(outs, key), l.burst + (b - a), evicted, hit);
  }

  lemma PaidMeans(l: Limiter, key: string, a: real, b: real, grants: nat)
    requires Paid(l, key, a, b, grants)
    ensures grants as real <= l.burst + (b - a)
  {}

  // ----- who is never refused

  /** The key's requests among these. */
  function Asked(events: seq<Event>, key: string): nat {
    if events == [] then 0
    else Asked(events[..|events| - 1], key) + (if KeyOf(events[|events| - 1].key) == key then 1 else 0)
  }

  function GrantsOf(outs: seq<Out>, key: string): nat {
    if outs == [] then 0
    else
      var out := outs[|outs| - 1];
      GrantsOf(outs[..|outs| - 1], key) + (if out.Answer? && out.key == key && out.granted then 1 else 0)
  }

  /** Since its i-th request found a full bucket the key has paid one token for each
      grant, nothing for refusals, and earned the time that has passed. */
  ghost predicate Ledger(l: Limiter, outs: seq<Out>, key: string, i: nat) {
    && i < |outs| && outs[i].Answer? && outs[i].key == key && key in l.last && key in l.tokens
    && l.tokens[key] == l.burst - GrantsOf(outs[i..], key) as real + (l.last[key] - outs[i].at)
  }

  ghost predicate Balanced(l: Limiter, outs: seq<Out>, key: string) {
    key in l.last && key in l.tokens ==> exists i: nat :: Ledger(l, outs, key, i)
  }

  lemma GrantsOfSnoc(outs: seq<Out>, out: Out, i: nat, key: string)
    requires i <= |outs|
    ensures GrantsOf((outs + [out])[i..], key) ==
            GrantsOf(outs[i..], key) + (if out.Answer? && out.key == key && out.granted then 1 else 0)
    ensures GrantsOf((outs + [out])[|outs|..], key) ==
            (if out.Answer? && out.key == key && out.granted then 1 else 0)
  {
    var all := outs + [out];
    assert all[i..] == outs[i..] + [out] && all[i..][..|all[i..]| - 1] == outs[i..];
    assert all[|outs|..] == [] + [out] && all[|outs|..][..0] == [];
  }

  lemma LedgerStep(l: Limiter, outs: seq<Out>, e: Event, key: string)
    requires Inv(l) && Balanced(l, outs, key)
    ensures Balanced(Step(l, e).0, outs + [Step(l, e).1], key)
  {
    hide KeyOf;
    var (l', out) := Step(l, e);
    var all := outs + [out];
    GrantsOfSnoc(outs, out, |outs|, key);
    assert all[|outs|] == out;
    if key in l.last {
      var i: nat :| Ledger(l, outs, key, i);
      GrantsOfSnoc(outs, out, i, key);
      assert all[i] == outs[i];
      hide GrantsOf;
      if key in l'.last {
        assert Ledger(l', all, key, i) || Ledger(l', all, key, |outs|);
      }
    } else if key in l'.last {
      hide GrantsOf;
      assert Ledger(l', all, key, |outs|);
    }
  }

  lemma {:induction false} RunBalances(l: Limiter, events: seq<Event>, key: string)
    requires Inv(l) && l.last == map[]
    ensures Balanced(Run(l, events).0, Run(l, events).1, key)
  {
    if events != [] {
      var prefix, e := events[..|events| - 1], events[|events| - 1];
      RunBalances(l, prefix, key);
      NeverOverfull(l, prefix);
      hide Balanced;
      LedgerStep(Run(l, prefix).0, Run(l, prefix).1, e, key);
    }
  }

  /** Nothing is wasted: a request is refused only when, since some earlier one of its
      key, all of the burst and the refill but a fraction has been granted. */
  lemma RefusedOnlyWhenSpent(l: Limiter, events: seq<Event>, e: Event, key: string)
    requires Inv(l) && l.last == map[] && l.burst >= 1.0 && KeyOf(e.key) == key
    ensures var (now, outs) := Run(l, events);
            var out := Step(now, e).1;
            out.Answer? && !out.granted ==>
              exists i :: 0 <= i < |outs| && outs[i].Answer? && outs[i].key == key
                          && (GrantsOf(outs[i..], key) + 1) as real > l.burst + (e.now - outs[i].at)
  {
    RunBalances(l, events, key);
    NeverOverfull(l, events);
    var (now, outs) := Run(l, events);
    if key in now.last {
      var i: nat :| Ledger(now, outs, key, i);
    }
    hide Run, GrantsOf;
  }

  /** Between any two of its requests, in order of arrival, the key asks for no more
      than the burst and the refill since the first. */
  ghost predicate Conforms(events: seq<Event>, key: string, burst: real) {
    forall i, j | 0 <= i <= j < |events| && KeyOf(events[i].key) == key && KeyOf(events[j].key) == key ::
      Asked(events[i..j + 1], key) as real <= burst + (events[j].now - events[i].now)
  }

  /** The answers to a run's requests, in their order. */
  lemma {:induction false} AnswersMatch(l: Limiter, events: seq<Event>)
    ensures var outs := Run(l, events).1;
            && |outs| == |events|
            && forall i | 0 <= i < |outs| && outs[i].Answer? ::
                 outs[i].key == KeyOf(events[i].key) && outs[i].at == events[i].now
  {
    if events != [] { AnswersMatch(l, events[..|events| - 1]); }
  }

  lemma {:induction false} GrantedAreAsked(outs: seq<Out>, events: seq<Event>, key: string)
    requires |outs| == |events|
    requires forall i | 0 <= i < |outs| && outs[i].Answer? :: outs[i].key == KeyOf(events[i].key)
    ensures GrantsOf(outs, key) <= Asked(events, key)
  {
    if outs != [] { GrantedAreAsked(outs[..|outs| - 1], events[..|events| - 1], key); }
  }

  /** Hence a caller that keeps to burst and rate is never refused. */
  lemma ConformingIsGranted(l: Limiter, events: seq<Event>, key: string, n: nat)
    requires Inv(l) && l.last == map[] && Conforms(events, key, l.burst)
    requires n < |events| && KeyOf(events[n].key) == key
    ensures var out := Step(Run(l, events[..n]).0, events[n]).1;
            out.Answer? ==> out.granted
  {
    var prefix, e := events[..n], events[n];
    var outs := Run(l, prefix).1;
    AskedOnce(events, key, n);
    assert Asked(events[n..n + 1], key) as real <= l.burst + (e.now - e.now);
    RefusedOnlyWhenSpent(l, prefix, e, key);
    AnswersMatch(l, prefix);
    hide Run, Step;
    if i :| 0 <= i < |outs| && outs[i].Answer? && outs[i].key == key
            && (GrantsOf(outs[i..], key) + 1) as real > l.burst + (e.now - outs[i].at)
    {
      assert prefix[i] == events[i];
      assert Asked(events[i..n + 1], key) as real <= l.burst + (e.now - events[i].now);
      GrantedAreAsked(outs[i..], prefix[i..], key);
      OneMoreAsked(events, key, i, n);
    }
  }

  lemma OneMoreAsked(events: seq<Event>, key: string, i: nat, n: nat)
    requires i <= n < |events| && KeyOf(events[n].key) == key
    ensures Asked(events[i..n + 1], key) == Asked(events[..n][i..], key) + 1
  {
    hide KeyOf;
    var longer := events[i..n + 1];
    assert longer[..|longer| - 1] == events[..n][i..] && longer[|longer| - 1] == events[n];
  }

  lemma AskedOnce(events: seq<Event>, key: string, n: nat)
    requires n < |events| && KeyOf(events[n].key) == key
    ensures Asked(events[n..n + 1], key) == 1
  {
    OneMoreAsked(events, key, n, n);
    assert events[..n][n..] == [];
  }

  /** Any two requests of the key are at least one token apart, in arrival order. */
  ghost predicate Spaced(events: seq<Event>, key: string) {
    forall i, j | 0 <= i < j < |events| && KeyOf(events[i].key) == key && KeyOf(events[j].key) == key ::
      events[j].now - events[i].now >= 1.0
  }

  ghost predicate LastSeen(l: Limiter, events: seq<Event>, key: string) {
    key in l.last && key in l.tokens ==>
      && l.tokens[key] >= 0.0
      && exists i :: 0 <= i < |events| && KeyOf(events[i].key) == key && events[i].now == l.last[key]
  }

  lemma {:induction false} RunKeepsSpaced(l: Limiter, events: seq<Event>, key: string)
    requires Inv(l) && l.burst >= 1.0 && l.last == map[]
    requires Spaced(events, key)
    ensures var (l', outs) := Run(l, events);
            && LastSeen(l', events, key)
            && forall i | 0 <= i < |outs| && outs[i].Answer? && outs[i].key == key :: outs[i].granted
  {
    if events != [] {
      var prefix, e := events[..|events| - 1], events[|events| - 1];
      assert events == prefix + [e];
      assert forall i | 0 <= i < |prefix| :: prefix[i] == events[i];
      RunKeepsSpaced(l, prefix, key);
      NeverOverfull(l, prefix);
      SpacedStep(Run(l, prefix).0, prefix, e, key);
    }
  }

  lemma SpacedStep(l: Limiter, seen: seq<Event>, e: Event, key: string)
    requires Inv(l) && l.burst >= 1.0 && LastSeen(l, seen, key)
    requires Spaced(seen + [e], key)
    ensures LastSeen(Step(l, e).0, seen + [e], key)
    ensures Step(l, e).1.Answer? && Step(l, e).1.key == key ==> Step(l, e).1.granted
  {
    var events := seen + [e];
    assert events[|seen|] == e;
    if key in l.last {
      var i :| 0 <= i < |seen| && KeyOf(seen[i].key) == key && seen[i].now == l.last[key];
      assert events[i] == seen[i];
    }
  }

  // ----- the same in seconds

  /** A time in seconds as a time in tokens. */
  function Units(rate: real, t: real): real {
    t * rate
  }

  /** A request whose time is in seconds. */
  function InTokens(rate: real, e: Event): Event {
    e.(now := Units(rate, e.now))
  }

  function Scaled(rate: real, events: seq<Event>): (scaled: seq<Event>)
    ensures |scaled| == |events|
    ensures forall i | 0 <= i < |events| :: scaled[i] == InTokens(rate, events[i])
  {
    seq(|events|, i requires 0 <= i < |events| => InTokens(rate, events[i]))
  }

  ghost function TimesInTokens(rate: real, last: map<string, real>): (scaled: map<string, real>)
    ensures scaled.Keys == last.Keys
    ensures forall k | k in last :: scaled[k] == Units(rate, last[k])
  {
    map k | k in last :: Units(rate, last[k])
  }

  lemma DropInTokens(rate: real, last: map<string, real>, key: string)
    ensures TimesInTokens(rate, last - {key}) == TimesInTokens(rate, last) - {key}
  {
    var dropped, expected := TimesInTokens(rate, last - {key}), TimesInTokens(rate, last) - {key};
    assert dropped.Keys == expected.Keys;
    forall k | k in dropped ensures dropped[k] == expected[k] {
      assert (last - {key})[k] == last[k];
    }
  }

  lemma UpdateInTokens(rate: real, last: map<string, real>, key: string, now: real)
    ensures TimesInTokens(rate, last[key := now]) == TimesInTokens(rate, last)[key := Units(rate, now)]
  {
    var updated, expected := TimesInTokens(rate, last[key := now]), TimesInTokens(rate, last)[key := Units(rate, now)];
    assert updated.Keys == expected.Keys;
    forall k | k in updated ensures updated[k] == expected[k] {
      assert last[key := now][k] == if k == key then now else last[k];
    }
  }

  lemma Order(x: real, y: real, rate: real)
    requires x <= y && rate > 0.0
    ensures Units(rate, x) <= Units(rate, y)
  {
    assert (y - x) * rate >= 0.0;
  }

  /** What may be granted within d seconds on one bucket. */
  function Quota(rate: real, burst: real, d: real): real {
    burst + rate * d
  }

  lemma QuotaInTokens(rate: real, burst: real, a: real, b: real)
    ensures burst + (Units(rate, b) - Units(rate, a)) == Quota(rate, burst, b - a)
  {}

  /** Each of the key's k evictions, and the start, allows one quota: (k + 1) * quota in all. */
  predicate OneQuotaPerBucket(outs: seq<Out>, key: string, a: real, b: real, quota: real) {
    GrantsWithin(outs, key, a, b) as real <= (Evictions(outs, key) + 1) as real * quota
  }

  lemma AccountedMeans(l: Limiter, outs: seq<Out>, key: string, a: real, b: real)
    requires Accounted(l, outs, key, a, b)
    ensures OneQuotaPerBucket(outs, key, a, b, l.burst + (b - a))
  {
    hide GrantsWithin, Evictions, GrantsSinceEviction, Paid;
    QuotasMultiply(Evictions(outs, key) + 1, l.burst + (b - a));
  }

  lemma Unevicted(outs: seq<Out>, key: string, a: real, b: real, quota: real)
    requires OneQuotaPerBucket(outs, key, a, b, quota) && Evictions(outs, key) == 0
    ensures GrantsWithin(outs, key, a, b) as real <= quota
  {
    hide GrantsWithin, Evictions;
  }

  /** After any earlier run, in any stretch of requests, a key evicted k times meanwhile
      is granted at most (k + 1) * (burst + rate * d) requests with times in an interval
      of d seconds; one that is not evicted meanwhile at most burst + rate * d. */
  lemma RateBound(
      rate: real, burst: real, maxEntries: nat, earlier: seq<Event>, events: seq<Event>, key: string, a: real, b: real)
    requires rate > 0.0 && burst > 0.0 && maxEntries > 0 && a <= b
    ensures var start := Run(New(burst, maxEntries), Scaled(rate, earlier)).0;
            var outs := Run(start, Scaled(rate, events)).1;
            && OneQuotaPerBucket(outs, key, Units(rate, a), Units(rate, b), Quota(rate, burst, b - a))
            && (Evictions(outs, key) == 0 ==>
                  GrantsWithin(outs, key, Units(rate, a), Units(rate, b)) as real <= Quota(rate, burst, b - a))
  {
    hide *;
    var quota, lo, hi := Quota(rate, burst, b - a), Units(rate, a), Units(rate, b);
    var start := Run(New(burst, maxEntries), Scaled(rate, earlier)).0;
    Order(a, b, rate);
    QuotaInTokens(rate, burst, a, b);
    BurstKept(burst, maxEntries, Scaled(rate, earlier));
    RunKeepsPaid(start, Scaled(rate, events), key, lo, hi);
    var (l, outs) := Run(start, Scaled(rate, events));
    AccountedMeans(l, outs, key, lo, hi);
    if Evictions(outs, key) == 0 {
      Unevicted(outs, key, lo, hi, quota);
    }
  }

  lemma BurstKept(burst: real, maxEntries: nat, events: seq<Event>)
    requires burst > 0.0 && maxEntries > 0
    ensures Inv(Run(New(burst, maxEntries), events).0) && Run(New(burst, maxEntries), events).0.burst == burst
  {
    NeverOverfull(New(burst, maxEntries), events);
  }

  /** Two keys that evict each other n times from a limiter with room for one. */
  function Duel(n: nat, a: string, b: string): seq<Event> {
    if n == 0 then [Request(a, 0.0, b)] else Duel(n - 1, a, b) + [Request(b, 0.0, a)] + [Request(a, 0.0, b)]
  }

  /** A limiter of burst one with room for one key, which has just spent its token. */
  function Spent(key: string): Limiter {
    Limiter(1.0, 1, map[key := 0.0], map[key := 0.0])
  }

  /** After a duel the key has spent its token, was evicted n times and granted n + 1 times. */
  ghost predicate Fought(run: (Limiter, seq<Out>), n: nat, key: string) {
    run.0 == Spent(key) && Evictions(run.1, key) == n && GrantsWithin(run.1, key, 0.0, 0.0) == n + 1
  }

  /** The bound is attained for every k: with a burst of one, each eviction earns the
      evicted key one more grant at the same instant. */
  lemma {:induction false} EvictionsEarnQuotas(n: nat, a: string, b: string)
    requires a != b && Text.Trim(a) != "" && Text.Trim(b) != ""
    ensures Fought(Run(New(1.0, 1), Duel(n, a, b)), n, a)
  {
    hide Run, Fought;
    if n == 0 {
      DuelBegins(a, b);
    } else {
      EvictionsEarnQuotas(n - 1, a, b);
      DuelGoesOn(Duel(n - 1, a, b), n - 1, a, b);
    }
  }

  lemma DuelBegins(a: string, b: string)
    requires Text.Trim(a) != ""
    ensures Fought(Run(New(1.0, 1), [Request(a, 0.0, b)]), 0, a)
  {
    var e := Request(a, 0.0, b);
    assert Run(New(1.0, 1), []) == (New(1.0, 1), []);
    assert [] + [e] == [e];
    assert Evictions([], a) == 0 == GrantsWithin([], a, 0.0, 0.0);
    hide Run, New, Spent, Step, Evictions, GrantsWithin;
    FirstTakes(a, b);
    DuelStep([], e, a);
  }

  lemma DuelGoesOn(events: seq<Event>, n: nat, a: string, b: string)
    requires a != b && Text.Trim(a) != "" && Text.Trim(b) != ""
    requires Fought(Run(New(1.0, 1), events), n, a)
    ensures Fought(Run(New(1.0, 1), events + [Request(b, 0.0, a)] + [Request(a, 0.0, b)]), n + 1, a)
  {
    hide Run, New, Spent, Step, Evictions, GrantsWithin;
    TakesOver(a, b);
    TakesOver(b, a);
    DuelStep(events, Request(b, 0.0, a), a);
    DuelStep(events + [Request(b, 0.0, a)], Request(a, 0.0, b), a);
  }

  lemma DuelStep(events: seq<Event>, e: Event, key: string)
    ensures var (before, outs) := Run(New(1.0, 1), events);
            var (after, out) := Step(before, e);
            var (l, all) := Run(New(1.0, 1), events + [e]);
            && l == after
            && (out.Answer? ==>
                  && Evictions(all, key) == Evictions(outs, key) + (if out.evicted == Some(key) then 1 else 0)
                  && GrantsWithin(all, key, 0.0, 0.0) == GrantsWithin(outs, key, 0.0, 0.0) +
                     (if out.granted && out.key == key && out.at == 0.0 then 1 else 0))
  {
    assert (events + [e])[..|events|] == events;
    CountersSnoc(Run(New(1.0, 1), events).1, Step(Run(New(1.0, 1), events).0, e).1, key, 0.0, 0.0);
  }

  lemma FirstTakes(key: string, other: string)
    requires Text.Trim(key) != ""
    ensures Step(New(1.0, 1), Request(key, 0.0, other)) == (Spent(key), Answer(key, 0.0, true, None))
  {
    assert map[][key := 0.0] == map[key := 0.0];
  }

  /** In a limiter with room for one, a newcomer evicts the other key and is granted. */
  lemma TakesOver(other: string, key: string)
    requires other != key && Text.Trim(key) != ""
    ensures Step(Spent(other), Request(key, 0.0, other)) == (Spent(key), Answer(key, 0.0, true, Some(other)))
  {
    var m: map<string, real> := map[other := 0.0];
    assert |m| == 1 && Oldest(m, other) && m - {other} == map[];
  }

  /** With a burst of at least one, a caller that keeps 1/rate seconds between
      requests is never refused, evictions or not. */
  lemma SpacedNeverRefused(rate: real, burst: real, maxEntries: nat, events: seq<Event>, key: string)
    requires rate > 0.0 && burst >= 1.0 && maxEntries > 0
    requires forall i, j | 0 <= i < j < |events| && KeyOf(events[i].key) == key && KeyOf(events[j].key) == key ::
               events[j].now - events[i].now >= 1.0 / rate
    ensures var outs := Run(New(burst, maxEntries), Scaled(rate, events)).1;
            forall i | 0 <= i < |outs| && outs[i].Answer? && outs[i].key == key :: outs[i].granted
  {
    var scaled := Scaled(rate, events);
    forall i, j | 0 <= i < j < |scaled| && KeyOf(scaled[i].key) == key && KeyOf(scaled[j].key) == key
      ensures scaled[j].now - scaled[i].now >= 1.0
    {
      Gap(events[i].now, events[j].now, rate);
    }
    RunKeepsSpaced(New(burst, maxEntries), scaled, key);
  }

  /** A caller that between any two of its requests asks for no more than burst + rate *
      the seconds between them is never refused, evictions or not. */
  lemma ConformingNeverRefused(rate: real, burst: real, maxEntries: nat, events: seq<Event>, key: string)
    requires rate > 0.0 && burst > 0.0 && maxEntries > 0
    requires forall i, j | 0 <= i <= j < |events| && KeyOf(events[i].key) == key && KeyOf(events[j].key) == key ::
               Asked(events[i..j + 1], key) as real <= Quota(rate, burst, events[j].now - events[i].now)
    ensures var scaled := Scaled(rate, events);
            forall n | 0 <= n < |events| && KeyOf(events[n].key) == key ::
              var out := Step(Run(New(burst, maxEntries), scaled[..n]).0, scaled[n]).1;
              out.Answer? ==> out.granted
  {
    var scaled := Scaled(rate, events);
    forall i, j | 0 <= i <= j < |scaled| && KeyOf(scaled[i].key) == key && KeyOf(scaled[j].key) == key
      ensures Asked(scaled[i..j + 1], key) as real <= burst + (scaled[j].now - scaled[i].now)
    {
      QuotaInTokens(rate, burst, events[i].now, events[j].now);
      SameAsked(events[i..j + 1], scaled[i..j + 1], key);
      hide Units, Quota;
    }
    assert Conforms(scaled, key, burst);
    assert Inv(New(burst, maxEntries)) && New(burst, maxEntries).burst == burst && New(burst, maxEntries).last == map[];
    hide Conforms, Asked, Run, Step, New;
    forall n | 0 <= n < |events| && KeyOf(events[n].key) == key
      ensures var out := Step(Run(New(burst, maxEntries), scaled[..n]).0, scaled[n]).1;
              out.Answer? ==> out.granted
    {
      ConformingIsGranted(New(burst, maxEntries), scaled, key, n);
    }
  }

  lemma {:induction false} SameAsked(a: seq<Event>, b: seq<Event>, key: string)
    requires |a| == |b| && forall i | 0 <= i < |a| :: a[i].key == b[i].key
    ensures Asked(a, key) == Asked(b, key)
  {
    if a != [] { SameAsked(a[..|a| - 1], b[..|b| - 1], key); }
  }

  lemma Gap(x: real, y: real, rate: real)
    requires rate > 0.0 && y - x >= 1.0 / rate
    ensures Units(rate, y) - Units(rate, x) >= 1.0
  {
    Order(1.0 / rate, y - x, rate);
    assert (y - x) * rate == y * rate - x * rate;
  }

  // ----- the object

  class MetaLimiter {
    const rate: real
    const burst: real
    const maxEntries: nat
    var tokens: map<string, real>
    var last: map<string, real>

    /** The entries with their times in tokens. */
    ghost function View(): Limiter
      reads this
    {
      Limiter(burst, maxEntries, tokens, TimesInTokens(rate, last))
    }

    ghost predicate Valid()
      reads this
    {
      rate > 0.0 && Inv(View()) && last.Keys == View().last.Keys
    }

    constructor (rate: real, burst: real, maxEntries: nat)
      requires rate > 0.0 && burst > 0.0 && maxEntries > 0
      ensures Valid() && View() == New(burst, maxEntries) && this.rate == rate
    {
      this.rate, this.burst, this.maxEntries := rate, burst, maxEntries;
      tokens, last := map[], map[];
    }

    /** Scans the entries in any order and drops one that no other predates. */
    method EvictOldest() returns (victim: string)
      requires Valid() && last != map[]
      modifies this
      ensures Oldest(old(last), victim)
      ensures tokens == old(tokens) - {victim} && last == old(last) - {victim}
    {
      victim := "";
      var oldestTime := 0.0;
      var rest := last.Keys;
      while rest != {}
        invariant rest <= last.Keys
        invariant victim == "" ==> rest == last.Keys
        invariant victim != "" ==>
                    && victim in last && oldestTime == last[victim]
                    && forall k | k in last && k !in rest :: oldestTime <= last[k]
        decreases rest
      {
        var key :| key in rest;
        var ts := last[key];
        if victim == "" || ts < oldestTime {
          victim, oldestTime := key, ts;
        }
        rest := rest - {key};
      }
      assert victim != "" by { assert last.Keys != {}; }
      last := last - {victim};
      tokens := tokens - {victim};
    }

    method MakeRoom(key: string) returns (ghost victim: string)
      requires Valid()
      modifies this
      ensures if Crowded(old(View()), key)
              then Oldest(old(View()).last, victim) && View() == Evict(old(View()), victim)
              else View() == old(View())
      ensures rate > 0.0 && tokens.Keys == last.Keys
    {
      victim := "";
      assert |last| == |last.Keys| == |View().last.Keys| == |View().last|;
      if key !in last && |last| >= maxEntries {
        victim := EvictOldest();
        OldestInTokens(old(last), old(View().last), victim, rate);
        DropInTokens(rate, old(last), victim);
      }
    }

    method Take(key: string, now: real, ghost at: real) returns (granted: bool)
      requires tokens.Keys == last.Keys && at == Units(rate, now)
      modifies this
      ensures View() == Spend(old(View()), key, at).0 && granted == Spend(old(View()), key, at).1
    {
      var available := if key in last then Min(burst, tokens[key] + (now - last[key]) * rate) else burst;
      SpendInTokens(rate, View(), last, key, now, available);
      hide Spend, Units, Min;
      granted := available >= 1.0;
      tokens := tokens[key := if granted then available - 1.0 else available];
      last := last[key := now];
    }

    method Allow(rawKey: string, now: real) returns (granted: bool, ghost victim: string)
      requires Valid()
      modifies this
      ensures Valid()
      ensures var (next, out) := Step(old(View()), InTokens(rate, Request(rawKey, now, victim)));
              View() == next && out.Answer? && out.granted == granted
    {
      var key := KeyOf(rawKey);
      victim := MakeRoom(key);
      ghost var at := Units(rate, now);
      StepSpends(old(View()), Request(rawKey, at, victim), View(), key);
      StepKeepsInv(old(View()), Request(rawKey, at, victim));
      granted := Take(key, now, at);
    }
  }

  /** Spending worked out in seconds is spending worked out in tokens. */
  lemma SpendInTokens(rate: real, l: Limiter, last: map<string, real>, key: string, now: real, available: real)
    requires l.tokens.Keys == last.Keys && l.last == TimesInTokens(rate, last)
    requires available == if key in last then Min(l.burst, l.tokens[key] + (now - last[key]) * rate) else l.burst
    ensures var granted := available >= 1.0;
            Spend(l, key, Units(rate, now)) ==
            (l.(tokens := l.tokens[key := if granted then available - 1.0 else available],
                last := TimesInTokens(rate, last[key := now])), granted)
  {
    UpdateInTokens(rate, last, key, now);
    if key in last {
      assert (now - last[key]) * rate == now * rate - l.last[key];
    }
  }

  lemma OldestInTokens(last: map<string, real>, scaled: map<string, real>, key: string, rate: real)
    requires rate > 0.0 && Oldest(last, key)
    requires last.Keys == scaled.Keys && forall k | k in last :: scaled[k] == Units(rate, last[k])
    ensures Oldest(scaled, key)
  {
    forall k | k in scaled ensures scaled[key] <= scaled[k] {
      Order(last[key], last[k], rate);
    }
  }
}
