/**
 The NATS rate limiter as a distributed protocol.

 Any number of requests, handled by any number of gateway replicas with
 unrelated clocks, run read / decide / conditional-write rounds against one key
 of a shared key-value bucket.  A run is a sequence of events; `Step` is total,
 an event that is not enabled leaves the state as it is, so a theorem about
 `Run` over every event sequence speaks about every interleaving.
 */
module NatsLimiter {
  import opened Common

  const MAX_ATTEMPTS: nat := 3
  const DEFAULT_LIMIT: real := 10.0
  const DEFAULT_BURST: int := 20
  const SECOND_MICROS: int := 1_000_000

  /** The stored value: requests counted so far and the start of their window. */
  datatype Window = Window(count: int, start: int)

  datatype Entry = Entry(window: Window, revision: nat)

  /** One key of the bucket; `last` is the highest revision ever handed out. */
  datatype Kv = Kv(entry: Option<Entry>, last: nat)

  /** The parameters one call to Allow works with for all its attempts. */
  datatype Call = Call(now: int, windowMicros: int, burst: int)

  datatype Loaded = Loaded(window: Window, revision: nat)

  /** Where a request is between two of its accesses to the bucket. */
  datatype Phase =
    | Idle
    | Reading(call: Call, attempt: nat)
    | Writing(call: Call, attempt: nat, window: Window, revision: nat)

  type RequestId = nat

  /** A conditional write on its way to the bucket. */
  datatype Message = Message(window: Window, revision: nat)

  /** `late` holds the writes whose callers have given up waiting for them. */
  datatype Sys = Sys(kv: Kv, phases: map<RequestId, Phase>, late: set<Message>)

  /** `delivered` and `acked` say whether a write reaches the bucket while its caller
      waits and whether the reply reaches the caller; a write that does not may still
      `Arrive` at any time later, and more than once.  `Expire` is the bucket dropping
      the key, and `OtherKeys` writes elsewhere in it, which share its revisions. */
  datatype Event =
    | Begin(r: RequestId, now: int, limit: real, burst: int)
    | Read(r: RequestId)
    | ReadFails(r: RequestId)
    | Write(r: RequestId, delivered: bool, acked: bool)
    | Arrive(message: Message)
    | Expire
    | OtherKeys(writes: nat)

  datatype Effect = NoWrite | Created | Updated

  datatype Verdict =
    | Pending
    | Granted(remaining: int)
    | Refused(retryAfter: int)
    | Unavailable

  datatype Out = Out(effect: Effect, verdict: Verdict)

  const SILENT: Out := Out(NoWrite, Pending)

  // ----- the code's own steps

  function NormalizeBurst(burst: int): (b: int)
    ensures b >= 1
  {
    if burst <= 0 then DEFAULT_BURST else burst
  }

  function NormalizeLimit(limit: real): (l: real)
    ensures l > 0.0
  {
    if limit <= 0.0 then DEFAULT_LIMIT else limit
  }

  function NewCall(now: int, limit: real, burst: int): Call {
    var b := NormalizeBurst(burst);
    Call(now, (SECOND_MICROS as real * b as real / NormalizeLimit(limit)).Floor, b)
  }

  function LoadWindow(kv: Kv, now: int, windowMicros: int): Loaded {
    match kv.entry
    case None => Loaded(Window(0, now), 0)
    case Some(e) =>
      if now - e.window.start > windowMicros
      then Loaded(Window(0, now), 0)
      else Loaded(e.window, e.revision)
  }

  /** Revision 0 asks for a create, any other revision for an update of exactly
      that revision; None is a conflict. */
  function CasWrite(kv: Kv, window: Window, revision: nat): Option<Kv> {
    if revision == 0 then
      if kv.entry.None? then Some(Kv(Some(Entry(window, kv.last + 1)), kv.last + 1)) else None
    else if kv.entry.Some? && kv.entry.value.revision == revision then
      Some(Kv(Some(Entry(window, kv.last + 1)), kv.last + 1))
    else None
  }

  function RetryAfter(window: Window, windowMicros: int, now: int): (retry: int)
    ensures retry > 0
  {
    var retryMicros := window.start + windowMicros - now;
    if retryMicros <= 0 then SECOND_MICROS else retryMicros
  }

  function Remaining(burst: int, count: int): (left: int)
    ensures left >= 0
  {
    if burst - count < 0 then 0 else burst - count
  }

  // ----- the protocol

  const INIT: Sys := Sys(Kv(None, 0), map[], {})

  /** A step of a request, not of the bucket or the network. */
  predicate OfRequest(e: Event) {
    !e.Arrive? && !e.Expire? && !e.OtherKeys?
  }

  function PhaseOf(s: Sys, r: RequestId): Phase {
    if r in s.phases then s.phases[r] else Idle
  }

  function SetPhase(s: Sys, r: RequestId, p: Phase): Sys {
    s.(phases := s.phases[r := p])
  }

  /** What follows a lost round: another attempt, or the fallback limiter. */
  function AfterConflict(call: Call, attempt: nat): (Phase, Verdict) {
    if attempt + 1 < MAX_ATTEMPTS then (Reading(call, attempt + 1), Pending) else (Idle, Unavailable)
  }

  function DoRead(kv: Kv, call: Call, attempt: nat): (Phase, Verdict) {
    var loaded := LoadWindow(kv, call.now, call.windowMicros);
    if loaded.window.count >= call.burst
    then (Idle, Refused(RetryAfter(loaded.window, call.windowMicros, call.now)))
    else (Writing(call, attempt, loaded.window.(count := loaded.window.count + 1), loaded.revision), Pending)
  }

  function EffectOf(revision: nat): Effect {
    if revision == 0 then Created else Updated
  }

  function DoWrite(kv: Kv, p: Phase, delivered: bool, acked: bool): (Kv, Phase, Out)
    requires p.Writing?
  {
    var written := if delivered then CasWrite(kv, p.window, p.revision) else None;
    var effect := if written.None? then NoWrite else EffectOf(p.revision);
    var kv' := if written.Some? then written.value else kv;
    if written.Some? && acked then
      (kv', Idle, Out(effect, Granted(Remaining(p.call.burst, p.window.count))))
    else
      var (next, verdict) := AfterConflict(p.call, p.attempt);
      (kv', next, Out(effect, verdict))
  }

  function Step(s: Sys, e: Event): (Sys, Out) {
    match e
    case Expire => (s.(kv := s.kv.(entry := None)), SILENT)
    case OtherKeys(writes) => (s.(kv := s.kv.(last := s.kv.last + writes)), SILENT)
    case Begin(r, now, limit, burst) =>
      if PhaseOf(s, r).Idle? then (SetPhase(s, r, Reading(NewCall(now, limit, burst), 0)), SILENT)
      else (s, SILENT)
    case Read(r) =>
      var p := PhaseOf(s, r);
      if p.Reading? then
        var (next, verdict) := DoRead(s.kv, p.call, p.attempt);
        (SetPhase(s, r, next), Out(NoWrite, verdict))
      else (s, SILENT)
    case ReadFails(r) =>
      if PhaseOf(s, r).Reading? then (SetPhase(s, r, Idle), Out(NoWrite, Unavailable))
      else (s, SILENT)
    case Write(r, delivered, acked) =>
      var p := PhaseOf(s, r);
      if p.Writing? then
        var (kv', next, out) := DoWrite(s.kv, p, delivered, acked);
        var late := if delivered then s.late else s.late + {Message(p.window, p.revision)};
        (SetPhase(s.(kv := kv', late := late), r, next), out)
      else (s, SILENT)
    case Arrive(message) =>
      var written := CasWrite(s.kv, message.window, message.revision);
      if message in s.late && written.Some?
      then (s.(kv := written.value), Out(EffectOf(message.revision), Pending))
      else (s, SILENT)
  }

  function Run(s: Sys, events: seq<Event>): (Sys, seq<Out>) {
    if events == [] then (s, [])
    else
      var (before, outs) := Run(s, events[..|events| - 1]);
      var (after, out) := Step(before, events[|events| - 1]);
      (after, outs + [out])
  }

  // ----- what an observer counts in a run's outputs

  function Grants(outs: seq<Out>): nat {
    if outs == [] then 0
    else Grants(outs[..|outs| - 1]) + (if outs[|outs| - 1].verdict.Granted? then 1 else 0)
  }

  function Creations(outs: seq<Out>): nat {
    if outs == [] then 0
    else Creations(outs[..|outs| - 1]) + (if outs[|outs| - 1].effect.Created? then 1 else 0)
  }

  /** Grants from the last creation of the key on, that one included. */
  function GrantsSinceCreate(outs: seq<Out>): nat {
    if outs == [] then 0
    else
      var out := outs[|outs| - 1];
      (if out.effect.Created? then 0 else GrantsSinceCreate(outs[..|outs| - 1]))
      + (if out.verdict.Granted? then 1 else 0)
  }

  function Expiries(events: seq<Event>): nat {
    if events == [] then 0
    else Expiries(events[..|events| - 1]) + (if events[|events| - 1].Expire? then 1 else 0)
  }

  ghost predicate BurstsWithin(events: seq<Event>, bound: int) {
    forall i | 0 <= i < |events| && events[i].Begin? :: NormalizeBurst(events[i].burst) <= bound
  }

  /** Every write that takes effect is also acknowledged. */
  ghost predicate NoLostReplies(events: seq<Event>) {
    forall i | 0 <= i < |events| ::
      !events[i].Arrive? && (events[i].Write? && events[i].delivered ==> events[i].acked)
  }

  // ----- the invariant

  ghost predicate KvOk(kv: Kv, bound: int) {
    kv.entry.Some? ==>
      && 0 < kv.entry.value.revision <= kv.last
      && 1 <= kv.entry.value.window.count <= bound
  }

  /** A pending write holds a successor of the stored value when its revision is
      still the stored one, and the first count when it creates. */
  ghost predicate WriteOk(kv: Kv, window: Window, revision: nat, bound: int) {
    && 1 <= window.count <= bound
    && revision <= kv.last
    && (revision == 0 ==> window.count == 1)
    && (kv.entry.Some? && kv.entry.value.revision == revision ==>
          window.count == kv.entry.value.window.count + 1)
  }

  ghost predicate PhaseOk(kv: Kv, p: Phase, bound: int) {
    match p
    case Idle => true
    case Reading(call, _) => call.burst <= bound
    case Writing(call, _, window, revision) => call.burst <= bound && WriteOk(kv, window, revision, call.burst)
  }

  ghost predicate Inv(s: Sys, bound: int) {
    && KvOk(s.kv, bound)
    && (forall r | r in s.phases :: PhaseOk(s.kv, s.phases[r], bound))
    && forall m | m in s.late :: WriteOk(s.kv, m.window, m.revision, bound)
  }

  ghost predicate Counted(s: Sys, outs: seq<Out>, bound: int) {
    && GrantsSinceCreate(outs) <= bound
    && (s.kv.entry.Some? ==> GrantsSinceCreate(outs) <= s.kv.entry.value.window.count)
  }

  lemma StepKeepsInv(s: Sys, e: Event, bound: int)
    requires Inv(s, bound)
    requires e.Begin? ==> NormalizeBurst(e.burst) <= bound
    ensures Inv(Step(s, e).0, bound)
  {
    var s' := Step(s, e).0;
    if e.Write? && PhaseOf(s, e.r).Writing? {
      WriteKeepsInv(s, e, bound);
    } else if e.Arrive? {
      ArrivalKeepsInv(s, e, bound);
    } else {
      assert s'.kv.last >= s.kv.last && (s'.kv.entry == s.kv.entry || s'.kv.entry.None?);
      forall r | r in s'.phases ensures PhaseOk(s'.kv, s'.phases[r], bound) {
        assert (OfRequest(e) && e.r == r) || (r in s.phases && s'.phases[r] == s.phases[r]);
      }
    }
  }

  lemma WriteKeepsInv(s: Sys, e: Event, bound: int)
    requires Inv(s, bound)
    requires e.Write? && PhaseOf(s, e.r).Writing?
    ensures Inv(Step(s, e).0, bound)
  {
    var p := PhaseOf(s, e.r);
    assert PhaseOk(s.kv, p, bound);
    var s' := Step(s, e).0;
    forall r | r in s'.phases ensures PhaseOk(s'.kv, s'.phases[r], bound) {
      if r != e.r {
        assert s'.phases[r] == s.phases[r] && PhaseOk(s.kv, s.phases[r], bound);
      }
    }
  }

  lemma ArrivalKeepsInv(s: Sys, e: Event, bound: int)
    requires Inv(s, bound) && e.Arrive?
    ensures Inv(Step(s, e).0, bound)
  {
    var s' := Step(s, e).0;
    if e.message in s.late {
      assert WriteOk(s.kv, e.message.window, e.message.revision, bound);
    }
    forall r | r in s'.phases ensures PhaseOk(s'.kv, s'.phases[r], bound) {
      assert PhaseOk(s.kv, s.phases[r], bound);
    }
  }

  lemma StepKeepsCount(s: Sys, outs: seq<Out>, e: Event, bound: int)
    requires Inv(s, bound) && Counted(s, outs, bound)
    requires e.Begin? ==> NormalizeBurst(e.burst) <= bound
    ensures Counted(Step(s, e).0, outs + [Step(s, e).1], bound)
  {
    CountersSnoc(outs, Step(s, e).1);
    if e.Write? && PhaseOf(s, e.r).Writing? {
      assert PhaseOk(s.kv, PhaseOf(s, e.r), bound);
    } else if e.Arrive? && e.message in s.late {
      assert WriteOk(s.kv, e.message.window, e.message.revision, bound);
    }
  }

  // ----- theorems over every run

  /** However requests, clocks, lost messages and expiry interleave, the grants
      handed out since the key was created never exceed the count it stores, and
      neither exceeds the burst. */
  lemma {:induction false} GrantsNeverExceedBurst(events: seq<Event>, bound: int)
    requires bound >= 0
    requires BurstsWithin(events, bound)
    ensures Inv(Run(INIT, events).0, bound)
    ensures Counted(Run(INIT, events).0, Run(INIT, events).1, bound)
  {
    if events != [] {
      var prefix := events[..|events| - 1];
      GrantsNeverExceedBurst(prefix, bound);
      StepKeepsInv(Run(INIT, prefix).0, events[|events| - 1], bound);
      StepKeepsCount(Run(INIT, prefix).0, Run(INIT, prefix).1, events[|events| - 1], bound);
    }
  }

  /** When no reply is lost the stored count is exactly the number of grants. */
  lemma {:induction false} CountIsGrants(events: seq<Event>, bound: int)
    requires bound >= 0
    requires BurstsWithin(events, bound) && NoLostReplies(events)
    ensures var (s, outs) := Run(INIT, events);
            s.kv.entry.Some? ==> s.kv.entry.value.window.count == GrantsSinceCreate(outs)
  {
    if events != [] {
      var prefix, e := events[..|events| - 1], events[|events| - 1];
      CountIsGrants(prefix, bound);
      GrantsNeverExceedBurst(prefix, bound);
      var (s, outs) := Run(INIT, prefix);
      CountersSnoc(outs, Step(s, e).1);
      if e.Write? && PhaseOf(s, e.r).Writing? {
        assert PhaseOk(s.kv, PhaseOf(s, e.r), bound);
      }
    }
  }

  lemma CountersSnoc(outs: seq<Out>, out: Out)
    ensures var all := outs + [out];
            var granted := if out.verdict.Granted? then 1 else 0;
            && Grants(all) == Grants(outs) + granted
            && Creations(all) == Creations(outs) + (if out.effect.Created? then 1 else 0)
            && GrantsSinceCreate(all) == (if out.effect.Created? then 0 else GrantsSinceCreate(outs)) + granted
  {
    assert (outs + [out])[..|outs + [out]| - 1] == outs;
  }

  /** n bursts. */
  function Bursts(n: nat, bound: int): (total: int)
    ensures total == bound * n
  {
    if n == 0 then 0 else Bursts(n - 1, bound) + bound
  }

  lemma {:induction false} BurstsMono(m: nat, n: nat, bound: int)
    requires bound >= 0 && m <= n
    ensures Bursts(m, bound) <= Bursts(n, bound)
  {
    if m < n { BurstsMono(m, n - 1, bound); }
  }

  /** Over a whole run: at most one burst of grants for each life of the key, and
      the key lives at most once more than it expires. */
  lemma TotalGrants(events: seq<Event>, bound: int)
    requires bound >= 0
    requires BurstsWithin(events, bound)
    ensures var outs := Run(INIT, events).1;
            && Creations(outs) <= Expiries(events) + 1
            && Grants(outs) <= bound * Creations(outs) <= bound * (Expiries(events) + 1)
  {
    GrantsPerLife(events, bound);
    LivesPerExpiry(events);
    BurstsMono(Creations(Run(INIT, events).1), Expiries(events) + 1, bound);
  }

  lemma {:induction false} LivesPerExpiry(events: seq<Event>)
    ensures var (s, outs) := Run(INIT, events);
            Creations(outs) + (if s.kv.entry.None? then 1 else 0) <= Expiries(events) + 1
  {
    if events != [] {
      var prefix, e := events[..|events| - 1], events[|events| - 1];
      LivesPerExpiry(prefix);
      var (s, outs) := Run(INIT, prefix);
      CountersSnoc(outs, Step(s, e).1);
    }
  }

  /** Grants before the current life are covered by earlier bursts. */
  ghost predicate LivesPaid(s: Sys, outs: seq<Out>, bound: int) {
    && Grants(outs) <= Bursts(Creations(outs), bound)
    && (s.kv.entry.Some? ==> Creations(outs) > 0)
    && (Creations(outs) > 0 ==> Grants(outs) <= Bursts(Creations(outs) - 1, bound) + GrantsSinceCreate(outs))
  }

  lemma {:induction false} GrantsPerLife(events: seq<Event>, bound: int)
    requires bound >= 0
    requires BurstsWithin(events, bound)
    ensures LivesPaid(Run(INIT, events).0, Run(INIT, events).1, bound)
  {
    if events != [] {
      var prefix, e := events[..|events| - 1], events[|events| - 1];
      GrantsPerLife(prefix, bound);
      GrantsNeverExceedBurst(prefix, bound);
      LifeStep(Run(INIT, prefix).0, Run(INIT, prefix).1, e, bound);
    }
  }

  lemma LifeStep(s: Sys, outs: seq<Out>, e: Event, bound: int)
    requires bound >= 0 && Inv(s, bound) && Counted(s, outs, bound) && LivesPaid(s, outs, bound)
    requires e.Begin? ==> NormalizeBurst(e.burst) <= bound
    ensures LivesPaid(Step(s, e).0, outs + [Step(s, e).1], bound)
  {
    StepKeepsCount(s, outs, e, bound);
    CountersSnoc(outs, Step(s, e).1);
  }

  // ----- what a request is told

  /** What a limit per second lets through in a time, in millionths. */
  function LetThrough(rate: real, micros: real): real {
    rate * micros
  }

  /** The window is the time in which the limit lets a burst through, in whole
      microseconds; a limit or burst that is not positive counts as 10 or 20. */
  lemma WindowLength(now: int, limit: real, burst: int)
    ensures var call, rate := NewCall(now, limit, burst), if limit > 0.0 then limit else 10.0;
            && call.now == now && call.burst == (if burst > 0 then burst else 20)
            && var through := LetThrough(rate, call.windowMicros as real);
               through <= 1_000_000.0 * call.burst as real < through + rate
  {
    var call, rate := NewCall(now, limit, burst), NormalizeLimit(limit);
    var full := 1_000_000.0 * call.burst as real;
    Quotient(full, rate);
    Between((full / rate).Floor as real, full / rate, rate);
    hide LetThrough;
  }

  lemma Quotient(x: real, y: real)
    requires y > 0.0
    ensures LetThrough(y, x / y) == x
  {}

  lemma Between(v: real, q: real, y: real)
    requires y > 0.0 && v <= q < v + 1.0
    ensures LetThrough(y, v) <= LetThrough(y, q) < LetThrough(y, v) + y
  {
    hide LetThrough;
    Adds(y, v, q - v);
    Adds(y, q, v + 1.0 - q);
    Adds(y, v, 1.0);
    Grows(y, q - v);
    Grows(y, v + 1.0 - q);
  }

  lemma Adds(y: real, a: real, b: real)
    ensures LetThrough(y, a + b) == LetThrough(y, a) + LetThrough(y, b)
    ensures LetThrough(y, 1.0) == y
  {}

  lemma Grows(y: real, d: real)
    requires y > 0.0 && d >= 0.0
    ensures LetThrough(y, d) >= 0.0 && (d > 0.0 ==> LetThrough(y, d) > 0.0)
  {}

  /** A grant tells the caller exactly how much of its burst is left. */
  lemma GrantedLeavesTheRest(s: Sys, e: Event, bound: int)
    requires Inv(s, bound) && Step(s, e).1.verdict.Granted?
    ensures var (s', out) := Step(s, e);
            && PhaseOf(s, e.r).Writing? && s'.kv.entry.Some?
            && out.verdict.remaining + s'.kv.entry.value.window.count == PhaseOf(s, e.r).call.burst
  {
    assert PhaseOk(s.kv, PhaseOf(s, e.r), bound);
  }

  /** The first answer to a request that nobody disturbs. */
  predicate FirstAnswer(before: Kv, call: Call, after: Kv, verdict: Verdict) {
    match before.entry
    case None =>
      after.entry == Some(Entry(Window(1, call.now), before.last + 1)) && verdict == Granted(call.burst - 1)
    case Some(e) =>
      if call.now > e.window.start + call.windowMicros then after == before && verdict == Pending
      else if e.window.count >= call.burst then after == before && verdict.Refused?
      else
        && after.entry == Some(Entry(Window(e.window.count + 1, e.window.start), before.last + 1))
        && verdict == Granted(call.burst - (e.window.count + 1))
  }

  /** A request that nobody disturbs opens a window where there is none, takes a place
      in one that is open and not full, is refused by one that is full, and loses the
      attempt to one that has run out. */
  lemma UndisturbedRequest(s: Sys, r: RequestId, now: int, limit: real, burst: int, bound: int)
    requires Inv(s, bound) && PhaseOf(s, r).Idle?
    ensures var begun := Step(s, Begin(r, now, limit, burst)).0;
            var (read, answer) := Step(begun, Read(r));
            var (written, reply) := Step(read, Write(r, true, true));
            && (answer.verdict.Pending? || written == read)
            && FirstAnswer(s.kv, NewCall(now, limit, burst), written.kv,
                           if answer.verdict.Pending? then reply.verdict else answer.verdict)
  {
    assert NewCall(now, limit, burst).burst >= 1;
    hide NewCall, RetryAfter;
  }

  /** And a request that finds only such a window loses all three attempts, then is
      handed to the fallback. */
  lemma ThreeLostAttempts(s: Sys, r: RequestId, e: Entry, call: Call, attempt: nat)
    requires WindowSpent(s, e) && PhaseOf(s, r) == Reading(call, attempt) && attempt < 3
    ensures var (s', out) := Step(Step(s, Read(r)).0, Write(r, true, true));
            && s'.kv == s.kv
            && (if attempt < 2 then PhaseOf(s', r) == Reading(call, attempt + 1) && out.verdict.Pending?
                else PhaseOf(s', r).Idle? && out.verdict.Unavailable?)
  {
    assert PhaseSpent(PhaseOf(s, r), e);
  }

  /** A request is refused exactly when the stored window is open on its clock and
      full.  The advised wait carries that clock past the window's end, and no
      further, except that a window ending at this very moment costs a second. */
  lemma RefusedExactlyWhenFull(kv: Kv, call: Call, attempt: nat)
    requires call.burst >= 1
    ensures var verdict := DoRead(kv, call, attempt).1;
            && (verdict.Refused? <==>
                  && kv.entry.Some?
                  && call.now - kv.entry.value.window.start <= call.windowMicros
                  && kv.entry.value.window.count >= call.burst)
            && (verdict.Refused? ==>
                  forall later | later > call.now + verdict.retryAfter ::
                    LoadWindow(kv, later, call.windowMicros) == Loaded(Window(0, later), 0))
            && (verdict.Refused? ==>
                  ((forall later | call.now <= later <= call.now + verdict.retryAfter ::
                      LoadWindow(kv, later, call.windowMicros).window == kv.entry.value.window)
                   <==> call.now != kv.entry.value.window.start + call.windowMicros))
  {
    var justAfter := LoadWindow(kv, call.now + 1, call.windowMicros);
  }

  // ----- a window that has run out while its key is still there

  /** A write that starts a new window takes effect exactly when the key is gone:
      the elapsed window itself is never overwritten. */
  lemma NewWindowNeedsAbsentKey(atRead: Kv, atWrite: Kv, now: int, windowMicros: int)
    requires atRead.entry.Some? && now - atRead.entry.value.window.start > windowMicros
    ensures var loaded := LoadWindow(atRead, now, windowMicros);
            CasWrite(atWrite, loaded.window.(count := 1), loaded.revision).Some? <==> atWrite.entry.None?
  {}

  ghost predicate CallSpent(call: Call, e: Entry) {
    call.burst >= 1 && call.now - e.window.start > call.windowMicros
  }

  ghost predicate PhaseSpent(p: Phase, e: Entry) {
    match p
    case Idle => true
    case Reading(call, _) => CallSpent(call, e)
    case Writing(call, _, _, revision) => CallSpent(call, e) && revision != e.revision
  }

  /** The stored window has run out for every request in flight, and no pending or
      late write holds its revision. */
  ghost predicate WindowSpent(s: Sys, e: Entry) {
    && s.kv.entry == Some(e)
    && e.revision > 0
    && (forall r | r in s.phases :: PhaseSpent(s.phases[r], e))
    && forall m | m in s.late :: m.revision != e.revision
  }

  ghost predicate BeginsAfter(events: seq<Event>, e: Entry) {
    forall i | 0 <= i < |events| && events[i].Begin? ::
      CallSpent(NewCall(events[i].now, events[i].limit, events[i].burst), e)
  }

  predicate FallbackOnly(out: Out) {
    out.effect.NoWrite? && (out.verdict.Pending? || out.verdict.Unavailable?)
  }

  /** Until the bucket drops the key nothing is granted and nothing is refused:
      every request that finishes is handed to the fallback. */
  lemma {:induction false} SpentWindowBlocks(s: Sys, e: Entry, events: seq<Event>)
    requires WindowSpent(s, e)
    requires Expiries(events) == 0
    requires BeginsAfter(events, e)
    ensures WindowSpent(Run(s, events).0, e)
    ensures forall i | 0 <= i < |Run(s, events).1| :: FallbackOnly(Run(s, events).1[i])
  {
    if events != [] {
      var prefix, last := events[..|events| - 1], events[|events| - 1];
      SpentWindowBlocks(s, e, prefix);
      SpentStep(Run(s, prefix).0, e, last);
    }
  }

  lemma SpentStep(s: Sys, e: Entry, event: Event)
    requires WindowSpent(s, e) && !event.Expire?
    requires event.Begin? ==> CallSpent(NewCall(event.now, event.limit, event.burst), e)
    ensures WindowSpent(Step(s, event).0, e) && FallbackOnly(Step(s, event).1)
  {
    var s' := Step(s, event).0;
    if OfRequest(event) {
      assert PhaseSpent(PhaseOf(s, event.r), e);
      forall r | r in s'.phases ensures PhaseSpent(s'.phases[r], e) {
        if r != event.r {
          assert s'.phases[r] == s.phases[r];
        }
      }
    }
  }

  /** Such a state is reached by one granted request: to any request that begins after
      its window the key is spent. */
  lemma SpentWindowIsReachable(now: int)
    requires now > SECOND_MICROS
    ensures var s := Run(INIT, [Begin(0, 0, 1.0, 1), Read(0), Write(0, true, true)]).0;
            var e := Entry(Window(1, 0), 1);
            WindowSpent(s, e) && CallSpent(NewCall(now, 1.0, 1), e)
  {
    var e1: seq<Event> := [] + [Begin(0, 0, 1.0, 1)];
    var e2 := e1 + [Read(0)];
    RunThen(INIT, [], Begin(0, 0, 1.0, 1));
    RunThen(INIT, e1, Read(0));
    RunThen(INIT, e2, Write(0, true, true));
    assert e2 + [Write(0, true, true)] == [Begin(0, 0, 1.0, 1), Read(0), Write(0, true, true)];
    assert NewCall(0, 1.0, 1) == Call(0, SECOND_MICROS, 1);
    assert NewCall(now, 1.0, 1) == Call(now, SECOND_MICROS, 1);
  }

  lemma RunThen(s: Sys, events: seq<Event>, e: Event)
    ensures Run(s, events + [e]).0 == Step(Run(s, events).0, e).0
  {
    assert (events + [e])[..|events|] == events;
  }

  // ----- Allow itself, with the rest of the deployment running in between

  /** What the other requests do around one attempt, and what the network does
      to the attempt's own read and write. */
  datatype Round = Round(beforeRead: seq<Event>, readOk: bool, beforeWrite: seq<Event>, delivered: bool, acked: bool)

  predicate Others(events: seq<Event>, r: RequestId) {
    forall i | 0 <= i < |events| :: OfRequest(events[i]) ==> events[i].r != r
  }

  predicate OthersOnly(rounds: seq<Round>, r: RequestId) {
    forall i | 0 <= i < |rounds| :: Others(rounds[i].beforeRead, r) && Others(rounds[i].beforeWrite, r)
  }

  ghost function LastVerdict(s: Sys, events: seq<Event>): Verdict
    requires events != []
  {
    RunLength(s, events);
    Run(s, events).1[|events| - 1].verdict
  }

  lemma {:induction false} RunLength(s: Sys, events: seq<Event>)
    ensures |Run(s, events).1| == |events|
  {
    if events != [] { RunLength(s, events[..|events| - 1]); }
  }

  ghost function ReadEvents(round: Round, r: RequestId): seq<Event> {
    round.beforeRead + [if round.readOk then Read(r) else ReadFails(r)]
  }

  ghost function WriteEvents(round: Round, r: RequestId): seq<Event> {
    round.beforeWrite + [Write(r, round.delivered, round.acked)]
  }

  /** The events of one attempt, which ends at the read when that settles it. */
  ghost function RoundEvents(s: Sys, r: RequestId, round: Round): (events: seq<Event>)
    ensures events != []
  {
    var events := ReadEvents(round, r);
    if LastVerdict(s, events).Pending? then events + WriteEvents(round, r) else events
  }

  /** The events of one call from its k-th attempt on, its own and the others'. */
  ghost function Schedule(s: Sys, r: RequestId, rounds: seq<Round>, k: nat): seq<Event>
    decreases |rounds| - k
  {
    if k >= |rounds| then []
    else
      var events := RoundEvents(s, r, rounds[k]);
      if LastVerdict(s, events).Pending?
      then events + Schedule(Run(s, events).0, r, rounds, k + 1)
      else events
  }

  /** Where those events lead, attempt by attempt. */
  ghost function Played(s: Sys, r: RequestId, rounds: seq<Round>, k: nat): (Sys, Verdict)
    decreases |rounds| - k
  {
    if k >= |rounds| then (s, Pending)
    else
      var events := RoundEvents(s, r, rounds[k]);
      var s', verdict := Run(s, events).0, LastVerdict(s, events);
      if verdict.Pending? then Played(s', r, rounds, k + 1) else (s', verdict)
  }

  /** Playing the attempts one after the other is one run of the protocol. */
  lemma {:induction false} PlayedIsARun(s: Sys, r: RequestId, rounds: seq<Round>, k: nat)
    ensures var events := Schedule(s, r, rounds, k);
            && Played(s, r, rounds, k).0 == Run(s, events).0
            && (k < |rounds| ==> events != [])
            && (events != [] ==> Played(s, r, rounds, k).1 == LastVerdict(s, events))
    decreases |rounds| - k
  {
    if k < |rounds| {
      var events := RoundEvents(s, r, rounds[k]);
      if LastVerdict(s, events).Pending? {
        var s' := Run(s, events).0;
        PlayedIsARun(s', r, rounds, k + 1);
        var rest := Schedule(s', r, rounds, k + 1);
        RunConcat(s, events, rest);
        if rest == [] {
          assert events + rest == events;
        }
      }
    }
  }

  lemma {:induction false} RunConcat(s: Sys, a: seq<Event>, b: seq<Event>)
    ensures Run(s, a + b).0 == Run(Run(s, a).0, b).0
    ensures b != [] ==> LastVerdict(s, a + b) == LastVerdict(Run(s, a).0, b)
  {
    if b == [] {
      assert a + b == a;
    } else {
      RunConcat(s, a, b[..|b| - 1]);
      assert (a + b)[..|a + b| - 1] == a + b[..|b| - 1];
      RunLength(s, a + b[..|b| - 1]);
      RunLength(Run(s, a).0, b[..|b| - 1]);
    }
  }

  /** Steps of other requests neither see nor change a request's own phase. */
  lemma {:induction false} Frame(s: Sys, r: RequestId, p: Phase, events: seq<Event>)
    requires Others(events, r) && r !in s.phases
    ensures Run(SetPhase(s, r, p), events).0 == SetPhase(Run(s, events).0, r, p)
    ensures r !in Run(s, events).0.phases
  {
    if events != [] {
      var prefix := events[..|events| - 1];
      Frame(s, r, p, prefix);
      FrameStep(Run(s, prefix).0, r, p, events[|events| - 1]);
    }
  }

  lemma FrameStep(s: Sys, r: RequestId, p: Phase, e: Event)
    requires r !in s.phases && (OfRequest(e) ==> e.r != r)
    ensures Step(SetPhase(s, r, p), e).0 == SetPhase(Step(s, e).0, r, p)
    ensures r !in Step(s, e).0.phases
  {
    hide DoRead, DoWrite, NewCall, CasWrite;
    if OfRequest(e) {
      assert PhaseOf(SetPhase(s, r, p), e.r) == PhaseOf(s, e.r);
      forall q ensures SetPhase(SetPhase(s, r, p), e.r, q) == SetPhase(SetPhase(s, e.r, q), r, p) {
        SetsCommute(s.phases, r, p, e.r, q);
      }
      if e.Write? && PhaseOf(s, e.r).Writing? {
        SetsCommute(s.phases, r, p, e.r, DoWrite(s.kv, PhaseOf(s, e.r), e.delivered, e.acked).1);
      }
    }
  }

  lemma SetsCommute<K, V>(m: map<K, V>, j: K, v: V, k: K, w: V)
    requires j != k
    ensures m[j := v][k := w] == m[k := w][j := v]
  {}

  /** The bucket and the requests other than the one being followed. */
  class Deployment {
    var kv: Kv
    var phases: map<RequestId, Phase>
    var late: set<Message>

    ghost function View(): Sys
      reads this
    {
      Sys(kv, phases, late)
    }

    method Interfere(events: seq<Event>)
      modifies this
      ensures View() == Run(old(View()), events).0
    {
      var i := 0;
      while i < |events|
        invariant 0 <= i <= |events|
        invariant View() == Run(old(View()), events[..i]).0
      {
        assert events[..i + 1][..i] == events[..i];
        var (next, _) := Step(Sys(kv, phases, late), events[i]);
        kv, phases, late := next.kv, next.phases, next.late;
        i := i + 1;
      }
      assert events[..i] == events;
    }

    /** One attempt: load, decide, write. */
    method Attempt(r: RequestId, call: Call, attempt: nat, round: Round) returns (verdict: Verdict)
      requires Others(round.beforeRead, r) && Others(round.beforeWrite, r)
      requires r !in phases && attempt < MAX_ATTEMPTS
      modifies this
      ensures var s := SetPhase(old(View()), r, Reading(call, attempt));
              var events := RoundEvents(s, r, round);
              && Run(s, events).0 == SetPhase(View(), r, if verdict.Pending? then Reading(call, attempt + 1) else Idle)
              && LastVerdict(s, events) == verdict
      ensures r !in phases
      ensures verdict.Pending? ==> attempt + 1 < MAX_ATTEMPTS
    {
      ghost var s := SetPhase(View(), r, Reading(call, attempt));
      ReadStep(View(), r, call, attempt, round);
      Interfere(round.beforeRead);
      if !round.readOk {
        return Unavailable;
      }
      var loaded := LoadWindow(kv, call.now, call.windowMicros);
      if loaded.window.count >= call.burst {
        return Refused(RetryAfter(loaded.window, call.windowMicros, call.now));
      }
      var window := loaded.window.(count := loaded.window.count + 1);
      WriteStep(s, ReadEvents(round, r), View(), r, Writing(call, attempt, window, loaded.revision), round);
      Interfere(round.beforeWrite);
      var written := if round.delivered then CasWrite(kv, window, loaded.revision) else None;
      if !round.delivered {
        late := late + {Message(window, loaded.revision)};
      }
      if written.Some? {
        kv := written.value;
        if round.acked {
          return Granted(Remaining(call.burst, window.count));
        }
      }
      return if attempt + 1 < MAX_ATTEMPTS then Pending else Unavailable;
    }

    /** The retry loop.  Read together with the events of the other requests the
        call is a run of the protocol, and its answer is that run's last output. */
    method Allow(r: RequestId, now: int, limit: real, burst: int, rounds: seq<Round>)
      returns (verdict: Verdict)
      requires |rounds| == MAX_ATTEMPTS && OthersOnly(rounds, r)
      requires r !in phases
      modifies this
      ensures var begun := Step(old(View()), Begin(r, now, limit, burst)).0;
              Played(begun, r, rounds, 0) == (SetPhase(View(), r, Idle), verdict)
      ensures !verdict.Pending? && r !in phases
    {
      var call := NewCall(now, limit, burst);
      ghost var begun := Step(View(), Begin(r, now, limit, burst)).0;
      assert begun == SetPhase(View(), r, Reading(call, 0));
      var attempt := 0;
      verdict := Pending;
      while attempt < MAX_ATTEMPTS
        invariant 0 <= attempt < MAX_ATTEMPTS && verdict.Pending? && r !in phases
        invariant Played(begun, r, rounds, 0) ==
                  Played(SetPhase(View(), r, Reading(call, attempt)), r, rounds, attempt)
      {
        verdict := Attempt(r, call, attempt, rounds[attempt]);
        if !verdict.Pending? {
          return;
        }
        attempt := attempt + 1;
      }
    }
  }

  lemma ReadStep(start: Sys, r: RequestId, call: Call, attempt: nat, round: Round)
    requires Others(round.beforeRead, r) && r !in start.phases
    ensures var s := SetPhase(start, r, Reading(call, attempt));
            var at := Run(start, round.beforeRead).0;
            var after := Step(SetPhase(at, r, Reading(call, attempt)), if round.readOk then Read(r) else ReadFails(r));
            && r !in at.phases
            && Run(s, ReadEvents(round, r)).0 == after.0
            && LastVerdict(s, ReadEvents(round, r)) == after.1.verdict
            && forall p :: SetPhase(SetPhase(at, r, Reading(call, attempt)), r, p) == SetPhase(at, r, p)
  {
    Frame(start, r, Reading(call, attempt), round.beforeRead);
    var events := ReadEvents(round, r);
    assert events[..|events| - 1] == round.beforeRead;
    RunLength(SetPhase(start, r, Reading(call, attempt)), round.beforeRead);
  }

  lemma WriteStep(s: Sys, done: seq<Event>, middle: Sys, r: RequestId, p: Phase, round: Round)
    requires Others(round.beforeWrite, r) && r !in middle.phases && p.Writing?
    requires Run(s, done).0 == SetPhase(middle, r, p)
    ensures var at := Run(middle, round.beforeWrite).0;
            var after := Step(SetPhase(at, r, p), Write(r, round.delivered, round.acked));
            && r !in at.phases
            && Run(s, done + WriteEvents(round, r)).0 == after.0
            && LastVerdict(s, done + WriteEvents(round, r)) == after.1.verdict
            && forall q, kv, late ::
                 SetPhase(SetPhase(at, r, p).(kv := kv, late := late), r, q) ==
                 SetPhase(at.(kv := kv, late := late), r, q)
  {
    var events := WriteEvents(round, r);
    RunConcat(s, done, events);
    Frame(middle, r, p, round.beforeWrite);
    assert events[..|events| - 1] == round.beforeWrite;
    RunLength(Run(s, done).0, round.beforeWrite);
  }
}
