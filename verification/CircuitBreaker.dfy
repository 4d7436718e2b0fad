/**
 The circuit breaker under interleaving.

 The functions `Admit`, `FinishProbe`, `FinishClosed` and `Cleared` are the
 stretches of code that run under the breaker's mutex.  A closed call runs with
 the mutex released, so its completion can land in any later state; a probe
 keeps the mutex for as long as it runs.  A run is a sequence of events over any
 number of threads; events that are not enabled leave the state as it is.
 */
module CircuitBreaker {
  import opened Common

  datatype State = Closed | Open | HalfOpen

  const SECOND: int := 1_000_000_000

  /** The fields guarded by the mutex.  Times are nanoseconds. */
  datatype Core = Core(state: State, failures: int, threshold: int, timeout: int, lastFailure: int)

  datatype Admission = Rejected | AdmittedClosed | AdmittedProbe

  /** Closed, with the given settings where they are usable, else one failure and one second. */
  function New(threshold: int, timeout: int): (core: Core)
    ensures core.state.Closed? && core.failures == 0
    ensures core.threshold == if threshold > 0 then threshold else 1
    ensures core.timeout == if timeout > 0 then timeout else 1_000_000_000
  {
    Core(Closed, 0, if threshold <= 0 then 1 else threshold, if timeout <= 0 then SECOND else timeout, 0)
  }

  function Admit(c: Core, now: int): (Core, Admission) {
    match c.state
    case Open =>
      if now - c.lastFailure < c.timeout then (c, Rejected) else (c.(state := HalfOpen), AdmittedProbe)
    case HalfOpen => (c, AdmittedProbe)
    case Closed => (c, AdmittedClosed)
  }

  function FinishProbe(c: Core, now: int, ok: bool): Core {
    if ok then c.(state := Closed, failures := 0, lastFailure := 0)
    else c.(state := Open, failures := c.threshold, lastFailure := now)
  }

  function FinishClosed(c: Core, now: int, ok: bool): Core {
    if ok then c.(failures := 0)
    else if c.failures + 1 >= c.threshold then c.(failures := c.failures + 1, state := Open, lastFailure := now)
    else c.(failures := c.failures + 1)
  }

  function Cleared(c: Core): Core {
    c.(state := Closed, failures := 0, lastFailure := 0)
  }

  // ----- the system: one breaker, any number of threads, one clock

  type Tid = nat

  datatype Phase =
    | Outside
    | Admitted      // decided under the mutex, mutex released, call not begun
    | Calling       // closed call running without the mutex
    | ProbeAdmitted // holds the mutex, call not begun
    | Probing       // holds the mutex, call running

  datatype Sys = Sys(core: Core, clock: int, holder: Option<Tid>, phases: map<Tid, Phase>)

  datatype Event =
    | Tick(d: nat)
    | Enter(t: Tid)
    | Check(t: Tid, cancelled: bool)
    | Complete(t: Tid, ok: bool)
    | Reset

  datatype Out =
    | Quiet
    | Decided(admission: Admission)
    | CallBegun
    | ProbeBegun
    | Abandoned
    | CallDone(ok: bool)
    | ProbeDone(ok: bool)
    | WasReset

  datatype Stamped = Stamped(at: int, out: Out)

  function PhaseOf(s: Sys, t: Tid): Phase {
    if t in s.phases then s.phases[t] else Outside
  }

  function SetPhase(s: Sys, t: Tid, p: Phase): Sys {
    s.(phases := s.phases[t := p])
  }

  function DoEnter(s: Sys, t: Tid): (Sys, Out) {
    var (core, admission) := Admit(s.core, s.clock);
    var s1 := s.(core := core);
    match admission
    case Rejected => (s1, Decided(Rejected))
    case AdmittedClosed => (SetPhase(s1, t, Admitted), Decided(AdmittedClosed))
    case AdmittedProbe => (SetPhase(s1, t, ProbeAdmitted).(holder := Some(t)), Decided(AdmittedProbe))
  }

  function Step(s: Sys, e: Event): (Sys, Out) {
    match e
    case Tick(d) => (s.(clock := s.clock + d), Quiet)
    case Enter(t) =>
      if PhaseOf(s, t).Outside? && s.holder.None? then DoEnter(s, t) else (s, Quiet)
    case Check(t, cancelled) =>
      (match PhaseOf(s, t)
       case Admitted =>
         if cancelled then (SetPhase(s, t, Outside), Abandoned) else (SetPhase(s, t, Calling), CallBegun)
       case ProbeAdmitted =>
         if cancelled then (SetPhase(s, t, Outside).(holder := None), Abandoned)
         else (SetPhase(s, t, Probing), ProbeBegun)
       case _ => (s, Quiet))
    case Complete(t, ok) =>
      (match PhaseOf(s, t)
       case Calling =>
         if s.holder.None?
         then (SetPhase(s, t, Outside).(core := FinishClosed(s.core, s.clock, ok)), CallDone(ok))
         else (s, Quiet)
       case Probing =>
         (SetPhase(s, t, Outside).(core := FinishProbe(s.core, s.clock, ok), holder := None), ProbeDone(ok))
       case _ => (s, Quiet))
    case Reset =>
      if s.holder.None? then (s.(core := Cleared(s.core)), WasReset) else (s, Quiet)
  }

  function Run(s: Sys, events: seq<Event>): (Sys, seq<Stamped>) {
    if events == [] then (s, [])
    else
      var (before, outs) := Run(s, events[..|events| - 1]);
      var (after, out) := Step(before, events[|events| - 1]);
      (after, outs + [Stamped(before.clock, out)])
  }

  function Init(threshold: int, timeout: int, clock: int): Sys {
    Sys(New(threshold, timeout), clock, None, map[])
  }

  // ----- the invariant of every reachable state

  predicate HoldsMutex(p: Phase) {
    p.ProbeAdmitted? || p.Probing?
  }

  ghost predicate Inv(s: Sys) {
    && s.core.threshold >= 1 && s.core.timeout >= 1
    && (s.core.state.Closed? ==> 0 <= s.core.failures < s.core.threshold)
    && 0 <= s.core.failures
    && (s.core.state.Open? ==> s.core.lastFailure <= s.clock)
    && (s.holder.Some? ==> s.core.state.HalfOpen?)
    && forall t: Tid :: HoldsMutex(PhaseOf(s, t)) <==> s.holder == Some(t)
  }

  lemma StepKeepsInv(s: Sys, e: Event)
    requires Inv(s)
    ensures Inv(Step(s, e).0)
  {
    var s' := Step(s, e).0;
    forall t: Tid ensures HoldsMutex(PhaseOf(s', t)) <==> s'.holder == Some(t) {
      assert HoldsMutex(PhaseOf(s, t)) <==> s.holder == Some(t);
      if e.Check? || e.Complete? {
        assert HoldsMutex(PhaseOf(s, e.t)) <==> s.holder == Some(e.t);
      }
    }
  }

  lemma {:induction false} RunKeepsInv(s: Sys, events: seq<Event>)
    requires Inv(s)
    ensures Inv(Run(s, events).0)
  {
    if events != [] {
      RunKeepsInv(s, events[..|events| - 1]);
      StepKeepsInv(Run(s, events[..|events| - 1]).0, events[|events| - 1]);
    }
  }

  /** In every reachable state a closed breaker is below its threshold, at most
      one probe is in flight, and while it is nobody else is admitted or reset. */
  lemma ReachableStates(threshold: int, timeout: int, clock: int, events: seq<Event>, t: Tid, u: Tid, e: Event)
    ensures var s := Run(Init(threshold, timeout, clock), events).0;
            && (s.core.state.Closed? ==> s.core.failures < s.core.threshold)
            && (HoldsMutex(PhaseOf(s, t)) && HoldsMutex(PhaseOf(s, u)) ==> t == u)
            && (HoldsMutex(PhaseOf(s, t)) ==> !Step(s, e).1.Decided? && !Step(s, e).1.WasReset?)
  {
    RunKeepsInv(Init(threshold, timeout, clock), events);
    var s := Run(Init(threshold, timeout, clock), events).0;
    assert HoldsMutex(PhaseOf(s, t)) <==> s.holder == Some(t);
    assert HoldsMutex(PhaseOf(s, u)) <==> s.holder == Some(u);
  }

  // ----- what the failure counter means

  /** The counter as the outputs alone tell it. */
  function Tally(outs: seq<Stamped>, threshold: int): int {
    if outs == [] then 0 else Tallied(Tally(outs[..|outs| - 1], threshold), outs[|outs| - 1].out, threshold)
  }

  function Tallied(before: int, out: Out, threshold: int): int {
    match out
    case CallDone(ok) => if ok then 0 else before + 1
    case ProbeDone(ok) => if ok then 0 else threshold
    case WasReset => 0
    case _ => before
  }

  /** In every reachable state, closed or not, the counter is the number of failed
      calls since the last success, reset or probe; a failed probe fills it. */
  lemma {:induction false} CounterIsTally(threshold: int, timeout: int, clock: int, events: seq<Event>)
    ensures var (s, outs) := Run(Init(threshold, timeout, clock), events);
            && s.core.threshold == New(threshold, timeout).threshold
            && s.core.failures == Tally(outs, s.core.threshold)
  {
    if events != [] {
      hide Step, Tallied;
      var prefix, e := events[..|events| - 1], events[|events| - 1];
      CounterIsTally(threshold, timeout, clock, prefix);
      var (s, outs) := Run(Init(threshold, timeout, clock), prefix);
      var out := Stamped(s.clock, Step(s, e).1);
      CounterStep(s, e);
      assert (outs + [out])[..|outs + [out]| - 1] == outs;
    }
  }

  lemma CounterStep(s: Sys, e: Event)
    ensures var (s', out) := Step(s, e);
            && s'.core.failures == Tallied(s.core.failures, out, s.core.threshold)
            && s'.core.threshold == s.core.threshold && s'.core.timeout == s.core.timeout
  {}

  /** Failed calls since the counter was last cleared. */
  function FailedSinceClear(outs: seq<Stamped>): nat {
    if outs == [] then 0 else FailedThen(FailedSinceClear(outs[..|outs| - 1]), outs[|outs| - 1].out)
  }

  function FailedThen(before: nat, out: Out): nat {
    match out
    case CallDone(ok) => if ok then 0 else before + 1
    case ProbeDone(ok) => if ok then 0 else before
    case WasReset => 0
    case _ => before
  }

  /** Whenever the breaker is closed, its counter is the number of failed calls
      since the last success, successful probe or reset, late completions from
      before an opening included. */
  lemma {:induction false} ClosedCountsFailures(threshold: int, timeout: int, clock: int, events: seq<Event>)
    ensures var (s, outs) := Run(Init(threshold, timeout, clock), events);
            s.core.state.Closed? ==> s.core.failures == FailedSinceClear(outs)
  {
    if events != [] {
      hide Step, FailedThen, Inv;
      var prefix, e := events[..|events| - 1], events[|events| - 1];
      ClosedCountsFailures(threshold, timeout, clock, prefix);
      var (s, outs) := Run(Init(threshold, timeout, clock), prefix);
      InitIsInv(threshold, timeout, clock);
      RunKeepsInv(Init(threshold, timeout, clock), prefix);
      var out := Stamped(s.clock, Step(s, e).1);
      ClosedCountStep(s, FailedSinceClear(outs), e);
      assert (outs + [out])[..|outs + [out]| - 1] == outs;
    }
  }

  lemma InitIsInv(threshold: int, timeout: int, clock: int)
    ensures Inv(Init(threshold, timeout, clock))
  {}

  lemma ClosedCountStep(s: Sys, failed: nat, e: Event)
    requires Inv(s) && (s.core.state.Closed? ==> s.core.failures == failed)
    ensures var (s', out) := Step(s, e);
            s'.core.state.Closed? ==> s'.core.failures == FailedThen(failed, out)
  {
    if e.Complete? {
      assert HoldsMutex(PhaseOf(s, e.t)) <==> s.holder == Some(e.t);
    }
  }

  // ----- the quiet period after an opening

  predicate NoReset(events: seq<Event>) {
    forall i | 0 <= i < |events| :: !events[i].Reset?
  }

  predicate Admits(out: Out) {
    out.Decided? && !out.admission.Rejected?
  }

  /** Once open since time t, and not reset, the breaker admits nothing before
      t + timeout, whatever calls admitted earlier do when they complete. */
  lemma {:induction false} QuietPeriod(s: Sys, t: int, events: seq<Event>)
    requires Inv(s) && s.core.state.Open? && t <= s.core.lastFailure
    requires NoReset(events)
    ensures var (s', outs) := Run(s, events);
            && (s'.clock < t + s.core.timeout ==> s'.core.state.Open? && t <= s'.core.lastFailure)
            && s'.core.timeout == s.core.timeout
            && forall i | 0 <= i < |outs| && Admits(outs[i].out) :: outs[i].at >= t + s.core.timeout
  {
    if events != [] {
      var prefix, e := events[..|events| - 1], events[|events| - 1];
      QuietPeriod(s, t, prefix);
      RunKeepsInv(s, prefix);
      var before := Run(s, prefix).0;
      if e.Complete? {
        assert HoldsMutex(PhaseOf(before, e.t)) <==> before.holder == Some(e.t);
      }
      if e.Check? {
        assert HoldsMutex(PhaseOf(before, e.t)) <==> before.holder == Some(e.t);
      }
    }
  }

  /** A failed probe, or a failed call that makes the counter reach its threshold. */
  predicate Trips(s: Sys, e: Event) {
    && e.Complete? && !e.ok
    && match PhaseOf(s, e.t)
       case Probing => true
       case Calling => s.holder.None? && s.core.failures + 1 >= s.core.threshold
       case _ => false
  }

  /** A breaker that is not open opens exactly by tripping. */
  lemma OpensByTripping(s: Sys, e: Event)
    requires Inv(s) && !s.core.state.Open?
    ensures Step(s, e).0.core.state.Open? <==> Trips(s, e)
  {
    if e.Complete? {
      assert HoldsMutex(PhaseOf(s, e.t)) <==> s.holder == Some(e.t);
    }
  }

  /** Tripping at time t, from whatever state, leaves the breaker open, and without a
      reset nothing is admitted before t + timeout: the opening starts the quiet
      period and a further failure starts it anew. */
  lemma TripIsQuiet(s: Sys, e: Event, events: seq<Event>)
    requires Inv(s) && Trips(s, e) && NoReset(events)
    ensures var tripped := Step(s, e).0;
            var outs := Run(tripped, events).1;
            && tripped.core.state.Open? && tripped.core.timeout == s.core.timeout
            && forall i | 0 <= i < |outs| && Admits(outs[i].out) :: outs[i].at >= s.clock + s.core.timeout
  {
    StepKeepsInv(s, e);
    QuietPeriod(Step(s, e).0, s.clock, events);
  }

  /** And the period is no longer than that: d after tripping a newcomer is turned away
      exactly when d is less than the timeout, and otherwise probes. */
  lemma QuietPeriodEnds(s: Sys, e: Event, d: nat, t: Tid)
    requires Inv(s) && Trips(s, e) && PhaseOf(Step(s, e).0, t).Outside?
    ensures var later := Step(Step(s, e).0, Tick(d)).0;
            Step(later, Enter(t)).1 == Decided(if d < s.core.timeout then Rejected else AdmittedProbe)
  {
    StepKeepsInv(s, e);
    assert HoldsMutex(PhaseOf(s, e.t)) <==> s.holder == Some(e.t);
  }

  /** The probe decides: success closes the breaker with a clear counter, failure trips it. */
  lemma ProbeDecides(s: Sys, t: Tid, ok: bool)
    requires Inv(s) && s.core.state.Open? && PhaseOf(s, t).Outside?
    requires s.clock >= s.core.lastFailure + s.core.timeout
    ensures var probing := Step(Step(s, Enter(t)).0, Check(t, false)).0;
            var (s', out) := Step(probing, Complete(t, ok));
            && out == ProbeDone(ok) && s'.holder.None? && PhaseOf(s', t).Outside?
            && (if ok then s'.core.state.Closed? && s'.core.failures == 0 else Trips(probing, Complete(t, ok)))
  {}

  /** A closed breaker lets everybody call. */
  lemma ClosedAdmits(s: Sys, t: Tid)
    requires Inv(s) && s.core.state.Closed? && PhaseOf(s, t).Outside?
    ensures var (admitted, decision) := Step(s, Enter(t));
            && decision == Decided(AdmittedClosed)
            && Step(admitted, Check(t, false)).1 == CallBegun && admitted.core == s.core
  {}

  // ----- how hard an outage is hit

  predicate NoRecovery(outs: seq<Stamped>) {
    forall i | 0 <= i < |outs| :: outs[i].out != WasReset && outs[i].out != ProbeDone(true)
  }

  function Probes(outs: seq<Stamped>): nat {
    if outs == [] then 0
    else Probes(outs[..|outs| - 1]) + (if outs[|outs| - 1].out.ProbeBegun? then 1 else 0)
  }

  /** n timeouts end to end. */
  function Owed(n: nat, timeout: int): (total: int)
    ensures total == n * timeout
  {
    if n == 0 then 0 else Owed(n - 1, timeout) + timeout
  }

  ghost predicate ProbesPaid(s: Sys, since: int, probes: nat) {
    match s.core.state
    case Closed => false
    case Open => Owed(probes, s.core.timeout) <= s.core.lastFailure - since
    case HalfOpen =>
      if s.holder.Some? && PhaseOf(s, s.holder.value).Probing?
      then Owed(probes, s.core.timeout) <= s.clock - since
      else Owed(probes + 1, s.core.timeout) <= s.clock - since
  }

  lemma OutageStep(s: Sys, since: int, probes: nat, e: Event)
    requires Inv(s) && ProbesPaid(s, since, probes)
    requires !Step(s, e).1.WasReset? && Step(s, e).1 != ProbeDone(true)
    ensures var (s', out) := Step(s, e);
            && (Admits(out) ==> out == Decided(AdmittedProbe))
            && ProbesPaid(s', since, if out.ProbeBegun? then probes + 1 else probes)
            && s'.core.timeout == s.core.timeout
  {
    if e.Check? || e.Complete? {
      assert HoldsMutex(PhaseOf(s, e.t)) <==> s.holder == Some(e.t);
    }
    if s.holder.Some? {
      assert HoldsMutex(PhaseOf(s, s.holder.value));
    }
  }

  lemma {:induction false} OutageKeepsPaid(s: Sys, events: seq<Event>)
    requires Inv(s) && s.core.state.Open?
    requires NoRecovery(Run(s, events).1)
    ensures var (s', outs) := Run(s, events);
            ProbesPaid(s', s.core.lastFailure, Probes(outs)) && s'.core.timeout == s.core.timeout
  {
    if events != [] {
      hide ProbesPaid, Inv, Step, NoRecovery;
      var prefix, e := events[..|events| - 1], events[|events| - 1];
      var (before, outs) := Run(s, prefix);
      ProbesSnoc(outs, Stamped(before.clock, Step(before, e).1));
      OutageKeepsPaid(s, prefix);
      RunKeepsInv(s, prefix);
      OutageStep(before, s.core.lastFailure, Probes(outs), e);
    }
  }

  lemma {:induction false} OutageAdmitsProbes(s: Sys, events: seq<Event>, i: nat)
    requires Inv(s) && s.core.state.Open?
    requires NoRecovery(Run(s, events).1)
    requires i < |Run(s, events).1| && Admits(Run(s, events).1[i].out)
    ensures Run(s, events).1[i].out == Decided(AdmittedProbe)
  {
    var prefix, e := events[..|events| - 1], events[|events| - 1];
    var (before, outs) := Run(s, prefix);
    ProbesSnoc(outs, Stamped(before.clock, Step(before, e).1));
    if i < |outs| {
      OutageAdmitsProbes(s, prefix, i);
    } else {
      OutageKeepsPaid(s, prefix);
      RunKeepsInv(s, prefix);
      OutageStep(before, s.core.lastFailure, Probes(outs), e);
    }
  }

  /** From an open breaker until it recovers or is reset, every call that reaches
      the backend is a probe, and n probes take at least n timeouts. */
  lemma OutageBound(s: Sys, events: seq<Event>)
    requires Inv(s) && s.core.state.Open?
    requires NoRecovery(Run(s, events).1)
    ensures var (s', outs) := Run(s, events);
            && Probes(outs) * s.core.timeout <= s'.clock - s.core.lastFailure
            && forall i | 0 <= i < |outs| && Admits(outs[i].out) :: outs[i].out == Decided(AdmittedProbe)
  {
    OutageKeepsPaid(s, events);
    RunKeepsInv(s, events);
    PaidByClock(Run(s, events).0, s.core.lastFailure, Probes(Run(s, events).1));
    forall i | 0 <= i < |Run(s, events).1| && Admits(Run(s, events).1[i].out)
      ensures Run(s, events).1[i].out == Decided(AdmittedProbe)
    {
      OutageAdmitsProbes(s, events, i);
    }
  }

  lemma ProbesSnoc(outs: seq<Stamped>, out: Stamped)
    ensures Probes(outs + [out]) == Probes(outs) + (if out.out.ProbeBegun? then 1 else 0)
    ensures NoRecovery(outs + [out]) ==> NoRecovery(outs) && out.out != WasReset && out.out != ProbeDone(true)
  {
    var all := outs + [out];
    assert all[..|all| - 1] == outs && all[|all| - 1] == out;
    assert forall i | 0 <= i < |outs| :: all[i] == outs[i];
  }

  lemma PaidByClock(s: Sys, since: int, probes: nat)
    requires Inv(s) && ProbesPaid(s, since, probes)
    ensures probes * s.core.timeout <= s.clock - since
  {}

  // ----- what late completions can and cannot do

  ghost predicate OpenIsFull(s: Sys) {
    !s.core.state.Closed? ==> s.core.failures >= s.core.threshold
  }

  /** A call admitted while the breaker was closed succeeds while it is not. */
  predicate IsLateSuccess(s: Sys, e: Event) {
    e.Complete? && e.ok && PhaseOf(s, e.t).Calling? && s.holder.None? && !s.core.state.Closed?
  }

  /** An open breaker need not have a full counter: a step loses that exactly when
      it is the late success of a call admitted before the opening. */
  lemma OnlyLateSuccessEmptiesCounter(s: Sys, e: Event)
    requires Inv(s) && OpenIsFull(s)
    ensures OpenIsFull(Step(s, e).0) <==> !IsLateSuccess(s, e)
  {
    if e.Complete? {
      assert HoldsMutex(PhaseOf(s, e.t)) <==> s.holder == Some(e.t);
    }
  }

  ghost predicate NoLateSuccess(s: Sys, events: seq<Event>) {
    forall i | 0 <= i < |events| :: !IsLateSuccess(Run(s, events[..i]).0, events[i])
  }

  /** Without late successes the counter of a breaker that is not closed is full
      throughout. */
  lemma {:induction false} FullWithoutLateSuccess(s: Sys, events: seq<Event>)
    requires Inv(s) && OpenIsFull(s) && NoLateSuccess(s, events)
    ensures OpenIsFull(Run(s, events).0)
  {
    if events != [] {
      var prefix, e := events[..|events| - 1], events[|events| - 1];
      assert forall i | 0 <= i < |prefix| :: prefix[i] == events[i] && prefix[..i] == events[..i];
      FullWithoutLateSuccess(s, prefix);
      RunKeepsInv(s, prefix);
      OnlyLateSuccessEmptiesCounter(Run(s, prefix).0, e);
    }
  }

  /** The loss is reachable: two calls admitted, one fails and opens the breaker,
      the other succeeds. */
  lemma LateSuccessEmptiesCounter()
    ensures var events := [Enter(0), Enter(1), Check(0, false), Check(1, false), Complete(0, false), Complete(1, true)];
            var s := Run(Init(1, 5, 0), events).0;
            s.core.state.Open? && s.core.failures == 0
  {
    var s := Init(1, 5, 0);
    var e1: seq<Event> := [] + [Enter(0)];
    var e2 := e1 + [Enter(1)];
    var e3 := e2 + [Check(0, false)];
    var e4 := e3 + [Check(1, false)];
    var e5 := e4 + [Complete(0, false)];
    RunSnoc(s, [], Enter(0));
    RunSnoc(s, e1, Enter(1));
    RunSnoc(s, e2, Check(0, false));
    RunSnoc(s, e3, Check(1, false));
    RunSnoc(s, e4, Complete(0, false));
    RunSnoc(s, e5, Complete(1, true));
    assert e5 + [Complete(1, true)] ==
           [Enter(0), Enter(1), Check(0, false), Check(1, false), Complete(0, false), Complete(1, true)];
  }

  // ----- when a call can begin

  ghost predicate NobodyAdmitted(s: Sys) {
    forall t: Tid :: !PhaseOf(s, t).Admitted?
  }

  /** No closed call begins before the deadline. */
  predicate NoCallBefore(outs: seq<Stamped>, deadline: int) {
    forall i | 0 <= i < |outs| && outs[i].out.CallBegun? :: outs[i].at >= deadline
  }

  lemma {:induction false} QuietWithNobodyAdmitted(s: Sys, events: seq<Event>)
    requires Inv(s) && s.core.state.Open? && NobodyAdmitted(s) && NoReset(events)
    ensures var (s', outs) := Run(s, events);
            var deadline := s.core.lastFailure + s.core.timeout;
            NoCallBefore(outs, deadline) && (s'.clock < deadline ==> NobodyAdmitted(s'))
  {
    if events != [] {
      var prefix, e := events[..|events| - 1], events[|events| - 1];
      QuietWithNobodyAdmitted(s, prefix);
      QuietPeriod(s, s.core.lastFailure, prefix);
      RunKeepsInv(s, prefix);
      var (before, outs) := Run(s, prefix);
      if before.clock < s.core.lastFailure + s.core.timeout {
        NobodyAdmittedStep(before, e);
      }
      hide Step;
    }
  }

  lemma NobodyAdmittedStep(s: Sys, e: Event)
    requires s.core.state.Open? && NobodyAdmitted(s) && !e.Reset?
    ensures !Step(s, e).1.CallBegun?
    ensures NobodyAdmitted(Step(s, e).0)
  {
    forall t: Tid ensures !PhaseOf(Step(s, e).0, t).Admitted? {
      assert !PhaseOf(s, t).Admitted?;
    }
    if e.Check? { assert !PhaseOf(s, e.t).Admitted?; }
  }

  /** From an open breaker, no continuation without a reset begins a closed call
      before the timeout, if and only if no thread holds an earlier admission. */
  lemma NoCallWhileOpenIff(s: Sys)
    requires Inv(s) && s.core.state.Open? && s.clock < s.core.lastFailure + s.core.timeout
    ensures (forall events | NoReset(events) ::
               NoCallBefore(Run(s, events).1, s.core.lastFailure + s.core.timeout)) <==>
            NobodyAdmitted(s)
  {
    var deadline := s.core.lastFailure + s.core.timeout;
    if NobodyAdmitted(s) {
      forall events | NoReset(events) ensures NoCallBefore(Run(s, events).1, deadline) {
        QuietWithNobodyAdmitted(s, events);
      }
    } else {
      var t: Tid :| PhaseOf(s, t).Admitted?;
      AdmittedBegins(s, t);
      assert Run(s, [Check(t, false)]).1[0] == Stamped(s.clock, CallBegun);
    }
  }

  lemma AdmittedBegins(s: Sys, t: Tid)
    requires PhaseOf(s, t).Admitted?
    ensures NoReset([Check(t, false)])
    ensures Run(s, [Check(t, false)]).1 == [Stamped(s.clock, CallBegun)]
  {
    RunSnoc(s, [], Check(t, false));
    assert [] + [Check(t, false)] == [Check(t, false)];
  }

  /** Such an admission is reachable: a call admitted while closed can begin after
      the breaker has opened. */
  lemma CallCanBeginWhileOpen()
    ensures var events := [Enter(0), Enter(1), Check(0, false), Complete(0, false), Check(1, false)];
            var (s, outs) := Run(Init(1, 5, 0), events);
            s.core.state.Open? && outs[|outs| - 1].out == CallBegun
  {
    var s := Init(1, 5, 0);
    var e1: seq<Event> := [] + [Enter(0)];
    var e2 := e1 + [Enter(1)];
    var e3 := e2 + [Check(0, false)];
    var e4 := e3 + [Complete(0, false)];
    RunSnoc(s, [], Enter(0));
    RunSnoc(s, e1, Enter(1));
    RunSnoc(s, e2, Check(0, false));
    RunSnoc(s, e3, Complete(0, false));
    RunSnoc(s, e4, Check(1, false));
    assert e4 + [Check(1, false)] == [Enter(0), Enter(1), Check(0, false), Complete(0, false), Check(1, false)];
  }

  lemma RunSnoc(s: Sys, events: seq<Event>, e: Event)
    ensures var (before, outs) := Run(s, events);
            Run(s, events + [e]) == (Step(before, e).0, outs + [Stamped(before.clock, Step(before, e).1)])
  {
    assert (events + [e])[..|events + [e]| - 1] == events;
  }

  // ----- one call among others

  datatype Result = Succeeded | ShortCircuited | ContextDone | Failed

  /** How the probe that holds the mutex ends, for a thread that waits for it. */
  datatype Ending = Ending(cancelled: bool, ok: bool)

  /** What happens around one call: the events of other threads before it asks for
      the mutex, between admission and call, and during the call, how the probes it
      has to wait for end, and whether its context is done by the time of the call. */
  datatype Schedule = Schedule(
    beforeEnter: seq<Event>, firstWait: Ending, beforeCheck: seq<Event>, cancelled: bool,
    duringCall: seq<Event>, secondWait: Ending)

  predicate Foreign(e: Event, me: Tid) {
    match e
    case Enter(t) => t != me
    case Check(t, _) => t != me
    case Complete(t, _) => t != me
    case _ => true
  }

  predicate Others(events: seq<Event>, me: Tid) {
    forall i | 0 <= i < |events| :: Foreign(events[i], me)
  }

  predicate OthersOnly(sc: Schedule, me: Tid) {
    Others(sc.beforeEnter, me) && Others(sc.beforeCheck, me) && Others(sc.duringCall, me)
  }

  /** What the holder of the mutex, if any, does until it lets go. */
  function Release(s: Sys, end: Ending): seq<Event> {
    match s.holder
    case None => []
    case Some(u) =>
      if PhaseOf(s, u).Probing? then [Complete(u, end.ok)]
      else if end.cancelled then [Check(u, true)]
      else [Check(u, false), Complete(u, end.ok)]
  }

  function Freed(s: Sys, end: Ending): Sys {
    Run(s, Release(s, end)).0
  }

  /** The events of one call, its own and the others', from a given state on. */
  function EnterEvents(s: Sys, me: Tid, sc: Schedule): seq<Event> {
    sc.beforeEnter + Release(Run(s, sc.beforeEnter).0, sc.firstWait) + [Enter(me)]
  }

  function CheckEvents(me: Tid, sc: Schedule): seq<Event> {
    sc.beforeCheck + [Check(me, sc.cancelled)]
  }

  function CompleteEvents(s: Sys, me: Tid, sc: Schedule, ok: bool): seq<Event> {
    var at := Run(s, sc.duringCall).0;
    sc.duringCall + (if PhaseOf(at, me).Calling? then Release(at, sc.secondWait) else []) + [Complete(me, ok)]
  }

  function CallEvents(s: Sys, me: Tid, sc: Schedule, ok: bool): seq<Event> {
    var entered := Run(s, EnterEvents(s, me, sc)).0;
    if PhaseOf(entered, me).Outside? then EnterEvents(s, me, sc)
    else
      var checked := Run(entered, CheckEvents(me, sc)).0;
      if sc.cancelled then EnterEvents(s, me, sc) + CheckEvents(me, sc)
      else EnterEvents(s, me, sc) + CheckEvents(me, sc) + CompleteEvents(checked, me, sc, ok)
  }

  // ----- the same call step by step

  function Entered(s: Sys, me: Tid, sc: Schedule): Sys {
    Step(Freed(Run(s, sc.beforeEnter).0, sc.firstWait), Enter(me)).0
  }

  function Checked(s: Sys, me: Tid, sc: Schedule): Sys {
    Step(Run(s, sc.beforeCheck).0, Check(me, sc.cancelled)).0
  }

  function Completed(s: Sys, me: Tid, sc: Schedule, ok: bool): Sys {
    var at := Run(s, sc.duringCall).0;
    Step(if PhaseOf(at, me).Calling? then Freed(at, sc.secondWait) else at, Complete(me, ok)).0
  }

  function Executed(s: Sys, me: Tid, sc: Schedule, ok: bool): (Sys, Result) {
    var entered := Entered(s, me, sc);
    if PhaseOf(entered, me).Outside? then (entered, ShortCircuited)
    else
      var checked := Checked(entered, me, sc);
      if sc.cancelled then (checked, ContextDone)
      else (Completed(checked, me, sc, ok), if ok then Succeeded else Failed)
  }

  lemma {:induction false} RunConcat(s: Sys, a: seq<Event>, b: seq<Event>)
    ensures Run(s, a + b).0 == Run(Run(s, a).0, b).0
  {
    if b == [] {
      assert a + b == a;
    } else {
      var init, e := b[..|b| - 1], b[|b| - 1];
      RunConcat(s, a, init);
      assert a + b == (a + init) + [e] && b == init + [e];
      hide Step;
      RunSnoc(s, a + init, e);
      RunSnoc(Run(s, a).0, init, e);
    }
  }

  lemma RunThen(s: Sys, events: seq<Event>, e: Event)
    ensures Run(s, events + [e]).0 == Step(Run(s, events).0, e).0
  {
    RunSnoc(s, events, e);
  }

  // ----- the phase of the calling thread

  lemma {:induction false} OthersKeepPhase(s: Sys, events: seq<Event>, me: Tid)
    requires Others(events, me)
    ensures PhaseOf(Run(s, events).0, me) == PhaseOf(s, me)
  {
    if events != [] {
      OthersKeepPhase(s, events[..|events| - 1], me);
      ForeignKeepsPhase(Run(s, events[..|events| - 1]).0, events[|events| - 1], me);
    }
  }

  lemma ForeignKeepsPhase(s: Sys, e: Event, me: Tid)
    requires Foreign(e, me)
    ensures PhaseOf(Step(s, e).0, me) == PhaseOf(s, me)
  {}

  /** Waiting for the mutex ends with the mutex free. */
  lemma ReleaseFrees(s: Sys, end: Ending, me: Tid)
    requires Inv(s) && !HoldsMutex(PhaseOf(s, me))
    ensures Others(Release(s, end), me)
    ensures Freed(s, end).holder.None? && Inv(Freed(s, end)) && PhaseOf(Freed(s, end), me) == PhaseOf(s, me)
  {
    RunKeepsInv(s, Release(s, end));
    assert HoldsMutex(PhaseOf(s, me)) <==> s.holder == Some(me);
    OthersKeepPhase(s, Release(s, end), me);
    if s.holder.Some? {
      var u := s.holder.value;
      assert HoldsMutex(PhaseOf(s, u)) <==> s.holder == Some(u);
      if PhaseOf(s, u).Probing? {
        ReleaseByOne(s, Complete(u, end.ok));
      } else if end.cancelled {
        ReleaseByOne(s, Check(u, true));
      } else {
        ReleaseByTwo(s, u, end.ok);
      }
    }
  }

  lemma ReleaseByOne(s: Sys, e: Event)
    ensures Run(s, [e]).0 == Step(s, e).0
  {
    RunThen(s, [], e);
    assert [] + [e] == [e];
  }

  lemma ReleaseByTwo(s: Sys, u: Tid, ok: bool)
    requires PhaseOf(s, u).ProbeAdmitted?
    ensures Run(s, [Check(u, false), Complete(u, ok)]).0.holder.None?
  {
    ReleaseByOne(s, Check(u, false));
    RunThen(s, [Check(u, false)], Complete(u, ok));
    assert [Check(u, false)] + [Complete(u, ok)] == [Check(u, false), Complete(u, ok)];
  }

  lemma {:induction false} RunKeepsSettings(s: Sys, events: seq<Event>)
    ensures var s' := Run(s, events).0;
            s'.core.threshold == s.core.threshold && s'.core.timeout == s.core.timeout && s.clock <= s'.clock
  {
    if events != [] {
      RunKeepsSettings(s, events[..|events| - 1]);
    }
  }

  // ----- the three steps of a call, written out

  lemma SchedulesOthers(sc: Schedule, me: Tid)
    requires OthersOnly(sc, me)
    ensures Others(sc.beforeEnter, me)
  {}

  lemma EnterTaken(s: Sys, me: Tid)
    requires s.holder.None? && PhaseOf(s, me).Outside?
    ensures var s' := Step(s, Enter(me)).0;
            if s.core.state.Open? && s.clock - s.core.lastFailure < s.core.timeout
            then s' == s && PhaseOf(s', me).Outside?
            else if s.core.state.Closed? then s' == SetPhase(s, me, Admitted) && PhaseOf(s', me).Admitted?
            else s' == SetPhase(s, me, ProbeAdmitted).(core := s.core.(state := HalfOpen), holder := Some(me)) &&
                 PhaseOf(s', me).ProbeAdmitted?
  {}

  lemma CheckTaken(s: Sys, me: Tid, cancelled: bool)
    requires PhaseOf(s, me).Admitted? || PhaseOf(s, me).ProbeAdmitted?
    ensures var s' := Step(s, Check(me, cancelled)).0;
            if PhaseOf(s, me).Admitted? then
              var p := if cancelled then Outside else Calling;
              s' == SetPhase(s, me, p) && PhaseOf(s', me) == p
            else
              var p := if cancelled then Outside else Probing;
              s' == SetPhase(s, me, p).(holder := if cancelled then None else s.holder) && PhaseOf(s', me) == p
  {}

  lemma CompleteTaken(s: Sys, me: Tid, ok: bool)
    requires PhaseOf(s, me).Probing? || (PhaseOf(s, me).Calling? && s.holder.None?)
    ensures Step(s, Complete(me, ok)).0 ==
            if PhaseOf(s, me).Calling? then SetPhase(s, me, Outside).(core := FinishClosed(s.core, s.clock, ok))
            else SetPhase(s, me, Outside).(core := FinishProbe(s.core, s.clock, ok), holder := None)
  {}

  // ----- what the outputs say about one thread

  datatype Kind = Begins | Rejections

  predicate IsOf(out: Out, kind: Kind) {
    match kind
    case Begins => out.CallBegun? || out.ProbeBegun?
    case Rejections => out == Decided(Rejected)
  }

  /** How often the thread began a call, or was turned away, in a run. */
  function Count(s: Sys, events: seq<Event>, me: Tid, kind: Kind): nat {
    if events == [] then 0
    else
      var init, e := events[..|events| - 1], events[|events| - 1];
      Count(s, init, me, kind) + Counted(Run(s, init).0, e, me, kind)
  }

  function Counted(s: Sys, e: Event, me: Tid, kind: Kind): nat {
    if !Foreign(e, me) && IsOf(Step(s, e).1, kind) then 1 else 0
  }

  lemma CountSnoc(s: Sys, events: seq<Event>, e: Event, me: Tid, kind: Kind)
    ensures Count(s, events + [e], me, kind) == Count(s, events, me, kind) + Counted(Run(s, events).0, e, me, kind)
  {
    assert (events + [e])[..|events + [e]| - 1] == events;
  }

  lemma {:induction false} CountConcat(s: Sys, a: seq<Event>, b: seq<Event>, me: Tid, kind: Kind)
    ensures Count(s, a + b, me, kind) == Count(s, a, me, kind) + Count(Run(s, a).0, b, me, kind)
  {
    if b == [] {
      assert a + b == a;
    } else {
      var init, e := b[..|b| - 1], b[|b| - 1];
      CountConcat(s, a, init, me, kind);
      assert a + b == (a + init) + [e] && b == init + [e];
      hide Counted;
      CountSnoc(s, a + init, e, me, kind);
      CountSnoc(Run(s, a).0, init, e, me, kind);
      RunConcat(s, a, init);
    }
  }

  lemma {:induction false} OthersCountNothing(s: Sys, events: seq<Event>, me: Tid, kind: Kind)
    requires Others(events, me)
    ensures Count(s, events, me, kind) == 0
  {
    if events != [] {
      OthersCountNothing(s, events[..|events| - 1], me, kind);
    }
  }

  /** After steps of others, only the thread's own last step counts. */
  lemma OwnLastStep(s: Sys, others: seq<Event>, e: Event, me: Tid, kind: Kind)
    requires Others(others, me)
    ensures Count(s, others + [e], me, kind) == Counted(Run(s, others).0, e, me, kind)
  {
    OthersCountNothing(s, others, me, kind);
    CountSnoc(s, others, e, me, kind);
  }

  lemma OthersConcat(a: seq<Event>, b: seq<Event>, me: Tid)
    requires Others(a, me) && Others(b, me)
    ensures Others(a + b, me)
  {}

  lemma EnterCounts(s: Sys, me: Tid, sc: Schedule)
    requires Inv(s) && PhaseOf(s, me).Outside? && Others(sc.beforeEnter, me)
    ensures var events, entered := EnterEvents(s, me, sc), Entered(s, me, sc);
            && Run(s, events).0 == entered && Inv(entered)
            && Count(s, events, me, Begins) == 0
            && Count(s, events, me, Rejections) == (if PhaseOf(entered, me).Outside? then 1 else 0)
            && (PhaseOf(entered, me).Outside? || PhaseOf(entered, me).Admitted? || PhaseOf(entered, me).ProbeAdmitted?)
  {
    hide Run, Inv, Step, PhaseOf, Count, Counted, Others, Release;
    var quiet := Run(s, sc.beforeEnter).0;
    RunKeepsInv(s, sc.beforeEnter);
    OthersKeepPhase(s, sc.beforeEnter, me);
    ReleaseFrees(quiet, sc.firstWait, me);
    var others := sc.beforeEnter + Release(quiet, sc.firstWait);
    OthersConcat(sc.beforeEnter, Release(quiet, sc.firstWait), me);
    RunConcat(s, sc.beforeEnter, Release(quiet, sc.firstWait));
    OwnLastStep(s, others, Enter(me), me, Begins);
    OwnLastStep(s, others, Enter(me), me, Rejections);
    RunThen(s, others, Enter(me));
    var free := Freed(quiet, sc.firstWait);
    StepKeepsInv(free, Enter(me));
    EnterTaken(free, me);
    EnterDecides(free, me);
  }

  lemma EnterDecides(s: Sys, me: Tid)
    requires s.holder.None? && PhaseOf(s, me).Outside?
    ensures Counted(s, Enter(me), me, Begins) == 0
    ensures Counted(s, Enter(me), me, Rejections) == if PhaseOf(Step(s, Enter(me)).0, me).Outside? then 1 else 0
  {}

  lemma CheckCounts(s: Sys, me: Tid, sc: Schedule)
    requires Inv(s) && Others(sc.beforeCheck, me)
    requires PhaseOf(s, me).Admitted? || PhaseOf(s, me).ProbeAdmitted?
    ensures var events, checked := CheckEvents(me, sc), Checked(s, me, sc);
            && Run(s, events).0 == checked && Inv(checked)
            && Count(s, events, me, Begins) == (if sc.cancelled then 0 else 1)
            && Count(s, events, me, Rejections) == 0
            && if sc.cancelled then PhaseOf(checked, me).Outside?
               else PhaseOf(checked, me).Calling? || PhaseOf(checked, me).Probing?
  {
    hide Run, Inv, Step, PhaseOf, Count, Counted, Others;
    var at, e := Run(s, sc.beforeCheck).0, Check(me, sc.cancelled);
    RunKeepsInv(s, sc.beforeCheck);
    OthersKeepPhase(s, sc.beforeCheck, me);
    OwnLastStep(s, sc.beforeCheck, e, me, Begins);
    OwnLastStep(s, sc.beforeCheck, e, me, Rejections);
    RunThen(s, sc.beforeCheck, e);
    StepKeepsInv(at, e);
    CheckTaken(at, me, sc.cancelled);
    CheckBegins(at, me, sc.cancelled);
  }

  lemma CheckBegins(s: Sys, me: Tid, cancelled: bool)
    requires PhaseOf(s, me).Admitted? || PhaseOf(s, me).ProbeAdmitted?
    ensures Counted(s, Check(me, cancelled), me, Begins) == if cancelled then 0 else 1
    ensures Counted(s, Check(me, cancelled), me, Rejections) == 0
  {}

  lemma CompleteCounts(s: Sys, me: Tid, sc: Schedule, ok: bool)
    requires Inv(s) && Others(sc.duringCall, me)
    requires PhaseOf(s, me).Calling? || PhaseOf(s, me).Probing?
    ensures var events, completed := CompleteEvents(s, me, sc, ok), Completed(s, me, sc, ok);
            && Run(s, events).0 == completed && Inv(completed)
            && Count(s, events, me, Begins) == 0 && Count(s, events, me, Rejections) == 0
            && PhaseOf(completed, me).Outside?
  {
    hide Run, Inv, Step, PhaseOf, Count, Counted, Others, HoldsMutex;
    var at, e := Run(s, sc.duringCall).0, Complete(me, ok);
    RunKeepsInv(s, sc.duringCall);
    OthersKeepPhase(s, sc.duringCall, me);
    var calling := PhaseOf(at, me).Calling?;
    var release := if calling then Release(at, sc.secondWait) else [];
    var others := sc.duringCall + release;
    var last := if calling then Freed(at, sc.secondWait) else at;
    ReachesLast(s, me, sc);
    OwnLastStep(s, others, e, me, Begins);
    OwnLastStep(s, others, e, me, Rejections);
    RunThen(s, others, e);
    StepKeepsInv(last, e);
    CompleteEnds(last, me, ok);
  }

  lemma ReachesLast(s: Sys, me: Tid, sc: Schedule)
    requires Inv(s) && Others(sc.duringCall, me)
    requires PhaseOf(s, me).Calling? || PhaseOf(s, me).Probing?
    ensures var at := Run(s, sc.duringCall).0;
            var calling := PhaseOf(at, me).Calling?;
            var others := sc.duringCall + if calling then Release(at, sc.secondWait) else [];
            var last := if calling then Freed(at, sc.secondWait) else at;
            && Others(others, me) && Run(s, others).0 == last && Inv(last)
            && PhaseOf(last, me) == PhaseOf(s, me) && (calling ==> last.holder.None?)
  {
    hide Run, Inv, PhaseOf, Others;
    var at := Run(s, sc.duringCall).0;
    RunKeepsInv(s, sc.duringCall);
    OthersKeepPhase(s, sc.duringCall, me);
    if PhaseOf(at, me).Calling? {
      ReleaseFrees(at, sc.secondWait, me);
      OthersConcat(sc.duringCall, Release(at, sc.secondWait), me);
      RunConcat(s, sc.duringCall, Release(at, sc.secondWait));
    } else {
      assert sc.duringCall + [] == sc.duringCall;
    }
  }

  lemma CompleteEnds(s: Sys, me: Tid, ok: bool)
    requires PhaseOf(s, me).Probing? || (PhaseOf(s, me).Calling? && s.holder.None?)
    ensures PhaseOf(Step(s, Complete(me, ok)).0, me).Outside?
    ensures Counted(s, Complete(me, ok), me, Begins) == 0 && Counted(s, Complete(me, ok), me, Rejections) == 0
  {}

  lemma CountShrinks(s: Sys, events: seq<Event>, me: Tid, kind: Kind)
    requires events != []
    ensures Count(s, events[..|events| - 1], me, kind) <= Count(s, events, me, kind)
  {}

  lemma CallIsLonger(s: Sys, me: Tid, sc: Schedule, ok: bool)
    ensures CallEvents(s, me, sc, ok) != []
  {}

  lemma BeforeEnterCountsNothing(s: Sys, me: Tid, sc: Schedule)
    requires Inv(s) && PhaseOf(s, me).Outside? && Others(sc.beforeEnter, me)
    ensures var events := EnterEvents(s, me, sc);
            Count(s, events[..|events| - 1], me, Rejections) == 0
  {
    var quiet := Run(s, sc.beforeEnter).0;
    RunKeepsInv(s, sc.beforeEnter);
    OthersKeepPhase(s, sc.beforeEnter, me);
    ReleaseFrees(quiet, sc.firstWait, me);
    var others := sc.beforeEnter + Release(quiet, sc.firstWait);
    OthersConcat(sc.beforeEnter, Release(quiet, sc.firstWait), me);
    OthersCountNothing(s, others, me, Rejections);
    assert EnterEvents(s, me, sc)[..|others|] == others;
  }

  /** In the run of a call its thread begins at most one call to the backend, exactly
      when that call is made, and is turned away exactly when it is short-circuited,
      as its last step. */
  lemma CallCounts(s: Sys, me: Tid, sc: Schedule, ok: bool)
    requires Inv(s) && PhaseOf(s, me).Outside? && OthersOnly(sc, me)
    ensures var events := CallEvents(s, me, sc, ok);
            var (after, result) := Executed(s, me, sc, ok);
            && Run(s, events).0 == after && Inv(after) && PhaseOf(after, me).Outside?
            && Count(s, events, me, Begins) == (if result.Succeeded? || result.Failed? then 1 else 0)
            && Count(s, events, me, Rejections) == (if result.ShortCircuited? then 1 else 0)
            && events != [] && Count(s, events[..|events| - 1], me, Rejections) == 0
            && (result.ShortCircuited? ==> events[|events| - 1] == Enter(me))
  {
    BeforeEnterCountsNothing(s, me, sc);
    CallIsLonger(s, me, sc, ok);
    CountShrinks(s, CallEvents(s, me, sc, ok), me, Rejections);
    hide Run, Inv, Entered, Checked, Completed, Count, Foreign, PhaseOf, CheckEvents, CompleteEvents;
    EnterCounts(s, me, sc);
    var e1, entered := EnterEvents(s, me, sc), Entered(s, me, sc);
    if !PhaseOf(entered, me).Outside? {
      CheckCounts(entered, me, sc);
      var e2, checked := CheckEvents(me, sc), Checked(entered, me, sc);
      RunConcat(s, e1, e2);
      CountConcat(s, e1, e2, me, Begins);
      CountConcat(s, e1, e2, me, Rejections);
      if !sc.cancelled {
        CompleteCounts(checked, me, sc, ok);
        var e3 := CompleteEvents(checked, me, sc, ok);
        RunConcat(s, e1 + e2, e3);
        CountConcat(s, e1 + e2, e3, me, Begins);
        CountConcat(s, e1 + e2, e3, me, Rejections);
      }
    }
  }

  // ----- the object

  /** One breaker and the threads that use it. */
  class Breaker {
    const threshold: int
    const timeout: int
    var state: State
    var failures: int
    var lastFailure: int
    var clock: int
    var holder: Option<Tid>
    var phases: map<Tid, Phase>

    ghost function View(): Sys
      reads this
    {
      Sys(Core(state, failures, threshold, timeout, lastFailure), clock, holder, phases)
    }

    constructor (threshold: int, timeout: int, clock: int)
      ensures View() == Init(threshold, timeout, clock)
    {
      this.threshold := if threshold <= 0 then 1 else threshold;
      this.timeout := if timeout <= 0 then SECOND else timeout;
      state, failures, lastFailure := Closed, 0, 0;
      this.clock, holder, phases := clock, None, map[];
    }

    /** The other threads and the clock make these steps. */
    method Interfere(events: seq<Event>)
      modifies this
      ensures View() == Run(old(View()), events).0
    {
      for i := 0 to |events|
        invariant View() == Run(old(View()), events[..i]).0
      {
        RunThen(old(View()), events[..i], events[i]);
        assert events[..i + 1] == events[..i] + [events[i]];
        CounterStep(View(), events[i]);
        hide Step, Run;
        var core := Core(state, failures, threshold, timeout, lastFailure);
        var next := Step(Sys(core, clock, holder, phases), events[i]).0;
        state, failures, lastFailure := next.core.state, next.core.failures, next.core.lastFailure;
        clock, holder, phases := next.clock, next.holder, next.phases;
      }
      assert events[..|events|] == events;
    }

    /** Waits until the mutex is free; the thread that holds it finishes its probe. */
    method AwaitMutex(ghost me: Tid, end: Ending)
      requires Inv(View()) && !HoldsMutex(PhaseOf(View(), me))
      modifies this
      ensures View() == Freed(old(View()), end)
      ensures holder.None? && Inv(View()) && PhaseOf(View(), me) == old(PhaseOf(View(), me))
    {
      ReleaseFrees(View(), end, me);
      Interfere(Release(Sys(Core(state, failures, threshold, timeout, lastFailure), clock, holder, phases), end));
    }

    method Reset(ghost me: Tid, beforeLock: seq<Event>, end: Ending)
      requires Inv(View()) && PhaseOf(View(), me).Outside? && Others(beforeLock, me)
      modifies this
      ensures View() == Step(Freed(Run(old(View()), beforeLock).0, end), Event.Reset).0
      ensures state.Closed? && failures == 0
    {
      RunKeepsInv(View(), beforeLock);
      OthersKeepPhase(View(), beforeLock, me);
      Interfere(beforeLock);
      AwaitMutex(me, end);
      state, failures, lastFailure := Closed, 0, 0;
    }

    method ExecuteClosed(me: Tid, sc: Schedule, ok: bool) returns (result: Result)
      requires Inv(View()) && PhaseOf(View(), me).Admitted? && OthersOnly(sc, me)
      modifies this
      ensures result == if sc.cancelled then ContextDone else if ok then Succeeded else Failed
      ensures View() == if sc.cancelled then Checked(old(View()), me, sc)
                        else Completed(Checked(old(View()), me, sc), me, sc, ok)
    {
      hide Run, Inv, Freed, Step, PhaseOf, Foreign;
      RunKeepsInv(View(), sc.beforeCheck);
      OthersKeepPhase(View(), sc.beforeCheck, me);
      Interfere(sc.beforeCheck);
      CheckTaken(View(), me, sc.cancelled);
      StepKeepsInv(View(), Check(me, sc.cancelled));
      if sc.cancelled {
        phases := phases[me := Outside];
        return ContextDone;
      }
      phases := phases[me := Calling];
      RunKeepsInv(View(), sc.duringCall);
      OthersKeepPhase(View(), sc.duringCall, me);
      Interfere(sc.duringCall);
      AwaitMutex(me, sc.secondWait);
      CompleteTaken(View(), me, ok);
      phases := phases[me := Outside];
      if !ok {
        failures := failures + 1;
        if failures >= threshold {
          state := Open;
          lastFailure := clock;
        }
        return Failed;
      }
      failures := 0;
      return Succeeded;
    }

    /** The rest of a call that goes on with the mutex held. */
    method ExecuteProbe(me: Tid, sc: Schedule, ok: bool) returns (result: Result)
      requires PhaseOf(View(), me).ProbeAdmitted? && OthersOnly(sc, me)
      modifies this
      ensures result == if sc.cancelled then ContextDone else if ok then Succeeded else Failed
      ensures View() == if sc.cancelled then Checked(old(View()), me, sc)
                        else Completed(Checked(old(View()), me, sc), me, sc, ok)
    {
      hide Run, Inv, Freed, Step, PhaseOf, Foreign;
      OthersKeepPhase(View(), sc.beforeCheck, me);
      Interfere(sc.beforeCheck);
      CheckTaken(View(), me, sc.cancelled);
      if sc.cancelled {
        holder, phases := None, phases[me := Outside];
        return ContextDone;
      }
      phases := phases[me := Probing];
      OthersKeepPhase(View(), sc.duringCall, me);
      Interfere(sc.duringCall);
      CompleteTaken(View(), me, ok);
      holder, phases := None, phases[me := Outside];
      if !ok {
        state, failures, lastFailure := Open, threshold, clock;
        return Failed;
      }
      state, failures, lastFailure := Closed, 0, 0;
      return Succeeded;
    }

    method Execute(me: Tid, sc: Schedule, ok: bool) returns (result: Result)
      requires Inv(View()) && PhaseOf(View(), me).Outside? && OthersOnly(sc, me)
      modifies this
      ensures (View(), result) == Executed(old(View()), me, sc, ok)
    {
      hide Run, Inv, Freed, Step, PhaseOf, Checked, Completed, OthersOnly;
      assert Others(sc.beforeEnter, me) by { SchedulesOthers(sc, me); }
      RunKeepsInv(View(), sc.beforeEnter);
      OthersKeepPhase(View(), sc.beforeEnter, me);
      Interfere(sc.beforeEnter);
      AwaitMutex(me, sc.firstWait);
      StepKeepsInv(View(), Enter(me));
      EnterTaken(View(), me);
      match state {
        case Open =>
          if clock - lastFailure < timeout {
            return ShortCircuited;
          }
          state := HalfOpen;
        case HalfOpen =>
        case Closed =>
          phases := phases[me := Admitted];
          result := ExecuteClosed(me, sc, ok);
          return;
      }
      holder, phases := Some(me), phases[me := ProbeAdmitted];
      result := ExecuteProbe(me, sc, ok);
    }
  }
}
