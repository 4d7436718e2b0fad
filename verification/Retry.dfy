/**
 The retry loop with its backoff, and the resilient client that runs each
 attempt through a circuit breaker.
 */
module Retry {
  import opened Common
  import CB = CircuitBreaker

  const MILLISECOND: int := 1_000_000
  const DEFAULT_INITIAL: int := 100 * MILLISECOND
  const DEFAULT_MAX: int := 2000 * MILLISECOND
  const DEFAULT_MULTIPLIER: real := 2.0

  datatype Config = Config(maxAttempts: int, initial: int, max: int, multiplier: real, jitter: bool)

  ghost predicate Normal(cfg: Config) {
    cfg.maxAttempts >= 1 && cfg.initial >= 1 && cfg.max >= 1 && cfg.multiplier >= 1.0
  }

  function Normalize(cfg: Config): (out: Config)
    ensures Normal(out) && out.jitter == cfg.jitter
    ensures out.maxAttempts == if cfg.maxAttempts > 0 then cfg.maxAttempts else 1
    ensures out.initial == if cfg.initial > 0 then cfg.initial else 100_000_000
    ensures out.max == if cfg.max > 0 then cfg.max else 2_000_000_000
    ensures out.multiplier == if cfg.multiplier >= 1.0 then cfg.multiplier else 2.0
  {
    Config(
      if cfg.maxAttempts <= 0 then 1 else cfg.maxAttempts,
      if cfg.initial <= 0 then DEFAULT_INITIAL else cfg.initial,
      if cfg.max <= 0 then DEFAULT_MAX else cfg.max,
      if cfg.multiplier < 1.0 then DEFAULT_MULTIPLIER else cfg.multiplier,
      cfg.jitter)
  }

  // ----- which errors are worth another attempt

  /** What the error chain exposes to the classification. */
  datatype Err = Err(
    contextDone: bool,
    netTimeout: bool,
    status: Option<int>,
    urlTimeout: bool,
    unreachable: bool)

  const CIRCUIT_OPEN: Err := Err(false, false, None, false, false)
  const CONTEXT_DONE: Err := Err(true, false, None, false, false)

  predicate IsRetryableStatus(code: int) {
    code in {408, 425, 429, 500, 502, 503, 504}
  }

  predicate IsRetryable(e: Err) {
    if e.contextDone then false
    else if e.netTimeout then true
    else if e.status.Some? then IsRetryableStatus(e.status.value)
    else e.urlTimeout || e.unreachable
  }

  /** Statuses that say the request itself is at fault. */
  predicate ClientFault(code: int) {
    400 <= code < 500 && code != 408 && code != 425 && code != 429
  }

  /** A done context is never retried, nor is a request at fault, an unimplemented
      method or an open circuit; a timeout on the way always is, unless the context
      is done, and so are the statuses of an overloaded or failing backend. */
  lemma RetryableErrors(e: Err)
    ensures e.contextDone ==> !IsRetryable(e)
    ensures !e.contextDone && e.netTimeout ==> IsRetryable(e)
    ensures !e.contextDone && !e.netTimeout && e.status.Some? ==>
              var code := e.status.value;
              && (ClientFault(code) || code < 400 || code == 501 || code > 504 ==> !IsRetryable(e))
              && (code in {408, 425, 429, 500, 502, 503, 504} ==> IsRetryable(e))
    ensures !e.contextDone && !e.netTimeout && e.status.None? ==>
              (IsRetryable(e) <==> e.urlTimeout || e.unreachable)
    ensures !IsRetryable(CIRCUIT_OPEN)
  {}

  // ----- backoff

  function Pow(x: real, n: nat): real {
    if n == 0 then 1.0 else x * Pow(x, n - 1)
  }

  function Times(x: real, y: real): real {
    x * y
  }

  function BaseDelay(cfg: Config, attempt: int): int {
    var n: nat := if attempt <= 0 then 0 else attempt - 1;
    var delay := Times(cfg.initial as real, Pow(cfg.multiplier, n));
    var capped := if cfg.max > 0 && delay > cfg.max as real then cfg.max as real else delay;
    capped.Floor
  }

  /** `draw` is the random number in 0..10000, or None when the source fails. */
  function AddJitter(base: int, draw: Option<nat>): int {
    if base <= 0 then 0
    else
      match draw
      case None => base
      case Some(n) => Times(base as real, 0.75 + 0.5 * (n as real / 10000.0)).Floor
  }

  predicate Draw(draw: Option<nat>) {
    draw.Some? ==> draw.value <= 10000
  }

  function Delay(cfg: Config, attempt: int, draw: Option<nat>): int {
    if cfg.jitter then AddJitter(BaseDelay(cfg, attempt), draw) else BaseDelay(cfg, attempt)
  }

  lemma {:induction false} PowMonotone(x: real, m: nat, n: nat)
    requires x >= 1.0 && m <= n
    ensures 1.0 <= Pow(x, m) <= Pow(x, n)
  {
    if n > m {
      PowMonotone(x, m, n - 1);
      ScaleUp(x, Pow(x, n - 1));
    } else if n > 0 {
      PowMonotone(x, n - 1, n - 1);
      ScaleUp(x, Pow(x, n - 1));
    }
  }

  lemma ScaleUp(x: real, y: real)
    requires x >= 1.0 && y >= 1.0
    ensures x * y >= y
  {
    assert (x - 1.0) * y >= 0.0;
  }

  lemma TimesMonotone(k: real, a: real, b: real)
    requires k >= 0.0 && a <= b
    ensures Times(k, a) <= Times(k, b)
  {
    NonNegative(k, b - a);
  }

  /** Before jitter the waits never shrink, and stay between 1 and the cap. */
  lemma BackoffMonotone(cfg: Config, i: int, j: int)
    requires Normal(cfg) && i <= j
    ensures 1 <= BaseDelay(cfg, i) <= BaseDelay(cfg, j) <= cfg.max
  {
    var m: nat := if i <= 0 then 0 else i - 1;
    var n: nat := if j <= 0 then 0 else j - 1;
    PowMonotone(cfg.multiplier, m, n);
    var a, b := Pow(cfg.multiplier, m), Pow(cfg.multiplier, n);
    TimesMonotone(cfg.initial as real, 1.0, a);
    TimesMonotone(cfg.initial as real, a, b);
  }

  /** The first wait is the initial one, under the cap; each following one is the one
      before it times the multiplier, up to the fraction rounded off, under the cap. */
  lemma BackoffGrows(cfg: Config, i: int)
    requires Normal(cfg) && i >= 1
    ensures BaseDelay(cfg, 1) == if cfg.initial <= cfg.max then cfg.initial else cfg.max
    ensures var now, next := BaseDelay(cfg, i), BaseDelay(cfg, i + 1);
            && (next == cfg.max || next as real > Times(cfg.multiplier, now as real) - 1.0)
            && next as real < Times(cfg.multiplier, (now + 1) as real)
  {
    var first, m := cfg.initial as real, cfg.multiplier;
    var x, y := Times(first, Pow(m, i - 1)), Times(first, Pow(m, i));
    assert Pow(m, i) == Times(m, Pow(m, i - 1));
    Regroup(first, m, Pow(m, i - 1));
    assert Times(first, Pow(m, 0)) == first;
    hide Pow, Times;
    var now := BaseDelay(cfg, i);
    TimesGrows(m, now as real, x);
    TimesGrows(m, x, (now + 1) as real);
    TimesGrows(m, cfg.max as real, (cfg.max + 1) as real);
  }

  lemma Regroup(a: real, m: real, p: real)
    ensures Times(a, Times(m, p)) == Times(m, Times(a, p))
  {
    assert a * (m * p) == m * (a * p);
  }

  lemma TimesGrows(k: real, a: real, b: real)
    requires k >= 1.0
    ensures a <= b ==> Times(k, a) <= Times(k, b)
    ensures a < b ==> Times(k, a) < Times(k, b)
    ensures b > 0.0 ==> b <= Times(k, b)
  {
    if a <= b { NonNegative(k, b - a); }
    if a < b { assert k * (b - a) > 0.0; }
    if b > 0.0 { NonNegative(k - 1.0, b); }
  }

  /** The draw spreads a wait evenly from three quarters of it to five quarters. */
  lemma JitterSpreads(base: int, n: nat, more: nat)
    requires base > 0 && n <= more
    ensures AddJitter(base, Some(0)) == (0.75 * base as real).Floor
    ensures AddJitter(base, Some(5000)) == base
    ensures AddJitter(base, Some(10000)) == (1.25 * base as real).Floor
    ensures AddJitter(base, Some(n)) <= AddJitter(base, Some(more))
  {
    TimesMonotone(base as real, 0.75 + 0.5 * (n as real / 10000.0), 0.75 + 0.5 * (more as real / 10000.0));
    Commuted(base as real);
  }

  lemma Commuted(x: real)
    ensures Times(x, 0.75 + 0.5 * (0 as real / 10000.0)) == 0.75 * x
    ensures Times(x, 0.75 + 0.5 * (5000 as real / 10000.0)) == x
    ensures Times(x, 0.75 + 0.5 * (10000 as real / 10000.0)) == 1.25 * x
  {}

  lemma NonNegative(x: real, y: real)
    requires x >= 0.0 && y >= 0.0
    ensures x * y >= 0.0
  {}

  /** Jitter moves a wait by at most a quarter either way. */
  lemma DelayBounds(cfg: Config, attempt: int, draw: Option<nat>)
    requires Normal(cfg) && Draw(draw)
    ensures var base := BaseDelay(cfg, attempt);
            && 3 * base - 4 < 4 * Delay(cfg, attempt, draw) <= 5 * base
            && 0 <= Delay(cfg, attempt, draw)
            && 4 * Delay(cfg, attempt, draw) <= 5 * cfg.max
            && (draw.None? || !cfg.jitter ==> Delay(cfg, attempt, draw) == base)
  {
    BackoffMonotone(cfg, attempt, attempt);
    hide BaseDelay;
    var base := BaseDelay(cfg, attempt);
    if cfg.jitter && draw.Some? {
      var f := 0.75 + 0.5 * (draw.value as real / 10000.0);
      assert 0.75 <= f <= 1.25;
      TimesMonotone(base as real, 0.75, f);
      TimesMonotone(base as real, f, 1.25);
    }
  }

  // ----- the loop

  /** One attempt as the environment plays it: the context is already done, the
      function's error if any, the jitter draw, and how long the context lasts
      into the wait that follows. */
  datatype Attempt = Attempt(contextDone: bool, error: Option<Err>, draw: Option<nat>, patience: Option<nat>)

  datatype Outcome =
    | Done
    | CancelledBefore(attempt: nat)
    | Aborted(attempt: nat, error: Err)
    | CancelledWaiting(attempt: nat)
    | Exhausted(error: Err)

  datatype Report = Report(outcome: Outcome, calls: nat, waited: int)

  predicate Plays(cfg: Config, script: seq<Attempt>) {
    |script| >= cfg.maxAttempts && forall i | 0 <= i < |script| :: Draw(script[i].draw)
  }

  /** The loop's answer from 0-based attempt k on. */
  function Retried(cfg: Config, script: seq<Attempt>, k: nat): Report
    requires |script| >= cfg.maxAttempts && k < cfg.maxAttempts
    decreases cfg.maxAttempts - k
  {
    var a := script[k];
    if a.contextDone then Report(CancelledBefore(k + 1), 0, 0)
    else if a.error.None? then Report(Done, 1, 0)
    else if !IsRetryable(a.error.value) then Report(Aborted(k + 1, a.error.value), 1, 0)
    else if k + 1 == cfg.maxAttempts then Report(Exhausted(a.error.value), 1, 0)
    else
      var delay := Delay(cfg, k + 1, a.draw);
      if a.patience.Some? && a.patience.value < delay
      then Report(CancelledWaiting(k + 1), 1, a.patience.value)
      else
        var rest := Retried(cfg, script, k + 1);
        Report(rest.outcome, 1 + rest.calls, delay + rest.waited)
  }

  /** The attempt lets the loop go on to the next one. */
  ghost predicate GoesOn(cfg: Config, script: seq<Attempt>, k: nat)
    requires k < |script|
  {
    var a := script[k];
    && !a.contextDone && a.error.Some? && IsRetryable(a.error.value)
    && !(a.patience.Some? && a.patience.value < Delay(cfg, k + 1, a.draw))
  }

  /** Everything a caller can rely on: at most maxAttempts calls, each but the
      last a retryable failure; success exactly when the last call succeeds;
      total waiting within (maxAttempts - 1) * 1.25 * max. */
  lemma {:induction false} RetryContract(cfg: Config, script: seq<Attempt>, k: nat)
    requires Normal(cfg) && Plays(cfg, script) && k < cfg.maxAttempts
    ensures var r := Retried(cfg, script, k);
            && k + r.calls <= cfg.maxAttempts
            && (forall i | k <= i < k + r.calls - 1 :: GoesOn(cfg, script, i))
            && (r.outcome.Done? <==>
                  r.calls >= 1 && script[k + r.calls - 1].error.None? && !script[k + r.calls - 1].contextDone)
            && (r.outcome.Aborted? ==>
                  && r.calls >= 1 && script[k + r.calls - 1].error == Some(r.outcome.error)
                  && !IsRetryable(r.outcome.error))
            && (r.outcome.Exhausted? ==> k + r.calls == cfg.maxAttempts)
            && 0 <= 4 * r.waited <= (cfg.maxAttempts - 1 - k) * (5 * cfg.max)
    decreases cfg.maxAttempts - k
  {
    hide Delay, IsRetryable;
    var left, unit := cfg.maxAttempts - 1 - k, 5 * cfg.max;
    WaitBudget(left, unit);
    if GoesOn(cfg, script, k) && k + 1 < cfg.maxAttempts {
      DelayBounds(cfg, k + 1, script[k].draw);
      RetryContract(cfg, script, k + 1);
    } else if k + 1 < cfg.maxAttempts {
      DelayBounds(cfg, k + 1, script[k].draw);
    }
  }

  /** The waits after attempts k to n - 1. */
  function Waits(cfg: Config, script: seq<Attempt>, k: nat, n: nat): int
    requires n <= |script|
    decreases n - k
  {
    if k >= n then 0 else Delay(cfg, k + 1, script[k].draw) + Waits(cfg, script, k + 1, n)
  }

  /** Why the loop stopped, and what it waited for: the full wait after every attempt
      but the last, and after that one as long as the context lasted. */
  lemma {:induction false} OutcomeExplained(cfg: Config, script: seq<Attempt>, k: nat)
    requires Plays(cfg, script) && k < cfg.maxAttempts
    ensures var r := Retried(cfg, script, k);
            var n := k + r.calls;
            && n <= cfg.maxAttempts
            && match r.outcome
               case Done =>
                 && n > k && !script[n - 1].contextDone && script[n - 1].error.None?
                 && r.waited == Waits(cfg, script, k, n - 1)
               case Aborted(attempt, error) =>
                 && attempt == n > k && script[n - 1].error == Some(error) && !IsRetryable(error)
                 && r.waited == Waits(cfg, script, k, n - 1)
               case Exhausted(error) =>
                 && n == cfg.maxAttempts && n > k && script[n - 1].error == Some(error) && IsRetryable(error)
                 && r.waited == Waits(cfg, script, k, n - 1)
               case CancelledBefore(attempt) =>
                 && n < cfg.maxAttempts && attempt == n + 1 && script[n].contextDone
                 && r.waited == Waits(cfg, script, k, n)
               case CancelledWaiting(attempt) =>
                 && k < n < cfg.maxAttempts && attempt == n && script[n - 1].patience.Some?
                 && script[n - 1].patience.value < Delay(cfg, n, script[n - 1].draw)
                 && r.waited == Waits(cfg, script, k, n - 1) + script[n - 1].patience.value
    decreases cfg.maxAttempts - k
  {
    hide Delay, IsRetryable;
    if GoesOn(cfg, script, k) && k + 1 < cfg.maxAttempts {
      OutcomeExplained(cfg, script, k + 1);
    }
  }

  lemma WaitBudget(left: int, unit: int)
    requires left >= 0 && unit >= 0
    ensures 0 <= left * unit == (left - 1) * unit + unit
    ensures left >= 1 ==> unit <= left * unit
  {
    if left >= 1 { assert (left - 1) * unit >= 0; }
  }

  method RetryLoop(config: Config, script: seq<Attempt>) returns (report: Report)
    requires Plays(Normalize(config), script)
    ensures report == Retried(Normalize(config), script, 0)
  {
    var cfg := Normalize(config);
    var attempt, waited := 1, 0;
    while attempt <= cfg.maxAttempts
      invariant 1 <= attempt <= cfg.maxAttempts
      invariant var rest := Retried(cfg, script, attempt - 1);
                Retried(cfg, script, 0) == Report(rest.outcome, attempt - 1 + rest.calls, waited + rest.waited)
    {
      var turn := script[attempt - 1];
      if turn.contextDone {
        return Report(CancelledBefore(attempt), attempt - 1, waited);
      }
      if turn.error.None? {
        return Report(Done, attempt, waited);
      }
      if !IsRetryable(turn.error.value) {
        return Report(Aborted(attempt, turn.error.value), attempt, waited);
      }
      if attempt == cfg.maxAttempts {
        return Report(Exhausted(turn.error.value), attempt, waited);
      }
      var delay := Delay(cfg, attempt, turn.draw);
      if turn.patience.Some? && turn.patience.value < delay {
        return Report(CancelledWaiting(attempt), attempt, waited + turn.patience.value);
      }
      waited := waited + delay;
      attempt := attempt + 1;
    }
  }

  // ----- the resilient client

  /** One attempt of a tool call on a breaker that others use too: whether the
      context is done before it, what happens around it, what the backend would
      answer, and what others do during the wait that follows. */
  datatype Turn<T> = Turn(
    contextDone: bool, schedule: CB.Schedule, answer: Answer<T>,
    draw: Option<nat>, patience: Option<nat>, duringWait: seq<CB.Event>)

  datatype Answer<T> = Result(value: T) | Failure(error: Err)

  predicate Fair<T>(turn: Turn<T>, me: CB.Tid) {
    Draw(turn.draw) && CB.OthersOnly(turn.schedule, me) && CB.Others(turn.duringWait, me)
  }

  predicate AllFair<T>(turns: seq<Turn<T>>, me: CB.Tid) {
    forall i | 0 <= i < |turns| :: Fair(turns[i], me)
  }

  function Taken<T>(s: CB.Sys, me: CB.Tid, turn: Turn<T>): (CB.Sys, CB.Result) {
    CB.Executed(s, me, turn.schedule, turn.answer.Result?)
  }

  function ErrorOf<T>(result: CB.Result, turn: Turn<T>): Option<Err> {
    match result
    case Succeeded => None
    case ShortCircuited => Some(CIRCUIT_OPEN)
    case ContextDone => Some(CONTEXT_DONE)
    case Failed => if turn.answer.Failure? then Some(turn.answer.error) else None
  }

  /** An attempt ends without an error exactly when the backend was reached and
      answered; its error is the backend's own, or says that the circuit is open or
      the context done. */
  lemma TakenTells<T>(s: CB.Sys, me: CB.Tid, turn: Turn<T>)
    ensures var result := Taken(s, me, turn).1;
            var error := ErrorOf(result, turn);
            && (error.None? <==> Reached(result) && turn.answer.Result?)
            && (error.Some? ==>
                  error.value == if result.ShortCircuited? then CIRCUIT_OPEN
                                 else if result.ContextDone? then CONTEXT_DONE
                                 else turn.answer.error)
  {}

  predicate Reached(result: CB.Result) {
    result.Succeeded? || result.Failed?
  }

  /** The clock moves on by at least the wait, whatever the others do meanwhile. */
  function Rest(started: int, now: int, wait: int): nat {
    if started + wait <= now then 0 else started + wait - now
  }

  function Sleep<T>(s: CB.Sys, turn: Turn<T>, wait: int): seq<CB.Event> {
    turn.duringWait + [CB.Tick(Rest(s.clock, CB.Run(s, turn.duringWait).0.clock, wait))]
  }

  function Waited<T>(s: CB.Sys, turn: Turn<T>, wait: int): CB.Sys {
    CB.Run(s, Sleep(s, turn, wait)).0
  }

  /** The breaker and its users when the n-th attempt begins. */
  function SysAt<T>(s: CB.Sys, me: CB.Tid, cfg: Config, turns: seq<Turn<T>>, n: nat): CB.Sys
    requires n <= |turns|
  {
    if n == 0 then s
    else
      var before := SysAt(s, me, cfg, turns, n - 1);
      Waited(Taken(before, me, turns[n - 1]).0, turns[n - 1], Delay(cfg, n, turns[n - 1].draw))
  }

  function AttemptAt<T>(s: CB.Sys, me: CB.Tid, cfg: Config, turns: seq<Turn<T>>, i: nat): Attempt
    requires i < |turns|
  {
    var result := Taken(SysAt(s, me, cfg, turns, i), me, turns[i]).1;
    Attempt(turns[i].contextDone, ErrorOf(result, turns[i]), turns[i].draw, turns[i].patience)
  }

  /** The script the retry loop sees when every turn goes through the breaker. */
  function Script<T>(s: CB.Sys, me: CB.Tid, cfg: Config, turns: seq<Turn<T>>): (script: seq<Attempt>)
    ensures |script| == |turns|
    ensures forall i | 0 <= i < |turns| :: script[i] == AttemptAt(s, me, cfg, turns, i)
  {
    seq(|turns|, i requires 0 <= i < |turns| => AttemptAt(s, me, cfg, turns, i))
  }

  /** A call's answer, the state it leaves, and how often it reached the backend. */
  datatype Called = Called(report: Report, sys: CB.Sys, invocations: nat)

  /** The call from its k-th turn on. */
  function CalledFrom<T>(s: CB.Sys, me: CB.Tid, cfg: Config, turns: seq<Turn<T>>, k: nat): Called
    requires k < cfg.maxAttempts <= |turns|
    decreases cfg.maxAttempts - k
  {
    var turn := turns[k];
    if turn.contextDone then Called(Report(CancelledBefore(k + 1), 0, 0), s, 0)
    else
      var (after, result) := Taken(s, me, turn);
      var error, hit := ErrorOf(result, turn), if Reached(result) then 1 else 0;
      if error.None? then Called(Report(Done, 1, 0), after, hit)
      else if !IsRetryable(error.value) then Called(Report(Aborted(k + 1, error.value), 1, 0), after, hit)
      else if k + 1 == cfg.maxAttempts then Called(Report(Exhausted(error.value), 1, 0), after, hit)
      else
        var delay := Delay(cfg, k + 1, turn.draw);
        if turn.patience.Some? && turn.patience.value < delay
        then
          var wait := turn.patience.value;
          Called(Report(CancelledWaiting(k + 1), 1, wait), Waited(after, turn, wait), hit)
        else
          var rest := CalledFrom(Waited(after, turn, delay), me, cfg, turns, k + 1);
          Called(Report(rest.report.outcome, 1 + rest.report.calls, delay + rest.report.waited),
                 rest.sys, hit + rest.invocations)
  }

  /** A resilient call is the retry loop over the attempts the breaker lets it make. */
  lemma {:induction false} CalledIsRetried<T>(s: CB.Sys, me: CB.Tid, cfg: Config, turns: seq<Turn<T>>, k: nat)
    requires k < cfg.maxAttempts <= |turns|
    ensures var called := CalledFrom(SysAt(s, me, cfg, turns, k), me, cfg, turns, k);
            && called.report == Retried(cfg, Script(s, me, cfg, turns), k)
            && called.invocations <= called.report.calls && k + called.report.calls <= cfg.maxAttempts
    decreases cfg.maxAttempts - k
  {
    hide Delay, Taken, Waited, ErrorOf, IsRetryable, Reached;
    assert Script(s, me, cfg, turns)[k] == AttemptAt(s, me, cfg, turns, k);
    if k + 1 < cfg.maxAttempts {
      CalledIsRetried(s, me, cfg, turns, k + 1);
    }
  }

  // ----- the call as part of a run

  /** The events of a call from its k-th turn on, its own and the others'. */
  function CallRun<T>(s: CB.Sys, me: CB.Tid, cfg: Config, turns: seq<Turn<T>>, k: nat): seq<CB.Event>
    requires k < cfg.maxAttempts <= |turns|
    decreases cfg.maxAttempts - k
  {
    var turn := turns[k];
    if turn.contextDone then []
    else
      var events := CB.CallEvents(s, me, turn.schedule, turn.answer.Result?);
      var (after, result) := Taken(s, me, turn);
      var error := ErrorOf(result, turn);
      if error.None? || !IsRetryable(error.value) || k + 1 == cfg.maxAttempts then events
      else
        var delay := Delay(cfg, k + 1, turn.draw);
        if turn.patience.Some? && turn.patience.value < delay
        then events + Sleep(after, turn, turn.patience.value)
        else events + Sleep(after, turn, delay) + CallRun(Waited(after, turn, delay), me, cfg, turns, k + 1)
  }

  /** What a run shows of a call: where it leads, how often the thread began a call
      to the backend, and that being turned away can only be its last step. */
  ghost predicate Shows(s: CB.Sys, me: CB.Tid, events: seq<CB.Event>, after: CB.Sys, begun: nat) {
    && CB.Run(s, events).0 == after && CB.Inv(after) && CB.PhaseOf(after, me).Outside?
    && CB.Count(s, events, me, CB.Begins) == begun
    && (events != [] ==> CB.Count(s, events[..|events| - 1], me, CB.Rejections) == 0)
  }

  lemma SleepShows<T>(s: CB.Sys, me: CB.Tid, turn: Turn<T>, wait: int)
    requires CB.Inv(s) && CB.PhaseOf(s, me).Outside? && CB.Others(turn.duringWait, me)
    ensures Shows(s, me, Sleep(s, turn, wait), Waited(s, turn, wait), 0)
    ensures CB.Count(s, Sleep(s, turn, wait), me, CB.Rejections) == 0
    ensures Waited(s, turn, wait).clock >= s.clock + wait
  {
    var events := Sleep(s, turn, wait);
    var tick := events[|events| - 1];
    CB.RunKeepsInv(s, events);
    CB.OthersConcat(turn.duringWait, [tick], me);
    CB.OthersKeepPhase(s, events, me);
    CB.OthersCountNothing(s, events, me, CB.Begins);
    CB.OthersCountNothing(s, events, me, CB.Rejections);
    CB.CountShrinks(s, events, me, CB.Rejections);
    CB.RunThen(s, turn.duringWait, tick);
  }

  /** A run without rejections can be continued. */
  lemma ShowsThen(s: CB.Sys, me: CB.Tid, a: seq<CB.Event>, mid: CB.Sys, n: nat, b: seq<CB.Event>, after: CB.Sys, m: nat)
    requires Shows(s, me, a, mid, n) && CB.Count(s, a, me, CB.Rejections) == 0
    requires Shows(mid, me, b, after, m)
    ensures Shows(s, me, a + b, after, n + m)
    ensures CB.Count(s, a + b, me, CB.Rejections) == CB.Count(mid, b, me, CB.Rejections)
  {
    hide CB.Run, CB.Count, CB.Inv, CB.PhaseOf;
    CB.RunConcat(s, a, b);
    CB.CountConcat(s, a, b, me, CB.Begins);
    CB.CountConcat(s, a, b, me, CB.Rejections);
    if b == [] {
      assert a + b == a;
    } else {
      var init := b[..|b| - 1];
      CB.CountConcat(s, a, init, me, CB.Rejections);
      assert (a + b)[..|a + b| - 1] == a + init;
    }
  }

  /** The run bears out the call's report: the thread begins as many calls to the
      backend as reported, at most max; it is turned away at most once, and that is
      the last step of the run and ends the call. */
  ghost predicate BearsOut(s: CB.Sys, me: CB.Tid, events: seq<CB.Event>, called: Called, k: nat, max: int) {
    var turnedAway := CB.Count(s, events, me, CB.Rejections);
    && Shows(s, me, events, called.sys, called.invocations)
    && called.invocations <= called.report.calls && k + called.report.calls <= max
    && turnedAway <= 1
    && (turnedAway == 1 ==>
          && called.report.outcome == Aborted(k + called.report.calls, CIRCUIT_OPEN)
          && events != [] && events[|events| - 1] == CB.Enter(me))
  }

  lemma BearsOutThen(
      s: CB.Sys, me: CB.Tid, a: seq<CB.Event>, mid: CB.Sys, hit: nat, b: seq<CB.Event>, rest: Called,
      delay: int, k: nat, max: int)
    requires Shows(s, me, a, mid, hit) && CB.Count(s, a, me, CB.Rejections) == 0 && hit <= 1
    requires BearsOut(mid, me, b, rest, k + 1, max)
    ensures BearsOut(s, me, a + b,
              Called(Report(rest.report.outcome, 1 + rest.report.calls, delay + rest.report.waited),
                     rest.sys, hit + rest.invocations),
              k, max)
  {
    hide Shows;
    ShowsThen(s, me, a, mid, hit, b, rest.sys, rest.invocations);
    LastOfConcat(a, b);
  }

  /** The turn's outcome ends the loop before any wait. */
  ghost predicate EndsLoop<T>(cfg: Config, turn: Turn<T>, result: CB.Result, k: nat) {
    var error := ErrorOf(result, turn);
    error.None? || !IsRetryable(error.value) || k + 1 == cfg.maxAttempts
  }

  ghost predicate EndsWait<T>(cfg: Config, turn: Turn<T>, k: nat) {
    turn.patience.Some? && turn.patience.value < Delay(cfg, k + 1, turn.draw)
  }

  /** The state in which the next turn begins. */
  function Next<T>(s: CB.Sys, me: CB.Tid, cfg: Config, turn: Turn<T>, k: nat): CB.Sys {
    Waited(Taken(s, me, turn).0, turn, Delay(cfg, k + 1, turn.draw))
  }

  lemma CallStopsWaiting<T>(s: CB.Sys, me: CB.Tid, cfg: Config, turns: seq<Turn<T>>, k: nat)
    requires k < cfg.maxAttempts <= |turns| && !turns[k].contextDone
    requires !EndsLoop(cfg, turns[k], Taken(s, me, turns[k]).1, k) && EndsWait(cfg, turns[k], k)
    ensures var turn, wait := turns[k], turns[k].patience.value;
            var (after, result) := Taken(s, me, turn);
            && CallRun(s, me, cfg, turns, k) ==
               CB.CallEvents(s, me, turn.schedule, turn.answer.Result?) + Sleep(after, turn, wait)
            && CalledFrom(s, me, cfg, turns, k) ==
               Called(Report(CancelledWaiting(k + 1), 1, wait), Waited(after, turn, wait),
                      if Reached(result) then 1 else 0)
  {
    hide Taken, Sleep, Waited, Delay, Reached, IsRetryable, ErrorOf, CB.CallEvents;
  }

  lemma CallTurnsOver<T>(s: CB.Sys, me: CB.Tid, cfg: Config, turns: seq<Turn<T>>, k: nat)
    requires k < cfg.maxAttempts <= |turns| && !turns[k].contextDone
    requires !EndsLoop(cfg, turns[k], Taken(s, me, turns[k]).1, k) && !EndsWait(cfg, turns[k], k)
    ensures var turn, delay := turns[k], Delay(cfg, k + 1, turns[k].draw);
            var (after, result) := Taken(s, me, turn);
            var rest := CalledFrom(Next(s, me, cfg, turn, k), me, cfg, turns, k + 1);
            && CallRun(s, me, cfg, turns, k) ==
               CB.CallEvents(s, me, turn.schedule, turn.answer.Result?) + Sleep(after, turn, delay) +
               CallRun(Next(s, me, cfg, turn, k), me, cfg, turns, k + 1)
            && CalledFrom(s, me, cfg, turns, k) ==
               Called(Report(rest.report.outcome, 1 + rest.report.calls, delay + rest.report.waited),
                      rest.sys, (if Reached(result) then 1 else 0) + rest.invocations)
  {
    hide Taken, Sleep, Waited, Delay, Reached, IsRetryable, ErrorOf, CB.CallEvents;
  }

  lemma NextShows<T>(s: CB.Sys, me: CB.Tid, cfg: Config, turn: Turn<T>, k: nat)
    requires CB.Inv(s) && CB.PhaseOf(s, me).Outside? && Fair(turn, me)
    requires !EndsLoop(cfg, turn, Taken(s, me, turn).1, k)
    ensures var (after, result) := Taken(s, me, turn);
            var events := CB.CallEvents(s, me, turn.schedule, turn.answer.Result?) +
                          Sleep(after, turn, Delay(cfg, k + 1, turn.draw));
            var next := Next(s, me, cfg, turn, k);
            && Shows(s, me, events, next, if Reached(result) then 1 else 0)
            && CB.Count(s, events, me, CB.Rejections) == 0 && CB.Inv(next) && CB.PhaseOf(next, me).Outside?
  {
    TurnGoesOn(s, me, cfg, turn, k);
    hide Taken, Sleep, Waited, Delay, Shows, Reached, CB.Inv, CB.PhaseOf, CB.Count, CB.CallEvents;
    var events := CB.CallEvents(s, me, turn.schedule, turn.answer.Result?);
    var (after, result) := Taken(s, me, turn);
    var hit, delay := if Reached(result) then 1 else 0, Delay(cfg, k + 1, turn.draw);
    SleepShows(after, me, turn, delay);
    ShowsThen(s, me, events, after, hit, Sleep(after, turn, delay), Waited(after, turn, delay), 0);
    ShowsMeans(after, me, Sleep(after, turn, delay), Waited(after, turn, delay), 0);
  }

  lemma TurnBearsOut<T>(s: CB.Sys, me: CB.Tid, cfg: Config, turns: seq<Turn<T>>, k: nat)
    requires k + 1 < cfg.maxAttempts <= |turns| && Fair(turns[k], me) && !turns[k].contextDone
    requires CB.Inv(s) && CB.PhaseOf(s, me).Outside?
    requires !EndsLoop(cfg, turns[k], Taken(s, me, turns[k]).1, k) && !EndsWait(cfg, turns[k], k)
    ensures var next := Next(s, me, cfg, turns[k], k);
            BearsOut(next, me, CallRun(next, me, cfg, turns, k + 1), CalledFrom(next, me, cfg, turns, k + 1),
                     k + 1, cfg.maxAttempts) ==>
              BearsOut(s, me, CallRun(s, me, cfg, turns, k), CalledFrom(s, me, cfg, turns, k), k, cfg.maxAttempts)
  {
    hide *;
    var turn := turns[k];
    var next := Next(s, me, cfg, turn, k);
    NextShows(s, me, cfg, turn, k);
    CallTurnsOver(s, me, cfg, turns, k);
    var (after, result) := Taken(s, me, turn);
    var delay := Delay(cfg, k + 1, turn.draw);
    var rest, called := CallRun(next, me, cfg, turns, k + 1), CalledFrom(next, me, cfg, turns, k + 1);
    if BearsOut(next, me, rest, called, k + 1, cfg.maxAttempts) {
      BearsOutThen(s, me, CB.CallEvents(s, me, turn.schedule, turn.answer.Result?) + Sleep(after, turn, delay), next,
                   if Reached(result) then 1 else 0, rest, called, delay, k, cfg.maxAttempts);
    }
  }

  lemma WaitBearsOut<T>(s: CB.Sys, me: CB.Tid, cfg: Config, turns: seq<Turn<T>>, k: nat)
    requires k + 1 < cfg.maxAttempts <= |turns| && Fair(turns[k], me) && !turns[k].contextDone
    requires CB.Inv(s) && CB.PhaseOf(s, me).Outside?
    requires !EndsLoop(cfg, turns[k], Taken(s, me, turns[k]).1, k) && EndsWait(cfg, turns[k], k)
    ensures BearsOut(s, me, CallRun(s, me, cfg, turns, k), CalledFrom(s, me, cfg, turns, k), k, cfg.maxAttempts)
  {
    var turn := turns[k];
    FairMeans(turn, me);
    TurnGoesOn(s, me, cfg, turn, k);
    CallStopsWaiting(s, me, cfg, turns, k);
    var (after, result) := Taken(s, me, turn);
    assert turn.patience.Some?;
    hide *;
    CancelledInTheWait(s, me, turn, CB.CallEvents(s, me, turn.schedule, turn.answer.Result?), after,
                       if Reached(result) then 1 else 0, k, cfg.maxAttempts);
  }

  lemma EndingBearsOut<T>(s: CB.Sys, me: CB.Tid, cfg: Config, turns: seq<Turn<T>>, k: nat)
    requires k < cfg.maxAttempts <= |turns| && Fair(turns[k], me)
    requires CB.Inv(s) && CB.PhaseOf(s, me).Outside?
    requires turns[k].contextDone || EndsLoop(cfg, turns[k], Taken(s, me, turns[k]).1, k)
    ensures BearsOut(s, me, CallRun(s, me, cfg, turns, k), CalledFrom(s, me, cfg, turns, k), k, cfg.maxAttempts)
  {
    if turns[k].contextDone {
      assert CB.Count(s, [], me, CB.Begins) == 0 && CB.Count(s, [], me, CB.Rejections) == 0;
    } else {
      TurnShows(s, me, turns[k]);
      hide Taken, Shows, CB.Count, CB.CallEvents, CB.Inv, CB.PhaseOf;
    }
  }

  /** On a breaker shared with any number of other callers, a resilient call is part
      of a run of the breaker's machine, and that run bears out its report. */
  lemma {:induction false} CallIsARun<T>(s: CB.Sys, me: CB.Tid, cfg: Config, turns: seq<Turn<T>>, k: nat)
    requires k < cfg.maxAttempts <= |turns| && AllFair(turns, me)
    requires CB.Inv(s) && CB.PhaseOf(s, me).Outside?
    ensures BearsOut(s, me, CallRun(s, me, cfg, turns, k), CalledFrom(s, me, cfg, turns, k), k, cfg.maxAttempts)
    decreases cfg.maxAttempts - k
  {
    var turn := turns[k];
    assert Fair(turn, me);
    assert k + 1 == cfg.maxAttempts ==> EndsLoop(cfg, turn, Taken(s, me, turn).1, k);
    hide *;
    if turn.contextDone || EndsLoop(cfg, turn, Taken(s, me, turn).1, k) {
      EndingBearsOut(s, me, cfg, turns, k);
    } else if EndsWait(cfg, turn, k) {
      WaitBearsOut(s, me, cfg, turns, k);
    } else {
      var next := Next(s, me, cfg, turn, k);
      NextShows(s, me, cfg, turn, k);
      CallIsARun(next, me, cfg, turns, k + 1);
      TurnBearsOut(s, me, cfg, turns, k);
    }
  }

  lemma FairMeans<T>(turn: Turn<T>, me: CB.Tid)
    requires Fair(turn, me)
    ensures CB.Others(turn.duringWait, me)
  {}

  /** A turn that does not end the loop was not turned away. */
  lemma TurnGoesOn<T>(s: CB.Sys, me: CB.Tid, cfg: Config, turn: Turn<T>, k: nat)
    requires CB.Inv(s) && CB.PhaseOf(s, me).Outside? && Fair(turn, me)
    requires !EndsLoop(cfg, turn, Taken(s, me, turn).1, k)
    ensures var events := CB.CallEvents(s, me, turn.schedule, turn.answer.Result?);
            var (after, result) := Taken(s, me, turn);
            && Shows(s, me, events, after, if Reached(result) then 1 else 0)
            && CB.Count(s, events, me, CB.Rejections) == 0
            && CB.Inv(after) && CB.PhaseOf(after, me).Outside?
  {
    TurnShows(s, me, turn);
    var events := CB.CallEvents(s, me, turn.schedule, turn.answer.Result?);
    var (after, result) := Taken(s, me, turn);
    ShowsMeans(s, me, events, after, if Reached(result) then 1 else 0);
    hide Taken, Shows, CB.Count, CB.CallEvents, CB.Inv, CB.PhaseOf;
  }

  lemma CancelledInTheWait<T>(
      s: CB.Sys, me: CB.Tid, turn: Turn<T>, events: seq<CB.Event>, after: CB.Sys, hit: nat, k: nat, max: int)
    requires Shows(s, me, events, after, hit) && CB.Count(s, events, me, CB.Rejections) == 0 && hit <= 1
    requires CB.Others(turn.duringWait, me) && turn.patience.Some? && k + 1 <= max
    ensures var wait := turn.patience.value;
            BearsOut(s, me, events + Sleep(after, turn, wait),
              Called(Report(CancelledWaiting(k + 1), 1, wait), Waited(after, turn, wait), hit), k, max)
  {
    var wait := turn.patience.value;
    ShowsMeans(s, me, events, after, hit);
    hide Shows, Sleep, Waited, CB.Count, CB.Inv, CB.PhaseOf;
    SleepShows(after, me, turn, wait);
    ShowsThen(s, me, events, after, hit, Sleep(after, turn, wait), Waited(after, turn, wait), 0);
  }

  lemma LastOfConcat(a: seq<CB.Event>, b: seq<CB.Event>)
    ensures b != [] ==> (a + b)[|a + b| - 1] == b[|b| - 1]
  {}

  lemma ShowsMeans(s: CB.Sys, me: CB.Tid, events: seq<CB.Event>, after: CB.Sys, begun: nat)
    requires Shows(s, me, events, after, begun)
    ensures CB.Inv(after) && CB.PhaseOf(after, me).Outside?
  {}

  lemma TurnShows<T>(s: CB.Sys, me: CB.Tid, turn: Turn<T>)
    requires CB.Inv(s) && CB.PhaseOf(s, me).Outside? && Fair(turn, me)
    ensures var events := CB.CallEvents(s, me, turn.schedule, turn.answer.Result?);
            var (after, result) := Taken(s, me, turn);
            && Shows(s, me, events, after, if Reached(result) then 1 else 0)
            && CB.Count(s, events, me, CB.Rejections) == (if result.ShortCircuited? then 1 else 0)
            && (result.ShortCircuited? ==> events != [] && events[|events| - 1] == CB.Enter(me))
            && (ErrorOf(result, turn) == Some(CIRCUIT_OPEN) <== result.ShortCircuited?)
  {
    CB.CallCounts(s, me, turn.schedule, turn.answer.Result?);
  }

  /** All together, among any other users of the breaker: at most maxAttempts calls
      reach the backend, the waits stay within (maxAttempts - 1) * 1.25 * max, and
      success is reported exactly when the last attempt succeeds. */
  lemma ResilientCall<T>(s: CB.Sys, me: CB.Tid, config: Config, turns: seq<Turn<T>>)
    requires |turns| >= Normalize(config).maxAttempts && AllFair(turns, me)
    requires CB.Inv(s) && CB.PhaseOf(s, me).Outside?
    ensures var cfg := Normalize(config);
            var events, called := CallRun(s, me, cfg, turns, 0), CalledFrom(s, me, cfg, turns, 0);
            var script := Script(s, me, cfg, turns);
            var r := called.report;
            && BearsOut(s, me, events, called, 0, cfg.maxAttempts)
            && CB.Count(s, events, me, CB.Begins) <= cfg.maxAttempts
            && 0 <= 4 * r.waited <= (cfg.maxAttempts - 1) * (5 * cfg.max)
            && (forall i | 0 <= i < r.calls - 1 :: GoesOn(cfg, script, i))
            && (r.outcome.Done? <==>
                  r.calls >= 1 && script[r.calls - 1].error.None? && !script[r.calls - 1].contextDone)
  {
    var cfg := Normalize(config);
    var script := Script(s, me, cfg, turns);
    ScriptPlays(s, me, cfg, turns);
    CallIsARun(s, me, cfg, turns, 0);
    CalledIsRetried(s, me, cfg, turns, 0);
    BegunWithin(s, me, CallRun(s, me, cfg, turns, 0), CalledFrom(s, me, cfg, turns, 0), cfg.maxAttempts);
    assert SysAt(s, me, cfg, turns, 0) == s;
    hide *;
    RetryContract(cfg, script, 0);
  }

  lemma ScriptPlays<T>(s: CB.Sys, me: CB.Tid, cfg: Config, turns: seq<Turn<T>>)
    requires |turns| >= cfg.maxAttempts && AllFair(turns, me)
    ensures Plays(cfg, Script(s, me, cfg, turns))
  {
    assert forall i | 0 <= i < |turns| :: Fair(turns[i], me);
  }

  lemma BegunWithin(s: CB.Sys, me: CB.Tid, events: seq<CB.Event>, called: Called, max: int)
    requires BearsOut(s, me, events, called, 0, max)
    ensures CB.Count(s, events, me, CB.Begins) <= max
  {}

  /** A turn that finds the breaker open and its timeout not over ends the call: one
      more attempt, no call to the backend, the breaker as it was. */
  lemma OpenBreakerEndsTheCall<T>(s: CB.Sys, me: CB.Tid, cfg: Config, turns: seq<Turn<T>>, k: nat)
    requires k < cfg.maxAttempts <= |turns| && AllFair(turns, me)
    requires CB.Inv(s) && CB.PhaseOf(s, me).Outside? && !turns[k].contextDone
    requires var at := Locked(s, turns[k]);
             at.core.state.Open? && at.clock - at.core.lastFailure < at.core.timeout
    ensures CalledFrom(s, me, cfg, turns, k) ==
            Called(Report(Aborted(k + 1, CIRCUIT_OPEN), 1, 0), Locked(s, turns[k]), 0)
  {
    var turn, sc := turns[k], turns[k].schedule;
    assert Fair(turn, me);
    var quiet := CB.Run(s, sc.beforeEnter).0;
    CB.RunKeepsInv(s, sc.beforeEnter);
    CB.OthersKeepPhase(s, sc.beforeEnter, me);
    CB.ReleaseFrees(quiet, sc.firstWait, me);
    CB.EnterTaken(Locked(s, turn), me);
    hide CB.Run, CB.Inv, CB.Freed, CB.Step;
  }

  /** The state in which a turn gets the mutex. */
  function Locked<T>(s: CB.Sys, turn: Turn<T>): CB.Sys {
    CB.Freed(CB.Run(s, turn.schedule.beforeEnter).0, turn.schedule.firstWait)
  }

  // ----- the client's methods

  method TakeTurn<T>(breaker: CB.Breaker, me: CB.Tid, turn: Turn<T>) returns (result: CB.Result)
    requires CB.Inv(breaker.View()) && CB.PhaseOf(breaker.View(), me).Outside? && Fair(turn, me)
    modifies breaker
    ensures (breaker.View(), result) == Taken(old(breaker.View()), me, turn)
    ensures CB.Inv(breaker.View()) && CB.PhaseOf(breaker.View(), me).Outside?
    ensures ErrorOf(result, turn).None? ==> turn.answer.Result?
  {
    TurnShows(breaker.View(), me, turn);
    hide CB.Inv, CB.PhaseOf, CB.OthersOnly;
    result := breaker.Execute(me, turn.schedule, turn.answer.Result?);
  }

  method Wait<T>(breaker: CB.Breaker, ghost me: CB.Tid, turn: Turn<T>, wait: int)
    requires CB.Inv(breaker.View()) && CB.PhaseOf(breaker.View(), me).Outside? && Fair(turn, me)
    modifies breaker
    ensures breaker.View() == Waited(old(breaker.View()), turn, wait)
    ensures breaker.clock >= old(breaker.clock) + wait
    ensures CB.Inv(breaker.View()) && CB.PhaseOf(breaker.View(), me).Outside?
  {
    SleepShows(breaker.View(), me, turn, wait);
    hide CB.Inv, CB.PhaseOf, CB.Run, CB.Step;
    var started := breaker.clock;
    breaker.Interfere(turn.duringWait);
    var tick := CB.Tick(Rest(started, breaker.clock, wait));
    CB.RunConcat(old(breaker.View()), turn.duringWait, [tick]);
    breaker.Interfere([tick]);
  }

  method CallTool<T>(breaker: CB.Breaker, me: CB.Tid, config: Config, turns: seq<Turn<T>>)
    returns (report: Report, out: Option<T>, invocations: nat)
    requires |turns| >= Normalize(config).maxAttempts && AllFair(turns, me)
    requires CB.Inv(breaker.View()) && CB.PhaseOf(breaker.View(), me).Outside?
    modifies breaker
    ensures Called(report, breaker.View(), invocations) ==
            CalledFrom(old(breaker.View()), me, Normalize(config), turns, 0)
    ensures out.Some? <==> report.outcome.Done?
    ensures out.Some? ==> 1 <= report.calls <= |turns| && turns[report.calls - 1].answer == Result(out.value)
  {
    hide Delay, Taken, Waited, CB.Inv, CB.PhaseOf, Fair;
    var cfg := Normalize(config);
    var attempt, waited := 1, 0;
    invocations, out := 0, None;
    while attempt <= cfg.maxAttempts
      invariant 1 <= attempt <= cfg.maxAttempts && out.None?
      invariant CB.Inv(breaker.View()) && CB.PhaseOf(breaker.View(), me).Outside?
      invariant var rest := CalledFrom(breaker.View(), me, cfg, turns, attempt - 1);
                CalledFrom(old(breaker.View()), me, cfg, turns, 0) ==
                Called(Report(rest.report.outcome, attempt - 1 + rest.report.calls, waited + rest.report.waited),
                       rest.sys, invocations + rest.invocations)
    {
      var turn := turns[attempt - 1];
      if turn.contextDone {
        report := Report(CancelledBefore(attempt), attempt - 1, waited);
        return;
      }
      var result := TakeTurn(breaker, me, turn);
      if Reached(result) {
        invocations := invocations + 1;
      }
      var error := ErrorOf(result, turn);
      if error.None? {
        out := Some(turn.answer.value);
        report := Report(Done, attempt, waited);
        return;
      }
      if !IsRetryable(error.value) {
        report := Report(Aborted(attempt, error.value), attempt, waited);
        return;
      }
      if attempt == cfg.maxAttempts {
        report := Report(Exhausted(error.value), attempt, waited);
        return;
      }
      var delay := Delay(cfg, attempt, turn.draw);
      if turn.patience.Some? && turn.patience.value < delay {
        Wait(breaker, me, turn, turn.patience.value);
        report := Report(CancelledWaiting(attempt), attempt, waited + turn.patience.value);
        return;
      }
      Wait(breaker, me, turn, delay);
      waited := waited + delay;
      attempt := attempt + 1;
    }
  }
}
