/**
 The per-observer circuit breaker (common/circuitbreaker.go): a three-phase machine driven by the
 outcome of the guarded function and by the clock.

 Times are nanoseconds. Go's time arithmetic is written out: a `time.Duration` is a 64-bit signed
 integer, so the recovery timeout wraps, and the difference of two instants saturates.

 The breaker's mutex is held while the guarded function runs, so a call is one step that takes the
 instant it starts, the outcome of the function should it run, and the instant it ends. A function that
 panics is not modelled.
 */
module Breakers {

  datatype Config = Config(
    failureThreshold: int,
    recoveryTimeoutSec: int,
    halfOpenMaxCalls: int,
    successThreshold: int)

  datatype Phase = Closed | Open | HalfOpen

  datatype State = State(
    phase: Phase,
    failures: int,
    successes: int,
    halfOpenCalls: int,
    lastFailure: int)

  /** What the guarded function returns. */
  datatype Outcome = Success | Failure

  /** What a call returns: the function's own outcome, or one of the two rejections. */
  datatype Result = Ran(outcome: Outcome) | RejectedOpen | RejectedHalfOpen

  const MIN_DURATION: int := -0x8000_0000_0000_0000
  const MAX_DURATION: int := 0x7FFF_FFFF_FFFF_FFFF
  const SECOND: int := 1_000_000_000

  /** `time.Duration(sec) * time.Second`, a wrapping 64-bit product. */
  function Duration(sec: int): int {
    var w := (sec * SECOND) % 0x1_0000_0000_0000_0000;
    if w <= MAX_DURATION then w else w - 0x1_0000_0000_0000_0000
  }

  /** `now.Sub(earlier)`, which saturates. */
  function Since(now: int, earlier: int): int {
    var d := now - earlier;
    if d < MIN_DURATION then MIN_DURATION else if d > MAX_DURATION then MAX_DURATION else d
  }

  function Max(a: int, b: int): int {
    if a < b then b else a
  }

  predicate Recovered(cfg: Config, s: State, now: int) {
    Since(now, s.lastFailure) > Duration(cfg.recoveryTimeoutSec)
  }

  const FRESH := State(Closed, 0, 0, 0, 0)

  /** `onSuccess`. */
  function OnSuccess(cfg: Config, s: State): State {
    if s.phase == HalfOpen then
      if s.successes + 1 >= cfg.successThreshold
      then s.(phase := Closed, failures := 0, successes := 0, halfOpenCalls := 0)
      else s.(successes := s.successes + 1)
    else
      s.(failures := 0)
  }

  /** `onFailure`, at the instant the function returned. */
  function OnFailure(cfg: Config, s: State, finish: int): State {
    var s := s.(lastFailure := finish);
    match s.phase
    case Closed =>
      s.(failures := s.failures + 1,
         phase := if s.failures + 1 >= cfg.failureThreshold then Open else Closed)
    case HalfOpen => s.(phase := Open, halfOpenCalls := 0, successes := 0)
    case Open => s
  }

  /** One `Call`: the next state and the result. */
  function CallStep(cfg: Config, s: State, start: int, outcome: Outcome, finish: int): (State, Result) {
    if s.phase == Open && !Recovered(cfg, s, start) then
      (s, RejectedOpen)
    else
      var s := if s.phase == Open then s.(phase := HalfOpen, halfOpenCalls := 0, successes := 0) else s;
      if s.phase == HalfOpen && s.halfOpenCalls >= cfg.halfOpenMaxCalls then
        (s, RejectedHalfOpen)
      else
        var s := if s.phase == HalfOpen then s.(halfOpenCalls := s.halfOpenCalls + 1) else s;
        (if outcome == Success then OnSuccess(cfg, s) else OnFailure(cfg, s, finish), Ran(outcome))
  }

  /** The answer of `CanExecute` at an instant. */
  predicate MayExecute(cfg: Config, s: State, now: int) {
    match s.phase
    case Open => Recovered(cfg, s, now)
    case HalfOpen => s.halfOpenCalls < cfg.halfOpenMaxCalls
    case Closed => true
  }

  function ResetStep(s: State): State {
    s.(phase := Closed, failures := 0, successes := 0, halfOpenCalls := 0)
  }

  class CircuitBreaker {
    const config: Config
    var phase: Phase
    var failureCount: int
    var successCount: int
    var halfOpenCalls: int
    var lastFailureTime: int

    function View(): State
      reads this
    {
      State(phase, failureCount, successCount, halfOpenCalls, lastFailureTime)
    }

    constructor (config: Config)
      ensures this.config == config && View() == FRESH
    {
      this.config := config;
      phase, failureCount, successCount, halfOpenCalls, lastFailureTime := Closed, 0, 0, 0, 0;
    }

    method Call(start: int, outcome: Outcome, finish: int) returns (result: Result)
      modifies this
      ensures (View(), result) == CallStep(config, old(View()), start, outcome, finish)
    {
      if phase == Open {
        if Since(start, lastFailureTime) > Duration(config.recoveryTimeoutSec) {
          phase := HalfOpen;
          halfOpenCalls := 0;
          successCount := 0;
        } else {
          return RejectedOpen;
        }
      }
      if phase == HalfOpen {
        if halfOpenCalls >= config.halfOpenMaxCalls {
          return RejectedHalfOpen;
        }
        halfOpenCalls := halfOpenCalls + 1;
      }
      if outcome == Failure {
        RecordFailure(finish);
      } else {
        RecordSuccess();
      }
      return Ran(outcome);
    }

    method RecordSuccess()
      modifies this
      ensures View() == OnSuccess(config, old(View()))
    {
      if phase == HalfOpen {
        successCount := successCount + 1;
        if successCount >= config.successThreshold {
          phase := Closed;
          failureCount, successCount, halfOpenCalls := 0, 0, 0;
        }
      } else {
        failureCount := 0;
      }
    }

    method RecordFailure(now: int)
      modifies this
      ensures View() == OnFailure(config, old(View()), now)
    {
      lastFailureTime := now;
      if phase == Closed {
        failureCount := failureCount + 1;
        if failureCount >= config.failureThreshold {
          phase := Open;
        }
      } else if phase == HalfOpen {
        phase := Open;
        halfOpenCalls, successCount := 0, 0;
      }
    }

    method CanExecute(now: int) returns (ok: bool)
      ensures ok == MayExecute(config, View(), now)
    {
      if phase == Open {
        return Since(now, lastFailureTime) > Duration(config.recoveryTimeoutSec);
      }
      if phase == HalfOpen {
        return halfOpenCalls < config.halfOpenMaxCalls;
      }
      return true;
    }

    method Reset()
      modifies this
      ensures View() == ResetStep(old(View()))
      ensures phase == Closed && failureCount == successCount == halfOpenCalls == 0
      ensures lastFailureTime == old(lastFailureTime)
    {
      phase := Closed;
      failureCount, successCount, halfOpenCalls := 0, 0, 0;
    }
  }
}

/** What a breaker does over whole histories of calls and resets. */
module BreakerHistories {
  import opened Breakers

  datatype Event = Call(start: int, outcome: Outcome, finish: int) | Reset

  /** What an outside observer sees of one event. */
  datatype Entry =
    | Run(outcome: Outcome, start: int, finish: int)
    | TurnedAwayOpen(start: int)
    | TurnedAwayHalfOpen(start: int)
    | WasReset

  function StepState(cfg: Config, s: State, e: Event): State {
    match e
    case Call(start, outcome, finish) => CallStep(cfg, s, start, outcome, finish).0
    case Reset => ResetStep(s)
  }

  function StepEntry(cfg: Config, s: State, e: Event): Entry {
    match e
    case Reset => WasReset
    case Call(start, outcome, finish) =>
      match CallStep(cfg, s, start, outcome, finish).1
      case Ran(o) => Run(o, start, finish)
      case RejectedOpen => TurnedAwayOpen(start)
      case RejectedHalfOpen => TurnedAwayHalfOpen(start)
  }

  /** The state reached from `s` by a history, newest event last. */
  function After(cfg: Config, s: State, h: seq<Event>): State {
    if h == [] then s else StepState(cfg, After(cfg, s, h[..|h| - 1]), h[|h| - 1])
  }

  /** The log an observer would have written down. */
  function Log(cfg: Config, s: State, h: seq<Event>): (log: seq<Entry>)
    ensures |log| == |h|
  {
    if h == [] then []
    else Log(cfg, s, h[..|h| - 1]) + [StepEntry(cfg, After(cfg, s, h[..|h| - 1]), h[|h| - 1])]
  }

  lemma {:induction false} LogPrefix(cfg: Config, s: State, h: seq<Event>, i: nat)
    requires i < |h|
    ensures Log(cfg, s, h)[i] == StepEntry(cfg, After(cfg, s, h[..i]), h[i])
    ensures After(cfg, s, h[..i + 1]) == StepState(cfg, After(cfg, s, h[..i]), h[i])
  {
    assert h[..i + 1][..i] == h[..i];
    var init := h[..|h| - 1];
    if i < |init| {
      LogPrefix(cfg, s, init, i);
      assert init[..i] == h[..i];
    }
  }

  // ----- One call in full -----

  /** The timeout in nanoseconds, reduced to 64 signed bits, so exact for timeouts up to 292 years. */
  lemma DurationInFull(sec: int) returns (wraps: int)
    ensures Duration(sec) == sec * 1_000_000_000 - wraps * 0x1_0000_0000_0000_0000
    ensures -0x8000_0000_0000_0000 <= Duration(sec) <= 0x7FFF_FFFF_FFFF_FFFF
    ensures 0 <= sec <= 9_223_372_036 ==> wraps == 0
  {
    wraps := (sec * SECOND) / 0x1_0000_0000_0000_0000;
    if Duration(sec) < 0 {
      wraps := wraps + 1;
    }
  }

  /** When a call is turned away, in seconds: while the breaker is open and the timeout has not passed, or when a
      breaker that is, or becomes, half-open allows no more calls. */
  lemma CallInFull(cfg: Config, s: State, start: int, outcome: Outcome, finish: int)
    requires 0 <= cfg.recoveryTimeoutSec <= 9_223_372_036
    ensures var waited := start - s.lastFailure > cfg.recoveryTimeoutSec * 1_000_000_000;
            var result := CallStep(cfg, s, start, outcome, finish).1;
            && (result == RejectedOpen <==> s.phase == Open && !waited)
            && (result == RejectedHalfOpen <==>
                  || (s.phase == HalfOpen && s.halfOpenCalls >= cfg.halfOpenMaxCalls)
                  || (s.phase == Open && waited && cfg.halfOpenMaxCalls < 1))
            && (result.Ran? ==> result.outcome == outcome)
  {
    var wraps := DurationInFull(cfg.recoveryTimeoutSec);
  }

  /** Where a call that runs the function leads: a failure opens the breaker, unless it was closed and is still below
      the threshold; a success never leaves it open, and leaves it half-open only while successes are missing. */
  lemma RunInFull(cfg: Config, s: State, start: int, outcome: Outcome, finish: int)
    requires CallStep(cfg, s, start, outcome, finish).1.Ran?
    ensures var s' := CallStep(cfg, s, start, outcome, finish).0;
            && (outcome == Failure ==>
                  && s'.lastFailure == finish && s'.phase != HalfOpen
                  && (s'.phase == Open <==> s.phase != Closed || s.failures + 1 >= cfg.failureThreshold))
            && (outcome == Success ==>
                  && s'.lastFailure == s.lastFailure && s'.phase != Open
                  && (s'.phase == HalfOpen <==>
                        && s.phase != Closed
                        && (if s.phase == HalfOpen then s.successes else 0) + 1 < cfg.successThreshold))
  {
  }

  /** Permission is given exactly when a call at that instant would run the function, but for one case: an open
      breaker whose timeout has passed gives it even when no half-open calls are allowed. */
  lemma PermissionExactly(cfg: Config, s: State, now: int, outcome: Outcome, finish: int)
    ensures MayExecute(cfg, s, now) <==>
            || CallStep(cfg, s, now, outcome, finish).1.Ran?
            || (s.phase == Open && CallStep(cfg, s, now, outcome, finish).1 != RejectedOpen && cfg.halfOpenMaxCalls < 1)
    ensures cfg.halfOpenMaxCalls >= 1 ==>
            (MayExecute(cfg, s, now) <==> CallStep(cfg, s, now, outcome, finish).1.Ran?)
  {
  }

  // ----- Counters are read off the log -----

  /** The length of the run of failures that ends the log. */
  function TrailingFailures(log: seq<Entry>): nat {
    if log != [] && log[|log| - 1].Run? && log[|log| - 1].outcome == Failure
    then 1 + TrailingFailures(log[..|log| - 1])
    else 0
  }

  /** The run of successes that ends the log, looking past half-open rejections. */
  function TrailingSuccesses(log: seq<Entry>): nat {
    if log == [] then 0
    else
      var last := log[|log| - 1];
      var rest := log[..|log| - 1];
      if last.TurnedAwayHalfOpen? then TrailingSuccesses(rest)
      else if last.Run? && last.outcome == Success then 1 + TrailingSuccesses(rest)
      else 0
  }

  /** The log ends with a failure returning at `at`, followed only by open rejections. */
  predicate EndsInFailureAt(log: seq<Entry>, at: int) {
    log != [] &&
    var last := log[|log| - 1];
    if last.TurnedAwayOpen? then EndsInFailureAt(log[..|log| - 1], at)
    else last.Run? && last.outcome == Failure && last.finish == at
  }

  /** Invariant of every reachable breaker, for every configuration, sensible or not. */
  predicate Invariant(cfg: Config, s: State) {
    var threshold := Max(1, cfg.failureThreshold);
    && 0 <= s.failures <= threshold
    && (s.failures == threshold <==> s.phase != Closed)
    && (s.phase != HalfOpen ==> s.successes == s.halfOpenCalls == 0)
    && 0 <= s.successes == s.halfOpenCalls <= Max(0, cfg.halfOpenMaxCalls)
    && s.successes < Max(1, cfg.successThreshold)
  }

  lemma InvariantStep(cfg: Config, s: State, e: Event)
    requires Invariant(cfg, s)
    ensures Invariant(cfg, StepState(cfg, s, e))
  {
  }

  lemma {:induction false} InvariantAlways(cfg: Config, s: State, h: seq<Event>)
    requires Invariant(cfg, s)
    ensures Invariant(cfg, After(cfg, s, h))
  {
    if h != [] {
      InvariantAlways(cfg, s, h[..|h| - 1]);
      InvariantStep(cfg, After(cfg, s, h[..|h| - 1]), h[|h| - 1]);
    }
  }

  /** The counters agree with what the log of the breaker's doings counts. */
  ghost predicate Explains(cfg: Config, log: seq<Entry>, s: State) {
    && Invariant(cfg, s)
    && (s.phase == Closed ==> s.failures == TrailingFailures(log))
    && (s.phase == HalfOpen ==> s.successes == TrailingSuccesses(log))
    && (s.phase == Open ==> EndsInFailureAt(log, s.lastFailure))
  }

  lemma ExplainsStep(cfg: Config, log: seq<Entry>, s: State, e: Event)
    requires Explains(cfg, log, s)
    ensures Explains(cfg, log + [StepEntry(cfg, s, e)], StepState(cfg, s, e))
  {
    var log' := log + [StepEntry(cfg, s, e)];
    assert log'[..|log'| - 1] == log;
    InvariantStep(cfg, s, e);
    assert s.phase == Open ==> TrailingSuccesses(log) == 0;
  }

  /** From creation on, the counters can be read off the log, at every configuration. */
  lemma {:induction false} CountersReadOffTheLog(cfg: Config, h: seq<Event>)
    ensures Explains(cfg, Log(cfg, FRESH, h), After(cfg, FRESH, h))
  {
    if h != [] {
      var init := h[..|h| - 1];
      CountersReadOffTheLog(cfg, init);
      ExplainsStep(cfg, Log(cfg, FRESH, init), After(cfg, FRESH, init), h[|h| - 1]);
    }
  }

  /** The log determines the whole state: histories that look the same from outside lead to the same breaker,
      down to the time of its last failure. */
  lemma {:induction false} LogDeterminesState(cfg: Config, h: seq<Event>, h': seq<Event>)
    requires Log(cfg, FRESH, h) == Log(cfg, FRESH, h')
    ensures After(cfg, FRESH, h) == After(cfg, FRESH, h')
  {
    assert |Log(cfg, FRESH, h)| == |h| && |Log(cfg, FRESH, h')| == |h'|;
    if h != [] {
      var init, init' := h[..|h| - 1], h'[..|h'| - 1];
      assert Log(cfg, FRESH, init) == Log(cfg, FRESH, h)[..|init|];
      assert Log(cfg, FRESH, init') == Log(cfg, FRESH, h')[..|init'|];
      LogDeterminesState(cfg, init, init');
      SameEntrySameStep(cfg, After(cfg, FRESH, init), h[|h| - 1], h'[|h'| - 1]);
    }
  }

  lemma SameEntrySameStep(cfg: Config, s: State, e: Event, e': Event)
    requires StepEntry(cfg, s, e) == StepEntry(cfg, s, e')
    ensures StepState(cfg, s, e) == StepState(cfg, s, e')
  {
  }

  // ----- Open means closed for business -----

  /** No function runs and no reset happens at positions `i`, ..., `j - 1`. */
  predicate Quiet(log: seq<Entry>, i: nat, j: nat)
    requires j <= |log|
  {
    forall k :: i <= k < j ==> log[k].TurnedAwayOpen? || log[k].TurnedAwayHalfOpen?
  }

  lemma {:induction false} QuietKeepsFailureTime(cfg: Config, s: State, h: seq<Event>, i: nat, j: nat)
    requires Invariant(cfg, s)
    requires i <= j <= |h| && Quiet(Log(cfg, s, h), i, j)
    requires After(cfg, s, h[..i]).phase == Open
    ensures var before, now := After(cfg, s, h[..i]), After(cfg, s, h[..j]);
            now == before || (now.phase == HalfOpen && now.halfOpenCalls >= cfg.halfOpenMaxCalls)
    decreases j - i
  {
    if i < j {
      QuietKeepsFailureTime(cfg, s, h, i, j - 1);
      LogPrefix(cfg, s, h, j - 1);
      assert Log(cfg, s, h)[j - 1].TurnedAwayOpen? || Log(cfg, s, h)[j - 1].TurnedAwayHalfOpen?;
    }
  }

  /** Once a failure has opened the breaker, the next function to run, barring resets, starts more than
      the recovery timeout after that failure returned. */
  lemma {:induction false} NothingRunsBeforeRecovery(cfg: Config, h: seq<Event>, i: nat, j: nat)
    requires i < j < |h|
    requires var log := Log(cfg, FRESH, h);
             log[i].Run? && log[j].Run? && Quiet(log, i + 1, j)
    requires After(cfg, FRESH, h[..i + 1]).phase == Open
    ensures var log := Log(cfg, FRESH, h);
            log[i].outcome == Failure && Since(log[j].start, log[i].finish) > Duration(cfg.recoveryTimeoutSec)
  {
    assert Invariant(cfg, FRESH);
    LogPrefix(cfg, FRESH, h, i);
    LogPrefix(cfg, FRESH, h, j);
    InvariantAlways(cfg, FRESH, h[..i]);
    QuietKeepsFailureTime(cfg, FRESH, h, i + 1, j);
  }

  /** `CanExecute` is a promise about later calls exactly when half-open calls are allowed at all. */
  lemma CanExecuteIsAPromise(cfg: Config)
    ensures cfg.halfOpenMaxCalls >= 1 <==>
            forall h: seq<Event>, t, t', o, finish ::
              MayExecute(cfg, After(cfg, FRESH, h), t) && t <= t' ==>
              CallStep(cfg, After(cfg, FRESH, h), t', o, finish).1 == Ran(o)
  {
    if cfg.halfOpenMaxCalls < 1 {
      var h := FailuresUntilOpen(cfg, 0);
      var t := RecoveryInstant(cfg, After(cfg, FRESH, h));
      assert CallStep(cfg, After(cfg, FRESH, h), t, Success, t).1 == RejectedHalfOpen;
      assert MayExecute(cfg, After(cfg, FRESH, h), t);
      assert exists h: seq<Event>, t, t', o, finish ::
          MayExecute(cfg, After(cfg, FRESH, h), t) && t <= t' &&
          CallStep(cfg, After(cfg, FRESH, h), t', o, finish).1 != Ran(o);
    }
  }

  /** A call that is turned away leaves no trace exactly when half-open calls are allowed at all; otherwise it can
      move an open breaker to half-open, where it stays. */
  lemma RejectionLeavesNoTrace(cfg: Config)
    ensures cfg.halfOpenMaxCalls >= 1 <==>
            forall h: seq<Event>, t, o, finish ::
              !CallStep(cfg, After(cfg, FRESH, h), t, o, finish).1.Ran? ==>
              CallStep(cfg, After(cfg, FRESH, h), t, o, finish).0 == After(cfg, FRESH, h)
  {
    if cfg.halfOpenMaxCalls < 1 {
      var h := FailuresUntilOpen(cfg, 0);
      var t := RecoveryInstant(cfg, After(cfg, FRESH, h));
      assert CallStep(cfg, After(cfg, FRESH, h), t, Success, t).1 == RejectedHalfOpen;
      assert CallStep(cfg, After(cfg, FRESH, h), t, Success, t).0.phase == HalfOpen;
      assert exists h: seq<Event>, t, o, finish ::
          !CallStep(cfg, After(cfg, FRESH, h), t, o, finish).1.Ran? &&
          CallStep(cfg, After(cfg, FRESH, h), t, o, finish).0 != After(cfg, FRESH, h);
    }
  }

  // ----- Half-open -----

  /** Timeouts never reach the largest duration, so every open breaker recovers at some instant. */
  lemma RecoveryInstant(cfg: Config, s: State) returns (t: int)
    ensures forall t' :: t <= t' ==> Recovered(cfg, s, t')
  {
    var q := (cfg.recoveryTimeoutSec * SECOND) / 0x1_0000_0000_0000_0000;
    var w := (cfg.recoveryTimeoutSec * SECOND) % 0x1_0000_0000_0000_0000;
    assert w == 2 * (cfg.recoveryTimeoutSec * 500_000_000 - q * 0x8000_0000_0000_0000);
    t := s.lastFailure + MAX_DURATION;
  }

  /** `n` calls at instant `t`, all with the same outcome. */
  function Calls(n: nat, t: int, o: Outcome): (h: seq<Event>)
    ensures |h| == n
    ensures forall i :: 0 <= i < n ==> h[i] == Call(t, o, t)
  {
    if n == 0 then [] else Calls(n - 1, t, o) + [Call(t, o, t)]
  }

  lemma {:induction false} AfterCalls(cfg: Config, s: State, n: nat, t: int, o: Outcome)
    ensures After(cfg, s, Calls(n + 1, t, o)) == CallStep(cfg, After(cfg, s, Calls(n, t, o)), t, o, t).0
  {
    assert Calls(n + 1, t, o)[..n] == Calls(n, t, o);
  }

  /** A history of failures that opens a fresh breaker. */
  lemma FailuresUntilOpen(cfg: Config, t: int) returns (h: seq<Event>)
    ensures After(cfg, FRESH, h).phase == Open && h == Calls(Max(1, cfg.failureThreshold), t, Failure)
  {
    var n := 0;
    while n < Max(1, cfg.failureThreshold) - 1
      invariant 0 <= n <= Max(1, cfg.failureThreshold) - 1
      invariant var s := After(cfg, FRESH, Calls(n, t, Failure)); s.phase == Closed && s.failures == n
    {
      AfterCalls(cfg, FRESH, n, t, Failure);
      n := n + 1;
    }
    AfterCalls(cfg, FRESH, n, t, Failure);
    h := Calls(n + 1, t, Failure);
  }

  /** Successful calls only, the first of them after the recovery timeout of `s`. */
  predicate SuccessesAfterRecovery(cfg: Config, s: State, h: seq<Event>) {
    && (forall i :: 0 <= i < |h| ==> h[i].Call? && h[i].outcome == Success)
    && (h != [] ==> Recovered(cfg, s, h[0].start))
  }

  /** `k` successes in a row have been counted since `s` was open. */
  predicate Counted(cfg: Config, s: State, k: nat, s': State) {
    if k == 0 then s' == s
    else if k < Max(1, cfg.successThreshold) then s'.phase == HalfOpen && s'.successes == s'.halfOpenCalls == k
    else s'.phase == Closed && s'.failures == 0
  }

  lemma CountedStep(cfg: Config, s: State, k: nat, s': State, start: int, finish: int)
    requires s.phase == Open && (k == 0 ==> Recovered(cfg, s, start))
    requires Counted(cfg, s, k, s') && k < cfg.halfOpenMaxCalls && k < Max(1, cfg.successThreshold)
    ensures Counted(cfg, s, k + 1, CallStep(cfg, s', start, Success, finish).0)
  {
  }

  /** From an open breaker, successes after recovery leave it half-open with each of them counted,
      until the success threshold closes it. */
  lemma {:induction false} RecoveryCounts(cfg: Config, s: State, h: seq<Event>)
    requires s.phase == Open && SuccessesAfterRecovery(cfg, s, h)
    requires |h| <= cfg.halfOpenMaxCalls && |h| <= Max(1, cfg.successThreshold)
    ensures Counted(cfg, s, |h|, After(cfg, s, h))
  {
    if h != [] {
      var init, last := h[..|h| - 1], h[|h| - 1];
      RecoveryCounts(cfg, s, init);
      assert last.Call? && last.outcome == Success;
      CountedStep(cfg, s, |init|, After(cfg, s, init), last.start, last.finish);
    }
  }

  /** A half-open breaker that has used up its calls. */
  predicate Stuck(cfg: Config, s: State) {
    s.phase == HalfOpen && s.halfOpenCalls >= cfg.halfOpenMaxCalls
  }

  predicate GetsStuck(cfg: Config, h: seq<Event>) {
    Stuck(cfg, After(cfg, FRESH, h))
  }

  /** Until a reset, a stuck breaker rejects every call at every instant and does not move. */
  lemma {:induction false} StuckForever(cfg: Config, s: State, h: seq<Event>)
    requires Stuck(cfg, s)
    requires forall i :: 0 <= i < |h| ==> h[i].Call?
    ensures After(cfg, s, h) == s
    ensures forall i :: 0 <= i < |h| ==> Log(cfg, s, h)[i].TurnedAwayHalfOpen?
    ensures forall t :: !MayExecute(cfg, After(cfg, s, h), t)
  {
    if h != [] {
      StuckForever(cfg, s, h[..|h| - 1]);
      assert h[|h| - 1].Call?;
    }
  }

  /** The half-open rejection can happen exactly when fewer half-open calls are allowed than successes
      are needed; when it can, some history leaves the breaker stuck for good. */
  lemma {:induction false} HalfOpenRejectionExactly(cfg: Config)
    ensures cfg.halfOpenMaxCalls >= Max(1, cfg.successThreshold) <==>
            forall h: seq<Event>, i :: 0 <= i < |h| ==> !Log(cfg, FRESH, h)[i].TurnedAwayHalfOpen?
    ensures cfg.halfOpenMaxCalls < Max(1, cfg.successThreshold) <==>
            exists h: seq<Event> :: GetsStuck(cfg, h)
  {
    if cfg.halfOpenMaxCalls >= Max(1, cfg.successThreshold) {
      forall h: seq<Event>, i | 0 <= i < |h| ensures !Log(cfg, FRESH, h)[i].TurnedAwayHalfOpen? {
        LogPrefix(cfg, FRESH, h, i);
        InvariantAlways(cfg, FRESH, h[..i]);
      }
      forall h: seq<Event> ensures !GetsStuck(cfg, h) {
        InvariantAlways(cfg, FRESH, h);
      }
    } else {
      var h := RunIntoTheTrap(cfg);
      assert Log(cfg, FRESH, h)[|h| - 1].TurnedAwayHalfOpen?;
      assert GetsStuck(cfg, h);
    }
  }

  lemma AfterConcat(cfg: Config, s: State, h: seq<Event>, h': seq<Event>)
    ensures After(cfg, s, h + h') == After(cfg, After(cfg, s, h), h')
  {
    if h' == [] {
      assert h + h' == h;
    } else {
      assert (h + h')[..|h + h'| - 1] == h + h'[..|h'| - 1];
    }
  }

  lemma RunIntoTheTrap(cfg: Config) returns (h: seq<Event>)
    requires cfg.halfOpenMaxCalls < Max(1, cfg.successThreshold)
    ensures h != [] && Log(cfg, FRESH, h)[|h| - 1].TurnedAwayHalfOpen?
    ensures Stuck(cfg, After(cfg, FRESH, h))
  {
    var opening := FailuresUntilOpen(cfg, 0);
    var s := After(cfg, FRESH, opening);
    InvariantAlways(cfg, FRESH, opening);
    var t := RecoveryInstant(cfg, s);
    var k := Max(0, cfg.halfOpenMaxCalls);
    if k > 0 {
      RecoveryCounts(cfg, s, Calls(k, t, Success));
    }
    h := opening + Calls(k, t, Success);
    AfterConcat(cfg, FRESH, opening, Calls(k, t, Success));
    var h' := h + [Call(t, Success, t)];
    assert h'[..|h'| - 1] == h;
    h := h';
  }

  /** Recovery takes exactly the success threshold: with enough half-open calls allowed, that many
      successes in a row close an open breaker and any smaller number does not. */
  lemma RecoveryTakesExactlyTheThreshold(cfg: Config, h: seq<Event>, calls: seq<Event>)
    requires cfg.halfOpenMaxCalls >= Max(1, cfg.successThreshold)
    requires After(cfg, FRESH, h).phase == Open && SuccessesAfterRecovery(cfg, After(cfg, FRESH, h), calls)
    requires |calls| <= Max(1, cfg.successThreshold)
    ensures After(cfg, FRESH, h + calls).phase == Closed <==> |calls| == Max(1, cfg.successThreshold)
  {
    RecoveryCounts(cfg, After(cfg, FRESH, h), calls);
    AfterConcat(cfg, FRESH, h, calls);
  }
}
