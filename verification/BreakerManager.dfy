/**
 The manager of the per-observer breakers (common/circuitbreaker_manager.go): breakers are created on
 first use and forgotten again by a periodic cleanup. The main result is that the cleanup cannot be
 observed through any later answer of the manager.
 */
module BreakerManagers {
  import opened Breakers
  import opened BreakerHistories

  /** The manager as a value: its switch and the state of every breaker it holds. */
  datatype Manager = Manager(enabled: bool, breakers: map<string, State>)

  datatype Request =
    | Execute(observer: string, start: int, outcome: Outcome, finish: int)
    | CanExecute(observer: string, now: int)
    | ResetBreaker(observer: string)
    | ResetAll
    | SetEnabled(on: bool)
    | Cleanup(now: int)

  datatype Answer = Executed(result: Result) | Allowed(ok: bool) | Done

  const EMPTY := Manager(true, map[])

  /** The breaker an observer has, or would be given on its next request. */
  function BreakerOf(m: map<string, State>, observer: string): State {
    if observer in m then m[observer] else FRESH
  }

  predicate Stale(cfg: Config, s: State, now: int) {
    s.phase == Closed && s.failures == 0 && Since(now, s.lastFailure) > Duration(cfg.recoveryTimeoutSec * 10)
  }

  function ExecuteStep(cfg: Config, m: Manager, a: string, start: int, outcome: Outcome, finish: int)
    : (Manager, Result)
  {
    if !m.enabled then (m, Ran(outcome))
    else
      var (s, result) := CallStep(cfg, BreakerOf(m.breakers, a), start, outcome, finish);
      (m.(breakers := m.breakers[a := s]), result)
  }

  /** Asking creates the breaker when it is missing. */
  function CanExecuteStep(cfg: Config, m: Manager, a: string, now: int): (Manager, bool) {
    if !m.enabled then (m, true)
    else
      (m.(breakers := m.breakers[a := BreakerOf(m.breakers, a)]), MayExecute(cfg, BreakerOf(m.breakers, a), now))
  }

  function ResetBreakerStep(m: Manager, a: string): Manager {
    if m.enabled && a in m.breakers then m.(breakers := m.breakers[a := ResetStep(m.breakers[a])]) else m
  }

  function ResetAllStep(m: Manager): Manager {
    if m.enabled then m.(breakers := map a | a in m.breakers :: ResetStep(m.breakers[a])) else m
  }

  function CleanupStep(cfg: Config, m: Manager, now: int): Manager {
    if m.enabled
    then m.(breakers := map a | a in m.breakers && !Stale(cfg, m.breakers[a], now) :: m.breakers[a])
    else m
  }

  function Step(cfg: Config, m: Manager, r: Request): (Manager, Answer) {
    match r
    case SetEnabled(on) => (m.(enabled := on), Done)
    case Execute(a, start, outcome, finish) =>
      var (m', result) := ExecuteStep(cfg, m, a, start, outcome, finish);
      (m', Executed(result))
    case CanExecute(a, now) =>
      var (m', ok) := CanExecuteStep(cfg, m, a, now);
      (m', Allowed(ok))
    case ResetBreaker(a) => (ResetBreakerStep(m, a), Done)
    case ResetAll => (ResetAllStep(m), Done)
    case Cleanup(now) => (CleanupStep(cfg, m, now), Done)
  }

  /** The answers given over a run, those of cleanups left out. */
  function Answers(cfg: Config, m: Manager, requests: seq<Request>): seq<Answer>
    decreases |requests|
  {
    if requests == [] then []
    else
      var (m', answer) := Step(cfg, m, requests[0]);
      (if requests[0].Cleanup? then [] else [answer]) + Answers(cfg, m', requests[1..])
  }

  function WithoutCleanups(requests: seq<Request>): seq<Request> {
    if requests == [] then []
    else (if requests[0].Cleanup? then [] else [requests[0]]) + WithoutCleanups(requests[1..])
  }

  // ----- Single steps in full -----

  /** While disabled, the manager runs and allows everything and changes nothing. */
  lemma DisabledInFull(cfg: Config, m: Manager, r: Request)
    requires !m.enabled && !r.SetEnabled?
    ensures Step(cfg, m, r).0 == m
    ensures Step(cfg, m, r).1 == match r
                                 case Execute(a, start, outcome, finish) => Executed(Ran(outcome))
                                 case CanExecute(a, now) => Allowed(true)
                                 case _ => Done
  {
  }

  /** A cleanup drops exactly the breakers that are closed, count no failure, and saw their last failure longer ago
      than ten times the recovery timeout. */
  lemma CleanupInFull(cfg: Config, m: Manager, now: int, a: string)
    requires m.enabled && 0 <= cfg.recoveryTimeoutSec <= 922_337_203
    ensures var kept := Step(cfg, m, Cleanup(now)).0.breakers;
            && (a in kept <==>
                  a in m.breakers && !(&& m.breakers[a].phase == Closed && m.breakers[a].failures == 0
                                       && now - m.breakers[a].lastFailure > cfg.recoveryTimeoutSec * 10_000_000_000))
            && (a in kept ==> kept[a] == m.breakers[a])
  {
    var wraps := DurationInFull(cfg.recoveryTimeoutSec * 10);
  }

  // ----- Cleanup is invisible -----

  /** Equal but for the time of a failure that no longer matters. */
  predicate SameBreaker(s: State, s': State) {
    s == s' || (s.phase == s'.phase == Closed && s == s'.(lastFailure := s.lastFailure))
  }

  /** Every breaker held satisfies the breaker invariant. */
  ghost predicate Sound(cfg: Config, m: Manager) {
    forall a :: a in m.breakers ==> Invariant(cfg, m.breakers[a])
  }

  /** The managers give every observer the same breaker, be it held or still to be created. */
  ghost predicate Similar(m: Manager, m': Manager) {
    && m.enabled == m'.enabled
    && forall a :: SameBreaker(BreakerOf(m.breakers, a), BreakerOf(m'.breakers, a))
  }

  lemma SoundStep(cfg: Config, m: Manager, r: Request)
    requires Sound(cfg, m)
    ensures Sound(cfg, Step(cfg, m, r).0)
  {
    match r
    case Execute(a, start, outcome, finish) =>
      InvariantStep(cfg, BreakerOf(m.breakers, a), Call(start, outcome, finish));
    case _ =>
  }

  lemma SameBreakerStep(cfg: Config, s: State, s': State, start: int, outcome: Outcome, finish: int)
    requires SameBreaker(s, s')
    ensures CallStep(cfg, s, start, outcome, finish).1 == CallStep(cfg, s', start, outcome, finish).1
    ensures SameBreaker(CallStep(cfg, s, start, outcome, finish).0, CallStep(cfg, s', start, outcome, finish).0)
    ensures MayExecute(cfg, s, start) == MayExecute(cfg, s', start)
    ensures SameBreaker(ResetStep(s), ResetStep(s'))
  {
  }

  /** Similar managers answer alike and stay similar. */
  lemma {:induction false} SimilarStep(cfg: Config, m: Manager, m': Manager, r: Request)
    requires Sound(cfg, m) && Sound(cfg, m') && Similar(m, m')
    ensures Step(cfg, m, r).1 == Step(cfg, m', r).1
    ensures !r.Cleanup? ==> Similar(Step(cfg, m, r).0, Step(cfg, m', r).0)
  {
    var n, n' := Step(cfg, m, r).0, Step(cfg, m', r).0;
    match r
    case Execute(a, start, outcome, finish) =>
      SameBreakerStep(cfg, BreakerOf(m.breakers, a), BreakerOf(m'.breakers, a), start, outcome, finish);
      forall b ensures SameBreaker(BreakerOf(n.breakers, b), BreakerOf(n'.breakers, b)) {
        assert SameBreaker(BreakerOf(m.breakers, b), BreakerOf(m'.breakers, b));
      }
    case CanExecute(a, now) =>
      SameBreakerStep(cfg, BreakerOf(m.breakers, a), BreakerOf(m'.breakers, a), now, Success, now);
      forall b ensures SameBreaker(BreakerOf(n.breakers, b), BreakerOf(n'.breakers, b)) {
        assert SameBreaker(BreakerOf(m.breakers, b), BreakerOf(m'.breakers, b));
      }
    case ResetBreaker(a) =>
      forall b ensures SameBreaker(BreakerOf(n.breakers, b), BreakerOf(n'.breakers, b)) {
        ResetKeepsSimilar(cfg, m, m', b);
      }
    case ResetAll =>
      forall b ensures SameBreaker(BreakerOf(n.breakers, b), BreakerOf(n'.breakers, b)) {
        ResetKeepsSimilar(cfg, m, m', b);
      }
    case _ =>
  }

  /** A reset of a held breaker leads where a breaker still to be created starts. */
  lemma ResetKeepsSimilar(cfg: Config, m: Manager, m': Manager, a: string)
    requires Sound(cfg, m) && Sound(cfg, m') && Similar(m, m')
    ensures var s, s' := BreakerOf(m.breakers, a), BreakerOf(m'.breakers, a);
            && SameBreaker(s, s')
            && SameBreaker(ResetStep(s), ResetStep(s'))
            && (a !in m.breakers ==> SameBreaker(s, ResetStep(s')))
            && (a !in m'.breakers ==> SameBreaker(ResetStep(s), s'))
  {
    SameBreakerStep(cfg, BreakerOf(m.breakers, a), BreakerOf(m'.breakers, a), 0, Success, 0);
  }

  /** A cleanup of either manager alone keeps them similar. */
  lemma CleanupKeepsSimilar(cfg: Config, m: Manager, m': Manager, now: int)
    requires Sound(cfg, m) && Similar(m, m')
    ensures Similar(Step(cfg, m, Cleanup(now)).0, m')
  {
  }

  /** Bisimulation: on every future, a manager that is cleaned up now and then and a similar one that
      never is give the same answers. */
  lemma {:induction false} SimilarRuns(cfg: Config, m: Manager, m': Manager, requests: seq<Request>)
    requires Sound(cfg, m) && Sound(cfg, m') && Similar(m, m')
    ensures Answers(cfg, m, requests) == Answers(cfg, m', WithoutCleanups(requests))
    decreases |requests|
  {
    if requests != [] {
      var r, rest := requests[0], requests[1..];
      var n := Step(cfg, m, r).0;
      SoundStep(cfg, m, r);
      if r.Cleanup? {
        CleanupKeepsSimilar(cfg, m, m', r.now);
        SimilarRuns(cfg, n, m', rest);
        assert WithoutCleanups(requests) == WithoutCleanups(rest);
      } else {
        SimilarStep(cfg, m, m', r);
        SoundStep(cfg, m', r);
        SimilarRuns(cfg, n, Step(cfg, m', r).0, rest);
        assert WithoutCleanups(requests)[1..] == WithoutCleanups(rest);
      }
    }
  }

  /** Dropping every cleanup from any history of a new manager changes none of its answers. */
  lemma CleanupIsInvisible(cfg: Config, requests: seq<Request>)
    ensures Answers(cfg, EMPTY, requests) == Answers(cfg, EMPTY, WithoutCleanups(requests))
  {
    SimilarRuns(cfg, EMPTY, EMPTY, requests);
  }

  // ----- Observers do not disturb one another -----

  /** What a request means for one observer's breaker. */
  function EventsOf(observer: string, r: Request): seq<Event> {
    match r
    case Execute(a, start, outcome, finish) => if a == observer then [Call(start, outcome, finish)] else []
    case ResetBreaker(a) => if a == observer then [Reset] else []
    case ResetAll => [Reset]
    case _ => []
  }

  /** A run of the manager as the history of a single breaker. */
  function EventsFor(observer: string, requests: seq<Request>): seq<Event> {
    if requests == [] then []
    else EventsFor(observer, requests[..|requests| - 1]) + EventsOf(observer, requests[|requests| - 1])
  }

  function RunManager(cfg: Config, m: Manager, requests: seq<Request>): Manager {
    if requests == [] then m
    else Step(cfg, RunManager(cfg, m, requests[..|requests| - 1]), requests[|requests| - 1]).0
  }

  /** One request moves an observer's breaker as the events it means for that observer do. */
  lemma OneObserverStep(cfg: Config, m: Manager, alone: State, observer: string, r: Request)
    requires m.enabled && !r.SetEnabled?
    requires Sound(cfg, m) && SameBreaker(BreakerOf(m.breakers, observer), alone)
    ensures SameBreaker(BreakerOf(Step(cfg, m, r).0.breakers, observer), After(cfg, alone, EventsOf(observer, r)))
  {
    if r.Execute? {
      SameBreakerStep(cfg, BreakerOf(m.breakers, observer), alone, r.start, r.outcome, r.finish);
    } else {
      SameBreakerStep(cfg, BreakerOf(m.breakers, observer), alone, 0, Success, 0);
    }
    var events := EventsOf(observer, r);
    assert events != [] ==> events[..0] == [];
  }

  /** While the manager stays enabled, an observer's breaker is the one its own calls and resets alone
      lead to: other observers' traffic, creation on demand and cleanups leave no trace. */
  lemma {:induction false} ObserversAreIndependent(cfg: Config, requests: seq<Request>, observer: string)
    requires forall i :: 0 <= i < |requests| ==> !requests[i].SetEnabled?
    ensures var m := RunManager(cfg, EMPTY, requests);
            && m.enabled
            && Sound(cfg, m)
            && SameBreaker(BreakerOf(m.breakers, observer), After(cfg, FRESH, EventsFor(observer, requests)))
  {
    if requests != [] {
      var init, r := requests[..|requests| - 1], requests[|requests| - 1];
      ObserversAreIndependent(cfg, init, observer);
      assert !r.SetEnabled?;
      var m := RunManager(cfg, EMPTY, init);
      SoundStep(cfg, m, r);
      OneObserverStep(cfg, m, After(cfg, FRESH, EventsFor(observer, init)), observer, r);
      AfterConcat(cfg, FRESH, EventsFor(observer, init), EventsOf(observer, r));
    }
  }

  // ----- The manager in place -----

  class CircuitBreakerManager {
    const config: Config
    var enabled: bool
    var breakers: map<string, CircuitBreaker>

    /** Distinct observers have distinct breakers, all of the manager's configuration. */
    ghost predicate Valid()
      reads this
    {
      && (forall a :: a in breakers ==> breakers[a].config == config)
      && (forall a, b :: a in breakers && b in breakers && a != b ==> breakers[a] != breakers[b])
    }

    ghost function Held(): set<CircuitBreaker>
      reads this
    {
      set a | a in breakers :: breakers[a]
    }

    ghost function View(): Manager
      reads this, Held()
    {
      Manager(enabled, map a | a in breakers :: breakers[a].View())
    }

    constructor (config: Config, enabled: bool)
      ensures Valid() && this.config == config && View() == Manager(enabled, map[])
    {
      this.config := config;
      this.enabled := enabled;
      breakers := map[];
    }

    /** The breaker of an observer, created when missing; none while the manager is disabled. */
    method GetBreaker(observer: string) returns (breaker: CircuitBreaker?)
      requires Valid()
      modifies this`breakers
      ensures Valid()
      ensures breaker == null <==> !enabled
      ensures !enabled ==> unchanged(this)
      ensures enabled ==>
        && observer in breakers && breakers[observer] == breaker
        && (forall b :: b in Held() && b !in old(Held()) ==> fresh(b))
        && View() == old(View()).(breakers :=
                       old(View()).breakers[observer := BreakerOf(old(View()).breakers, observer)])
    {
      if !enabled {
        return null;
      }
      if observer in breakers {
        breaker := breakers[observer];
      } else {
        breaker := new CircuitBreaker(config);
        breakers := breakers[observer := breaker];
      }
    }

    method AskCanExecute(observer: string, now: int) returns (ok: bool)
      requires Valid()
      modifies this`breakers
      ensures Valid()
      ensures View() == CanExecuteStep(config, old(View()), observer, now).0
      ensures ok == CanExecuteStep(config, old(View()), observer, now).1
    {
      if !enabled {
        return true;
      }
      var breaker := GetBreaker(observer);
      assert breaker.View() == View().breakers[observer] == BreakerOf(old(View()).breakers, observer);
      assert breaker.config == config;
      ok := breaker.CanExecute(now);
    }

    /** A call on a breaker already held changes that breaker only. */
    method CallHeld(observer: string, start: int, outcome: Outcome, finish: int) returns (result: Result)
      requires Valid() && observer in breakers
      modifies breakers[observer]
      ensures Valid()
      ensures var (s, r) := CallStep(config, old(View()).breakers[observer], start, outcome, finish);
              View() == old(View()).(breakers := old(View()).breakers[observer := s]) && result == r
    {
      ghost var before := View();
      result := breakers[observer].Call(start, outcome, finish);
      assert forall a :: a in breakers && a != observer ==> breakers[a].View() == before.breakers[a];
    }

    method RunGuarded(observer: string, start: int, outcome: Outcome, finish: int) returns (result: Result)
      requires Valid()
      modifies this`breakers, Held()
      ensures Valid()
      ensures View() == ExecuteStep(config, old(View()), observer, start, outcome, finish).0
      ensures result == ExecuteStep(config, old(View()), observer, start, outcome, finish).1
    {
      if !enabled {
        return Ran(outcome);
      }
      ghost var before := View();
      var breaker := GetBreaker(observer);
      assert View().breakers[observer] == BreakerOf(before.breakers, observer);
      assert breaker in old(Held()) || fresh(breaker);
      result := CallHeld(observer, start, outcome, finish);
      UpdateTwice(before.breakers, observer, BreakerOf(before.breakers, observer), View().breakers[observer]);
    }

    static lemma UpdateTwice(m: map<string, State>, a: string, s: State, s': State)
      ensures m[a := s][a := s'] == m[a := s']
    {
    }

    method ResetOne(observer: string)
      requires Valid()
      modifies Held()
      ensures Valid()
      ensures View() == ResetBreakerStep(old(View()), observer)
    {
      if enabled && observer in breakers {
        breakers[observer].Reset();
      }
    }

    /** Resets the breakers one after the other, in whatever order the map is walked. */
    method ResetAllBreakers()
      requires Valid()
      modifies Held()
      ensures Valid()
      ensures View() == ResetAllStep(old(View()))
    {
      if !enabled {
        return;
      }
      var pending := breakers.Keys;
      while pending != {}
        invariant pending <= breakers.Keys
        invariant forall a :: a in breakers ==>
          breakers[a].View() == if a in pending then old(breakers[a].View()) else ResetStep(old(breakers[a].View()))
      {
        var a :| a in pending;
        breakers[a].Reset();
        pending := pending - {a};
      }
    }

    /** Deletes stale breakers while walking the map. */
    method CleanupStaleBreakers(now: int)
      requires Valid()
      modifies this`breakers
      ensures Valid()
      ensures View() == CleanupStep(config, old(View()), now)
    {
      if !enabled {
        return;
      }
      ghost var before, stale := breakers, set a | a in breakers && IsStale(breakers[a], now);
      var pending := breakers.Keys;
      while pending != {}
        invariant pending <= breakers.Keys
        invariant breakers == before - (stale - pending)
      {
        var a :| a in pending;
        RemoveNext(before, stale, pending, a);
        if IsStale(breakers[a], now) {
          breakers := breakers - {a};
        }
        pending := pending - {a};
      }
      assert stale - pending == stale;
      KeptBreakers(before, stale, now);
    }

    /** Dropping one more key, or not, when it leaves the keys still to be looked at. */
    static lemma RemoveNext(before: map<string, CircuitBreaker>, stale: set<string>, pending: set<string>, a: string)
      requires a in pending
      ensures before - (stale - (pending - {a})) ==
              if a in stale then before - (stale - pending) - {a} else before - (stale - pending)
    {
    }

    /** What the cleanup keeps, seen as values. */
    lemma KeptBreakers(before: map<string, CircuitBreaker>, stale: set<string>, now: int)
      requires enabled && breakers == before - stale
      requires forall a :: a in before ==> (a in stale <==> IsStale(before[a], now))
      ensures View() == CleanupStep(config, Manager(true, map a | a in before :: before[a].View()), now)
    {
    }

    predicate IsStale(breaker: CircuitBreaker, now: int)
      reads breaker
      ensures IsStale(breaker, now) <==> Stale(config, breaker.View(), now)
    {
      && breaker.phase == Closed
      && breaker.failureCount == 0
      && Since(now, breaker.lastFailureTime) > Duration(config.recoveryTimeoutSec * 10)
    }
  }
}
