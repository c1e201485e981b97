/** The circuit breaker of chapter 10 with any number of requests under way at once. */
module CircuitBreaker {
  import opened Options

  /** The settings; times in seconds. */
  datatype Config = Config(window: real, maxFailures: nat, resetInterval: real)

  datatype State = State(failures: nat, lastFailure: Option<real>, lastRequest: Option<real>)

  datatype Decision = Started | FailedFast

  predicate Open(c: Config, s: State) {
    c.maxFailures <= s.failures
  }

  function Reset(s: State): State {
    s.(lastFailure := None, failures := 0)
  }

  /** `request` up to where it calls back or raises: `now` is the clock reading of its check,
      `at` the one recorded when the callback starts. */
  function Request(c: Config, s: State, now: real, at: real): (Decision, State)
    requires Open(c, s) ==> s.lastRequest.Some?
  {
    if Open(c, s) then
      if s.lastRequest.value + c.resetInterval < now then (Started, Reset(s).(lastRequest := Some(at)))
      else (FailedFast, s)
    else if s.lastFailure.Some? && s.lastFailure.value + c.window < now then
      (Started, Reset(s).(lastRequest := Some(at)))
    else
      (Started, s.(lastRequest := Some(at)))
  }

  /** The exception handler of `_do_request`. */
  function Failed(s: State, at: real): State {
    s.(failures := s.failures + 1, lastFailure := if s.lastFailure.None? then Some(at) else s.lastFailure)
  }

  class Breaker {
    const config: Config
    var currentFailures: nat
    var lastFailureTime: Option<real>
    var lastRequestTime: Option<real>

    function Now(): State
      reads this
    {
      State(currentFailures, lastFailureTime, lastRequestTime)
    }

    constructor (config: Config)
      ensures this.config == config && Now() == State(0, None, None)
    {
      this.config := config;
      currentFailures, lastFailureTime, lastRequestTime := 0, None, None;
    }

    method ResetBreaker()
      modifies this`lastFailureTime, this`currentFailures
      ensures Now() == Reset(old(Now()))
    {
      lastFailureTime := None;
      currentFailures := 0;
    }

    method TryRequest(now: real, at: real) returns (d: Decision)
      requires Open(config, Now()) ==> lastRequestTime.Some?
      modifies this
      ensures (d, Now()) == Request(config, old(Now()), now, at)
    {
      if config.maxFailures <= currentFailures {
        if lastRequestTime.value + config.resetInterval < now {
          ResetBreaker();
        } else {
          return FailedFast;
        }
      } else if lastFailureTime.Some? && lastFailureTime.value + config.window < now {
        ResetBreaker();
      }
      lastRequestTime := Some(at);
      d := Started;
    }

    method RequestFailed(at: real)
      modifies this
      ensures Now() == Failed(old(Now()), at)
    {
      currentFailures := currentFailures + 1;
      if lastFailureTime.None? {
        lastFailureTime := Some(at);
      }
    }
  }

  // ---- every interleaving of requests ----

  /** A started callback: when its check was made, when it began, and whether the circuit was
      open then. */
  datatype Start = Start(checked: real, at: real, wasOpen: bool)

  /** A callback that failed, and when. */
  datatype Failure = Failure(start: Start, at: real)

  /** The breaker, the clock, the requests under way, the failures that count now, and every
      callback ever started. */
  datatype World = World(s: State, clock: real, underway: map<nat, Start>, counted: seq<Failure>, starts: seq<Start>)

  datatype Step = Ask(now: real, at: real) | Fails(id: nat, at: real) | Succeeds(id: nat)

  predicate Enabled(c: Config, w: World, step: Step) {
    match step
    case Ask(now, at) => w.clock <= now <= at && (Open(c, w.s) ==> w.s.lastRequest.Some?)
    case Fails(id, at) => id in w.underway && w.clock <= at
    case Succeeds(id) => id in w.underway
  }

  function Next(c: Config, w: World, step: Step): World
    requires Enabled(c, w, step)
  {
    match step
    case Ask(now, at) =>
      (match Request(c, w.s, now, at)
       case (FailedFast, s) => w.(clock := now)
       case (Started, s) =>
         var start := Start(now, at, Open(c, w.s));
         World(s, at, w.underway[|w.starts| := start], if s.failures == 0 then [] else w.counted, w.starts + [start]))
    case Fails(id, at) =>
      World(Failed(w.s, at), at, w.underway - {id}, w.counted + [Failure(w.underway[id], at)], w.starts)
    case Succeeds(id) => w.(underway := w.underway - {id})
  }

  ghost predicate WithinWindow(c: Config, s: State, start: Start) {
    s.lastFailure.Some? ==> start.checked <= s.lastFailure.value + c.window
  }

  /** Before an attempt made while open lies the reset interval. */
  ghost predicate Spaced(c: Config, starts: seq<Start>) {
    forall k :: 0 <= k < |starts| && starts[k].wasOpen ==>
      0 < k && starts[k - 1].at + c.resetInterval < starts[k].checked
  }

  ghost predicate Inv(c: Config, w: World) {
    (0 < w.s.failures <==> w.s.lastFailure.Some?) && |w.counted| == w.s.failures &&
    (w.s.lastFailure.Some? ==> w.s.lastFailure.value <= w.clock) &&
    (w.counted != [] ==> w.s.lastFailure == Some(w.counted[0].at)) &&
    (forall k :: 0 <= k < |w.counted| ==> WithinWindow(c, w.s, w.counted[k].start)) &&
    (forall id :: id in w.underway ==>
       id < |w.starts| && w.underway[id] == w.starts[id] && WithinWindow(c, w.s, w.underway[id]) &&
       w.underway[id].checked <= w.clock) &&
    (w.s.failures != 0 ==> w.starts != []) &&
    w.s.lastRequest == (if w.starts == [] then None else Some(w.starts[|w.starts| - 1].at)) &&
    Spaced(c, w.starts)
  }

  ghost predicate Run(c: Config, states: seq<World>, steps: seq<Step>) {
    |states| == |steps| + 1 && states[0] == World(State(0, None, None), states[0].clock, map[], [], []) &&
    forall i :: 0 <= i < |steps| ==> Enabled(c, states[i], steps[i]) && states[i + 1] == Next(c, states[i], steps[i])
  }

  lemma AskKeeps(c: Config, w: World, now: real, at: real)
    requires 1 <= c.maxFailures && 0.0 <= c.window && Inv(c, w) && Enabled(c, w, Ask(now, at))
    ensures Inv(c, Next(c, w, Ask(now, at)))
  {
  }

  lemma FailsKeeps(c: Config, w: World, id: nat, at: real)
    requires 1 <= c.maxFailures && 0.0 <= c.window && Inv(c, w) && Enabled(c, w, Fails(id, at))
    ensures Inv(c, Next(c, w, Fails(id, at)))
  {
  }

  lemma StepKeeps(c: Config, w: World, step: Step)
    requires 1 <= c.maxFailures && 0.0 <= c.window && Inv(c, w) && Enabled(c, w, step)
    ensures Inv(c, Next(c, w, step))
  {
    match step
    case Ask(now, at) => AskKeeps(c, w, now, at);
    case Fails(id, at) => FailsKeeps(c, w, id, at);
    case Succeeds(id) =>
  }

  lemma {:induction false} RunInv(c: Config, states: seq<World>, steps: seq<Step>, i: nat)
    requires 1 <= c.maxFailures && 0.0 <= c.window && Run(c, states, steps) && i < |states|
    ensures Inv(c, states[i])
  {
    if 0 < i {
      RunInv(c, states, steps, i - 1);
      StepKeeps(c, states[i - 1], steps[i - 1]);
    }
  }

  /** In every state of every run: a failure time is recorded exactly while failures count;
      every failure counted is of a request checked no later than the first counted failure
      plus the window; an open breaker always knows its last attempt; and an attempt made
      while open comes more than the reset interval after the attempt before it. */
  lemma BreakerIsSound(c: Config, states: seq<World>, steps: seq<Step>, i: nat)
    requires 1 <= c.maxFailures && 0.0 <= c.window && Run(c, states, steps) && i < |states|
    ensures var w := states[i];
            (0 < w.s.failures <==> w.s.lastFailure.Some?) && |w.counted| == w.s.failures &&
            (Open(c, w.s) ==> w.s.lastRequest.Some?) &&
            (w.counted != [] ==> w.s.lastFailure == Some(w.counted[0].at)) &&
            (forall k :: 0 <= k < |w.counted| ==> w.counted[k].start.checked <= w.counted[0].at + c.window) &&
            forall k :: 0 <= k < |w.starts| && w.starts[k].wasOpen ==>
              0 < k && w.starts[k - 1].at + c.resetInterval < w.starts[k].checked
  {
    RunInv(c, states, steps, i);
    assert forall k :: 0 <= k < |states[i].counted| ==> WithinWindow(c, states[i].s, states[i].counted[k].start);
  }

  /** What a request asked for at `now` comes to, over every run, from the history alone. It
      is refused exactly if as many failures count as make the circuit open and the reset
      interval since the last attempt is not over. Otherwise it starts, and the failures are
      forgotten exactly if the circuit was open or the window after the first one is over. */
  lemma AskedIsDecided(c: Config, states: seq<World>, steps: seq<Step>, i: nat)
    requires 1 <= c.maxFailures && 0.0 <= c.window && Run(c, states, steps) && i < |steps| && steps[i].Ask?
    ensures var w, v, now := states[i], states[i + 1], steps[i].now;
            var open := c.maxFailures <= |w.counted|;
            (open ==> w.starts != []) &&
            var refused := open && now <= w.starts[|w.starts| - 1].at + c.resetInterval;
            var over := w.counted != [] && w.counted[0].at + c.window < now;
            v.starts == (if refused then w.starts else w.starts + [Start(now, steps[i].at, open)]) &&
            v.counted == (if !refused && (open || over) then [] else w.counted)
  {
    RunInv(c, states, steps, i);
    assert Enabled(c, states[i], steps[i]) && states[i + 1] == Next(c, states[i], steps[i]);
  }

  /** With `maxFailures` 0 the breaker is open before anything was attempted, and the very
      first request has no last attempt to look at. */
  lemma ZeroFailuresIsUnusable(c: Config, w: World)
    requires w == World(State(0, None, None), w.clock, map[], [], [])
    ensures c.maxFailures == 0 <==> !Enabled(c, w, Ask(w.clock, w.clock))
  {
  }
}
