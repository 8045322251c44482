/** The circuit breaker, one whole call at a time.

    `Effect` gives the new cells and the answer of one call. `CircuitBreaker` is
    the object with its four cells, whose methods are proved against `Effect`.
    The lemmas then say what a breaker does over a whole sequence of calls. */
module Breaker {

  datatype State = Closed | HalfOpen | Open

  datatype Config = Config(threshold: int, resetTimeout: int, halfOpenMax: int) {
    /** Every counter is compared after it was incremented, so a limit below one acts like one. */
    function TripCount(): (n: int)
      ensures n >= 1 && (threshold >= 1 ==> n == threshold)
    {
      if threshold < 1 then 1 else threshold
    }

    function CloseCount(): (n: int)
      ensures n >= 1 && (halfOpenMax >= 1 ==> n == halfOpenMax)
    {
      if halfOpenMax < 1 then 1 else halfOpenMax
    }
  }

  /** The four atomic cells of a breaker. Times are in nanoseconds. */
  datatype Cells = Cells(state: State, failures: int, successes: int, lastFailure: int)

  const FRESH := Cells(Closed, 0, 0, 0)

  datatype Call = Poll(now: int) | Failure(now: int) | Success

  datatype Reply = Reply(cells: Cells, rejected: bool)

  predicate Elapsed(cfg: Config, lastFailure: int, now: int) {
    now - lastFailure > cfg.resetTimeout
  }

  /** One whole call, not overlapped by any other. */
  function Effect(cfg: Config, s: Cells, call: Call): Reply {
    match call
    case Poll(now) =>
      if s.state != Open then Reply(s, false)
      else if Elapsed(cfg, s.lastFailure, now) then Reply(s.(state := HalfOpen, successes := 0), false)
      else Reply(s, true)
    case Failure(now) =>
      var n := s.failures + 1;
      Reply(Cells(if n >= cfg.threshold then Open else s.state, n, s.successes, now), false)
    case Success =>
      match s.state
      case Open => Reply(s, false)
      case Closed => Reply(s.(failures := 0), false)
      case HalfOpen =>
        var n := s.successes + 1;
        if n >= cfg.halfOpenMax then Reply(s.(state := Closed, failures := 0, successes := 0), false)
        else Reply(s.(successes := n), false)
  }

  /** The cells after a sequence of calls. */
  function After(cfg: Config, s: Cells, calls: seq<Call>): Cells
    decreases |calls|
  {
    if calls == [] then s
    else Effect(cfg, After(cfg, s, calls[..|calls| - 1]), calls[|calls| - 1]).cells
  }

  /** The answer given to call number `i` of the sequence. */
  function Answer(cfg: Config, s: Cells, calls: seq<Call>, i: nat): bool
    requires i < |calls|
  {
    Effect(cfg, After(cfg, s, calls[..i]), calls[i]).rejected
  }

  // ------------------------------------------------------------------
  // The object
  // ------------------------------------------------------------------

  class CircuitBreaker {
    var failures: int
    var successes: int
    var lastFailure: int
    var state: State
    const threshold: int
    const resetTimeout: int
    const halfOpenMax: int

    function Settings(): Config {
      Config(threshold, resetTimeout, halfOpenMax)
    }

    function Snapshot(): Cells
      reads this
    {
      Cells(state, failures, successes, lastFailure)
    }

    constructor (threshold: int, resetTimeout: int)
      ensures Settings() == Config(threshold, resetTimeout, 2)
      ensures Snapshot() == FRESH
    {
      this.threshold := threshold;
      this.resetTimeout := resetTimeout;
      halfOpenMax := 2;
      failures, successes, lastFailure := 0, 0, 0;
      state := Closed;
    }

    method CompareAndSwap(from: State, to: State) returns (swapped: bool)
      modifies this`state
      ensures swapped == (old(state) == from)
      ensures state == if swapped then to else old(state)
    {
      swapped := state == from;
      if swapped {
        state := to;
      }
    }

    method TryTransitionFromOpenToHalfOpen()
      modifies this`state, this`successes
      ensures old(state) == Open ==> state == HalfOpen && successes == 0
      ensures old(state) != Open ==> state == old(state) && successes == old(successes)
    {
      var swapped := CompareAndSwap(Open, HalfOpen);
      if swapped {
        successes := 0;
      }
    }

    method IsOpen(now: int) returns (open: bool)
      modifies this
      ensures Reply(Snapshot(), open) == Effect(Settings(), old(Snapshot()), Poll(now))
    {
      var currentState := state;
      if currentState == Open {
        if now - lastFailure > resetTimeout {
          TryTransitionFromOpenToHalfOpen();
          return false;
        }
        return true;
      }
      return false;
    }

    method CheckThresholdAndTransition(count: int)
      modifies this`state
      ensures state == if count >= threshold then Open else old(state)
    {
      if count >= threshold {
        var currentState := state;
        if currentState != Open {
          var _ := CompareAndSwap(currentState, Open);
        }
      }
    }

    method RecordFailure(now: int)
      modifies this
      ensures Snapshot() == Effect(Settings(), old(Snapshot()), Failure(now)).cells
    {
      failures := failures + 1;
      var count := failures;
      lastFailure := now;
      CheckThresholdAndTransition(count);
    }

    method HandleHalfOpenSuccess()
      requires state == HalfOpen
      modifies this
      ensures Snapshot() == Effect(Settings(), old(Snapshot()), Success).cells
    {
      successes := successes + 1;
      var newSuccesses := successes;
      if newSuccesses >= halfOpenMax {
        var swapped := CompareAndSwap(HalfOpen, Closed);
        if swapped {
          failures := 0;
          successes := 0;
        }
      }
    }

    method RecordSuccess()
      modifies this
      ensures Snapshot() == Effect(Settings(), old(Snapshot()), Success).cells
    {
      match state
      case HalfOpen => HandleHalfOpenSuccess();
      case Closed => failures := 0;
      case Open =>
    }
  }

  // ------------------------------------------------------------------
  // Reference automaton
  // ------------------------------------------------------------------

  /** What a breaker is meant to be: counting a run of failures, tripped since some
      moment, or probing with some successes so far. */
  datatype Phase = Counting(run: nat) | Tripped(since: int) | Probing(oks: nat)

  function Advance(cfg: Config, p: Phase, call: Call): Phase {
    match (p, call)
    case (Counting(run), Failure(now)) => if run + 1 >= cfg.TripCount() then Tripped(now) else Counting(run + 1)
    case (Counting(_), Success) => Counting(0)
    case (Counting(_), Poll(_)) => p
    case (Tripped(_), Failure(now)) => Tripped(now)
    case (Tripped(_), Success) => p
    case (Tripped(since), Poll(now)) => if now > since + cfg.resetTimeout then Probing(0) else p
    case (Probing(_), Failure(now)) => Tripped(now)
    case (Probing(oks), Success) => if oks + 1 >= cfg.CloseCount() then Counting(0) else Probing(oks + 1)
    case (Probing(_), Poll(_)) => p
  }

  predicate Rejects(cfg: Config, p: Phase, call: Call) {
    p.Tripped? && call.Poll? && call.now <= p.since + cfg.resetTimeout
  }

  function PhaseAfter(cfg: Config, p: Phase, calls: seq<Call>): Phase
    decreases |calls|
  {
    if calls == [] then p
    else Advance(cfg, PhaseAfter(cfg, p, calls[..|calls| - 1]), calls[|calls| - 1])
  }

  /** The cells of a breaker in a given phase. */
  ghost predicate Represents(cfg: Config, s: Cells, p: Phase) {
    match p
    case Counting(run) => s.state == Closed && s.failures == run < cfg.TripCount() && s.successes == 0
    case Tripped(since) => s.state == Open && s.failures >= cfg.TripCount() && s.lastFailure == since
    case Probing(oks) => s.state == HalfOpen && s.failures >= cfg.TripCount() && s.successes == oks < cfg.CloseCount()
  }

  lemma CallFollowsAutomaton(cfg: Config, s: Cells, p: Phase, call: Call)
    requires Represents(cfg, s, p)
    ensures Represents(cfg, Effect(cfg, s, call).cells, Advance(cfg, p, call))
    ensures Effect(cfg, s, call).rejected <==> Rejects(cfg, p, call)
  {
  }

  /** After any sequence of non-overlapping calls the breaker is in the phase the
      automaton reaches, and every call got the automaton's answer. */
  lemma {:induction false} FollowsAutomaton(cfg: Config, calls: seq<Call>)
    ensures Represents(cfg, After(cfg, FRESH, calls), PhaseAfter(cfg, Counting(0), calls))
    ensures forall i | 0 <= i < |calls| ::
              Answer(cfg, FRESH, calls, i) <==> Rejects(cfg, PhaseAfter(cfg, Counting(0), calls[..i]), calls[i])
    decreases |calls|
  {
    if calls == [] {
    } else {
      var n := |calls| - 1;
      FollowsAutomaton(cfg, calls[..n]);
      CallFollowsAutomaton(cfg, After(cfg, FRESH, calls[..n]), PhaseAfter(cfg, Counting(0), calls[..n]), calls[n]);
    }
    forall i | 0 <= i < |calls|
      ensures Answer(cfg, FRESH, calls, i) <==> Rejects(cfg, PhaseAfter(cfg, Counting(0), calls[..i]), calls[i])
    {
      FollowsAutomaton(cfg, calls[..i]);
      CallFollowsAutomaton(cfg, After(cfg, FRESH, calls[..i]), PhaseAfter(cfg, Counting(0), calls[..i]), calls[i]);
    }
  }

  // ------------------------------------------------------------------
  // What the counters mean, in terms of the calls made so far
  // ------------------------------------------------------------------

  /** The failures reported after the last success. */
  function TrailingFailures(calls: seq<Call>): nat
    decreases |calls|
  {
    if calls == [] then 0
    else
      var rest := TrailingFailures(calls[..|calls| - 1]);
      match calls[|calls| - 1]
      case Success => 0
      case Failure(_) => rest + 1
      case Poll(_) => rest
  }

  /** When the last failure was reported; the epoch if there was none. */
  function LastFailureTime(calls: seq<Call>): int
    decreases |calls|
  {
    if calls == [] then 0
    else if calls[|calls| - 1].Failure? then calls[|calls| - 1].now
    else LastFailureTime(calls[..|calls| - 1])
  }

  /** The counters can be read off the calls alone. */
  lemma {:induction false} CountersRecordHistory(cfg: Config, calls: seq<Call>)
    ensures var s := After(cfg, FRESH, calls);
            && s.lastFailure == LastFailureTime(calls)
            && (s.state == Closed ==> s.failures == TrailingFailures(calls) < cfg.TripCount())
    decreases |calls|
  {
    if calls == [] {
    } else {
      var init := calls[..|calls| - 1];
      CountersRecordHistory(cfg, init);
      FollowsAutomaton(cfg, init);
    }
  }

  function Failures(calls: seq<Call>): nat
    decreases |calls|
  {
    if calls == [] then 0
    else Failures(calls[..|calls| - 1]) + if calls[|calls| - 1].Failure? then 1 else 0
  }

  function Successes(calls: seq<Call>): nat
    decreases |calls|
  {
    if calls == [] then 0
    else Successes(calls[..|calls| - 1]) + if calls[|calls| - 1].Success? then 1 else 0
  }

  /** A closed breaker trips at exactly the failure that completes the run. */
  lemma {:induction false} TripsAtThreshold(cfg: Config, s: Cells, run: nat, calls: seq<Call>)
    requires Represents(cfg, s, Counting(run))
    requires Success !in calls
    ensures After(cfg, s, calls).state == Closed <==> run + Failures(calls) < cfg.TripCount()
    ensures After(cfg, s, calls).state == Closed ==> Represents(cfg, After(cfg, s, calls), Counting(run + Failures(calls)))
    decreases |calls|
  {
    if calls == [] {
    } else {
      TripsAtThreshold(cfg, s, run, calls[..|calls| - 1]);
    }
  }

  /** A half-open breaker that sees no failure closes at exactly the success that completes the count. */
  lemma {:induction false} ClosesAtCloseCount(cfg: Config, s: Cells, oks: nat, calls: seq<Call>)
    requires Represents(cfg, s, Probing(oks))
    requires forall c <- calls :: !c.Failure?
    ensures var r := After(cfg, s, calls);
            var seen := oks + Successes(calls);
            Represents(cfg, r, if seen < cfg.CloseCount() then Probing(seen) else Counting(0))
    decreases |calls|
  {
    if calls == [] {
    } else {
      var init := calls[..|calls| - 1];
      ClosesAtCloseCount(cfg, s, oks, init);
      assert calls[|calls| - 1] in calls;
    }
  }

  /** While the timeout has not passed, an open breaker rejects every poll, whatever successes arrive late. */
  lemma {:induction false} OpenRejectsUntilTimeout(cfg: Config, s: Cells, calls: seq<Call>)
    requires s.state == Open
    requires forall c <- calls :: c.Success? || (c.Poll? && c.now <= s.lastFailure + cfg.resetTimeout)
    ensures After(cfg, s, calls) == s
    ensures forall i | 0 <= i < |calls| :: Answer(cfg, s, calls, i) == calls[i].Poll?
    decreases |calls|
  {
    if calls == [] {
    } else {
      OpenRejectsUntilTimeout(cfg, s, calls[..|calls| - 1]);
      assert calls[|calls| - 1] in calls;
    }
    forall i | 0 <= i < |calls|
      ensures Answer(cfg, s, calls, i) == calls[i].Poll?
    {
      OpenRejectsUntilTimeout(cfg, s, calls[..i]);
      assert calls[i] in calls;
    }
  }
}
