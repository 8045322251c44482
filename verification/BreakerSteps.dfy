/** The circuit breaker under concurrency: every method is cut into its single
    atomic loads, adds, stores and compare-and-swaps, and any number of threads
    interleave them in any order. A run is a sequence of actions; every
    interleaving is such a sequence. */
module BreakerSteps {
  import opened Breaker
  import opened Numbers

  type Thread = nat

  /** The next atomic step of a thread, with the values it holds in locals. */
  datatype Pc =
    | PollLoad
    | PollCheck
    | PollSwap
    | PollReset
    | FailAdd
    | FailStamp(count: int)
    | FailLoad(count: int)
    | FailSwap(count: int, seen: State)
    | OkLoad
    | OkAdd
    | OkSwap(count: int)
    | OkClearFailures
    | OkClearSuccesses
    | OkReset

  datatype Next = Goto(pc: Pc) | Return(rejected: bool)

  datatype Moved = Moved(cells: Cells, next: Next)

  datatype Machine = Machine(cells: Cells, threads: map<Thread, Pc>)

  datatype Action = Begin(t: Thread, first: Pc) | Step(t: Thread, now: int)

  const START := Machine(FRESH, map[])

  predicate IsEntry(pc: Pc) {
    pc == PollLoad || pc == FailAdd || pc == OkLoad
  }

  /** One atomic step of a thread at `pc`; `now` is what the clock says, where it is read. */
  function Atomic(cfg: Config, s: Cells, pc: Pc, now: int): Moved {
    match pc
    case PollLoad => Moved(s, if s.state == Open then Goto(PollCheck) else Return(false))
    case PollCheck => Moved(s, if Elapsed(cfg, s.lastFailure, now) then Goto(PollSwap) else Return(true))
    case PollSwap =>
      if s.state == Open then Moved(s.(state := HalfOpen), Goto(PollReset)) else Moved(s, Return(false))
    case PollReset => Moved(s.(successes := 0), Return(false))
    case FailAdd => Moved(s.(failures := s.failures + 1), Goto(FailStamp(s.failures + 1)))
    case FailStamp(n) =>
      Moved(s.(lastFailure := now), if n >= cfg.threshold then Goto(FailLoad(n)) else Return(false))
    case FailLoad(n) => Moved(s, if s.state != Open then Goto(FailSwap(n, s.state)) else Return(false))
    case FailSwap(_, seen) =>
      Moved(if s.state == seen then s.(state := Open) else s, Return(false))
    case OkLoad =>
      Moved(s, match s.state
               case HalfOpen => Goto(OkAdd)
               case Closed => Goto(OkReset)
               case Open => Return(false))
    case OkAdd =>
      Moved(s.(successes := s.successes + 1),
            if s.successes + 1 >= cfg.halfOpenMax then Goto(OkSwap(s.successes + 1)) else Return(false))
    case OkSwap(_) =>
      if s.state == HalfOpen then Moved(s.(state := Closed), Goto(OkClearFailures)) else Moved(s, Return(false))
    case OkClearFailures => Moved(s.(failures := 0), Goto(OkClearSuccesses))
    case OkClearSuccesses => Moved(s.(successes := 0), Return(false))
    case OkReset => Moved(s.(failures := 0), Return(false))
  }

  /** An action that is not possible changes nothing. */
  function Apply(cfg: Config, m: Machine, a: Action): Machine {
    match a
    case Begin(t, first) =>
      if t !in m.threads && IsEntry(first) then m.(threads := m.threads[t := first]) else m
    case Step(t, now) =>
      if t !in m.threads then m
      else
        var moved := Atomic(cfg, m.cells, m.threads[t], now);
        Machine(moved.cells, if moved.next.Goto? then m.threads[t := moved.next.pc] else m.threads - {t})
  }

  function Run(cfg: Config, m: Machine, actions: seq<Action>): Machine
    decreases |actions|
  {
    if actions == [] then m
    else Apply(cfg, Run(cfg, m, actions[..|actions| - 1]), actions[|actions| - 1])
  }

  // ------------------------------------------------------------------
  // The two invariants that survive every interleaving
  // ------------------------------------------------------------------

  /** A call that holds a full failure count and has yet to trip a closed breaker with it. */
  predicate HoldsFullCount(cfg: Config, pc: Pc) {
    match pc
    case FailStamp(n) => n >= cfg.TripCount()
    case FailLoad(n) => n >= cfg.TripCount()
    case FailSwap(n, seen) => n >= cfg.TripCount() && seen == Closed
    case _ => false
  }

  /** A call that still has to notice a full failure count, or still has to clear it. */
  predicate WillTrip(cfg: Config, pc: Pc) {
    HoldsFullCount(cfg, pc) || pc == OkClearFailures
  }

  /** A call that still has to close on a full success count, or still has to clear it. */
  predicate WillClose(cfg: Config, pc: Pc) {
    match pc
    case OkSwap(n) => n >= cfg.CloseCount()
    case PollReset => true
    case _ => false
  }

  ghost predicate ClosedIsExplained(cfg: Config, m: Machine) {
    m.cells.state == Closed && m.cells.failures >= cfg.TripCount() ==>
      exists t :: t in m.threads && WillTrip(cfg, m.threads[t])
  }

  ghost predicate HalfOpenIsExplained(cfg: Config, m: Machine) {
    m.cells.state == HalfOpen && m.cells.successes >= cfg.CloseCount() ==>
      exists t :: t in m.threads && WillClose(cfg, m.threads[t])
  }

  predicate PcSane(cfg: Config, pc: Pc) {
    match pc
    case FailStamp(n) => n >= 1
    case FailLoad(n) => n >= cfg.TripCount()
    case FailSwap(n, seen) => n >= cfg.TripCount() && seen != Open
    case OkSwap(n) => n >= cfg.CloseCount()
    case _ => true
  }

  ghost predicate Sane(cfg: Config, m: Machine) {
    && m.cells.failures >= 0
    && m.cells.successes >= 0
    && forall t | t in m.threads :: PcSane(cfg, m.threads[t])
  }

  ghost predicate Inv(cfg: Config, m: Machine) {
    Sane(cfg, m) && ClosedIsExplained(cfg, m) && HalfOpenIsExplained(cfg, m)
  }

  lemma ActionKeepsSane(cfg: Config, m: Machine, a: Action)
    requires Sane(cfg, m)
    ensures Sane(cfg, Apply(cfg, m, a))
  {
  }

  lemma ActionKeepsClosedExplained(cfg: Config, m: Machine, a: Action)
    requires Sane(cfg, m) && ClosedIsExplained(cfg, m)
    ensures ClosedIsExplained(cfg, Apply(cfg, m, a))
  {
    var r := Apply(cfg, m, a);
    if r.cells.state == Closed && r.cells.failures >= cfg.TripCount() {
      if a.Step? && a.t in m.threads && a.t in r.threads && WillTrip(cfg, r.threads[a.t]) {
      } else {
        var t :| t in m.threads && WillTrip(cfg, m.threads[t]);
        assert t in r.threads && r.threads[t] == m.threads[t];
      }
    }
  }

  lemma ActionKeepsHalfOpenExplained(cfg: Config, m: Machine, a: Action)
    requires Sane(cfg, m) && HalfOpenIsExplained(cfg, m)
    ensures HalfOpenIsExplained(cfg, Apply(cfg, m, a))
  {
    var r := Apply(cfg, m, a);
    if r.cells.state == HalfOpen && r.cells.successes >= cfg.CloseCount() {
      if a.Step? && a.t in m.threads && a.t in r.threads && WillClose(cfg, r.threads[a.t]) {
      } else {
        var t :| t in m.threads && WillClose(cfg, m.threads[t]);
        assert t in r.threads && r.threads[t] == m.threads[t];
      }
    }
  }

  lemma ActionKeepsInv(cfg: Config, m: Machine, a: Action)
    requires Inv(cfg, m)
    ensures Inv(cfg, Apply(cfg, m, a))
  {
    ActionKeepsSane(cfg, m, a);
    ActionKeepsClosedExplained(cfg, m, a);
    ActionKeepsHalfOpenExplained(cfg, m, a);
  }

  /** In every interleaving, a full counter next to a state it should have ended is
      explained by a call still in flight. */
  lemma {:induction false} EveryInterleavingIsExplained(cfg: Config, actions: seq<Action>)
    ensures Inv(cfg, Run(cfg, START, actions))
    decreases |actions|
  {
    if actions == [] {
    } else {
      EveryInterleavingIsExplained(cfg, actions[..|actions| - 1]);
      ActionKeepsInv(cfg, Run(cfg, START, actions[..|actions| - 1]), actions[|actions| - 1]);
    }
  }

  /** With no call in flight, a closed breaker is below its threshold and a half-open one below its closing count. */
  lemma QuiescentNeverStuck(cfg: Config, actions: seq<Action>)
    requires Run(cfg, START, actions).threads == map[]
    ensures var s := Run(cfg, START, actions).cells;
            && (s.state == Closed ==> s.failures < cfg.TripCount())
            && (s.state == HalfOpen ==> s.successes < cfg.CloseCount())
  {
    EveryInterleavingIsExplained(cfg, actions);
  }

  /** A call that loses its swap to another changes nothing, and is over; a poll that loses it lets
      its request through. */
  lemma LostSwapChangesNothing(cfg: Config, m: Machine, t: Thread, now: int)
    requires t in m.threads
    requires match m.threads[t]
             case PollSwap => m.cells.state != Open
             case FailSwap(_, seen) => m.cells.state != seen
             case OkSwap(_) => m.cells.state != HalfOpen
             case _ => false
    ensures Apply(cfg, m, Step(t, now)) == Machine(m.cells, m.threads - {t})
    ensures Atomic(cfg, m.cells, m.threads[t], now).next == Return(false)
  {
  }

  /** In the run, the latest call of thread `t` is a poll that found the breaker open. */
  ghost predicate FoundOpen(cfg: Config, actions: seq<Action>, t: Thread)
    decreases |actions|
  {
    actions != [] &&
    var init, a := actions[..|actions| - 1], actions[|actions| - 1];
    var m := Run(cfg, START, init);
    if a == Begin(t, PollLoad) && t !in m.threads then false
    else if a.Step? && a.t == t && t in m.threads && m.threads[t] == PollLoad then m.cells.state == Open
    else FoundOpen(cfg, init, t)
  }

  lemma {:induction false} PollsFoundOpen(cfg: Config, actions: seq<Action>, t: Thread)
    requires t in Run(cfg, START, actions).threads
    requires Run(cfg, START, actions).threads[t] in {PollCheck, PollSwap}
    ensures FoundOpen(cfg, actions, t)
    decreases |actions|
  {
    if actions == [] {
    } else {
      var init, a := actions[..|actions| - 1], actions[|actions| - 1];
      var m := Run(cfg, START, init);
      if t in m.threads && m.threads[t] in {PollCheck, PollSwap} {
        PollsFoundOpen(cfg, init, t);
      }
    }
  }

  /** In every interleaving, a call answers that its request is rejected exactly when it is a poll that
      found the breaker open and, at the time it reads the clock, the timeout has not passed since
      the failure last stamped. */
  lemma {:induction false} RejectedExactlyWithinTimeout(cfg: Config, actions: seq<Action>, t: Thread, now: int)
    requires t in Run(cfg, START, actions).threads
    ensures var m := Run(cfg, START, actions);
            Atomic(cfg, m.cells, m.threads[t], now).next == Return(true)
            <==> m.threads[t] == PollCheck && FoundOpen(cfg, actions, t) && now - m.cells.lastFailure <= cfg.resetTimeout
  {
    if Run(cfg, START, actions).threads[t] == PollCheck {
      PollsFoundOpen(cfg, actions, t);
    }
  }

  // ------------------------------------------------------------------
  // Transitions balance
  // ------------------------------------------------------------------

  /** How often the run changes the state cell from `from` to `to`. */
  function Moves(cfg: Config, actions: seq<Action>, from: State, to: State): nat
    decreases |actions|
  {
    if actions == [] then 0
    else
      var init := actions[..|actions| - 1];
      var before := Run(cfg, START, init).cells.state;
      var after := Run(cfg, START, actions).cells.state;
      Moves(cfg, init, from, to) + if before == from && after == to && from != to then 1 else 0
  }

  lemma ActionMovesState(cfg: Config, m: Machine, a: Action)
    requires Sane(cfg, m)
    ensures var before, after := m.cells.state, Apply(cfg, m, a).cells.state;
            !(before == Closed && after == HalfOpen) && !(before == Open && after == Closed)
  {
  }

  /** Only four kinds of transition occur, and entries into each state balance exits from it. */
  lemma {:induction false} TransitionsBalance(cfg: Config, actions: seq<Action>)
    ensures Moves(cfg, actions, Closed, HalfOpen) == 0
    ensures Moves(cfg, actions, Open, Closed) == 0
    ensures var s := Run(cfg, START, actions).cells.state;
            && Moves(cfg, actions, Closed, Open) + Moves(cfg, actions, HalfOpen, Open)
               - Moves(cfg, actions, Open, HalfOpen) == Bit(s == Open)
            && Moves(cfg, actions, Open, HalfOpen)
               - Moves(cfg, actions, HalfOpen, Open) - Moves(cfg, actions, HalfOpen, Closed) == Bit(s == HalfOpen)
            && Moves(cfg, actions, Closed, Open) - Moves(cfg, actions, HalfOpen, Closed) == Bit(s != Closed)
    decreases |actions|
  {
    if actions == [] {
    } else {
      var init := actions[..|actions| - 1];
      TransitionsBalance(cfg, init);
      EveryInterleavingIsExplained(cfg, init);
      ActionMovesState(cfg, Run(cfg, START, init), actions[|actions| - 1]);
    }
  }

  // ------------------------------------------------------------------
  // The steps of a call, taken without interruption, are the whole call
  // ------------------------------------------------------------------

  function Entry(call: Call): Pc {
    match call
    case Poll(_) => PollLoad
    case Failure(_) => FailAdd
    case Success => OkLoad
  }

  function Clock(call: Call): int {
    if call.Success? then 0 else call.now
  }

  /** A bound on the steps a thread still takes. */
  function StepsLeft(pc: Pc): nat {
    match pc
    case PollLoad => 4 case PollCheck => 3 case PollSwap => 2 case PollReset => 1
    case FailAdd => 4 case FailStamp(_) => 3 case FailLoad(_) => 2 case FailSwap(_, _) => 1
    case OkLoad => 5 case OkAdd => 4 case OkSwap(_) => 3 case OkClearFailures => 2 case OkClearSuccesses => 1
    case OkReset => 1
  }

  /** What a thread leaves and answers if from `pc` on nobody interferes. */
  function Finish(cfg: Config, s: Cells, pc: Pc, now: int): Reply
    decreases StepsLeft(pc)
  {
    var moved := Atomic(cfg, s, pc, now);
    if moved.next.Return? then Reply(moved.cells, moved.next.rejected)
    else Finish(cfg, moved.cells, moved.next.pc, now)
  }

  lemma FinishedCall(cfg: Config, s: Cells, call: Call)
    ensures Finish(cfg, s, Entry(call), Clock(call)) == Effect(cfg, s, call)
  {
    var now := Clock(call);
    var one := Atomic(cfg, s, Entry(call), now);
    if one.next.Goto? {
      var two := Atomic(cfg, one.cells, one.next.pc, now);
      if two.next.Goto? {
        var three := Atomic(cfg, two.cells, two.next.pc, now);
        if three.next.Goto? {
          var four := Atomic(cfg, three.cells, three.next.pc, now);
          assert Finish(cfg, three.cells, three.next.pc, now)
              == if four.next.Return? then Reply(four.cells, four.next.rejected)
                 else Finish(cfg, four.cells, four.next.pc, now);
        }
      }
    }
  }

  lemma {:induction false} RunAppend(cfg: Config, m: Machine, first: seq<Action>, second: seq<Action>)
    ensures Run(cfg, m, first + second) == Run(cfg, Run(cfg, m, first), second)
    decreases |second|
  {
    if second == [] {
      assert first + second == first;
    } else {
      var n := |second| - 1;
      assert (first + second)[..|first + second| - 1] == first + second[..n];
      RunAppend(cfg, m, first, second[..n]);
    }
  }

  function Steps(t: Thread, now: int, n: nat): seq<Action> {
    seq(n, _ => Step(t, now))
  }

  /** The actions by which thread `t` makes the call alone; steps after it has returned do nothing. */
  function Alone(t: Thread, call: Call): seq<Action> {
    [Begin(t, Entry(call))] + Steps(t, Clock(call), StepsLeft(Entry(call)))
  }

  lemma {:induction false} IdleSteps(cfg: Config, m: Machine, t: Thread, now: int, n: nat)
    requires t !in m.threads
    ensures Run(cfg, m, Steps(t, now, n)) == m
  {
    if n == 0 {
    } else {
      assert Steps(t, now, n)[..n - 1] == Steps(t, now, n - 1);
      IdleSteps(cfg, m, t, now, n - 1);
    }
  }

  lemma {:induction false} StepsFinish(cfg: Config, m: Machine, t: Thread, now: int, n: nat)
    requires t in m.threads && n >= StepsLeft(m.threads[t])
    ensures Run(cfg, m, Steps(t, now, n))
         == Machine(Finish(cfg, m.cells, m.threads[t], now).cells, m.threads - {t})
    decreases n
  {
    var step := Step(t, now);
    var m1 := Apply(cfg, m, step);
    assert Steps(t, now, n) == [step] + Steps(t, now, n - 1);
    RunAppend(cfg, m, [step], Steps(t, now, n - 1));
    assert Run(cfg, m, [step]) == m1 by {
      assert [step][..0] == [];
    }
    if t in m1.threads {
      StepsFinish(cfg, m1, t, now, n - 1);
      assert m1.threads - {t} == m.threads - {t};
    } else {
      IdleSteps(cfg, m1, t, now, n - 1);
    }
  }

  /** Whatever other calls are in flight, a call that is not interrupted has exactly the
      effect and the answer of the whole call. */
  lemma UninterruptedCallIsAtomic(cfg: Config, m: Machine, t: Thread, call: Call)
    requires t !in m.threads
    ensures Run(cfg, m, Alone(t, call)) == Machine(Effect(cfg, m.cells, call).cells, m.threads)
    ensures Finish(cfg, m.cells, Entry(call), Clock(call)).rejected == Effect(cfg, m.cells, call).rejected
  {
    var begin := Begin(t, Entry(call));
    var m0 := Apply(cfg, m, begin);
    assert Run(cfg, m, [begin]) == m0 by {
      assert [begin][..0] == [];
    }
    RunAppend(cfg, m, [begin], Steps(t, Clock(call), StepsLeft(Entry(call))));
    StepsFinish(cfg, m0, t, Clock(call), StepsLeft(Entry(call)));
    FinishedCall(cfg, m.cells, call);
    assert m0.threads - {t} == m.threads;
  }

  /** One after the other, calls by a thread that nobody interrupts are the sequence of whole calls. */
  function Serial(t: Thread, calls: seq<Call>): seq<Action>
    decreases |calls|
  {
    if calls == [] then [] else Serial(t, calls[..|calls| - 1]) + Alone(t, calls[|calls| - 1])
  }

  lemma {:induction false} SerialRunIsSequential(cfg: Config, t: Thread, calls: seq<Call>)
    ensures Run(cfg, START, Serial(t, calls)) == Machine(After(cfg, FRESH, calls), map[])
    decreases |calls|
  {
    if calls == [] {
    } else {
      var n := |calls| - 1;
      SerialRunIsSequential(cfg, t, calls[..n]);
      RunAppend(cfg, START, Serial(t, calls[..n]), Alone(t, calls[n]));
      UninterruptedCallIsAtomic(cfg, Run(cfg, START, Serial(t, calls[..n])), t, calls[n]);
    }
  }

  lemma AfterCall(cfg: Config, run: seq<Action>, m: Machine, t: Thread, call: Call)
    requires Run(cfg, START, run) == m && t !in m.threads
    ensures Run(cfg, START, run + Alone(t, call)) == Machine(Effect(cfg, m.cells, call).cells, m.threads)
  {
    RunAppend(cfg, START, run, Alone(t, call));
    UninterruptedCallIsAtomic(cfg, m, t, call);
  }

  lemma AfterAction(cfg: Config, run: seq<Action>, a: Action)
    ensures Run(cfg, START, run + [a]) == Apply(cfg, Run(cfg, START, run), a)
  {
    assert (run + [a])[..|run|] == run;
  }
}
