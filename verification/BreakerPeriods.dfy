/** A second promise of the breaker that overlapping calls break: that it takes a full count of
    successes reported to one half-open period to close the breaker. It fails exactly when a
    success of an earlier period is left over, or when the old count has not been cleared yet. */
module BreakerPeriods {
  import opened Breaker
  import opened BreakerSteps
  import opened Numbers

  /** A machine and what is known of its latest half-open period: how many calls found the breaker
      half-open in it, and whether the successes have been cleared since it began. */
  datatype Watch = Watch(m: Machine, joined: nat, cleared: bool)

  const WATCHED_START := Watch(START, 0, true)

  predicate StepsAt(m: Machine, a: Action, pc: Pc) {
    a.Step? && a.t in m.threads && m.threads[a.t] == pc
  }

  predicate BeginsPeriod(m: Machine, a: Action) {
    StepsAt(m, a, PollSwap) && m.cells.state == Open
  }

  function Observe(cfg: Config, w: Watch, a: Action): Watch {
    var r := Apply(cfg, w.m, a);
    if BeginsPeriod(w.m, a) then Watch(r, 0, false)
    else
      Watch(r,
            w.joined + Bit(StepsAt(w.m, a, OkLoad) && w.m.cells.state == HalfOpen),
            w.cleared || StepsAt(w.m, a, PollReset) || StepsAt(w.m, a, OkClearSuccesses))
  }

  function Watched(cfg: Config, w: Watch, actions: seq<Action>): Watch
    decreases |actions|
  {
    if actions == [] then w
    else Observe(cfg, Watched(cfg, w, actions[..|actions| - 1]), actions[|actions| - 1])
  }

  /** Watching changes nothing. */
  lemma {:induction false} WatchedRun(cfg: Config, w: Watch, actions: seq<Action>)
    ensures Watched(cfg, w, actions).m == Run(cfg, w.m, actions)
    decreases |actions|
  {
    if actions == [] {
    } else {
      WatchedRun(cfg, w, actions[..|actions| - 1]);
    }
  }

  lemma {:induction false} WatchedAppend(cfg: Config, w: Watch, first: seq<Action>, second: seq<Action>)
    ensures Watched(cfg, w, first + second) == Watched(cfg, Watched(cfg, w, first), second)
    ensures Steady(cfg, w, first + second) <==> Steady(cfg, w, first) && Steady(cfg, Watched(cfg, w, first), second)
    decreases |second|
  {
    if second == [] {
      assert first + second == first;
    } else {
      var n := |second| - 1;
      assert (first + second)[..|first + second| - 1] == first + second[..n];
      WatchedAppend(cfg, w, first, second[..n]);
    }
  }

  // ------------------------------------------------------------------
  // Closing early
  // ------------------------------------------------------------------

  /** A call is about to close the breaker, though fewer calls than the closing count found it
      half-open in this period. */
  ghost predicate ClosingEarly(cfg: Config, w: Watch) {
    && w.m.cells.state == HalfOpen
    && w.joined < cfg.CloseCount()
    && exists t :: t in w.m.threads && w.m.threads[t].OkSwap?
  }

  /** A success that was found half-open and has not yet been counted, or not yet had its effect. */
  predicate Reporting(pc: Pc) {
    pc == OkAdd || pc.OkSwap?
  }

  /** A period begins while a success of an earlier one is still being reported. */
  ghost predicate LeavesOver(m: Machine, a: Action) {
    BeginsPeriod(m, a) && exists t :: t in m.threads && Reporting(m.threads[t])
  }

  /** A success is counted on top of successes of an earlier period, which nobody has cleared yet,
      and completes the closing count with them. */
  predicate AddsToOld(cfg: Config, w: Watch, a: Action) {
    && StepsAt(w.m, a, OkAdd) && w.m.cells.state == HalfOpen
    && !w.cleared
    && w.m.cells.successes + 1 >= cfg.CloseCount() > w.joined
  }

  ghost predicate Strays(cfg: Config, w: Watch, a: Action) {
    LeavesOver(w.m, a) || AddsToOld(cfg, w, a)
  }

  /** In this run from `w` no success strays from one period into another. */
  ghost predicate Steady(cfg: Config, w: Watch, actions: seq<Action>)
    decreases |actions|
  {
    actions == [] ||
    var init := actions[..|actions| - 1];
    Steady(cfg, w, init) && !Strays(cfg, Watched(cfg, w, init), actions[|actions| - 1])
  }

  ghost function Adders(threads: map<Thread, Pc>): set<Thread> {
    set t | t in threads && threads[t] == OkAdd
  }

  /** In a half-open period every success, counted or about to be, is of a call that found the breaker half-open in it. */
  ghost predicate Accounted(cfg: Config, w: Watch) {
    && Sane(cfg, w.m)
    && (w.m.cells.state == HalfOpen ==>
          |Adders(w.m.threads)| + (if w.cleared then w.m.cells.successes else 0) <= w.joined)
    && !ClosingEarly(cfg, w)
  }

  lemma MovedAdders(threads: map<Thread, Pc>, t: Thread, next: Next)
    requires t in threads
    ensures var r := if next.Goto? then threads[t := next.pc] else threads - {t};
            |Adders(r)| == |Adders(threads)| + Bit(next == Goto(OkAdd)) - Bit(threads[t] == OkAdd)
    ensures threads[t] == OkAdd ==> |Adders(threads)| >= 1
  {
    var r := if next.Goto? then threads[t := next.pc] else threads - {t};
    if threads[t] == OkAdd {
      assert t in Adders(threads);
      if next == Goto(OkAdd) {
        assert Adders(r) == Adders(threads);
      } else {
        assert Adders(r) == Adders(threads) - {t};
      }
    } else if next == Goto(OkAdd) {
      assert Adders(r) == Adders(threads) + {t};
    } else {
      assert Adders(r) == Adders(threads);
    }
  }

  /** A success goes on to be counted after it found the breaker half-open, and on to close it when
      it completes the count. */
  lemma NextInReport(cfg: Config, s: Cells, pc: Pc, now: int)
    ensures var next := Atomic(cfg, s, pc, now).next;
            && (next == Goto(OkAdd) <==> pc == OkLoad && s.state == HalfOpen)
            && (next.Goto? && next.pc.OkSwap? <==> pc == OkAdd && s.successes + 1 >= cfg.halfOpenMax)
  {
  }

  lemma BeginKeepsAccounted(cfg: Config, w: Watch, a: Action)
    requires Accounted(cfg, w) && a.Begin?
    ensures Accounted(cfg, Observe(cfg, w, a))
  {
    var r := Observe(cfg, w, a).m;
    assert Adders(r.threads) == Adders(w.m.threads);
    forall t | t in r.threads && r.threads[t].OkSwap? ensures t in w.m.threads && w.m.threads[t].OkSwap? {
    }
  }

  /** The successes after a step, as far as the books of the period need them. */
  lemma StepKeepsCount(cfg: Config, w: Watch, a: Action)
    requires Accounted(cfg, w) && !Strays(cfg, w, a) && a.Step? && a.t in w.m.threads
    ensures var r := Observe(cfg, w, a);
            r.m.cells.state == HalfOpen ==>
              |Adders(r.m.threads)| + (if r.cleared then r.m.cells.successes else 0) <= r.joined
  {
    MovedAdders(w.m.threads, a.t, Atomic(cfg, w.m.cells, w.m.threads[a.t], a.now).next);
    NextInReport(cfg, w.m.cells, w.m.threads[a.t], a.now);
    if BeginsPeriod(w.m, a) {
      assert Adders(w.m.threads) == {} by {
        assert forall t | t in w.m.threads :: !Reporting(w.m.threads[t]);
      }
    }
  }

  lemma StepKeepsFromClosingEarly(cfg: Config, w: Watch, a: Action)
    requires Accounted(cfg, w) && !Strays(cfg, w, a) && a.Step? && a.t in w.m.threads
    ensures !ClosingEarly(cfg, Observe(cfg, w, a))
  {
    var r := Observe(cfg, w, a);
    MovedAdders(w.m.threads, a.t, Atomic(cfg, w.m.cells, w.m.threads[a.t], a.now).next);
    NextInReport(cfg, w.m.cells, w.m.threads[a.t], a.now);
    assert BeginsPeriod(w.m, a) ==> forall t | t in w.m.threads :: !Reporting(w.m.threads[t]);
  }

  lemma ActionKeepsAccounted(cfg: Config, w: Watch, a: Action)
    requires Accounted(cfg, w) && !Strays(cfg, w, a)
    ensures Accounted(cfg, Observe(cfg, w, a))
  {
    if a.Begin? {
      BeginKeepsAccounted(cfg, w, a);
    } else if a.t in w.m.threads {
      ActionKeepsSane(cfg, w.m, a);
      StepKeepsCount(cfg, w, a);
      StepKeepsFromClosingEarly(cfg, w, a);
    }
  }

  lemma {:induction false} SteadyRunsAreAccounted(cfg: Config, w: Watch, actions: seq<Action>)
    requires Accounted(cfg, w) && Steady(cfg, w, actions)
    ensures Accounted(cfg, Watched(cfg, w, actions))
    decreases |actions|
  {
    if actions == [] {
    } else {
      var init := actions[..|actions| - 1];
      SteadyRunsAreAccounted(cfg, w, init);
      ActionKeepsAccounted(cfg, Watched(cfg, w, init), actions[|actions| - 1]);
    }
  }

  /** Only a call that is about to close a half-open breaker closes it. */
  lemma CloseIsOfCloser(cfg: Config, w: Watch, a: Action)
    requires w.m.cells.state == HalfOpen && Apply(cfg, w.m, a).cells.state == Closed
    ensures w.joined < cfg.CloseCount() ==> ClosingEarly(cfg, w)
  {
    assert a.t in w.m.threads && w.m.threads[a.t].OkSwap?;
  }

  /** In every interleaving in which no success strays, an action closes a half-open breaker only
      when as many calls as the closing count found it half-open in that period. */
  lemma SteadyRunsNeverCloseEarly(cfg: Config, actions: seq<Action>, a: Action)
    requires Steady(cfg, WATCHED_START, actions)
    ensures var m := Run(cfg, START, actions);
            m.cells.state == HalfOpen && Apply(cfg, m, a).cells.state == Closed ==>
              Watched(cfg, WATCHED_START, actions).joined >= cfg.CloseCount()
    ensures !ClosingEarly(cfg, Watched(cfg, WATCHED_START, actions))
  {
    var m := Run(cfg, START, actions);
    WatchedRun(cfg, WATCHED_START, actions);
    SteadyRunsAreAccounted(cfg, WATCHED_START, actions);
    if m.cells.state == HalfOpen && Apply(cfg, m, a).cells.state == Closed {
      CloseIsOfCloser(cfg, Watched(cfg, WATCHED_START, actions), a);
    }
  }

  // ------------------------------------------------------------------
  // The condition is exact
  // ------------------------------------------------------------------

  /** Some call can come to close the breaker early although no further success strays. */
  ghost predicate CanCloseEarly(cfg: Config, w: Watch) {
    exists rest :: Steady(cfg, w, rest) && ClosingEarly(cfg, Watched(cfg, w, rest))
  }

  lemma StepFirst(cfg: Config, w: Watch, a: Action)
    requires !Strays(cfg, w, a) && CanCloseEarly(cfg, Observe(cfg, w, a))
    ensures CanCloseEarly(cfg, w)
  {
    var rest :| Steady(cfg, Observe(cfg, w, a), rest) && ClosingEarly(cfg, Watched(cfg, Observe(cfg, w, a), rest));
    assert [a][..0] == [];
    assert Watched(cfg, w, [a]) == Observe(cfg, w, a) && Steady(cfg, w, [a]);
    WatchedAppend(cfg, w, [a], rest);
    assert Steady(cfg, w, [a] + rest);
  }

  lemma AlreadyClosingEarly(cfg: Config, w: Watch)
    requires ClosingEarly(cfg, w)
    ensures CanCloseEarly(cfg, w)
  {
    assert Steady(cfg, w, []) && Watched(cfg, w, []) == w;
  }

  /** With one success too many, ordinary successes close the breaker early. */
  lemma {:induction false} SurplusClosesEarly(cfg: Config, w: Watch, t: Thread)
    requires w.m.cells.state == HalfOpen && w.cleared && t !in w.m.threads
    requires w.joined < w.m.cells.successes < cfg.CloseCount()
    ensures CanCloseEarly(cfg, w)
    decreases cfg.CloseCount() - w.m.cells.successes
  {
    var begun := Observe(cfg, w, Begin(t, OkLoad));
    var joined := Observe(cfg, begun, Step(t, 0));
    var added := Observe(cfg, joined, Step(t, 0));
    if w.m.cells.successes + 1 < cfg.CloseCount() {
      SurplusClosesEarly(cfg, added, t);
    } else {
      assert added.m.threads[t].OkSwap?;
      AlreadyClosingEarly(cfg, added);
    }
    StepFirst(cfg, joined, Step(t, 0));
    StepFirst(cfg, begun, Step(t, 0));
    StepFirst(cfg, w, Begin(t, OkLoad));
  }

  /** A success left over from an earlier period closes the new one early, at once or after ordinary successes. */
  lemma LeftOverClosesEarly(cfg: Config, w: Watch, a: Action)
    requires LeavesOver(w.m, a)
    ensures CanCloseEarly(cfg, Observe(cfg, w, a))
  {
    var u :| u in w.m.threads && Reporting(w.m.threads[u]);
    var begun := Observe(cfg, w, a);
    assert begun.m.threads[u] == w.m.threads[u];
    if w.m.threads[u].OkSwap? {
      AlreadyClosingEarly(cfg, begun);
    } else {
      var cleared := Observe(cfg, begun, Step(a.t, 0));
      var added := Observe(cfg, cleared, Step(u, 0));
      if cfg.CloseCount() > 1 {
        SurplusClosesEarly(cfg, added, a.t);
      } else {
        assert added.m.threads[u].OkSwap?;
        AlreadyClosingEarly(cfg, added);
      }
      StepFirst(cfg, cleared, Step(u, 0));
      StepFirst(cfg, begun, Step(a.t, 0));
    }
  }

  /** An action of a steady run opens the way to an early close, with no further stray success, if
      and only if it lets a success stray itself. */
  lemma ClosesEarlyExactlyAfterStray(cfg: Config, actions: seq<Action>, a: Action)
    requires Steady(cfg, WATCHED_START, actions)
    ensures var w := Watched(cfg, WATCHED_START, actions);
            CanCloseEarly(cfg, Observe(cfg, w, a)) <==> Strays(cfg, w, a)
  {
    var w := Watched(cfg, WATCHED_START, actions);
    SteadyRunsAreAccounted(cfg, WATCHED_START, actions);
    if LeavesOver(w.m, a) {
      LeftOverClosesEarly(cfg, w, a);
    } else if AddsToOld(cfg, w, a) {
      assert Observe(cfg, w, a).m.threads[a.t].OkSwap?;
      AlreadyClosingEarly(cfg, Observe(cfg, w, a));
    } else {
      ActionKeepsAccounted(cfg, w, a);
      forall rest | Steady(cfg, Observe(cfg, w, a), rest)
        ensures !ClosingEarly(cfg, Watched(cfg, Observe(cfg, w, a), rest))
      {
        SteadyRunsAreAccounted(cfg, Observe(cfg, w, a), rest);
      }
    }
  }

  ghost predicate OnlyThread(w: Watch, t: Thread) {
    && w.m.threads.Keys <= {t}
    && (w.m.cells.state == HalfOpen && !w.cleared ==> t in w.m.threads && w.m.threads[t] == PollReset)
  }

  lemma ActionKeepsOnlyThread(cfg: Config, w: Watch, t: Thread, a: Action)
    requires OnlyThread(w, t) && a.t == t
    ensures OnlyThread(Observe(cfg, w, a), t) && !Strays(cfg, w, a)
  {
  }

  /** Calls of one thread do not overlap, and none of their successes strays. */
  lemma {:induction false} OneThreadIsSteady(cfg: Config, t: Thread, actions: seq<Action>)
    requires forall a <- actions :: a.t == t
    ensures Steady(cfg, WATCHED_START, actions)
    ensures OnlyThread(Watched(cfg, WATCHED_START, actions), t)
    decreases |actions|
  {
    if actions == [] {
    } else {
      var init := actions[..|actions| - 1];
      OneThreadIsSteady(cfg, t, init);
      assert actions[|actions| - 1] in actions;
      ActionKeepsOnlyThread(cfg, Watched(cfg, WATCHED_START, init), t, actions[|actions| - 1]);
    }
  }

  // ------------------------------------------------------------------
  // A run that closes early
  // ------------------------------------------------------------------

  lemma PeriodBegins(cfg: Config)
    requires cfg.threshold == 1 && cfg.resetTimeout == 10
    ensures Run(cfg, START, Alone(1, Failure(7)) + Alone(1, Poll(20))) == Machine(Cells(HalfOpen, 1, 0, 7), map[])
  {
    AfterCall(cfg, [], START, 1, Failure(7));
    assert [] + Alone(1, Failure(7)) == Alone(1, Failure(7));
    AfterCall(cfg, Alone(1, Failure(7)), Machine(Cells(Open, 1, 0, 7), map[]), 1, Poll(20));
  }

  lemma SuccessBegins(cfg: Config, run: seq<Action>, s: Cells)
    requires Run(cfg, START, run) == Machine(s, map[]) && s.state == HalfOpen
    ensures Run(cfg, START, run + [Begin(0, OkLoad)] + [Step(0, 0)]) == Machine(s, map[0 := OkAdd])
  {
    AfterAction(cfg, run, Begin(0, OkLoad));
    AfterAction(cfg, run + [Begin(0, OkLoad)], Step(0, 0));
  }

  /** A success finds the breaker half-open. Before it is counted, a failure reopens the breaker and a
      poll begins a new period. Counted there, it lets a single success reported to that period close the breaker. */
  lemma LeftOverSuccessCloses(cfg: Config, run: seq<Action>)
    requires cfg.threshold == 1 && cfg.halfOpenMax == 2 && cfg.resetTimeout == 10
    requires run == Alone(1, Failure(7)) + Alone(1, Poll(20)) + [Begin(0, OkLoad)] + [Step(0, 0)]
    ensures var again := run + Alone(1, Failure(21)) + Alone(1, Poll(40));
            && Run(cfg, START, again) == Machine(Cells(HalfOpen, 2, 0, 21), map[0 := OkAdd])
            && Run(cfg, START, again + [Step(0, 0)] + Alone(1, Success)) == Machine(Cells(Closed, 0, 0, 21), map[])
  {
    PeriodBegins(cfg);
    SuccessBegins(cfg, Alone(1, Failure(7)) + Alone(1, Poll(20)), Cells(HalfOpen, 1, 0, 7));
    NewPeriodCloses(cfg, run);
  }

  lemma NewPeriodCloses(cfg: Config, run: seq<Action>)
    requires cfg.threshold == 1 && cfg.halfOpenMax == 2 && cfg.resetTimeout == 10
    requires Run(cfg, START, run) == Machine(Cells(HalfOpen, 1, 0, 7), map[0 := OkAdd])
    ensures var again := run + Alone(1, Failure(21)) + Alone(1, Poll(40));
            && Run(cfg, START, again) == Machine(Cells(HalfOpen, 2, 0, 21), map[0 := OkAdd])
            && Run(cfg, START, again + [Step(0, 0)] + Alone(1, Success)) == Machine(Cells(Closed, 0, 0, 21), map[])
  {
    AfterCall(cfg, run, Machine(Cells(HalfOpen, 1, 0, 7), map[0 := OkAdd]), 1, Failure(21));
    var reopened := run + Alone(1, Failure(21));
    AfterCall(cfg, reopened, Machine(Cells(Open, 2, 0, 21), map[0 := OkAdd]), 1, Poll(40));
    var again := reopened + Alone(1, Poll(40));
    AfterAction(cfg, again, Step(0, 0));
    AfterCall(cfg, again + [Step(0, 0)], Machine(Cells(HalfOpen, 2, 1, 21), map[]), 1, Success);
  }
}
