/** What overlapping calls do to a promise of the breaker taken one call at a time: that a breaker
    which is not closed has a full count of failures. The promise fails, and it fails exactly
    when some call clears the failures too late. */
module BreakerOverlap {
  import opened Breaker
  import opened BreakerSteps

  /** A success that saw the breaker closed clears the failures after another call tripped it:
      the breaker is open, at rest, with no failure counted. */
  lemma LateResetEmptiesOpenBreaker(cfg: Config)
    requires cfg.threshold == 1
    ensures var run := [Begin(0, OkLoad), Step(0, 0)] + Alone(1, Failure(7)) + [Step(0, 9)];
            Run(cfg, START, run) == Machine(Cells(Open, 0, 0, 7), map[])
  {
    var first := [Begin(0, OkLoad)];
    AfterAction(cfg, [], Begin(0, OkLoad));
    assert [] + first == first;
    AfterAction(cfg, first, Step(0, 0));
    var early := [Begin(0, OkLoad), Step(0, 0)];
    assert first + [Step(0, 0)] == early;
    AfterCall(cfg, early, Machine(FRESH, map[0 := OkReset]), 1, Failure(7));
    AfterAction(cfg, early + Alone(1, Failure(7)), Step(0, 9));
  }

  /** The breaker is not closed, though the failures that are counted would not have tripped it. */
  predicate Emptied(cfg: Config, m: Machine) {
    m.cells.state != Closed && m.cells.failures < cfg.TripCount()
  }

  predicate Clears(m: Machine, a: Action) {
    a.Step? && a.t in m.threads && (m.threads[a.t] == OkReset || m.threads[a.t] == OkClearFailures)
  }

  /** The failures are cleared when the breaker has tripped already, or when a call is on its way to trip it. */
  ghost predicate ClearsLate(cfg: Config, m: Machine, a: Action) {
    && Clears(m, a)
    && (m.cells.state != Closed || exists t :: t in m.threads && HoldsFullCount(cfg, m.threads[t]))
  }

  /** In this run from `m` no call clears the failures late. */
  ghost predicate Timely(cfg: Config, m: Machine, actions: seq<Action>)
    decreases |actions|
  {
    actions == [] ||
    var init := actions[..|actions| - 1];
    Timely(cfg, m, init) && !ClearsLate(cfg, Run(cfg, m, init), actions[|actions| - 1])
  }

  /** Full counts are where they should be: behind a breaker that tripped, and behind every call about to trip it. */
  ghost predicate FullCounts(cfg: Config, m: Machine) {
    && Sane(cfg, m)
    && (m.cells.state != Closed ==> m.cells.failures >= cfg.TripCount())
    && (forall t | t in m.threads && HoldsFullCount(cfg, m.threads[t]) :: m.cells.failures >= cfg.TripCount())
  }

  lemma TrippedStaysFull(cfg: Config, m: Machine, a: Action)
    requires FullCounts(cfg, m) && !ClearsLate(cfg, m, a)
    ensures Apply(cfg, m, a).cells.state != Closed ==> Apply(cfg, m, a).cells.failures >= cfg.TripCount()
  {
  }

  lemma HolderStaysFull(cfg: Config, m: Machine, a: Action, t: Thread)
    requires FullCounts(cfg, m) && !ClearsLate(cfg, m, a)
    requires t in Apply(cfg, m, a).threads && HoldsFullCount(cfg, Apply(cfg, m, a).threads[t])
    ensures Apply(cfg, m, a).cells.failures >= cfg.TripCount()
  {
    assert t in m.threads;
  }

  lemma ActionKeepsFullCounts(cfg: Config, m: Machine, a: Action)
    requires FullCounts(cfg, m) && !ClearsLate(cfg, m, a)
    ensures FullCounts(cfg, Apply(cfg, m, a))
  {
    var r := Apply(cfg, m, a);
    ActionKeepsSane(cfg, m, a);
    TrippedStaysFull(cfg, m, a);
    forall t | t in r.threads && HoldsFullCount(cfg, r.threads[t])
      ensures r.cells.failures >= cfg.TripCount()
    {
      HolderStaysFull(cfg, m, a, t);
    }
  }

  lemma {:induction false} TimelyRunsKeepFullCounts(cfg: Config, m: Machine, actions: seq<Action>)
    requires FullCounts(cfg, m) && Timely(cfg, m, actions)
    ensures FullCounts(cfg, Run(cfg, m, actions))
    decreases |actions|
  {
    if actions == [] {
    } else {
      var init := actions[..|actions| - 1];
      TimelyRunsKeepFullCounts(cfg, m, init);
      ActionKeepsFullCounts(cfg, Run(cfg, m, init), actions[|actions| - 1]);
    }
  }

  /** In every interleaving in which no call clears the failures late, a breaker that is open or
      half-open has a full count of failures. */
  lemma TimelyRunsAreNeverEmptied(cfg: Config, actions: seq<Action>)
    requires Timely(cfg, START, actions)
    ensures !Emptied(cfg, Run(cfg, START, actions))
  {
    TimelyRunsKeepFullCounts(cfg, START, actions);
  }

  lemma OneMoreStep(cfg: Config, m: Machine, t: Thread, k: nat)
    requires Timely(cfg, m, Steps(t, 0, k))
    requires !Clears(Run(cfg, m, Steps(t, 0, k)), Step(t, 0))
    ensures Timely(cfg, m, Steps(t, 0, k + 1))
    ensures Run(cfg, m, Steps(t, 0, k + 1)) == Apply(cfg, Run(cfg, m, Steps(t, 0, k)), Step(t, 0))
  {
    assert Steps(t, 0, k + 1)[..k] == Steps(t, 0, k);
  }

  /** A call with a full count, going on alone, trips a closed breaker within three steps and clears nothing. */
  lemma HolderTrips(cfg: Config, m: Machine, t: Thread) returns (k: nat)
    requires t in m.threads && HoldsFullCount(cfg, m.threads[t]) && m.cells.state == Closed
    ensures Timely(cfg, m, Steps(t, 0, k))
    ensures var s := Run(cfg, m, Steps(t, 0, k)).cells;
            s.state == Open && s.failures == m.cells.failures
  {
    OneMoreStep(cfg, m, t, 0);
    if m.threads[t].FailSwap? {
      return 1;
    }
    OneMoreStep(cfg, m, t, 1);
    if m.threads[t].FailLoad? {
      return 2;
    }
    OneMoreStep(cfg, m, t, 2);
    return 3;
  }

  /** After a late clear the breaker is emptied at once, or by the call that was about to trip it. */
  lemma LateClearEmpties(cfg: Config, m: Machine, a: Action) returns (rest: seq<Action>)
    requires ClearsLate(cfg, m, a)
    ensures Timely(cfg, Apply(cfg, m, a), rest) && Emptied(cfg, Run(cfg, Apply(cfg, m, a), rest))
  {
    if m.cells.state != Closed {
      rest := [];
    } else {
      var t :| t in m.threads && HoldsFullCount(cfg, m.threads[t]);
      var k := HolderTrips(cfg, Apply(cfg, m, a), t);
      rest := Steps(t, 0, k);
    }
  }

  /** The breaker can come to be emptied although no further call clears late. */
  ghost predicate CanBeEmptied(cfg: Config, m: Machine) {
    exists rest :: Timely(cfg, m, rest) && Emptied(cfg, Run(cfg, m, rest))
  }

  /** The condition is exact: an action of a timely run opens the way to an emptied breaker, with
      no further late clear, if and only if it clears the failures late itself. */
  lemma EmptiedExactlyAfterLateClear(cfg: Config, actions: seq<Action>, a: Action)
    requires Timely(cfg, START, actions)
    ensures var m := Run(cfg, START, actions);
            CanBeEmptied(cfg, Apply(cfg, m, a)) <==> ClearsLate(cfg, m, a)
  {
    var m := Run(cfg, START, actions);
    TimelyRunsKeepFullCounts(cfg, START, actions);
    if ClearsLate(cfg, m, a) {
      var rest := LateClearEmpties(cfg, m, a);
      assert Timely(cfg, Apply(cfg, m, a), rest);
    } else {
      ActionKeepsFullCounts(cfg, m, a);
      forall rest | Timely(cfg, Apply(cfg, m, a), rest)
        ensures !Emptied(cfg, Run(cfg, Apply(cfg, m, a), rest))
      {
        TimelyRunsKeepFullCounts(cfg, Apply(cfg, m, a), rest);
      }
    }
  }

  ghost predicate OnlyThread(m: Machine, t: Thread) {
    && m.threads.Keys <= {t}
    && (Clears(m, Step(t, 0)) ==> m.cells.state == Closed)
  }

  lemma ActionKeepsOnlyThread(cfg: Config, m: Machine, t: Thread, a: Action)
    requires OnlyThread(m, t) && a.t == t
    ensures OnlyThread(Apply(cfg, m, a), t) && !ClearsLate(cfg, m, a)
  {
  }

  /** Calls of one thread do not overlap, and never clear late. */
  lemma {:induction false} OneThreadIsTimely(cfg: Config, t: Thread, actions: seq<Action>)
    requires forall a <- actions :: a.t == t
    ensures Timely(cfg, START, actions)
    ensures OnlyThread(Run(cfg, START, actions), t)
    decreases |actions|
  {
    if actions == [] {
    } else {
      var init := actions[..|actions| - 1];
      OneThreadIsTimely(cfg, t, init);
      assert actions[|actions| - 1] in actions;
      ActionKeepsOnlyThread(cfg, Run(cfg, START, init), t, actions[|actions| - 1]);
    }
  }
}
