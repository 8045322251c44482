/** Metric counters under concurrency: an increment first finds or creates the counter of its
    key, then adds to it. Any number of threads interleave these steps in any order. */
module MetricCounters {

  type Thread = nat

  type Key = string

  /** The address of a counter cell. */
  type Cell = nat

  /** A thread that has allocated the cell `mine` and not looked at the table, or one that found its cell. */
  datatype Pc = Find(key: Key, mine: Cell) | Add(key: Key, cell: Cell)

  datatype Machine = Machine(table: map<Key, Cell>, values: map<Cell, int>, next: Cell, threads: map<Thread, Pc>)

  datatype Action = Begin(t: Thread, key: Key) | Step(t: Thread)

  const START := Machine(map[], map[], 0, map[])

  function Apply(m: Machine, a: Action): Machine {
    match a
    case Begin(t, key) =>
      if t in m.threads then m
      else m.(values := m.values[m.next := 0], next := m.next + 1, threads := m.threads[t := Find(key, m.next)])
    case Step(t) =>
      if t !in m.threads then m
      else
        match m.threads[t]
        case Find(key, mine) =>
          if key in m.table then m.(threads := m.threads[t := Add(key, m.table[key])])
          else m.(table := m.table[key := mine], threads := m.threads[t := Add(key, mine)])
        case Add(key, cell) =>
          m.(values := m.values[cell := ValueAt(m, cell) + 1], threads := m.threads - {t})
  }

  function ValueAt(m: Machine, cell: Cell): int {
    if cell in m.values then m.values[cell] else 0
  }

  function Run(actions: seq<Action>): Machine
    decreases |actions|
  {
    if actions == [] then START
    else Apply(Run(actions[..|actions| - 1]), actions[|actions| - 1])
  }

  /** What is shown for a key: nothing was counted for a key that is not in the table. */
  function Shown(m: Machine, key: Key): int {
    if key in m.table then ValueAt(m, m.table[key]) else 0
  }

  /** How many increments of `key` have been begun. */
  function Begun(actions: seq<Action>, key: Key): nat
    decreases |actions|
  {
    if actions == [] then 0
    else
      var init := actions[..|actions| - 1];
      var a := actions[|actions| - 1];
      Begun(init, key) + if a.Begin? && a.key == key && a.t !in Run(init).threads then 1 else 0
  }

  /** How many increments of `key` have completed their addition. */
  function Added(actions: seq<Action>, key: Key): nat
    decreases |actions|
  {
    if actions == [] then 0
    else
      var init := actions[..|actions| - 1];
      var a := actions[|actions| - 1];
      var threads := Run(init).threads;
      Added(init, key) + if a.Step? && a.t in threads && threads[a.t].Add? && threads[a.t].key == key then 1 else 0
  }

  ghost function InFlight(m: Machine, key: Key): set<Thread> {
    set t | t in m.threads && m.threads[t].key == key
  }

  // ------------------------------------------------------------------
  // Invariants
  // ------------------------------------------------------------------

  /** Every cell belongs to at most one key, or to one thread that has not offered it yet. */
  ghost predicate Owned(m: Machine) {
    && TableOwned(m)
    && (forall t | t in m.threads :: ThreadOwns(m, t))
    && (forall t, u | t in m.threads && u in m.threads :: OffersApart(m, t, u))
  }

  /** Two threads never offer the same cell. */
  ghost predicate OffersApart(m: Machine, t: Thread, u: Thread)
    requires t in m.threads && u in m.threads
  {
    t != u && m.threads[t].Find? && m.threads[u].Find? ==> m.threads[t].mine != m.threads[u].mine
  }

  ghost predicate TableOwned(m: Machine) {
    && (forall k | k in m.table :: m.table[k] < m.next)
    && (forall j, k | j in m.table && k in m.table && j != k :: m.table[j] != m.table[k])
    && (forall c | c in m.values :: c < m.next)
  }

  ghost predicate ThreadOwns(m: Machine, t: Thread)
    requires t in m.threads
  {
    match m.threads[t]
    case Find(_, mine) => mine < m.next && ValueAt(m, mine) == 0 && forall k | k in m.table :: m.table[k] != mine
    case Add(key, cell) => key in m.table && m.table[key] == cell
  }

  lemma ActionKeepsThreadOwns(m: Machine, a: Action, t: Thread)
    requires Owned(m) && t in Apply(m, a).threads
    ensures ThreadOwns(Apply(m, a), t)
  {
    if t in m.threads {
      assert ThreadOwns(m, t);
    }
    if a.Step? && a.t in m.threads {
      assert ThreadOwns(m, a.t);
    }
  }

  lemma ActionKeepsTableOwned(m: Machine, a: Action)
    requires Owned(m)
    ensures TableOwned(Apply(m, a))
  {
    if a.Step? && a.t in m.threads {
      assert ThreadOwns(m, a.t);
    }
  }

  lemma ActionKeepsOffersApart(m: Machine, a: Action, t: Thread, u: Thread)
    requires Owned(m) && t in Apply(m, a).threads && u in Apply(m, a).threads
    ensures OffersApart(Apply(m, a), t, u)
  {
    assert t in m.threads ==> ThreadOwns(m, t);
    assert u in m.threads ==> ThreadOwns(m, u);
    assert t in m.threads && u in m.threads ==> OffersApart(m, t, u);
  }

  lemma ActionKeepsOwned(m: Machine, a: Action)
    requires Owned(m)
    ensures Owned(Apply(m, a))
  {
    var r := Apply(m, a);
    ActionKeepsTableOwned(m, a);
    forall t | t in r.threads ensures ThreadOwns(r, t) {
      ActionKeepsThreadOwns(m, a, t);
    }
    forall t, u | t in r.threads && u in r.threads ensures OffersApart(r, t, u) {
      ActionKeepsOffersApart(m, a, t, u);
    }
  }

  lemma {:induction false} RunsAreOwned(actions: seq<Action>)
    ensures Owned(Run(actions))
    decreases |actions|
  {
    if actions == [] {
    } else {
      RunsAreOwned(actions[..|actions| - 1]);
      ActionKeepsOwned(Run(actions[..|actions| - 1]), actions[|actions| - 1]);
    }
  }

  // ------------------------------------------------------------------
  // No count is lost
  // ------------------------------------------------------------------

  lemma ActionShows(m: Machine, a: Action, key: Key)
    requires Owned(m)
    ensures Shown(Apply(m, a), key) == Shown(m, key)
              + if a.Step? && a.t in m.threads && m.threads[a.t].Add? && m.threads[a.t].key == key then 1 else 0
  {
    if a.Step? && a.t in m.threads {
      assert ThreadOwns(m, a.t);
    }
  }

  /** In every interleaving the counter of a key is the number of completed additions to it. */
  lemma {:induction false} CounterIsAdditions(actions: seq<Action>, key: Key)
    ensures Shown(Run(actions), key) == Added(actions, key)
    decreases |actions|
  {
    if actions == [] {
    } else {
      var init := actions[..|actions| - 1];
      CounterIsAdditions(init, key);
      RunsAreOwned(init);
      ActionShows(Run(init), actions[|actions| - 1], key);
    }
  }

  /** Uninterrupted, an increment ends after its two steps, shows one more for its key and the same for any other. */
  lemma IncrementAlone(actions: seq<Action>, t: Thread, key: Key, other: Key)
    requires t !in Run(actions).threads
    ensures var m := Run(actions + [Begin(t, key)] + [Step(t)] + [Step(t)]);
            && m.threads == Run(actions).threads
            && Shown(m, other) == Shown(Run(actions), other) + if other == key then 1 else 0
  {
    var m := Run(actions);
    var begun, found := Apply(m, Begin(t, key)), Apply(Apply(m, Begin(t, key)), Step(t));
    RunsAreOwned(actions);
    ActionKeepsOwned(m, Begin(t, key));
    ActionKeepsOwned(begun, Step(t));
    ActionShows(m, Begin(t, key), other);
    ActionShows(begun, Step(t), other);
    ActionShows(found, Step(t), other);
    RunNext(actions, Begin(t, key));
    RunNext(actions + [Begin(t, key)], Step(t));
    RunNext(actions + [Begin(t, key)] + [Step(t)], Step(t));
    assert Apply(found, Step(t)).threads == m.threads;
  }

  lemma RunNext(actions: seq<Action>, a: Action)
    ensures Run(actions + [a]) == Apply(Run(actions), a)
  {
    assert (actions + [a])[..|actions|] == actions;
  }

  lemma ActionMovesInFlight(m: Machine, a: Action, key: Key)
    ensures |InFlight(Apply(m, a), key)| == |InFlight(m, key)|
              + (if a.Begin? && a.key == key && a.t !in m.threads then 1 else 0)
              - (if a.Step? && a.t in m.threads && m.threads[a.t].Add? && m.threads[a.t].key == key then 1 else 0)
  {
    var r := Apply(m, a);
    if a.Begin? && a.t !in m.threads && a.key == key {
      assert InFlight(r, key) == InFlight(m, key) + {a.t};
    } else if a.Step? && a.t in m.threads && m.threads[a.t].Add? && m.threads[a.t].key == key {
      assert InFlight(r, key) == InFlight(m, key) - {a.t};
    } else {
      assert InFlight(r, key) == InFlight(m, key);
    }
  }

  lemma {:induction false} BegunIsAddedOrInFlight(actions: seq<Action>, key: Key)
    ensures Begun(actions, key) == Added(actions, key) + |InFlight(Run(actions), key)|
    decreases |actions|
  {
    if actions == [] {
      assert InFlight(START, key) == {};
    } else {
      var init := actions[..|actions| - 1];
      BegunIsAddedOrInFlight(init, key);
      ActionMovesInFlight(Run(init), actions[|actions| - 1], key);
    }
  }

  /** In every interleaving the counter of a key shows all increments begun, less those still in flight. */
  lemma NoCountIsLost(actions: seq<Action>, key: Key)
    ensures Shown(Run(actions), key) == Begun(actions, key) - |InFlight(Run(actions), key)|
  {
    CounterIsAdditions(actions, key);
    BegunIsAddedOrInFlight(actions, key);
  }

  lemma {:induction false} RunPrefix(actions: seq<Action>, later: seq<Action>, key: Key)
    requires key in Run(actions).table
    ensures key in Run(actions + later).table && Run(actions + later).table[key] == Run(actions).table[key]
    decreases |later|
  {
    if later == [] {
      assert actions + later == actions;
    } else {
      var n := |later| - 1;
      assert (actions + later)[..|actions + later| - 1] == actions + later[..n];
      RunPrefix(actions, later[..n], key);
    }
  }

  /** The cell of a key never changes once it is in the table, and no other key ever gets it. */
  lemma CellIsFixed(actions: seq<Action>, later: seq<Action>, key: Key, other: Key)
    requires key in Run(actions).table && other != key
    ensures var m := Run(actions + later);
            && key in m.table && m.table[key] == Run(actions).table[key]
            && (other in m.table ==> m.table[other] != m.table[key])
  {
    RunPrefix(actions, later, key);
    RunsAreOwned(actions + later);
  }
}
