/** The table of WebSocket connections under concurrency. Registration, removal and closing
    are cut into their atomic steps; any number of threads (pumps, upgrade callbacks, sweeps)
    interleave them in any order. */
module ConnectionSteps {
  import opened Numbers

  type Thread = nat

  type Id = nat

  datatype Life = Active | Closing | Closed

  /** A run-once guard: not entered, being run by one thread, or finished. */
  datatype Once = Unused | Running(runner: Thread) | Finished

  /** One connection. `notified`, `channelCloses` and `drops` count what was done to it. */
  datatype Conn = Conn(life: Life, once: Once, notified: nat, channelCloses: nat, drops: nat)

  const NEW_CONN := Conn(Active, Unused, 0, 0, 0)

  /** The next step of a thread. `closing` says whether a removal is part of a close. */
  datatype Pc =
    | AddLock(id: Id)
    | AddCheck(id: Id)
    | AddStore(id: Id)
    | AddCount(id: Id)
    | AddUnlock(id: Id)
    | RemoveLock(id: Id, closing: bool)
    | RemoveDelete(id: Id, closing: bool)
    | RemoveCount(id: Id, closing: bool)
    | RemoveUnlock(id: Id, closing: bool)
    | CloseEnter(id: Id)
    | CloseMark(id: Id)
    | CloseNotify(id: Id)
    | CloseChannel(id: Id)
    | CloseSettle(id: Id)
    | CloseFinish(id: Id)

  datatype Lock = Free | Held(holder: Thread)

  /** `stored` is the table, `active` the separate counter, `conns` every connection ever made,
      `published` those that were ever put in the table, `closedFor` those for which some Close has returned. */
  datatype Machine = Machine(
    maxConns: int,
    stored: set<Id>,
    active: int,
    lock: Lock,
    conns: map<Id, Conn>,
    published: set<Id>,
    closedFor: set<Id>,
    threads: map<Thread, Pc>)

  /** A connection can be reached by anyone but its creator only once it has been put in the table.
      `PeerClose` is the read pump seeing a close frame. */
  datatype Action =
    | Open(t: Thread, id: Id)
    | Remove(t: Thread, id: Id)
    | Close(t: Thread, id: Id)
    | PeerClose(id: Id)
    | Step(t: Thread)

  function Start(maxConns: int): Machine {
    Machine(maxConns, {}, 0, Free, map[], {}, {}, map[])
  }

  function ConnOf(m: Machine, id: Id): Conn {
    if id in m.conns then m.conns[id] else NEW_CONN
  }

  function Goto(m: Machine, t: Thread, pc: Pc): Machine {
    m.(threads := m.threads[t := pc])
  }

  function Return(m: Machine, t: Thread): Machine {
    m.(threads := m.threads - {t})
  }

  function Update(m: Machine, id: Id, c: Conn): Machine {
    m.(conns := m.conns[id := c])
  }

  /** One step of thread `t` at `pc`. A thread that has to wait stays where it is. */
  function StepAt(m: Machine, t: Thread, pc: Pc): Machine {
    var c := ConnOf(m, pc.id);
    match pc
    case AddLock(id) => if m.lock.Free? then Goto(m.(lock := Held(t)), t, AddCheck(id)) else m
    case AddCheck(id) => Goto(m, t, if m.active >= m.maxConns then AddUnlock(id) else AddStore(id))
    case AddStore(id) =>
      Goto(m.(stored := m.stored + {id}, published := m.published + {id}), t, AddCount(id))
    case AddCount(id) => Goto(m.(active := m.active + 1), t, AddUnlock(id))
    case AddUnlock(_) => Return(m.(lock := Free), t)

    case RemoveLock(id, closing) =>
      if m.lock.Free? then Goto(m.(lock := Held(t)), t, RemoveDelete(id, closing)) else m
    case RemoveDelete(id, closing) =>
      if id in m.stored then Goto(m.(stored := m.stored - {id}), t, RemoveCount(id, closing))
      else Goto(m, t, RemoveUnlock(id, closing))
    case RemoveCount(id, closing) =>
      Goto(Update(m.(active := m.active - 1), id, c.(drops := c.drops + 1)), t, RemoveUnlock(id, closing))
    case RemoveUnlock(id, closing) =>
      if closing then Goto(m.(lock := Free), t, CloseFinish(id)) else Return(m.(lock := Free), t)

    case CloseEnter(id) =>
      if c.once == Finished then Return(m.(closedFor := m.closedFor + {id}), t)
      else if c.once == Unused then Goto(Update(m, id, c.(once := Running(t))), t, CloseMark(id))
      else m
    case CloseMark(id) => Goto(Update(m, id, c.(life := Closing)), t, CloseNotify(id))
    case CloseNotify(id) => Goto(Update(m, id, c.(notified := c.notified + 1)), t, CloseChannel(id))
    case CloseChannel(id) => Goto(Update(m, id, c.(channelCloses := c.channelCloses + 1)), t, CloseSettle(id))
    case CloseSettle(id) => Goto(Update(m, id, c.(life := Closed)), t, RemoveLock(id, true))
    case CloseFinish(id) =>
      Return(Update(m, id, c.(once := Finished)).(closedFor := m.closedFor + {id}), t)
  }

  /** An action that is not possible changes nothing. */
  function Apply(m: Machine, a: Action): Machine {
    match a
    case Open(t, id) =>
      if t in m.threads || id in m.conns then m else Goto(Update(m, id, NEW_CONN), t, AddLock(id))
    case Remove(t, id) => if t in m.threads || id !in m.published then m else Goto(m, t, RemoveLock(id, false))
    case Close(t, id) => if t in m.threads || id !in m.published then m else Goto(m, t, CloseEnter(id))
    case PeerClose(id) => if id !in m.published then m else Update(m, id, ConnOf(m, id).(life := Closed))
    case Step(t) => if t in m.threads then StepAt(m, t, m.threads[t]) else m
  }

  function Run(m: Machine, actions: seq<Action>): Machine
    decreases |actions|
  {
    if actions == [] then m
    else Apply(Run(m, actions[..|actions| - 1]), actions[|actions| - 1])
  }

  // ------------------------------------------------------------------
  // Invariants
  // ------------------------------------------------------------------

  /** Steps that a thread takes while it holds the lock. */
  predicate Critical(pc: Pc) {
    || pc.AddCheck? || pc.AddStore? || pc.AddCount? || pc.AddUnlock?
    || pc.RemoveDelete? || pc.RemoveCount? || pc.RemoveUnlock?
  }

  /** Steps of the one thread that runs the body of a close. */
  predicate Body(pc: Pc) {
    || pc.CloseMark? || pc.CloseNotify? || pc.CloseChannel? || pc.CloseSettle? || pc.CloseFinish?
    || ((pc.RemoveLock? || pc.RemoveDelete? || pc.RemoveCount? || pc.RemoveUnlock?) && pc.closing)
  }

  /** A connection that is still on its way into the table. */
  predicate Joining(pc: Pc) {
    pc.AddLock? || pc.AddCheck? || pc.AddStore?
  }

  predicate Adding(pc: Pc) {
    pc.AddLock? || pc.AddCheck? || pc.AddStore? || pc.AddCount? || pc.AddUnlock?
  }

  ghost predicate LockInv(m: Machine) {
    && (m.lock.Held? ==> m.lock.holder in m.threads && Critical(m.threads[m.lock.holder]))
    && (forall t | t in m.threads && Critical(m.threads[t]) :: m.lock == Held(t))
  }

  /** What the holder of the lock has done to the table but not yet to the counter. */
  ghost function Pending(m: Machine): int {
    if m.lock.Held? && m.lock.holder in m.threads then
      var pc := m.threads[m.lock.holder];
      if pc.AddCount? then 1 else if pc.RemoveCount? then -1 else 0
    else 0
  }

  ghost function Bound(m: Machine): int {
    if m.maxConns < 0 then 0 else m.maxConns
  }

  ghost predicate CountInv(m: Machine) {
    && m.active + Pending(m) == |m.stored|
    && |m.stored| <= Bound(m)
    && (forall t | t in m.threads && m.threads[t].AddStore? :: m.active < m.maxConns)
  }

  ghost predicate ThreadId(m: Machine, t: Thread)
    requires t in m.threads
  {
    var pc := m.threads[t];
    && pc.id in m.conns
    && (Joining(pc) ==> pc.id !in m.published)
    && (!Adding(pc) ==> pc.id in m.published)
  }

  /** Two threads never put the same connection in the table. */
  ghost predicate Apart(m: Machine, t: Thread, u: Thread)
    requires t in m.threads && u in m.threads
  {
    t != u && Joining(m.threads[t]) && Joining(m.threads[u]) ==> m.threads[t].id != m.threads[u].id
  }

  ghost predicate IdInv(m: Machine) {
    && m.stored <= m.published <= m.conns.Keys
    && (forall t | t in m.threads :: ThreadId(m, t))
    && (forall t, u | t in m.threads && u in m.threads :: Apart(m, t, u))
  }

  /** What the body of a close has done when it is at `pc`. */
  ghost predicate DoneBefore(pc: Pc, c: Conn) {
    && c.notified == (if pc.CloseMark? || pc.CloseNotify? then 0 else 1)
    && c.channelCloses == (if pc.CloseMark? || pc.CloseNotify? || pc.CloseChannel? then 0 else 1)
    && (if pc.CloseMark? then true
        else if pc.CloseNotify? || pc.CloseChannel? || pc.CloseSettle? then c.life != Active
        else c.life == Closed)
  }

  /** A thread in the body of a close is the one the guard admitted. */
  ghost predicate ThreadOnce(m: Machine, t: Thread)
    requires t in m.threads
  {
    var c := ConnOf(m, m.threads[t].id);
    Body(m.threads[t]) ==> c.once == Running(t) && DoneBefore(m.threads[t], c)
  }

  ghost predicate ConnOnce(m: Machine, id: Id) {
    var c := ConnOf(m, id);
    match c.once
    case Unused => c.notified == 0 && c.channelCloses == 0
    case Running(t) => t in m.threads && Body(m.threads[t]) && m.threads[t].id == id
    case Finished => c.notified == 1 && c.channelCloses == 1 && c.life == Closed
  }

  ghost predicate OnceInv(m: Machine) {
    && (forall t | t in m.threads :: ThreadOnce(m, t))
    && (forall id :: ConnOnce(m, id))
  }

  /** The thread has taken its connection out of the table, or found it gone. */
  predicate PastDelete(pc: Pc) {
    pc.RemoveCount? || pc.RemoveUnlock? || pc.CloseFinish?
  }

  ghost predicate ThreadGone(m: Machine, t: Thread)
    requires t in m.threads
  {
    PastDelete(m.threads[t]) ==> m.threads[t].id !in m.stored
  }

  ghost predicate ConnGone(m: Machine, id: Id) {
    && (ConnOf(m, id).once == Finished ==> id !in m.stored)
    && (id in m.closedFor ==> ConnOf(m, id).once == Finished)
    && (ConnOf(m, id).once != Unused ==> id in m.published)
  }

  ghost predicate GoneInv(m: Machine) {
    && (forall t | t in m.threads :: ThreadGone(m, t))
    && (forall id :: ConnGone(m, id))
  }

  ghost predicate BeingDropped(m: Machine, id: Id) {
    && m.lock.Held? && m.lock.holder in m.threads
    && m.threads[m.lock.holder].RemoveCount? && m.threads[m.lock.holder].id == id
  }

  ghost predicate Dropped(m: Machine, id: Id) {
    ConnOf(m, id).drops + Bit(id in m.stored) + Bit(BeingDropped(m, id)) == Bit(id in m.published)
  }

  ghost predicate DropInv(m: Machine) {
    forall id :: Dropped(m, id)
  }

  ghost predicate Inv(m: Machine) {
    LockInv(m) && CountInv(m) && IdInv(m) && OnceInv(m) && GoneInv(m) && DropInv(m)
  }

  lemma ActionKeepsLockInv(m: Machine, a: Action)
    requires LockInv(m)
    ensures LockInv(Apply(m, a))
  {
  }

  lemma ActionKeepsTable(m: Machine, a: Action)
    requires IdInv(m)
    ensures Apply(m, a).stored <= Apply(m, a).published <= Apply(m, a).conns.Keys
  {
    if a.Step? && a.t in m.threads {
      assert ThreadId(m, a.t);
    }
  }

  lemma ActionKeepsThreadId(m: Machine, a: Action, t: Thread)
    requires IdInv(m) && t in Apply(m, a).threads
    ensures ThreadId(Apply(m, a), t)
  {
    if t in m.threads {
      assert ThreadId(m, t);
    }
    if a.Step? && a.t in m.threads {
      assert ThreadId(m, a.t);
      assert t in m.threads ==> Apart(m, t, a.t);
    }
  }

  lemma ActionKeepsApart(m: Machine, a: Action, t: Thread, u: Thread)
    requires IdInv(m) && t in Apply(m, a).threads && u in Apply(m, a).threads
    ensures Apart(Apply(m, a), t, u)
  {
    assert t in m.threads ==> ThreadId(m, t);
    assert u in m.threads ==> ThreadId(m, u);
    assert t in m.threads && u in m.threads ==> Apart(m, t, u);
  }

  lemma ActionKeepsCountInv(m: Machine, a: Action)
    requires LockInv(m) && IdInv(m) && CountInv(m)
    ensures CountInv(Apply(m, a))
  {
    if a.Step? && a.t in m.threads {
      assert ThreadId(m, a.t);
      StepKeepsCountInv(m, a.t);
    }
  }

  lemma StepKeepsCountInv(m: Machine, t: Thread)
    requires LockInv(m) && CountInv(m) && t in m.threads
    requires m.threads[t].AddStore? ==> m.threads[t].id !in m.stored
    ensures CountInv(StepAt(m, t, m.threads[t]))
  {
    var pc := m.threads[t];
    if pc.AddStore? {
      assert |m.stored + {pc.id}| == |m.stored| + 1;
    } else if pc.RemoveDelete? && pc.id in m.stored {
      assert |m.stored - {pc.id}| == |m.stored| - 1;
    }
  }

  lemma ActionKeepsThreadOnce(m: Machine, a: Action, t: Thread)
    requires IdInv(m) && OnceInv(m) && t in Apply(m, a).threads
    ensures ThreadOnce(Apply(m, a), t)
  {
    if t in m.threads {
      assert ThreadOnce(m, t);
    }
    if a.Step? && a.t in m.threads {
      assert ThreadOnce(m, a.t) && ConnOnce(m, m.threads[a.t].id);
    }
  }

  lemma ActionKeepsConnOnce(m: Machine, a: Action, id: Id)
    requires IdInv(m) && OnceInv(m)
    ensures ConnOnce(Apply(m, a), id)
  {
    assert ConnOnce(m, id);
    if a.Step? && a.t in m.threads {
      assert ThreadOnce(m, a.t);
    }
  }

  lemma ActionKeepsThreadGone(m: Machine, a: Action, t: Thread)
    requires LockInv(m) && IdInv(m) && GoneInv(m) && t in Apply(m, a).threads
    ensures ThreadGone(Apply(m, a), t)
  {
    if t in m.threads {
      assert ThreadGone(m, t);
    }
  }

  lemma ActionKeepsConnGone(m: Machine, a: Action, id: Id)
    requires IdInv(m) && OnceInv(m) && GoneInv(m)
    ensures ConnGone(Apply(m, a), id)
  {
    assert ConnGone(m, id) && ConnOnce(m, id);
    if a.Step? && a.t in m.threads {
      assert ThreadGone(m, a.t);
    }
  }

  lemma ActionKeepsDropped(m: Machine, a: Action, id: Id)
    requires LockInv(m) && IdInv(m) && Dropped(m, id)
    ensures Dropped(Apply(m, a), id)
  {
  }

  lemma ActionKeepsInv(m: Machine, a: Action)
    requires Inv(m)
    ensures Inv(Apply(m, a))
  {
    var r := Apply(m, a);
    ActionKeepsLockInv(m, a);
    ActionKeepsTable(m, a);
    ActionKeepsCountInv(m, a);
    forall t, u | t in r.threads && u in r.threads ensures Apart(r, t, u) {
      ActionKeepsApart(m, a, t, u);
    }
    forall t | t in r.threads ensures ThreadId(r, t) && ThreadOnce(r, t) && ThreadGone(r, t) {
      ActionKeepsThreadId(m, a, t);
      ActionKeepsThreadOnce(m, a, t);
      ActionKeepsThreadGone(m, a, t);
    }
    forall id ensures ConnOnce(r, id) && ConnGone(r, id) && Dropped(r, id) {
      ActionKeepsConnOnce(m, a, id);
      ActionKeepsConnGone(m, a, id);
      ActionKeepsDropped(m, a, id);
    }
  }

  lemma StartInv(maxConns: int)
    ensures Inv(Start(maxConns))
  {
  }

  lemma {:induction false} EveryInterleavingIsSound(maxConns: int, actions: seq<Action>)
    ensures Inv(Run(Start(maxConns), actions))
    ensures Run(Start(maxConns), actions).maxConns == maxConns
    decreases |actions|
  {
    if actions == [] {
      StartInv(maxConns);
    } else {
      EveryInterleavingIsSound(maxConns, actions[..|actions| - 1]);
      ActionKeepsInv(Run(Start(maxConns), actions[..|actions| - 1]), actions[|actions| - 1]);
    }
  }

  // ------------------------------------------------------------------
  // What every interleaving promises
  // ------------------------------------------------------------------

  /** Whenever the lock is free the counter is the number of stored connections; there are never
      more of them than the limit, not even while the lock is held. */
  lemma CounterMatchesTable(maxConns: int, actions: seq<Action>)
    ensures var m := Run(Start(maxConns), actions);
            && (m.lock.Free? ==> m.active == |m.stored|)
            && |m.stored| <= (if maxConns < 0 then 0 else maxConns)
  {
    EveryInterleavingIsSound(maxConns, actions);
  }

  /** However many threads close a connection: its handler is notified at most once, its channel
      is closed at most once, and the counter drops for it at most once. */
  lemma ClosedAtMostOnce(maxConns: int, actions: seq<Action>, id: Id)
    ensures var c := ConnOf(Run(Start(maxConns), actions), id);
            c.notified <= 1 && c.channelCloses <= 1 && c.drops <= 1
  {
    var m := Run(Start(maxConns), actions);
    EveryInterleavingIsSound(maxConns, actions);
    assert ConnOnce(m, id) && Dropped(m, id);
    if ConnOf(m, id).once.Running? {
      assert ThreadOnce(m, ConnOf(m, id).once.runner);
    }
  }

  /** With the lock free, the counter has dropped for exactly the connections that were in the table and are no more. */
  lemma DroppedExactlyWhenGone(maxConns: int, actions: seq<Action>, id: Id)
    requires Run(Start(maxConns), actions).lock.Free?
    ensures var m := Run(Start(maxConns), actions);
            ConnOf(m, id).drops == 1 <==> id in m.published && id !in m.stored
  {
    EveryInterleavingIsSound(maxConns, actions);
    assert Dropped(Run(Start(maxConns), actions), id);
  }

  lemma {:induction false} RunAppend(m: Machine, first: seq<Action>, second: seq<Action>)
    ensures Run(m, first + second) == Run(Run(m, first), second)
    decreases |second|
  {
    if second == [] {
      assert first + second == first;
    } else {
      var n := |second| - 1;
      assert (first + second)[..|first + second| - 1] == first + second[..n];
      RunAppend(m, first, second[..n]);
    }
  }

  lemma {:induction false} ReturnsAreRemembered(m: Machine, actions: seq<Action>)
    ensures m.closedFor <= Run(m, actions).closedFor
    decreases |actions|
  {
    if actions == [] {
    } else {
      ReturnsAreRemembered(m, actions[..|actions| - 1]);
    }
  }

  /** Once any close of a connection has returned, the connection is out of the table and stays out,
      its handler was notified once, its channel is closed and it counts as closed for ever. */
  lemma ReturnedCloseIsFinal(maxConns: int, actions: seq<Action>, later: seq<Action>, id: Id)
    requires id in Run(Start(maxConns), actions).closedFor
    ensures var m := Run(Start(maxConns), actions + later);
            && id !in m.stored
            && ConnOf(m, id).notified == 1 && ConnOf(m, id).channelCloses == 1 && ConnOf(m, id).life == Closed
  {
    RunAppend(Start(maxConns), actions, later);
    ReturnsAreRemembered(Run(Start(maxConns), actions), later);
    EveryInterleavingIsSound(maxConns, actions + later);
    assert ConnGone(Run(Start(maxConns), actions + later), id);
    assert ConnOnce(Run(Start(maxConns), actions + later), id);
  }

  ghost predicate Inactive(m: Machine, id: Id) {
    id in m.conns && m.conns[id].life != Active
  }

  lemma ActionKeepsInactive(m: Machine, a: Action, id: Id)
    requires Inactive(m, id)
    ensures Inactive(Apply(m, a), id)
  {
  }

  /** A connection that has left the active state never returns to it. */
  lemma {:induction false} NeverActiveAgain(m: Machine, actions: seq<Action>, id: Id)
    requires Inactive(m, id)
    ensures Inactive(Run(m, actions), id)
    decreases |actions|
  {
    if actions == [] {
    } else {
      NeverActiveAgain(m, actions[..|actions| - 1], id);
      ActionKeepsInactive(Run(m, actions[..|actions| - 1]), actions[|actions| - 1], id);
    }
  }

  /** With no call in flight, every connection that anyone began to close has been closed completely. */
  lemma QuiescentClosesAreComplete(maxConns: int, actions: seq<Action>, id: Id)
    requires Run(Start(maxConns), actions).threads == map[]
    ensures var c := ConnOf(Run(Start(maxConns), actions), id);
            c.once == Unused || (c.once == Finished && c.notified == 1 && c.drops == 1)
  {
    var m := Run(Start(maxConns), actions);
    EveryInterleavingIsSound(maxConns, actions);
    assert ConnOnce(m, id) && ConnGone(m, id) && Dropped(m, id);
  }

  /** No interleaving deadlocks: while any call is in flight, some thread can take a step. */
  lemma NeverDeadlocked(maxConns: int, actions: seq<Action>)
    requires Run(Start(maxConns), actions).threads != map[]
    ensures var m := Run(Start(maxConns), actions);
            exists t :: t in m.threads && Apply(m, Step(t)) != m
  {
    var m := Run(Start(maxConns), actions);
    EveryInterleavingIsSound(maxConns, actions);
    var t :| t in m.threads;
    if m.lock.Held? {
      assert Apply(m, Step(m.lock.holder)).threads != m.threads;
    } else {
      var c := ConnOf(m, m.threads[t].id);
      if m.threads[t].CloseEnter? && c.once.Running? {
        assert ConnOnce(m, m.threads[t].id);
        assert Apply(m, Step(c.once.runner)) != m;
      } else {
        assert Apply(m, Step(t)) != m;
      }
    }
  }
}
