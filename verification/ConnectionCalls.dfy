/** Whole calls on the table of connections: what the steps of a call amount to when nobody
    interrupts it, and, in every interleaving, which registrations are refused. */
module ConnectionCalls {
  import opened ConnectionSteps
  import opened Numbers

  function Steps(t: Thread, n: nat): seq<Action> {
    seq(n, _ => Step(t))
  }

  /** The machine after `n` steps of one thread. */
  function Onward(m: Machine, t: Thread, n: nat): Machine
    decreases n
  {
    if n == 0 then m else Onward(Apply(m, Step(t)), t, n - 1)
  }

  lemma {:induction false} OnwardIsRun(m: Machine, t: Thread, n: nat)
    ensures Run(m, Steps(t, n)) == Onward(m, t, n)
    decreases n
  {
    if n == 0 {
    } else {
      assert Steps(t, n) == [Step(t)] + Steps(t, n - 1);
      RunAppend(m, [Step(t)], Steps(t, n - 1));
      assert Run(m, [Step(t)]) == Apply(m, Step(t)) by {
        assert [Step(t)][..0] == [];
      }
      OnwardIsRun(Apply(m, Step(t)), t, n - 1);
    }
  }

  /** Steps of thread `t` alone lead from `m` to `to`. */
  ghost predicate Leads(m: Machine, t: Thread, to: Machine) {
    exists n: nat :: Onward(m, t, n) == to
  }

  lemma {:induction false} StepLeads(m: Machine, t: Thread, to: Machine)
    requires Leads(Apply(m, Step(t)), t, to)
    ensures Leads(m, t, to)
  {
    var n: nat :| Onward(Apply(m, Step(t)), t, n) == to;
    assert Onward(m, t, n + 1) == to;
  }

  lemma {:induction false} ArrivesAtOnce(m: Machine, t: Thread)
    ensures Leads(m, t, m)
  {
    assert Onward(m, t, 0) == m;
  }

  /** Thread `t` begins a call and, with nobody else moving, the call ends with the machine at `to`. */
  ghost predicate Ends(m: Machine, begin: Action, t: Thread, to: Machine) {
    t !in to.threads && exists n: nat :: Run(m, [begin] + Steps(t, n)) == to
  }

  lemma {:induction false} CallEnds(m: Machine, begin: Action, t: Thread, to: Machine)
    requires t !in to.threads && Leads(Apply(m, begin), t, to)
    ensures Ends(m, begin, t, to)
  {
    var n: nat :| Onward(Apply(m, begin), t, n) == to;
    RunAppend(m, [begin], Steps(t, n));
    assert Run(m, [begin]) == Apply(m, begin) by {
      assert [begin][..0] == [];
    }
    OnwardIsRun(Apply(m, begin), t, n);
  }

  // ------------------------------------------------------------------
  // Registering a connection
  // ------------------------------------------------------------------

  /** The table and the counter after a registration, and whatever became of it, the connection is known. */
  function Registered(m: Machine, id: Id): Machine {
    var known := m.(conns := m.conns[id := Conn(Active, Unused, 0, 0, 0)]);
    if |m.stored| < m.maxConns then
      known.(stored := m.stored + {id}, published := m.published + {id}, active := m.active + 1)
    else known
  }

  /** Uninterrupted, the registration of a new connection stores and counts it if there is room, and
      otherwise leaves table and counter alone. */
  lemma {:induction false} AddAlone(m: Machine, t: Thread, id: Id)
    requires CountInv(m) && m.lock.Free? && t !in m.threads && id !in m.conns
    ensures Ends(m, Open(t, id), t, Registered(m, id))
  {
    var begun := Apply(m, Open(t, id));
    var locked := Apply(begun, Step(t));
    assert locked == Goto(begun.(lock := Held(t)), t, AddCheck(id));
    var checked := Apply(locked, Step(t));
    if m.active < m.maxConns {
      assert checked == Goto(locked, t, AddStore(id));
      var stored := Apply(checked, Step(t));
      var counted := Apply(stored, Step(t));
      assert counted == Goto(locked.(stored := m.stored + {id}, published := m.published + {id}, active := m.active + 1),
                             t, AddUnlock(id));
      UnlockLeads(m, counted, t, Registered(m, id));
      StepLeads(stored, t, Registered(m, id));
      StepLeads(checked, t, Registered(m, id));
    } else {
      assert checked == Goto(locked, t, AddUnlock(id));
      UnlockLeads(m, checked, t, Registered(m, id));
    }
    StepLeads(locked, t, Registered(m, id));
    StepLeads(begun, t, Registered(m, id));
    CallEnds(m, Open(t, id), t, Registered(m, id));
  }

  lemma {:induction false} UnlockLeads(m: Machine, held: Machine, t: Thread, to: Machine)
    requires t in held.threads && held.threads[t].AddUnlock?
    requires to == held.(lock := Free, threads := held.threads - {t})
    ensures Leads(held, t, to)
  {
    ArrivesAtOnce(to, t);
    StepLeads(held, t, to);
  }

  // ------------------------------------------------------------------
  // Removing and closing a connection
  // ------------------------------------------------------------------

  /** A connection that is in the table leaves it and is taken off the counter; any other is left alone. */
  function Removed(m: Machine, id: Id): Machine {
    if id !in m.stored then m
    else
      Update(m.(stored := m.stored - {id}, active := m.active - 1), id,
             ConnOf(m, id).(drops := ConnOf(m, id).drops + 1))
  }

  /** The removal, up to releasing the lock. */
  lemma {:induction false} RemovalLeads(m: Machine, t: Thread, id: Id, closing: bool, to: Machine)
    requires m.lock.Free? && t in m.threads && m.threads[t] == RemoveLock(id, closing)
    requires Leads(Goto(Removed(m, id).(lock := Held(t)), t, RemoveUnlock(id, closing)), t, to)
    ensures Leads(m, t, to)
  {
    var locked := Apply(m, Step(t));
    assert locked == Goto(m.(lock := Held(t)), t, RemoveDelete(id, closing));
    var deleted := Apply(locked, Step(t));
    if id in m.stored {
      assert deleted == Goto(locked.(stored := m.stored - {id}), t, RemoveCount(id, closing));
      assert Apply(deleted, Step(t)) == Goto(Removed(m, id).(lock := Held(t)), t, RemoveUnlock(id, closing));
      StepLeads(deleted, t, to);
    } else {
      assert deleted == Goto(Removed(m, id).(lock := Held(t)), t, RemoveUnlock(id, closing));
    }
    StepLeads(locked, t, to);
    StepLeads(m, t, to);
  }

  /** Uninterrupted, a removal takes out and off the counter what is in the table, and nothing else. */
  lemma {:induction false} RemoveAlone(m: Machine, t: Thread, id: Id)
    requires m.lock.Free? && t !in m.threads && id in m.published
    ensures Ends(m, Remove(t, id), t, Removed(m, id))
  {
    var begun := Apply(m, Remove(t, id));
    var held := Goto(Removed(begun, id).(lock := Held(t)), t, RemoveUnlock(id, false));
    assert Apply(held, Step(t)).threads == m.threads;
    assert Apply(held, Step(t)) == Removed(m, id);
    ArrivesAtOnce(Removed(m, id), t);
    StepLeads(held, t, Removed(m, id));
    RemovalLeads(begun, t, id, false, Removed(m, id));
    CallEnds(m, Remove(t, id), t, Removed(m, id));
  }

  /** The connection after a close has run on it. */
  function Shut(c: Conn): Conn {
    c.(life := Closed, once := Finished, notified := c.notified + 1, channelCloses := c.channelCloses + 1)
  }

  /** A close as it comes to removing the connection. */
  function Settled(m: Machine, t: Thread, id: Id): Machine {
    Goto(Update(m, id, Shut(ConnOf(m, id)).(once := Running(t))), t, RemoveLock(id, true))
  }

  /** A step in the body of a close that changes the connection and goes on. */
  lemma {:induction false} BodyStep(m: Machine, t: Thread, id: Id, c: Conn, pc: Pc, next: Conn, goto: Pc, to: Machine)
    requires match pc
             case CloseMark(i) => i == id && next == c.(life := Closing) && goto == CloseNotify(id)
             case CloseNotify(i) => i == id && next == c.(notified := c.notified + 1) && goto == CloseChannel(id)
             case CloseChannel(i) => i == id && next == c.(channelCloses := c.channelCloses + 1) && goto == CloseSettle(id)
             case CloseSettle(i) => i == id && next == c.(life := Closed) && goto == RemoveLock(id, true)
             case _ => false
    requires Leads(Goto(Update(m, id, next), t, goto), t, to)
    ensures Leads(Goto(Update(m, id, c), t, pc), t, to)
  {
    assert Apply(Goto(Update(m, id, c), t, pc), Step(t)) == Goto(Update(m, id, next), t, goto);
    StepLeads(Goto(Update(m, id, c), t, pc), t, to);
  }

  lemma {:induction false} BodyLeads(m: Machine, t: Thread, id: Id, c: Conn, to: Machine)
    requires Leads(Goto(Update(m, id, c.(notified := c.notified + 1, channelCloses := c.channelCloses + 1, life := Closed)),
                        t, RemoveLock(id, true)), t, to)
    ensures Leads(Goto(Update(m, id, c), t, CloseMark(id)), t, to)
  {
    var marked := c.(life := Closing);
    var told := marked.(notified := c.notified + 1);
    var shut := told.(channelCloses := c.channelCloses + 1);
    BodyStep(m, t, id, shut, CloseSettle(id), shut.(life := Closed), RemoveLock(id, true), to);
    BodyStep(m, t, id, told, CloseChannel(id), shut, CloseSettle(id), to);
    BodyStep(m, t, id, marked, CloseNotify(id), told, CloseChannel(id), to);
    BodyStep(m, t, id, c, CloseMark(id), marked, CloseNotify(id), to);
  }

  lemma {:induction false} GuardAdmits(m: Machine, t: Thread, id: Id)
    requires t in m.threads && m.threads[t] == CloseEnter(id) && ConnOf(m, id).once == Unused
    ensures Apply(m, Step(t)) == Goto(Update(m, id, ConnOf(m, id).(once := Running(t))), t, CloseMark(id))
  {
  }

  /** From being admitted by the guard to the removal. */
  lemma {:induction false} ClosingLeads(m: Machine, t: Thread, id: Id, to: Machine)
    requires t in m.threads && m.threads[t] == CloseEnter(id) && ConnOf(m, id).once == Unused
    requires Leads(Settled(m, t, id), t, to)
    ensures Leads(m, t, to)
  {
    GuardAdmits(m, t, id);
    BodyLeads(m, t, id, ConnOf(m, id).(once := Running(t)), to);
    StepLeads(m, t, to);
  }

  /** The machine after a first close. */
  function ClosedFirst(m: Machine, id: Id): Machine {
    Removed(Update(m, id, Shut(ConnOf(m, id))).(closedFor := m.closedFor + {id}), id)
  }

  /** Uninterrupted, the first close of a connection notifies its handler, closes its channel, settles
      it as closed and removes it. */
  lemma {:induction false} FirstCloseAlone(m: Machine, t: Thread, id: Id)
    requires m.lock.Free? && t !in m.threads && id in m.published && ConnOf(m, id).once == Unused
    ensures Ends(m, Close(t, id), t, ClosedFirst(m, id))
  {
    var begun := Apply(m, Close(t, id));
    CloseEnds(m, begun, t, id);
    RemovalLeads(Settled(begun, t, id), t, id, true, ClosedFirst(m, id));
    ClosingLeads(begun, t, id, ClosedFirst(m, id));
    CallEnds(m, Close(t, id), t, ClosedFirst(m, id));
  }

  lemma {:induction false} CloseEnds(m: Machine, begun: Machine, t: Thread, id: Id)
    requires t !in m.threads && m.lock.Free? && begun == Goto(m, t, CloseEnter(id))
    ensures var shut := Settled(begun, t, id);
            Leads(Goto(Removed(shut, id).(lock := Held(t)), t, RemoveUnlock(id, true)), t, ClosedFirst(m, id))
  {
    var left := Removed(Settled(begun, t, id), id);
    var freed := Goto(left, t, CloseFinish(id));
    var held := Goto(left.(lock := Held(t)), t, RemoveUnlock(id, true));
    FinishEnds(m, begun, t, id);
    ArrivesAtOnce(ClosedFirst(m, id), t);
    StepLeads(freed, t, ClosedFirst(m, id));
    UnlockGoesOn(left, t, id);
    StepLeads(held, t, ClosedFirst(m, id));
  }

  lemma {:induction false} UnlockGoesOn(m: Machine, t: Thread, id: Id)
    requires m.lock.Free?
    ensures Apply(Goto(m.(lock := Held(t)), t, RemoveUnlock(id, true)), Step(t)) == Goto(m, t, CloseFinish(id))
  {
  }

  lemma {:induction false} FinishEnds(m: Machine, begun: Machine, t: Thread, id: Id)
    requires t !in m.threads && m.lock.Free? && begun == Goto(m, t, CloseEnter(id))
    ensures Apply(Goto(Removed(Settled(begun, t, id), id), t, CloseFinish(id)), Step(t)) == ClosedFirst(m, id)
  {
    var done := Apply(Goto(Removed(Settled(begun, t, id), id), t, CloseFinish(id)), Step(t));
    assert done.threads == m.threads;
    assert done.conns == ClosedFirst(m, id).conns;
  }

  /** Any later close returns without doing anything. */
  lemma {:induction false} LaterCloseAlone(m: Machine, t: Thread, id: Id)
    requires t !in m.threads && id in m.published && ConnOf(m, id).once == Finished
    ensures Ends(m, Close(t, id), t, m.(closedFor := m.closedFor + {id}))
  {
    var begun := Apply(m, Close(t, id));
    var done := m.(closedFor := m.closedFor + {id});
    assert Apply(begun, Step(t)).threads == m.threads;
    assert Apply(begun, Step(t)) == done;
    ArrivesAtOnce(done, t);
    StepLeads(begun, t, done);
    CallEnds(m, Close(t, id), t, done);
  }

  /** A call waits while another holds the lock it needs, and a close while another runs the body. */
  lemma {:induction false} Waits(m: Machine, t: Thread)
    requires t in m.threads
    ensures (m.threads[t].AddLock? || m.threads[t].RemoveLock?) && m.lock.Held? ==> Apply(m, Step(t)) == m
    ensures m.threads[t].CloseEnter? && ConnOf(m, m.threads[t].id).once.Running? ==> Apply(m, Step(t)) == m
  {
  }

  /** A close frame from the peer settles the connection as closed, and leaves it in the table. */
  lemma {:induction false} PeerCloseOnlySettles(m: Machine, id: Id)
    requires id in m.published && id in m.conns
    ensures Apply(m, PeerClose(id)) == m.(conns := m.conns[id := m.conns[id].(life := Closed)])
  {
  }

  // ------------------------------------------------------------------
  // Which registrations are refused
  // ------------------------------------------------------------------

  /** In the run, the registration of `id` found the table full when it looked. */
  ghost predicate FoundFull(maxConns: int, actions: seq<Action>, id: Id)
    decreases |actions|
  {
    actions != [] &&
    var init, a := actions[..|actions| - 1], actions[|actions| - 1];
    FoundFull(maxConns, init, id) || ChecksFull(Run(Start(maxConns), init), a, id)
  }

  ghost predicate ChecksFull(m: Machine, a: Action, id: Id) {
    a.Step? && a.t in m.threads && m.threads[a.t] == AddCheck(id) && |m.stored| >= m.maxConns
  }

  predicate Joins(m: Machine, t: Thread, id: Id) {
    t in m.threads && Joining(m.threads[t]) && m.threads[t].id == id
  }

  /** The registration of `id` is on its way. */
  ghost predicate OnItsWay(m: Machine, id: Id) {
    exists t :: Joins(m, t, id)
  }

  /** What became of `id`: nothing yet, or exactly one of being on its way, published, or refused. */
  ghost predicate Fate(m: Machine, id: Id, full: bool) {
    && (id in m.conns <==> OnItsWay(m, id) || id in m.published || full)
    && !(OnItsWay(m, id) && id in m.published)
    && !(OnItsWay(m, id) && full)
    && !(id in m.published && full)
  }

  /** The lock is the thread's own when it looks, so the counter it reads is the number of stored connections. */
  lemma {:induction false} CheckSeesTable(m: Machine, t: Thread)
    requires LockInv(m) && CountInv(m) && t in m.threads && m.threads[t].AddCheck?
    ensures m.active == |m.stored|
  {
  }

  predicate Stores(m: Machine, t: Thread, id: Id) {
    t in m.threads && m.threads[t] == AddStore(id)
  }

  lemma {:induction false} StepOfJoiner(m: Machine, t: Thread, u: Thread, id: Id)
    requires LockInv(m) && CountInv(m) && t in m.threads
    ensures Joins(Apply(m, Step(t)), u, id) <==>
              Joins(m, u, id) && !(u == t && (ChecksFull(m, Step(t), id) || Stores(m, t, id)))
  {
    if m.threads[t].AddCheck? {
      CheckSeesTable(m, t);
    }
  }

  lemma {:induction false} StepPublishes(m: Machine, t: Thread, id: Id)
    requires t in m.threads
    ensures id in Apply(m, Step(t)).published <==> id in m.published || Stores(m, t, id)
  {
  }

  /** Only one thread ever registers a connection, and not one that was published. */
  lemma {:induction false} OneJoins(m: Machine, t: Thread, u: Thread, id: Id)
    requires IdInv(m) && Joins(m, t, id) && Joins(m, u, id)
    ensures t == u && id !in m.published && id in m.conns
  {
    assert ThreadId(m, t) && Apart(m, t, u);
  }

  lemma {:induction false} StepMovesWay(m: Machine, t: Thread, id: Id)
    requires IdInv(m) && LockInv(m) && CountInv(m) && t in m.threads
    ensures OnItsWay(Apply(m, Step(t)), id)
       <==> OnItsWay(m, id) && !ChecksFull(m, Step(t), id) && !Stores(m, t, id)
  {
    forall u ensures Joins(Apply(m, Step(t)), u, id) <==>
                       Joins(m, u, id) && !ChecksFull(m, Step(t), id) && !Stores(m, t, id)
    {
      StepOfJoiner(m, t, u, id);
      if Joins(m, u, id) && Joins(m, t, id) {
        OneJoins(m, t, u, id);
      }
    }
  }

  lemma {:induction false} BeginMovesWay(m: Machine, a: Action, id: Id)
    requires IdInv(m) && !(a.Step? && a.t in m.threads)
    ensures OnItsWay(Apply(m, a), id)
       <==> OnItsWay(m, id) || (a.Open? && a.t !in m.threads && a.id == id && id !in m.conns)
    ensures Apply(m, a).published == m.published
  {
    var r := Apply(m, a);
    forall u | u in m.threads ensures u in r.threads && r.threads[u] == m.threads[u] {
    }
    if OnItsWay(m, id) {
      var u :| Joins(m, u, id);
      assert Joins(r, u, id);
    }
    if a.Open? && a.t !in m.threads && a.id == id && id !in m.conns {
      assert Joins(r, a.t, id);
    }
    if OnItsWay(r, id) {
      var u :| Joins(r, u, id);
      assert Joins(m, u, id) || (a.Open? && u == a.t && a.id == id);
    }
  }

  lemma {:induction false} StepKeepsFate(m: Machine, t: Thread, id: Id, full: bool)
    requires IdInv(m) && LockInv(m) && CountInv(m) && Fate(m, id, full) && t in m.threads
    ensures Fate(Apply(m, Step(t)), id, full || ChecksFull(m, Step(t), id))
  {
    StepMovesWay(m, t, id);
    StepPublishes(m, t, id);
    if ChecksFull(m, Step(t), id) || Stores(m, t, id) {
      assert Joins(m, t, id);
      OneJoins(m, t, t, id);
    }
    assert ThreadId(m, t);
    assert Apply(m, Step(t)).conns.Keys == m.conns.Keys;
  }

  lemma {:induction false} BeginKeepsFate(m: Machine, a: Action, id: Id, full: bool)
    requires IdInv(m) && Fate(m, id, full) && !(a.Step? && a.t in m.threads)
    ensures Fate(Apply(m, a), id, full)
  {
    BeginMovesWay(m, a, id);
  }

  lemma {:induction false} EveryRegistrationHasAFate(maxConns: int, actions: seq<Action>, id: Id)
    ensures Fate(Run(Start(maxConns), actions), id, FoundFull(maxConns, actions, id))
    decreases |actions|
  {
    if actions == [] {
    } else {
      var init := actions[..|actions| - 1];
      EveryRegistrationHasAFate(maxConns, init, id);
      EveryInterleavingIsSound(maxConns, init);
      var m, a := Run(Start(maxConns), init), actions[|actions| - 1];
      if a.Step? && a.t in m.threads {
        StepKeepsFate(m, a.t, id, FoundFull(maxConns, init, id));
      } else {
        BeginKeepsFate(m, a, id, FoundFull(maxConns, init, id));
      }
    }
  }

  /** In every interleaving, a registration that is no longer on its way was refused if and only if
      the table was full when it looked. */
  lemma {:induction false} RefusedExactlyWhenFull(maxConns: int, actions: seq<Action>, id: Id)
    requires id in Run(Start(maxConns), actions).conns && !OnItsWay(Run(Start(maxConns), actions), id)
    ensures id !in Run(Start(maxConns), actions).published <==> FoundFull(maxConns, actions, id)
  {
    EveryRegistrationHasAFate(maxConns, actions, id);
  }
}
