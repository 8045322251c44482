/** The handler chain one small step at a time, with an explicit stack of what is still to do. A
    panic takes the stack down one frame after the other until one recovers it. The meaning of a
    chain is where these steps end. */
module ChainSteps {
  import opened Chain

  /** The loop in Next, the rest of a handler, a handler to be left, or a deferred recover. */
  datatype Frame =
    | Looping
    | Playing(s: Script)
    | Leaving(i: nat)
    | Catching(recovery: Script, rest: Script)

  datatype Stack = Empty | Push(top: Frame, below: Stack)

  datatype Tape = Tape(stack: Stack, entered: nat, aborted: bool, marks: seq<Mark>, panicking: bool)

  function Tick(hs: Handlers, t: Tape): Tape {
    match t.stack
    case Empty => t
    case Push(top, below) =>
      if t.panicking then Unwound(t, top, below) else Advanced(hs, t, top, below)
  }

  /** A panic leaves the handler it is in, and stops only at a deferred recover. */
  function Unwound(t: Tape, top: Frame, below: Stack): Tape {
    match top
    case Leaving(i) => t.(stack := below, marks := t.marks + [Unwind(i)])
    case Catching(recovery, rest) =>
      t.(stack := Push(Playing(recovery), Push(Playing(rest), below)), panicking := false)
    case _ => t.(stack := below)
  }

  function Advanced(hs: Handlers, t: Tape, top: Frame, below: Stack): Tape {
    match top
    case Looping =>
      if t.aborted || t.entered >= |hs| then t.(stack := below)
      else
        t.(stack := Push(Playing(hs[t.entered]), Push(Leaving(t.entered), Push(Looping, below))),
           entered := t.entered + 1,
           marks := t.marks + [Enter(t.entered)])
    case Leaving(i) => t.(stack := below, marks := t.marks + [Leave(i)])
    case Catching(_, rest) => t.(stack := Push(Playing(rest), below))
    case Playing(Done) => t.(stack := below)
    case Playing(Emit(note, rest)) => t.(stack := Push(Playing(rest), below), marks := t.marks + [Note(note)])
    case Playing(CallAbort(rest)) => t.(stack := Push(Playing(rest), below), aborted := true)
    case Playing(Raise) => t.(stack := below, panicking := true)
    case Playing(CallNext(rest)) => t.(stack := Push(Looping, Push(Playing(rest), below)))
    case Playing(Guarded(recovery, rest)) => t.(stack := Push(Looping, Push(Catching(recovery, rest), below)))
  }

  function Ticks(hs: Handlers, t: Tape, n: nat): Tape
    decreases n
  {
    if n == 0 then t else Ticks(hs, Tick(hs, t), n - 1)
  }

  lemma {:induction false} TicksAdd(hs: Handlers, t: Tape, a: nat, b: nat)
    ensures Ticks(hs, t, a + b) == Ticks(hs, Ticks(hs, t, a), b)
    decreases a
  {
    if a == 0 {
    } else {
      TicksAdd(hs, Tick(hs, t), a - 1, b);
    }
  }

  /** From `from` the steps lead to `to`. */
  ghost predicate Leads(hs: Handlers, from: Tape, to: Tape) {
    exists n: nat :: Ticks(hs, from, n) == to
  }

  lemma LeadsThrough(hs: Handlers, from: Tape, middle: Tape, to: Tape)
    requires Leads(hs, from, middle) && Leads(hs, middle, to)
    ensures Leads(hs, from, to)
  {
    var a: nat :| Ticks(hs, from, a) == middle;
    var b: nat :| Ticks(hs, middle, b) == to;
    TicksAdd(hs, from, a, b);
  }

  lemma LeadsByTick(hs: Handlers, from: Tape)
    ensures Leads(hs, from, Tick(hs, from))
  {
    assert Ticks(hs, from, 1) == Ticks(hs, Tick(hs, from), 0);
  }

  lemma TickThenLeads(hs: Handlers, from: Tape, to: Tape)
    requires Leads(hs, Tick(hs, from), to)
    ensures Leads(hs, from, to)
  {
    LeadsByTick(hs, from);
    LeadsThrough(hs, from, Tick(hs, from), to);
  }

  lemma LeadsThenTick(hs: Handlers, from: Tape, to: Tape)
    requires Leads(hs, from, to)
    ensures Leads(hs, from, Tick(hs, to))
  {
    LeadsByTick(hs, to);
    LeadsThrough(hs, from, to, Tick(hs, to));
  }

  /** The tape when what stood on top of `below` has ended as `e` says. */
  function Reached(below: Stack, marks: seq<Mark>, e: End): Tape {
    Tape(below, e.entered, e.aborted, marks + e.marks, e.panicking)
  }

  function At(top: Frame, below: Stack, p: nat, aborted: bool, marks: seq<Mark>): Tape {
    Tape(Push(top, below), p, aborted, marks, false)
  }

  lemma ReachedThen(below: Stack, marks: seq<Mark>, more: seq<Mark>, e: End)
    ensures Reached(below, marks + more, e) == Reached(below, marks, Then(more, e))
  {
    assert marks + more + e.marks == marks + (more + e.marks);
  }

  /** The loop of Next ends as the chain from there on means. */
  lemma {:induction false} LoopReaches(hs: Handlers, p: nat, aborted: bool, marks: seq<Mark>, below: Stack)
    requires p <= |hs|
    ensures Leads(hs, At(Looping, below, p, aborted, marks), Reached(below, marks, Drain(hs, p, aborted)))
    decreases |hs| - p, 0
  {
    var from := At(Looping, below, p, aborted, marks);
    if p == |hs| || aborted {
      assert marks + [] == marks;
      LeadsByTick(hs, from);
    } else {
      var b := Run(hs, hs[p], p + 1, false);
      var loop := Push(Looping, below);
      PlayReaches(hs, hs[p], p + 1, false, marks + [Enter(p)], Push(Leaving(p), loop));
      TickThenLeads(hs, from, Reached(Push(Leaving(p), loop), marks + [Enter(p)], b));
      LeadsThenTick(hs, from, Reached(Push(Leaving(p), loop), marks + [Enter(p)], b));
      LeftHandler(hs, p, marks, below);
      if b.panicking {
        LeadsThenTick(hs, from, Reached(loop, marks, Drain(hs, p, false)));
      } else {
        var visit := [Enter(p)] + b.marks + [Leave(p)];
        LoopReaches(hs, b.entered, b.aborted, marks + visit, below);
        ReachedThen(below, marks, visit, Drain(hs, b.entered, b.aborted));
        LeadsThrough(hs, from, At(Looping, below, b.entered, b.aborted, marks + visit), Reached(below, marks, Drain(hs, p, false)));
      }
    }
  }

  lemma LeftHandler(hs: Handlers, p: nat, marks: seq<Mark>, below: Stack)
    requires p < |hs|
    ensures var b := Run(hs, hs[p], p + 1, false);
            Tick(hs, Reached(Push(Leaving(p), Push(Looping, below)), marks + [Enter(p)], b))
            == Tape(Push(Looping, below), b.entered, b.aborted,
                    marks + ([Enter(p)] + b.marks + [if b.panicking then Unwind(p) else Leave(p)]), b.panicking)
  {
    var b := Run(hs, hs[p], p + 1, false);
    var last := if b.panicking then Unwind(p) else Leave(p);
    assert marks + [Enter(p)] + b.marks + [last] == marks + ([Enter(p)] + b.marks + [last]);
  }

  /** A handler ends as its script means. */
  lemma {:induction false} PlayReaches(hs: Handlers, s: Script, p: nat, aborted: bool, marks: seq<Mark>, below: Stack)
    requires p <= |hs|
    ensures Leads(hs, At(Playing(s), below, p, aborted, marks), Reached(below, marks, Run(hs, s, p, aborted)))
    decreases |hs| - p, 1, s, 0
  {
    var from, to := At(Playing(s), below, p, aborted, marks), Reached(below, marks, Run(hs, s, p, aborted));
    match s
    case Done =>
      assert marks + [] == marks;
      LeadsByTick(hs, from);
    case Raise =>
      assert marks + [] == marks;
      LeadsByTick(hs, from);
    case Emit(note, rest) =>
      PlayReaches(hs, rest, p, aborted, marks + [Note(note)], below);
      ReachedThen(below, marks, [Note(note)], Run(hs, rest, p, aborted));
      TickThenLeads(hs, from, to);
    case CallAbort(rest) =>
      PlayReaches(hs, rest, p, true, marks, below);
      TickThenLeads(hs, from, to);
    case CallNext(rest) =>
      var d := Drain(hs, p, aborted);
      LoopReaches(hs, p, aborted, marks, Push(Playing(rest), below));
      TickThenLeads(hs, from, Reached(Push(Playing(rest), below), marks, d));
      if d.panicking {
        LeadsThenTick(hs, from, Reached(Push(Playing(rest), below), marks, d));
      } else {
        PlayOn(hs, from, rest, below, marks, d);
      }
    case Guarded(recovery, rest) =>
      var d := Drain(hs, p, aborted);
      var caught := Reached(Push(Catching(recovery, rest), below), marks, d);
      LoopReaches(hs, p, aborted, marks, Push(Catching(recovery, rest), below));
      TickThenLeads(hs, from, caught);
      LeadsThenTick(hs, from, caught);
      if !d.panicking {
        PlayOn(hs, from, rest, below, marks, d);
      } else {
        var c := Run(hs, recovery, d.entered, d.aborted);
        PlayOn(hs, from, recovery, Push(Playing(rest), below), marks, d.(panicking := false));
        if c.panicking {
          LeadsThenTick(hs, from, Reached(Push(Playing(rest), below), marks, Then(d.marks, c)));
        } else {
          PlayOn(hs, from, rest, below, marks, Then(d.marks, c));
        }
      }
  }

  /** What has been reached without a panic goes on with the next script. */
  lemma {:induction false} PlayOn(hs: Handlers, from: Tape, s: Script, below: Stack, marks: seq<Mark>, e: End)
    requires e.entered <= |hs| && !e.panicking
    requires Leads(hs, from, Reached(Push(Playing(s), below), marks, e))
    ensures Leads(hs, from, Reached(below, marks, Then(e.marks, Run(hs, s, e.entered, e.aborted))))
    decreases |hs| - e.entered, 1, s, 1
  {
    PlayReaches(hs, s, e.entered, e.aborted, marks + e.marks, below);
    ReachedThen(below, marks, e.marks, Run(hs, s, e.entered, e.aborted));
    LeadsThrough(hs, from, Reached(Push(Playing(s), below), marks, e),
                 Reached(below, marks, Then(e.marks, Run(hs, s, e.entered, e.aborted))));
  }

  lemma {:induction false} EndStays(hs: Handlers, t: Tape, n: nat)
    requires t.stack == Empty
    ensures Ticks(hs, t, n) == t
    decreases n
  {
    if n == 0 {
    } else {
      EndStays(hs, t, n - 1);
    }
  }

  /** After `n` steps the tape is `to`, and it stays so. */
  ghost predicate Settles(hs: Handlers, from: Tape, to: Tape, n: nat) {
    forall m: nat | m >= n :: Ticks(hs, from, m) == to
  }

  /** Step by step, a chain started on its first handler ends, and ends as it means: with the same
      handlers entered, the same marks in the same order, and a panic exactly if nobody recovered it. */
  lemma ChainEndsAsItMeans(hs: Handlers)
    ensures exists n: nat ::
              Settles(hs, At(Looping, Empty, 0, false, []), Reached(Empty, [], Drain(hs, 0, false)), n)
  {
    var from, to := At(Looping, Empty, 0, false, []), Reached(Empty, [], Drain(hs, 0, false));
    LoopReaches(hs, 0, false, [], Empty);
    var n: nat :| Ticks(hs, from, n) == to;
    forall m: nat | m >= n ensures Ticks(hs, from, m) == to {
      TicksAdd(hs, from, n, m - n);
      EndStays(hs, to, m - n);
    }
    assert Settles(hs, from, to, n);
  }
}
