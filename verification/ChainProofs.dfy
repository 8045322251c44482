/** What a handler chain does, for every list of handlers. */
module ChainProofs {
  import opened Chain

  // ------------------------------------------------------------------
  // Handlers are entered in order, once each, with or without panics
  // ------------------------------------------------------------------

  function Entered(marks: seq<Mark>): seq<int> {
    if marks == [] then []
    else (if marks[0].Enter? then [marks[0].i] else []) + Entered(marks[1..])
  }

  function Range(from: nat, to: nat): seq<int>
    requires from <= to
  {
    seq(to - from, i requires 0 <= i < to - from => from + i)
  }

  lemma {:induction false} EnteredAppend(a: seq<Mark>, b: seq<Mark>)
    ensures Entered(a + b) == Entered(a) + Entered(b)
  {
    if a == [] {
      assert a + b == b;
    } else {
      EnteredAppend(a[1..], b);
      assert (a + b)[1..] == a[1..] + b;
      var head := if a[0].Enter? then [a[0].i] else [];
      assert head + (Entered(a[1..]) + Entered(b)) == head + Entered(a[1..]) + Entered(b);
    }
  }

  lemma EnteredThen(a: seq<Mark>, e: End)
    ensures Entered(Then(a, e).marks) == Entered(a) + Entered(e.marks)
  {
    EnteredAppend(a, e.marks);
  }

  /** Whatever panics and whatever recovers: no handler is skipped and none entered twice. */
  lemma {:induction false} DrainEntersInOrder(hs: Handlers, p: nat, aborted: bool)
    requires p <= |hs|
    ensures Entered(Drain(hs, p, aborted).marks) == Range(p, Drain(hs, p, aborted).entered)
    decreases |hs| - p, 0
  {
    if p == |hs| || aborted {
    } else {
      var b := Run(hs, hs[p], p + 1, false);
      RunEntersInOrder(hs, hs[p], p + 1, false);
      var last := if b.panicking then Unwind(p) else Leave(p);
      EnteredAppend([Enter(p)], b.marks);
      EnteredAppend([Enter(p)] + b.marks, [last]);
      assert Entered([Enter(p)]) == [p] && Entered([last]) == [];
      assert [p] + Range(p + 1, b.entered) == Range(p, b.entered);
      if !b.panicking {
        DrainEntersInOrder(hs, b.entered, b.aborted);
        EnteredThen([Enter(p)] + b.marks + [last], Drain(hs, b.entered, b.aborted));
        RangeJoin(p, b.entered, Drain(hs, b.entered, b.aborted).entered);
      }
    }
  }

  lemma RangeJoin(a: nat, b: nat, c: nat)
    requires a <= b <= c
    ensures Range(a, b) + Range(b, c) == Range(a, c)
  {
  }

  lemma InRange(x: nat, a: nat, b: nat)
    requires a <= b
    ensures x in Range(a, b) <==> a <= x < b
  {
    if a <= x < b {
      assert Range(a, b)[x - a] == x;
    }
  }

  lemma {:induction false} RunEntersInOrder(hs: Handlers, s: Script, p: nat, aborted: bool)
    requires p <= |hs|
    ensures Entered(Run(hs, s, p, aborted).marks) == Range(p, Run(hs, s, p, aborted).entered)
    decreases |hs| - p, 1, s
  {
    match s
    case Done =>
    case Raise =>
    case Emit(note, rest) =>
      RunEntersInOrder(hs, rest, p, aborted);
      EnteredThen([Note(note)], Run(hs, rest, p, aborted));
    case CallAbort(rest) =>
      RunEntersInOrder(hs, rest, p, true);
    case CallNext(rest) =>
      var d := Drain(hs, p, aborted);
      DrainEntersInOrder(hs, p, aborted);
      if !d.panicking {
        RunEntersInOrder(hs, rest, d.entered, d.aborted);
        JoinEntered(d.marks, Run(hs, rest, d.entered, d.aborted), p, d.entered);
      }
    case Guarded(recovery, rest) =>
      var d := Drain(hs, p, aborted);
      DrainEntersInOrder(hs, p, aborted);
      var made, q, stopped := d.marks, d.entered, d.aborted;
      if d.panicking {
        var c := Run(hs, recovery, q, stopped);
        RunEntersInOrder(hs, recovery, q, stopped);
        JoinEntered(made, c, p, q);
        made, q, stopped := made + c.marks, c.entered, c.aborted;
      }
      RunEntersInOrder(hs, rest, q, stopped);
      JoinEntered(made, Run(hs, rest, q, stopped), p, q);
  }

  /** What is shown by entering `p` to `q` and then going on. */
  lemma JoinEntered(marks: seq<Mark>, e: End, p: nat, q: nat)
    requires p <= q <= e.entered
    requires Entered(marks) == Range(p, q) && Entered(e.marks) == Range(q, e.entered)
    ensures Entered(Then(marks, e).marks) == Range(p, e.entered)
  {
    EnteredThen(marks, e);
    RangeJoin(p, q, e.entered);
  }

  // ------------------------------------------------------------------
  // Enter and leave marks nest
  // ------------------------------------------------------------------

  datatype Nesting = Broken | Depth(stack: seq<int>)

  /** Every leave or unwind must be for the handler entered last and not yet left. */
  function Nest(stack: seq<int>, marks: seq<Mark>): Nesting
    decreases |marks|
  {
    if marks == [] then Depth(stack)
    else
      match marks[0]
      case Enter(i) => Nest(stack + [i], marks[1..])
      case Note(_) => Nest(stack, marks[1..])
      case Leave(i) =>
        if stack != [] && stack[|stack| - 1] == i then Nest(stack[..|stack| - 1], marks[1..]) else Broken
      case Unwind(i) =>
        if stack != [] && stack[|stack| - 1] == i then Nest(stack[..|stack| - 1], marks[1..]) else Broken
  }

  ghost predicate Balanced(marks: seq<Mark>) {
    forall stack :: Nest(stack, marks) == Depth(stack)
  }

  lemma {:induction false} NestAppend(stack: seq<int>, a: seq<Mark>, b: seq<Mark>)
    ensures Nest(stack, a + b) == match Nest(stack, a)
                                  case Broken => Broken
                                  case Depth(inner) => Nest(inner, b)
    decreases |a|
  {
    if a == [] {
      assert a + b == b;
    } else {
      assert (a + b)[1..] == a[1..] + b;
      match a[0]
      case Enter(i) => NestAppend(stack + [i], a[1..], b);
      case Note(_) => NestAppend(stack, a[1..], b);
      case Leave(i) =>
        if stack != [] && stack[|stack| - 1] == i { NestAppend(stack[..|stack| - 1], a[1..], b); }
      case Unwind(i) =>
        if stack != [] && stack[|stack| - 1] == i { NestAppend(stack[..|stack| - 1], a[1..], b); }
    }
  }

  lemma BalancedAppend(a: seq<Mark>, b: seq<Mark>)
    requires Balanced(a) && Balanced(b)
    ensures Balanced(a + b)
  {
    forall stack ensures Nest(stack, a + b) == Depth(stack) {
      NestAppend(stack, a, b);
    }
  }

  lemma BalancedVisit(p: int, inner: seq<Mark>, last: Mark)
    requires Balanced(inner) && (last == Leave(p) || last == Unwind(p))
    ensures Balanced([Enter(p)] + inner + [last])
  {
    forall stack ensures Nest(stack, [Enter(p)] + inner + [last]) == Depth(stack) {
      NestAppend(stack, [Enter(p)] + inner, [last]);
      NestAppend(stack, [Enter(p)], inner);
      assert Nest(stack, [Enter(p)]) == Depth(stack + [p]);
      assert (stack + [p])[..|stack|] == stack;
      assert Nest(stack + [p], [last]) == Depth(stack);
    }
  }

  /** In every chain, handlers are left in the reverse of the order in which they were entered. */
  lemma {:induction false} DrainIsBalanced(hs: Handlers, p: nat, aborted: bool)
    requires p <= |hs|
    ensures Balanced(Drain(hs, p, aborted).marks)
    decreases |hs| - p, 0
  {
    if p == |hs| || aborted {
    } else {
      var b := Run(hs, hs[p], p + 1, false);
      RunIsBalanced(hs, hs[p], p + 1, false);
      var last := if b.panicking then Unwind(p) else Leave(p);
      BalancedVisit(p, b.marks, last);
      if !b.panicking {
        DrainIsBalanced(hs, b.entered, b.aborted);
        BalancedAppend([Enter(p)] + b.marks + [last], Drain(hs, b.entered, b.aborted).marks);
      }
    }
  }

  lemma {:induction false} RunIsBalanced(hs: Handlers, s: Script, p: nat, aborted: bool)
    requires p <= |hs|
    ensures Balanced(Run(hs, s, p, aborted).marks)
    decreases |hs| - p, 1, s
  {
    match s
    case Done =>
    case Raise =>
    case Emit(note, rest) =>
      RunIsBalanced(hs, rest, p, aborted);
      BalancedAppend([Note(note)], Run(hs, rest, p, aborted).marks);
    case CallAbort(rest) =>
      RunIsBalanced(hs, rest, p, true);
    case CallNext(rest) =>
      var d := Drain(hs, p, aborted);
      DrainIsBalanced(hs, p, aborted);
      if !d.panicking {
        RunIsBalanced(hs, rest, d.entered, d.aborted);
        BalancedAppend(d.marks, Run(hs, rest, d.entered, d.aborted).marks);
      }
    case Guarded(recovery, rest) =>
      var d := Drain(hs, p, aborted);
      DrainIsBalanced(hs, p, aborted);
      var made := d.marks;
      var q, stopped := d.entered, d.aborted;
      if d.panicking {
        var c := Run(hs, recovery, q, stopped);
        RunIsBalanced(hs, recovery, q, stopped);
        BalancedAppend(made, c.marks);
        made, q, stopped := made + c.marks, c.entered, c.aborted;
      }
      RunIsBalanced(hs, rest, q, stopped);
      BalancedAppend(made, Run(hs, rest, q, stopped).marks);
  }

  // ------------------------------------------------------------------
  // How far a chain gets
  // ------------------------------------------------------------------

  /** A chain that ends without a panic and without an abort has entered every handler,
      also when a panic on the way was recovered. */
  lemma {:induction false} UnabortedChainIsComplete(hs: Handlers, p: nat)
    requires p <= |hs|
    requires !Drain(hs, p, false).panicking && !Drain(hs, p, false).aborted
    ensures Drain(hs, p, false).entered == |hs|
    decreases |hs| - p
  {
    if p == |hs| {
    } else {
      var b := Run(hs, hs[p], p + 1, false);
      if !b.panicking && !b.aborted {
        UnabortedChainIsComplete(hs, b.entered);
      }
    }
  }

  /** A handler that aborts before it calls Next. */
  predicate Refuses(s: Script) {
    match s
    case Emit(_, rest) => Refuses(rest)
    case CallAbort(_) => true
    case _ => false
  }

  /** Handler `k` has not been entered, or it has and the chain is aborted right there. */
  predicate StoppedBy(k: nat, entered: nat, aborted: bool) {
    entered <= k || (entered == k + 1 && aborted)
  }

  lemma {:induction false} RefusalRun(hs: Handlers, s: Script, p: nat, aborted: bool)
    requires p <= |hs| && Refuses(s)
    ensures Run(hs, s, p, aborted).aborted && Run(hs, s, p, aborted).entered == p
  {
    match s
    case Emit(_, rest) => RefusalRun(hs, rest, p, aborted);
    case CallAbort(_) =>
  }

  /** Behind a handler that refuses, nothing is entered, whatever the handlers before it do,
      panic or recover. */
  lemma {:induction false} NothingBehindRefusal(hs: Handlers, k: nat, p: nat, aborted: bool)
    requires k < |hs| && Refuses(hs[k]) && p <= |hs| && StoppedBy(k, p, aborted)
    ensures StoppedBy(k, Drain(hs, p, aborted).entered, Drain(hs, p, aborted).aborted)
    decreases |hs| - p, 0
  {
    if p == |hs| || aborted {
    } else {
      var b := Run(hs, hs[p], p + 1, false);
      if p == k {
        RefusalRun(hs, hs[k], p + 1, false);
      } else {
        NothingBehindRefusalRun(hs, k, hs[p], p + 1, false);
      }
      if !b.panicking {
        NothingBehindRefusal(hs, k, b.entered, b.aborted);
      }
    }
  }

  lemma {:induction false} NothingBehindRefusalRun(hs: Handlers, k: nat, s: Script, p: nat, aborted: bool)
    requires k < |hs| && Refuses(hs[k]) && p <= |hs| && StoppedBy(k, p, aborted)
    ensures StoppedBy(k, Run(hs, s, p, aborted).entered, Run(hs, s, p, aborted).aborted)
    decreases |hs| - p, 1, s
  {
    match s
    case Done =>
    case Raise =>
    case Emit(_, rest) => NothingBehindRefusalRun(hs, k, rest, p, aborted);
    case CallAbort(rest) => NothingBehindRefusalRun(hs, k, rest, p, true);
    case CallNext(rest) =>
      var d := Drain(hs, p, aborted);
      NothingBehindRefusal(hs, k, p, aborted);
      NothingBehindRefusalRun(hs, k, rest, d.entered, d.aborted);
    case Guarded(recovery, rest) =>
      var d := Drain(hs, p, aborted);
      NothingBehindRefusal(hs, k, p, aborted);
      NothingBehindRefusalRun(hs, k, recovery, d.entered, d.aborted);
      var c := if d.panicking then Run(hs, recovery, d.entered, d.aborted) else d;
      NothingBehindRefusalRun(hs, k, rest, c.entered, c.aborted);
  }

  // ------------------------------------------------------------------
  // Chains without panics, read off the list of handlers
  // ------------------------------------------------------------------

  predicate Quiet(s: Script) {
    match s
    case Done => true
    case Raise => false
    case Emit(_, rest) => Quiet(rest)
    case CallNext(rest) => Quiet(rest)
    case CallAbort(rest) => Quiet(rest)
    case Guarded(_, rest) => Quiet(rest)
  }

  ghost predicate AllQuiet(hs: Handlers) {
    forall s <- hs :: Quiet(s)
  }

  predicate Calls(s: Script) {
    match s
    case Emit(_, rest) => Calls(rest)
    case CallNext(_) => true
    case Guarded(_, _) => true
    case _ => false
  }

  predicate Aborts(s: Script) {
    match s
    case Done => false
    case Raise => false
    case CallAbort(_) => true
    case Emit(_, rest) => Aborts(rest)
    case CallNext(rest) => Aborts(rest)
    case Guarded(_, rest) => Aborts(rest)
  }

  /** What a script shows when its first call of Next shows `inner` and any later one nothing. */
  function Weave(s: Script, inner: seq<Mark>): seq<Mark> {
    match s
    case Done => []
    case Raise => []
    case Emit(note, rest) => [Note(note)] + Weave(rest, inner)
    case CallAbort(rest) => Weave(rest, [])
    case CallNext(rest) => inner + Weave(rest, [])
    case Guarded(_, rest) => inner + Weave(rest, [])
  }

  /** The meaning of the handlers from `p` on, by recursion on the list: the rest of the chain
      stands at the first call of Next, or after the handler when it calls neither Next nor Abort. */
  function Unfold(hs: Handlers, p: nat): End
    requires p <= |hs|
    decreases |hs| - p
  {
    if p == |hs| then End(p, false, [], false)
    else
      var rest := Unfold(hs, p + 1);
      var s := hs[p];
      if Refuses(s) then End(p + 1, true, [Enter(p)] + Weave(s, []) + [Leave(p)], false)
      else if Calls(s) then
        End(rest.entered, rest.aborted || Aborts(s), [Enter(p)] + Weave(s, rest.marks) + [Leave(p)], false)
      else Then([Enter(p)] + Weave(s, []) + [Leave(p)], rest)
  }

  /** Once the chain is used up or aborted, calling Next again shows nothing. */
  lemma {:induction false} RunWhenSpent(hs: Handlers, s: Script, p: nat, aborted: bool)
    requires p <= |hs| && Quiet(s) && (p == |hs| || aborted)
    ensures Run(hs, s, p, aborted) == End(p, aborted || Aborts(s), Weave(s, []), false)
  {
    match s
    case Done =>
    case Emit(_, rest) => RunWhenSpent(hs, rest, p, aborted);
    case CallAbort(rest) => RunWhenSpent(hs, rest, p, true);
    case CallNext(rest) => RunWhenSpent(hs, rest, p, aborted);
    case Guarded(_, rest) => RunWhenSpent(hs, rest, p, aborted);
  }

  /** A quiet script before the rest of the chain has been touched. */
  lemma {:induction false} RunUnfolds(hs: Handlers, s: Script, p: nat)
    requires p <= |hs| && AllQuiet(hs) && Quiet(s)
    ensures var rest := Unfold(hs, p);
            Run(hs, s, p, false) ==
              if Refuses(s) then End(p, true, Weave(s, []), false)
              else if Calls(s) then End(rest.entered, rest.aborted || Aborts(s), Weave(s, rest.marks), false)
              else End(p, false, Weave(s, []), false)
    decreases |hs| - p, 1, s
  {
    match s
    case Done =>
    case Emit(_, rest) => RunUnfolds(hs, rest, p);
    case CallAbort(rest) => RunWhenSpent(hs, rest, p, true);
    case CallNext(rest) => RunAfterNext(hs, rest, p);
    case Guarded(_, rest) => RunAfterNext(hs, rest, p);
  }

  lemma {:induction false} RunAfterNext(hs: Handlers, rest: Script, p: nat)
    requires p <= |hs| && AllQuiet(hs) && Quiet(rest)
    ensures var d := Drain(hs, p, false);
            && d == Unfold(hs, p) && !d.panicking
            && Run(hs, rest, d.entered, d.aborted) == End(d.entered, d.aborted || Aborts(rest), Weave(rest, []), false)
    decreases |hs| - p, 1, rest
  {
    var d := Drain(hs, p, false);
    DrainUnfolds(hs, p);
    if !d.aborted {
      UnabortedChainIsComplete(hs, p);
    }
    RunWhenSpent(hs, rest, d.entered, d.aborted);
  }

  /** With no panics, the chain means what its unfolding over the list of handlers says. */
  lemma {:induction false} DrainUnfolds(hs: Handlers, p: nat)
    requires p <= |hs| && AllQuiet(hs)
    ensures Drain(hs, p, false) == Unfold(hs, p)
    ensures !Drain(hs, p, false).panicking
    decreases |hs| - p, 0
  {
    if p == |hs| {
    } else {
      var s := hs[p];
      assert s in hs;
      RunUnfolds(hs, s, p + 1);
      var b := Run(hs, s, p + 1, false);
      if Calls(s) && !b.aborted {
        SpentAfterCall(hs, s, p + 1);
      }
      if !Calls(s) && !Refuses(s) {
        DrainUnfolds(hs, p + 1);
      }
    }
  }

  lemma SpentAfterCall(hs: Handlers, s: Script, p: nat)
    requires p <= |hs| && AllQuiet(hs) && Quiet(s) && Calls(s) && !Refuses(s)
    requires !Run(hs, s, p, false).aborted
    ensures Run(hs, s, p, false).entered == |hs|
    decreases |hs| - p, 2, s
  {
    RunUnfolds(hs, s, p);
    DrainUnfolds(hs, p);
    UnabortedChainIsComplete(hs, p);
  }

  /** Without panics a chain enters every handler up to and including the first one that
      aborts before calling Next, and all of them if there is none. */
  lemma {:induction false} QuietChainEntersPrefix(hs: Handlers, p: nat)
    requires p <= |hs| && AllQuiet(hs)
    ensures var r := Drain(hs, p, false);
            && !r.panicking
            && (forall k | p <= k < r.entered - 1 :: !Refuses(hs[k]))
            && (r.entered < |hs| ==> r.entered > p && Refuses(hs[r.entered - 1]))
            && (r.entered > p && Refuses(hs[r.entered - 1]) ==> r.aborted)
    decreases |hs| - p
  {
    DrainUnfolds(hs, p);
    if p == |hs| {
    } else {
      QuietChainEntersPrefix(hs, p + 1);
      DrainUnfolds(hs, p + 1);
    }
  }

  // ------------------------------------------------------------------
  // The framework's own middleware
  // ------------------------------------------------------------------

  function RateLimitHandler(allowed: bool): Script {
    if allowed then CallNext(Done) else Emit(Wrote(429), CallAbort(Done))
  }

  /** Behind an open breaker the request is aborted with an error; otherwise panics of later handlers are recovered. */
  function CircuitBreakerHandler(open: bool): Script {
    if open then Emit(Error(true), Emit(Wrote(503), CallAbort(Done))) else Guarded(Done, Done)
  }

  function RecoveryHandler(respond: Script): Script {
    Guarded(respond, Done)
  }

  /** Passing a request on is running the rest of the chain. */
  lemma {:induction false} PassingOn(hs: Handlers, p: nat, aborted: bool)
    requires p <= |hs|
    ensures Run(hs, RateLimitHandler(true), p, aborted) == Drain(hs, p, aborted)
    ensures Run(hs, CircuitBreakerHandler(false), p, aborted) == Drain(hs, p, aborted).(panicking := false)
  {
    var d := Drain(hs, p, aborted);
    assert Run(hs, Done, d.entered, d.aborted) == End(d.entered, d.aborted, [], false);
    assert d.marks + [] == d.marks && d.marks + [] + [] == d.marks;
  }

  /** A request refused by the rate limit or by an open breaker enters no later handler of its chain. */
  lemma {:induction false} RefusedRequestGoesNoFurther(hs: Handlers, k: nat)
    requires k < |hs|
    requires hs[k] == RateLimitHandler(false) || hs[k] == CircuitBreakerHandler(true)
    ensures StoppedBy(k, Drain(hs, 0, false).entered, Drain(hs, 0, false).aborted)
    ensures forall i <- Entered(Drain(hs, 0, false).marks) :: i <= k
  {
    NothingBehindRefusal(hs, k, 0, false);
    DrainEntersInOrder(hs, 0, false);
  }

  /** A response that writes and does not touch the chain. */
  predicate OnlyAnswers(s: Script) {
    match s
    case Done => true
    case Emit(_, rest) => OnlyAnswers(rest)
    case _ => false
  }

  /** What a script shows before it does anything to the chain. */
  function Notes(s: Script): seq<Mark> {
    match s
    case Emit(note, rest) => [Note(note)] + Notes(rest)
    case _ => []
  }

  lemma {:induction false} AnsweringRun(hs: Handlers, s: Script, p: nat, aborted: bool)
    requires p <= |hs| && OnlyAnswers(s)
    ensures Run(hs, s, p, aborted) == End(p, aborted, Notes(s), false)
  {
    match s
    case Done =>
    case Emit(_, rest) => AnsweringRun(hs, rest, p, aborted);
  }

  /** Recovery does not stop the chain: when the chain behind it panics, the handler after the one
      that panicked is entered, if there is one and nobody aborted. */
  lemma {:induction false} RecoveryContinuesTheChain(hs: Handlers, k: nat, respond: Script)
    requires k < |hs| && hs[k] == RecoveryHandler(respond) && OnlyAnswers(respond)
    requires Drain(hs, k + 1, false).panicking
    ensures var d := Drain(hs, k + 1, false);
            d.entered in Entered(Drain(hs, k, false).marks) <==> d.entered < |hs| && !d.aborted
  {
    var d := Drain(hs, k + 1, false);
    var c := Run(hs, respond, d.entered, d.aborted);
    AnsweringRun(hs, respond, d.entered, d.aborted);
    assert Run(hs, Done, c.entered, c.aborted) == End(c.entered, c.aborted, [], false);
    var b := Run(hs, hs[k], k + 1, false);
    assert b.entered == d.entered && b.aborted == d.aborted && !b.panicking;
    DrainEntersInOrder(hs, k, false);
    InRange(d.entered, k, Drain(hs, k, false).entered);
    assert Drain(hs, k, false).entered == Drain(hs, d.entered, d.aborted).entered;
    assert d.entered < |hs| && !d.aborted ==> Drain(hs, d.entered, false).entered > d.entered;
  }
}
