/** The re-entrant handler chain. Handlers and middleware share one index into the chain,
    which is moved both by the loop in `Next` and by handlers that call `Next` themselves.

    For one request a handler is a finite script of what it does to the chain. `Drain` and
    `Run` give the meaning of a chain without any index: a handler is taken from the front of
    what is left of the chain. `ContextImpl` is the object with the shared index, proved
    against that meaning. */
module Chain {

  /** What can be seen of a handler: that it wrote an answer, or set the error of the context, to an
      error or to none. */
  datatype Notice = Wrote(code: int) | Error(isSet: bool)

  /** What a handler does, in order. `Guarded` calls Next with a deferred recover: a panic
      from there ends in `recovery`. */
  datatype Script =
    | Done
    | Emit(note: Notice, rest: Script)
    | CallNext(rest: Script)
    | CallAbort(rest: Script)
    | Raise
    | Guarded(recovery: Script, rest: Script)

  type Handlers = seq<Script>

  datatype Mark = Enter(i: int) | Leave(i: int) | Unwind(i: int) | Note(note: Notice)

  /** How a stretch of execution ends: handlers entered so far, whether the chain was aborted,
      what was observed meanwhile, and whether a panic is on its way up. */
  datatype End = End(entered: nat, aborted: bool, marks: seq<Mark>, panicking: bool)

  function Then(first: seq<Mark>, second: End): End {
    second.(marks := first + second.marks)
  }

  lemma ThenThen(a: seq<Mark>, b: seq<Mark>, e: End)
    ensures Then(a + b, e) == Then(a, Then(b, e))
  {
    assert a + b + e.marks == a + (b + e.marks);
  }

  /** Whether the context has an error after these marks: what was set last. */
  function LastError(marks: seq<Mark>): bool
    decreases |marks|
  {
    if marks == [] then false
    else
      match marks[|marks| - 1]
      case Note(Error(isSet)) => isSet
      case _ => LastError(marks[..|marks| - 1])
  }

  lemma LastErrorAfter(marks: seq<Mark>, last: Mark)
    ensures LastError(marks + [last]) == if last.Note? && last.note.Error? then last.note.isSet else LastError(marks)
  {
    assert (marks + [last])[..|marks|] == marks;
  }

  /** What calling Next means when `p` handlers have been entered. */
  function Drain(hs: Handlers, p: nat, aborted: bool): (r: End)
    requires p <= |hs|
    ensures p <= r.entered <= |hs|
    ensures aborted ==> r == End(p, true, [], false)
    decreases |hs| - p, 0
  {
    if p == |hs| || aborted then End(p, aborted, [], false)
    else
      var b := Run(hs, hs[p], p + 1, false);
      if b.panicking then b.(marks := [Enter(p)] + b.marks + [Unwind(p)])
      else Then([Enter(p)] + b.marks + [Leave(p)], Drain(hs, b.entered, b.aborted))
  }

  /** What a script means when `p` handlers have been entered. */
  function Run(hs: Handlers, s: Script, p: nat, aborted: bool): (r: End)
    requires p <= |hs|
    ensures p <= r.entered <= |hs|
    ensures aborted ==> r.aborted && r.entered == p
    decreases |hs| - p, 1, s
  {
    match s
    case Done => End(p, aborted, [], false)
    case Emit(note, rest) => Then([Note(note)], Run(hs, rest, p, aborted))
    case CallAbort(rest) => Run(hs, rest, p, true)
    case Raise => End(p, aborted, [], true)
    case CallNext(rest) =>
      var d := Drain(hs, p, aborted);
      if d.panicking then d else Then(d.marks, Run(hs, rest, d.entered, d.aborted))
    case Guarded(recovery, rest) =>
      var d := Drain(hs, p, aborted);
      if !d.panicking then Then(d.marks, Run(hs, rest, d.entered, d.aborted))
      else
        var c := Run(hs, recovery, d.entered, d.aborted);
        if c.panicking then Then(d.marks, c)
        else Then(d.marks + c.marks, Run(hs, rest, c.entered, c.aborted))
  }

  /** What is observed of handler `p` from entering it to leaving it. */
  function Visit(hs: Handlers, p: nat): seq<Mark>
    requires p < |hs|
  {
    var b := Run(hs, hs[p], p + 1, false);
    [Enter(p)] + b.marks + [if b.panicking then Unwind(p) else Leave(p)]
  }

  // ------------------------------------------------------------------
  // The object with the shared index
  // ------------------------------------------------------------------

  class ContextImpl {
    var handlers: Handlers
    var handlerIdx: int
    var aborted: bool
    var err: bool
    ghost var entered: nat
    ghost var marks: seq<Mark>

    /** Between two actions of a handler the index is either at the last handler entered, or past the end;
        the error is the one set last. */
    ghost predicate Between()
      reads this
    {
      && entered <= |handlers|
      && handlerIdx >= -1
      && err == LastError(marks)
      && (if aborted || entered == |handlers|
          then handlerIdx >= entered - 1
          else handlerIdx == entered - 1)
    }

    constructor (handlers: Handlers)
      ensures this.handlers == handlers && handlerIdx == 0 && !aborted && !err
      ensures entered == 0 && marks == []
    {
      this.handlers := handlers;
      handlerIdx, aborted, err := 0, false, false;
      entered, marks := 0, [];
    }

    method Abort()
      requires Between()
      modifies this`aborted, this`handlerIdx
      ensures Between() && aborted && handlerIdx == |handlers|
    {
      aborted := true;
      handlerIdx := |handlers|;
    }

    ghost predicate Settled()
      reads this
    {
      aborted ==> handlerIdx >= |handlers|
    }

    /** The object is where `e` ends, after whatever was observed before. */
    ghost predicate At(before: seq<Mark>, e: End, panicking: bool)
      reads this
    {
      End(entered, aborted, marks, panicking) == Then(before, e)
    }

    /** Answers with a status code and aborts. */
    method ErrorResponse(code: int)
      requires Between()
      modifies this`handlerIdx, this`aborted, this`err, this`marks
      ensures Between() && aborted && handlerIdx == |handlers| && err == old(err)
      ensures marks == old(marks) + [Note(Wrote(code))]
      ensures At(old(marks), Run(handlers, Emit(Wrote(code), CallAbort(Done)), old(entered), old(aborted)), false)
    {
      Show(Wrote(code));
      Abort();
      assert Run(handlers, CallAbort(Done), entered, old(aborted)) == End(entered, true, [], false);
      assert Then([Note(Wrote(code))], End(entered, true, [], false)).marks == [Note(Wrote(code))];
    }

    /** Sets the error of the context, answers with a status code and aborts. */
    method AbortWithError(code: int, isSet: bool)
      requires Between()
      modifies this`handlerIdx, this`aborted, this`err, this`marks
      ensures Between() && aborted && handlerIdx == |handlers| && err == isSet
      ensures marks == old(marks) + [Note(Error(isSet)), Note(Wrote(code))]
      ensures At(old(marks), Run(handlers, Emit(Error(isSet), Emit(Wrote(code), CallAbort(Done))), old(entered), old(aborted)), false)
    {
      Show(Error(isSet));
      ErrorResponse(code);
      ThenThen(old(marks), [Note(Error(isSet))], Run(handlers, Emit(Wrote(code), CallAbort(Done)), old(entered), old(aborted)));
    }

    method Show(notice: Notice)
      requires Between()
      modifies this`err, this`marks
      ensures Between() && marks == old(marks) + [Note(notice)]
      ensures err == if notice.Error? then notice.isSet else old(err)
    {
      if notice.Error? {
        err := notice.isSet;
      }
      LastErrorAfter(marks, Note(notice));
      marks := marks + [Note(notice)];
    }

    /** Runs the chain from the next handler on; answers whether a panic came out of it. */
    method Next() returns (panicking: bool)
      requires Between()
      modifies this`handlerIdx, this`aborted, this`err, this`entered, this`marks
      ensures Between() && (old(Settled()) ==> Settled())
      ensures At(old(marks), Drain(handlers, old(entered), old(aborted)), panicking)
      ensures old(Settled()) && !panicking ==> handlerIdx >= |handlers|
      decreases |handlers| - entered, 1
    {
      handlerIdx := handlerIdx + 1;
      while handlerIdx < |handlers| && !aborted
        invariant old(entered) <= entered <= |handlers|
        invariant if aborted || entered == |handlers| then handlerIdx >= entered else handlerIdx == entered
        invariant old(Settled()) ==> Settled()
        invariant err == LastError(marks)
        invariant Then(marks, Drain(handlers, entered, aborted))
               == Then(old(marks), Drain(handlers, old(entered), old(aborted)))
        decreases |handlers| - entered
      {
        ghost var p, before := entered, marks;
        panicking := EnterHandler();
        if panicking {
          return;
        }
        ThenThen(before, Visit(handlers, p), Drain(handlers, entered, aborted));
        handlerIdx := handlerIdx + 1;
      }
      panicking := false;
    }

    /** Marks that a handler is entered or left, which no one can see in the context's error. */
    ghost method Pass(mark: Mark)
      requires err == LastError(marks) && !mark.Note?
      modifies this`marks
      ensures err == LastError(marks) && marks == old(marks) + [mark]
    {
      LastErrorAfter(marks, mark);
      marks := marks + [mark];
    }

    /** Calls the handler at the index. */
    method EnterHandler() returns (panicking: bool)
      requires handlerIdx == entered < |handlers| && !aborted && err == LastError(marks)
      modifies this`handlerIdx, this`aborted, this`err, this`entered, this`marks
      ensures Between() && Settled()
      ensures var b := Run(handlers, handlers[old(entered)], old(entered) + 1, false);
              && entered == b.entered && aborted == b.aborted && panicking == b.panicking
              && marks == old(marks) + Visit(handlers, old(entered))
      decreases |handlers| - entered, 0
    {
      ghost var p, before := entered, marks;
      ghost var b := Run(handlers, handlers[p], p + 1, false);
      entered := entered + 1;
      Pass(Enter(p));
      panicking := Perform(handlers[handlerIdx]);
      assert marks == before + [Enter(p)] + b.marks;
      Pass(if panicking then Unwind(p) else Leave(p));
      assert marks == before + Visit(handlers, p);
    }

    /** Runs one handler; answers whether it panicked. */
    method Perform(s: Script) returns (panicking: bool)
      requires Between()
      modifies this`handlerIdx, this`aborted, this`err, this`entered, this`marks
      ensures Between() && (old(Settled()) ==> Settled())
      ensures At(old(marks), Run(handlers, s, old(entered), old(aborted)), panicking)
      decreases |handlers| - entered, 2, s, 1
    {
      match s
      case Done =>
        panicking := false;
      case Emit(note, rest) =>
        Show(note);
        ThenThen(old(marks), [Note(note)], Run(handlers, rest, entered, aborted));
        panicking := Perform(rest);
      case CallAbort(rest) =>
        Abort();
        panicking := Perform(rest);
      case Raise =>
        panicking := true;
      case CallNext(rest) =>
        ghost var d := Drain(handlers, entered, aborted);
        panicking := Next();
        if !panicking {
          ThenThen(old(marks), d.marks, Run(handlers, rest, entered, aborted));
          panicking := Perform(rest);
        }
      case Guarded(_, _) =>
        panicking := PerformGuarded(s);
    }

    /** Calls Next and recovers a panic from there. */
    method PerformGuarded(s: Script) returns (panicking: bool)
      requires Between() && s.Guarded?
      modifies this`handlerIdx, this`aborted, this`err, this`entered, this`marks
      ensures Between() && (old(Settled()) ==> Settled())
      ensures At(old(marks), Run(handlers, s, old(entered), old(aborted)), panicking)
      decreases |handlers| - entered, 2, s, 0
    {
      ghost var d := Drain(handlers, entered, aborted);
      panicking := Next();
      ghost var made := d.marks;
      if panicking {
        ghost var c := Run(handlers, s.recovery, entered, aborted);
        ThenThen(old(marks), made, c);
        panicking := Perform(s.recovery);
        made := made + c.marks;
      }
      if !panicking {
        ThenThen(old(marks), made, Run(handlers, s.rest, entered, aborted));
        panicking := Perform(s.rest);
      }
    }

    /** Starts the chain of a fresh context. */
    method ExecuteHandlerChain() returns (panicking: bool)
      requires entered == 0 && marks == [] && !err
      modifies this`handlerIdx, this`aborted, this`err, this`entered, this`marks
      ensures Between() && At([], Drain(handlers, 0, old(aborted)), panicking)
      ensures !old(aborted) && !panicking ==> handlerIdx >= |handlers|
    {
      handlerIdx := -1;
      panicking := Next();
    }
  }
}
