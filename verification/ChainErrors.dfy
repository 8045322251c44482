/** The error of the context: what a chain can leave there for the middleware before it to see. */
module ChainErrors {
  import opened Chain
  import opened ChainProofs

  /** Somewhere in the script this can be seen of it. */
  predicate Says(s: Script, n: Notice) {
    match s
    case Done => false
    case Raise => false
    case Emit(note, rest) => note == n || Says(rest, n)
    case CallNext(rest) => Says(rest, n)
    case CallAbort(rest) => Says(rest, n)
    case Guarded(recovery, rest) => Says(recovery, n) || Says(rest, n)
  }

  ghost predicate Silent(hs: Handlers, n: Notice) {
    forall s <- hs :: !Says(s, n)
  }

  /** What no handler says is not seen. */
  lemma {:induction false} DrainIsSilent(hs: Handlers, p: nat, aborted: bool, n: Notice)
    requires p <= |hs| && Silent(hs, n)
    ensures Note(n) !in Drain(hs, p, aborted).marks
    decreases |hs| - p, 0
  {
    if p == |hs| || aborted {
    } else {
      var b := Run(hs, hs[p], p + 1, false);
      assert hs[p] in hs;
      RunIsSilent(hs, hs[p], p + 1, false, n);
      if !b.panicking {
        DrainIsSilent(hs, b.entered, b.aborted, n);
      }
    }
  }

  lemma {:induction false} RunIsSilent(hs: Handlers, s: Script, p: nat, aborted: bool, n: Notice)
    requires p <= |hs| && Silent(hs, n) && !Says(s, n)
    ensures Note(n) !in Run(hs, s, p, aborted).marks
    decreases |hs| - p, 1, s
  {
    match s
    case Done =>
    case Raise =>
    case Emit(_, rest) => RunIsSilent(hs, rest, p, aborted, n);
    case CallAbort(rest) => RunIsSilent(hs, rest, p, true, n);
    case CallNext(rest) =>
      var d := Drain(hs, p, aborted);
      DrainIsSilent(hs, p, aborted, n);
      RunIsSilent(hs, rest, d.entered, d.aborted, n);
    case Guarded(recovery, rest) =>
      var d := Drain(hs, p, aborted);
      DrainIsSilent(hs, p, aborted, n);
      RunIsSilent(hs, recovery, d.entered, d.aborted, n);
      var c := if d.panicking then Run(hs, recovery, d.entered, d.aborted) else d;
      RunIsSilent(hs, rest, c.entered, c.aborted, n);
  }

  /** What a handler says first is seen once it is entered, whatever the handlers before it do. */
  lemma {:induction false} FirstNoticeIsSeen(hs: Handlers, k: nat, p: nat, aborted: bool)
    requires p <= k < |hs| && hs[k].Emit?
    ensures Drain(hs, p, aborted).entered > k ==> Note(hs[k].note) in Drain(hs, p, aborted).marks
    decreases |hs| - p, 0
  {
    if p == |hs| || aborted {
    } else {
      var b := Run(hs, hs[p], p + 1, false);
      if p == k {
        assert b.marks == [Note(hs[k].note)] + Run(hs, hs[k].rest, p + 1, false).marks;
      } else {
        FirstNoticeIsSeenInRun(hs, k, hs[p], p + 1, false);
        if !b.panicking && b.entered <= k {
          FirstNoticeIsSeen(hs, k, b.entered, b.aborted);
        }
      }
    }
  }

  lemma {:induction false} FirstNoticeIsSeenInRun(hs: Handlers, k: nat, s: Script, p: nat, aborted: bool)
    requires p <= k < |hs| && hs[k].Emit?
    ensures Run(hs, s, p, aborted).entered > k ==> Note(hs[k].note) in Run(hs, s, p, aborted).marks
    decreases |hs| - p, 1, s
  {
    match s
    case Done =>
    case Raise =>
    case Emit(_, rest) => FirstNoticeIsSeenInRun(hs, k, rest, p, aborted);
    case CallAbort(rest) => FirstNoticeIsSeenInRun(hs, k, rest, p, true);
    case CallNext(rest) =>
      var d := Drain(hs, p, aborted);
      FirstNoticeIsSeen(hs, k, p, aborted);
      if d.entered <= k {
        FirstNoticeIsSeenInRun(hs, k, rest, d.entered, d.aborted);
      }
    case Guarded(recovery, rest) =>
      var d := Drain(hs, p, aborted);
      FirstNoticeIsSeen(hs, k, p, aborted);
      if d.entered <= k {
        FirstNoticeIsSeenInRun(hs, k, recovery, d.entered, d.aborted);
        var c := if d.panicking then Run(hs, recovery, d.entered, d.aborted) else d;
        if c.entered <= k {
          FirstNoticeIsSeenInRun(hs, k, rest, c.entered, c.aborted);
        }
      }
  }

  /** An error stays when it was set and never cleared, and is there only if it was set. */
  lemma {:induction false} LastErrorOfBoth(before: seq<Mark>, marks: seq<Mark>)
    ensures Note(Error(true)) !in marks && LastError(before + marks) ==> LastError(before)
    ensures Note(Error(true)) in marks && Note(Error(false)) !in marks ==> LastError(before + marks)
    ensures Note(Error(false)) !in marks && LastError(before) ==> LastError(before + marks)
    decreases |marks|
  {
    if marks == [] {
      assert before + marks == before;
    } else {
      var n := |marks| - 1;
      assert before + marks == before + marks[..n] + [marks[n]];
      assert marks == marks[..n] + [marks[n]];
      LastErrorOfBoth(before, marks[..n]);
      LastErrorAfter(before + marks[..n], marks[n]);
    }
  }

  /** An open breaker that is reached leaves an error, unless some handler clears errors. */
  lemma {:induction false} OpenBreakerLeavesError(hs: Handlers, k: nat, p: nat, before: seq<Mark>)
    requires p <= k < |hs| && hs[k] == CircuitBreakerHandler(true)
    requires Drain(hs, p, false).entered > k && Silent(hs, Error(false))
    ensures LastError(before + Drain(hs, p, false).marks)
  {
    FirstNoticeIsSeen(hs, k, p, false);
    DrainIsSilent(hs, p, false, Error(false));
    LastErrorOfBoth(before, Drain(hs, p, false).marks);
  }

  /** Handlers that set no error leave none. A refusal by the rate limit sets none. */
  lemma {:induction false} NoErrorIsLeft(hs: Handlers, p: nat, aborted: bool, before: seq<Mark>)
    requires p <= |hs| && Silent(hs, Error(true)) && !LastError(before)
    ensures !LastError(before + Drain(hs, p, aborted).marks)
    ensures forall allowed :: !Says(RateLimitHandler(allowed), Error(true))
  {
    DrainIsSilent(hs, p, aborted, Error(true));
    LastErrorOfBoth(before, Drain(hs, p, aborted).marks);
    assert !Says(Emit(Wrote(429), CallAbort(Done)), Error(true));
  }
}
