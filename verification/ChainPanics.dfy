/** What a panic does to a chain: it leaves every handler on its way, skips the rest of the chain,
    and stops at the nearest handler that recovers, whose recovery then runs. */
module ChainPanics {
  import opened Chain
  import opened ChainProofs

  /** A handler that panics before it does anything to the chain. */
  predicate Raises(s: Script) {
    match s
    case Emit(_, rest) => Raises(rest)
    case Raise => true
    case _ => false
  }

  /** A handler that lets the chain behind it run with nothing to recover its panics: it calls Next
      without recovering, or returns without a call. */
  predicate PassesOn(s: Script) {
    match s
    case Emit(_, rest) => PassesOn(rest)
    case CallNext(_) => true
    case Done => true
    case _ => false
  }

  lemma {:induction false} RaisingRun(hs: Handlers, s: Script, p: nat, aborted: bool)
    requires p <= |hs| && Raises(s)
    ensures Run(hs, s, p, aborted) == End(p, aborted, Notes(s), true)
  {
    match s
    case Raise =>
    case Emit(_, rest) => RaisingRun(hs, rest, p, aborted);
  }

  /** A panic leaves its handler, and nothing behind it is entered. */
  lemma {:induction false} PanicSkipsTheRest(hs: Handlers, p: nat)
    requires p < |hs| && Raises(hs[p])
    ensures Drain(hs, p, false) == End(p + 1, false, [Enter(p)] + Notes(hs[p]) + [Unwind(p)], true)
  {
    RaisingRun(hs, hs[p], p + 1, false);
  }

  lemma {:induction false} PassingRun(hs: Handlers, s: Script, p: nat)
    requires p <= |hs| && PassesOn(s) && Drain(hs, p, false).panicking
    ensures var r, d := Run(hs, s, p, false), Drain(hs, p, false);
            if Calls(s) then r == Then(Notes(s), d) else r == End(p, false, Notes(s), false)
  {
    match s
    case Done =>
    case CallNext(_) =>
    case Emit(note, rest) =>
      PassingRun(hs, rest, p);
      ThenThen([Note(note)], Notes(rest), Drain(hs, p, false));
  }

  /** From handler `p` on, no handler before `j` recovers, panics or aborts before its first call of
      Next, and handler `j` panics. */
  ghost predicate PanicsAt(hs: Handlers, p: nat, j: nat) {
    && p <= j < |hs|
    && Raises(hs[j])
    && forall i | p <= i < j :: PassesOn(hs[i])
  }

  /** The panic comes out of the whole chain, with the handlers up to the one that panicked entered. */
  lemma {:induction false} PanicPassesThrough(hs: Handlers, p: nat, j: nat)
    requires PanicsAt(hs, p, j)
    ensures var d := Drain(hs, p, false);
            d.panicking && !d.aborted && d.entered == j + 1 && Unwind(j) in d.marks
    decreases j - p
  {
    if p == j {
      PanicSkipsTheRest(hs, p);
    } else {
      PanicPassesThrough(hs, p + 1, j);
      PassingRun(hs, hs[p], p + 1);
    }
  }

  /** A handler that recovers a panic from behind runs its recovery, with the chain as the panic left
      it, and then the rest of its own script. */
  lemma {:induction false} RecoveryRuns(hs: Handlers, k: nat, j: nat, recovery: Script, rest: Script)
    requires k < |hs| && hs[k] == Guarded(recovery, rest) && PanicsAt(hs, k + 1, j)
    ensures var behind := Drain(hs, k + 1, false);
            var c := Run(hs, recovery, j + 1, false);
            && Unwind(j) in behind.marks
            && Run(hs, hs[k], k + 1, false) ==
                 if c.panicking then Then(behind.marks, c)
                 else Then(behind.marks + c.marks, Run(hs, rest, c.entered, c.aborted))
  {
    PanicPassesThrough(hs, k + 1, j);
  }

  /** A recovery that only answers: its answers are what is seen after the panic, and no panic comes
      out of the handler. */
  lemma {:induction false} AnsweringRecovery(hs: Handlers, k: nat, j: nat, respond: Script)
    requires k < |hs| && hs[k] == RecoveryHandler(respond) && OnlyAnswers(respond) && PanicsAt(hs, k + 1, j)
    ensures Run(hs, hs[k], k + 1, false) == End(j + 1, false, Drain(hs, k + 1, false).marks + Notes(respond), false)
  {
    RecoveryRuns(hs, k, j, respond, Done);
    AnsweringRun(hs, respond, j + 1, false);
    var shown := Drain(hs, k + 1, false).marks + Notes(respond);
    assert shown + [] == shown;
  }
}
