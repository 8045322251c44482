/** The framework's gates at work on a request's context: the rate limit, the circuit breaker and
    the recovery from panics. */
module Middleware {
  import opened Chain
  import opened ChainErrors
  import opened ChainPanics
  import opened ChainProofs
  import Breaker
  import Endpoints
  import RateLimiter

  /** Lets the request on to the next handler, or answers 429 and aborts. */
  method RateLimit(limiter: RateLimiter.DefaultRateLimiter, ctx: ContextImpl, ip: string, now: int)
    returns (panicking: bool)
    requires limiter.Valid() && limiter.cfg.Defined() && ctx.Between()
    modifies limiter, limiter.buckets.Values, ctx
    ensures limiter.Valid() && ctx.Between() && ctx.handlers == old(ctx.handlers)
    ensures var reply := RateLimiter.Effect(limiter.cfg, true, old(limiter.Contents()),
                                            RateLimiter.Event(now, RateLimiter.Allow(ip)));
            && ctx.At(old(ctx.marks),
                      Run(ctx.handlers, RateLimitHandler(reply.allowed), old(ctx.entered), old(ctx.aborted)), panicking)
            && (!reply.allowed ==>
                  && ctx.aborted && ctx.entered == old(ctx.entered) && !panicking
                  && ctx.marks == old(ctx.marks) + [Note(Wrote(429))] && ctx.err == old(ctx.err))
  {
    var allowed := limiter.Allow(ip, now);
    if !allowed {
      ctx.ErrorResponse(429);
      return false;
    }
    PassingOn(ctx.handlers, ctx.entered, ctx.aborted);
    panicking := ctx.Next();
  }

  /** A request as the gate of a breaker sees it end: in a panic from behind, or with the error of the context set. */
  function Ended(request: Endpoints.Request, before: seq<Mark>, behind: End): Endpoints.Request {
    request.(erred := behind.panicking || LastError(before + behind.marks))
  }

  /** Rejects behind an open breaker; otherwise runs the rest of the chain, recovers its panics and
      records the outcome. A panic or an error from anywhere behind counts as a failure. */
  method CircuitBreaker(breaker: Breaker.CircuitBreaker, timeout: int, ctx: ContextImpl, request: Endpoints.Request)
    requires ctx.Between()
    modifies breaker, ctx
    ensures ctx.Between() && ctx.handlers == old(ctx.handlers)
    ensures var cfg := Endpoints.Settings(breaker.Settings(), timeout);
            var behind := Drain(ctx.handlers, old(ctx.entered), old(ctx.aborted));
            var served := Endpoints.Serve(cfg, old(breaker.Snapshot()), Ended(request, old(ctx.marks), behind));
            && breaker.Snapshot() == served.cells
            && ctx.At(old(ctx.marks),
                      Run(ctx.handlers, CircuitBreakerHandler(served.rejected), old(ctx.entered), old(ctx.aborted)), false)
    ensures if Endpoints.StillOpen(breaker.Settings(), old(breaker.Snapshot()), request.polledAt) then
              && ctx.aborted && ctx.err && ctx.entered == old(ctx.entered)
              && ctx.marks == old(ctx.marks) + [Note(Error(true)), Note(Wrote(503))]
              && breaker.Snapshot() == old(breaker.Snapshot())
            else
              ctx.At(old(ctx.marks), Drain(ctx.handlers, old(ctx.entered), old(ctx.aborted)).(panicking := false), false)
  {
    var open := breaker.IsOpen(request.polledAt);
    if open {
      ctx.AbortWithError(503, true);
      return;
    }
    PassingOn(ctx.handlers, ctx.entered, ctx.aborted);
    var panicked := ctx.Next();
    if panicked || ctx.err || request.duration > timeout {
      breaker.RecordFailure(request.recordedAt);
    } else {
      breaker.RecordSuccess();
    }
  }

  /** A request that an open breaker further in rejects is a failure to every breaker before it. */
  lemma {:induction false} InnerRejectionIsOuterFailure(cfg: Endpoints.Settings, request: Endpoints.Request,
                                     hs: Handlers, k: nat, p: nat, before: seq<Mark>)
    requires p <= k < |hs| && hs[k] == CircuitBreakerHandler(true)
    requires Drain(hs, p, false).entered > k && Silent(hs, Error(false))
    ensures Endpoints.Outcome(cfg, Ended(request, before, Drain(hs, p, false))) == Breaker.Failure(request.recordedAt)
  {
    OpenBreakerLeavesError(hs, k, p, before);
  }

  /** A request that panics behind a breaker is a failure to it. */
  lemma {:induction false} PanicIsFailure(cfg: Endpoints.Settings, request: Endpoints.Request, hs: Handlers, p: nat, j: nat, before: seq<Mark>)
    requires PanicsAt(hs, p, j)
    ensures Endpoints.Outcome(cfg, Ended(request, before, Drain(hs, p, false))) == Breaker.Failure(request.recordedAt)
  {
    PanicPassesThrough(hs, p, j);
  }

  /** Behind a breaker, handlers that set no error make a request a failure only by a panic or by
      taking too long; a rate limit that refuses is such a handler. */
  lemma {:induction false} RateLimitedRequestIsNoFailure(cfg: Endpoints.Settings, request: Endpoints.Request,
                                      hs: Handlers, p: nat, before: seq<Mark>)
    requires p <= |hs| && Silent(hs, Error(true)) && !LastError(before)
    ensures Endpoints.Outcome(cfg, Ended(request, before, Drain(hs, p, false))).Failure?
       <==> Drain(hs, p, false).panicking || request.duration > cfg.timeout
    ensures !Says(RateLimitHandler(false), Error(true))
  {
    NoErrorIsLeft(hs, p, false, before);
  }

  /** Runs the rest of the chain; a panic from there is answered by the recovery handler. */
  method Recovery(respond: Script, ctx: ContextImpl) returns (panicking: bool)
    requires ctx.Between()
    modifies ctx
    ensures ctx.Between() && ctx.handlers == old(ctx.handlers)
    ensures ctx.At(old(ctx.marks),
                   Run(ctx.handlers, RecoveryHandler(respond), old(ctx.entered), old(ctx.aborted)), panicking)
    ensures var behind := Drain(ctx.handlers, old(ctx.entered), old(ctx.aborted));
            if behind.panicking then
              ctx.At(old(ctx.marks) + behind.marks, Run(ctx.handlers, respond, behind.entered, behind.aborted), panicking)
            else
              ctx.At(old(ctx.marks), behind, panicking)
  {
    ghost var d := Drain(ctx.handlers, ctx.entered, ctx.aborted);
    panicking := ctx.Next();
    if panicking {
      ThenThen(old(ctx.marks), d.marks, Run(ctx.handlers, respond, ctx.entered, ctx.aborted));
      panicking := ctx.Perform(respond);
    }
  }
}
