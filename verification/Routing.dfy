/** Routers and groups: lists of middleware kept in growing slices, and the chain a request runs. */
module Routing {
  import opened Chain
  import opened ChainProofs

  /** A slice: the first `len` elements of a backing array that may have room for more. */
  class RouterImpl {
    var backing: array<Script>
    var len: nat

    ghost predicate Valid()
      reads this
    {
      len <= backing.Length
    }

    ghost function Middleware(): Handlers
      reads this, backing
      requires Valid()
    {
      backing[..len]
    }

    constructor ()
      ensures Valid() && fresh(backing) && Middleware() == []
    {
      backing := new Script[0];
      len := 0;
    }

    constructor Copy(from: RouterImpl)
      requires from.Valid()
      ensures Valid() && fresh(backing) && Middleware() == from.Middleware()
    {
      var source, n := from.backing, from.len;
      backing := new Script[n](i requires 0 <= i < n <= source.Length reads source => source[i]);
      len := n;
    }

    /** Appends in place when there is room, and otherwise moves to a larger array first. */
    method Use(middleware: Handlers)
      requires Valid()
      modifies this, backing
      ensures Valid() && (backing == old(backing) || fresh(backing))
      ensures Middleware() == old(Middleware()) + middleware
    {
      if len + |middleware| > backing.Length {
        var source, n := backing, len;
        backing := new Script[2 * n + |middleware|](
          i requires 0 <= i && n <= source.Length reads source => if i < n then source[i] else Done);
      }
      for i := 0 to |middleware|
        invariant Valid() && len == old(len) + i && (backing == old(backing) || fresh(backing))
        invariant len + |middleware| - i <= backing.Length
        invariant Middleware() == old(Middleware()) + middleware[..i]
        modifies this`len, backing
      {
        backing[len] := middleware[i];
        len := len + 1;
        assert middleware[..i + 1] == middleware[..i] + [middleware[i]];
      }
      assert middleware[..|middleware|] == middleware;
    }

    /** A group starts from a copy, so it never shares its slice with the router it came from. */
    method Group() returns (group: RouterImpl)
      requires Valid()
      ensures fresh(group) && group.Valid() && fresh(group.backing)
      ensures group.Middleware() == Middleware()
    {
      group := new RouterImpl.Copy(this);
    }

    method BuildHandlerChain(handler: Script) returns (chain: Handlers)
      requires Valid()
      ensures chain == Middleware() + [handler]
    {
      chain := backing[..len];
      chain := chain + [handler];
    }

    /** Serves one request on a context of its own. */
    method Serve(handler: Script) returns (ctx: ContextImpl, panicking: bool)
      requires Valid()
      ensures ctx.At([], Drain(Middleware() + [handler], 0, false), panicking)
    {
      var chain := BuildHandlerChain(handler);
      ctx := new ContextImpl(chain);
      panicking := ctx.ExecuteHandlerChain();
    }
  }

  /** Middleware added to a router, or to a group made from it. */
  datatype Addition = ToRouter(middleware: Handlers) | ToGroup(middleware: Handlers)

  /** All that was added to the router, in order; or all that was added to the group. */
  function Added(additions: seq<Addition>, toRouter: bool): Handlers
    decreases |additions|
  {
    if additions == [] then []
    else
      var last := additions[|additions| - 1];
      Added(additions[..|additions| - 1], toRouter) + if last.ToRouter? == toRouter then last.middleware else []
  }

  ghost predicate Unshared(router: RouterImpl, group: RouterImpl)
    reads router, group
  {
    router.Valid() && group.Valid() && router != group && router.backing != group.backing
  }

  method Add(router: RouterImpl, group: RouterImpl, addition: Addition)
    requires Unshared(router, group)
    modifies router, group, router.backing, group.backing
    ensures Unshared(router, group)
    ensures router.backing == old(router.backing) || fresh(router.backing)
    ensures group.backing == old(group.backing) || fresh(group.backing)
    ensures router.Middleware() == old(router.Middleware()) + Added([addition], true)
    ensures group.Middleware() == old(group.Middleware()) + Added([addition], false)
  {
    assert [addition][..0] == [];
    match addition
    case ToRouter(middleware) => router.Use(middleware);
    case ToGroup(middleware) => group.Use(middleware);
  }

  lemma AddedNext(before: Handlers, additions: seq<Addition>, i: nat, toRouter: bool)
    requires i < |additions|
    ensures before + Added(additions[..i], toRouter) + Added([additions[i]], toRouter)
         == before + Added(additions[..i + 1], toRouter)
  {
    assert additions[..i + 1][..i] == additions[..i];
    assert [additions[i]][..0] == [];
    var last := if additions[i].ToRouter? == toRouter then additions[i].middleware else [];
    assert before + Added(additions[..i], toRouter) + last == before + (Added(additions[..i], toRouter) + last);
  }

  /** However additions to a router and to its group follow each other, none reaches the other one. */
  method GroupsAreIndependent(router: RouterImpl, additions: seq<Addition>) returns (group: RouterImpl)
    requires router.Valid()
    modifies router, router.backing
    ensures router.Valid() && group.Valid()
    ensures router.Middleware() == old(router.Middleware()) + Added(additions, true)
    ensures group.Middleware() == old(router.Middleware()) + Added(additions, false)
  {
    group := router.Group();
    for i := 0 to |additions|
      invariant Unshared(router, group) && fresh(group) && fresh(group.backing)
      invariant router.backing == old(router.backing) || fresh(router.backing)
      invariant router.Middleware() == old(router.Middleware()) + Added(additions[..i], true)
      invariant group.Middleware() == old(router.Middleware()) + Added(additions[..i], false)
    {
      AddedNext(old(router.Middleware()), additions, i, true);
      AddedNext(old(router.Middleware()), additions, i, false);
      Add(router, group, additions[i]);
    }
    assert additions[..|additions|] == additions;
  }

  /** A refusing middleware of a router keeps every request of its groups from their handlers. */
  lemma RefusalGuardsGroups(shared: Handlers, own: Handlers, handler: Script, k: nat)
    requires k < |shared| && Refuses(shared[k])
    ensures var r := Drain(shared + own + [handler], 0, false);
            StoppedBy(k, r.entered, r.aborted)
  {
    NothingBehindRefusal(shared + own + [handler], k, 0, false);
  }
}
