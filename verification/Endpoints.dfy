/** The circuit-breaker middleware: one breaker per endpoint, found or created by a string key. */
module Endpoints {
  import opened Breaker

  datatype Endpoint = Endpoint(verb: string, path: string)

  /** One whole request: when it polled the breaker, how its handler ended (an error or a
      recovered panic), how long it took, and when the outcome was recorded. */
  datatype Request = Request(endpoint: Endpoint, polledAt: int, erred: bool, duration: int, recordedAt: int)

  datatype Settings = Settings(breaker: Config, timeout: int)

  function KeyOf(e: Endpoint): string {
    e.verb + ":" + e.path
  }

  function Outcome(cfg: Settings, r: Request): Call {
    if r.erred || r.duration > cfg.timeout then Failure(r.recordedAt) else Success
  }

  /** The calls one request makes on its breaker. */
  function CallsOf(cfg: Settings, s: Cells, r: Request): seq<Call> {
    if Effect(cfg.breaker, s, Poll(r.polledAt)).rejected then [Poll(r.polledAt)]
    else [Poll(r.polledAt), Outcome(cfg, r)]
  }

  function Serve(cfg: Settings, s: Cells, r: Request): Reply {
    var polled := Effect(cfg.breaker, s, Poll(r.polledAt));
    if polled.rejected then polled
    else Reply(Effect(cfg.breaker, polled.cells, Outcome(cfg, r)).cells, false)
  }

  /** A breaker refuses a request while it is open and its timeout has not passed since the last failure. */
  predicate StillOpen(cfg: Config, s: Cells, now: int) {
    s.state == Open && now - s.lastFailure <= cfg.resetTimeout
  }

  function Lookup(table: map<string, Cells>, key: string): Cells {
    if key in table then table[key] else FRESH
  }

  class CircuitBreakerMiddleware {
    const settings: Settings
    var breakers: map<string, CircuitBreaker>

    ghost predicate Valid()
      reads this, breakers.Values
    {
      && settings.breaker.halfOpenMax == 2
      && (forall k | k in breakers :: breakers[k].Settings() == settings.breaker)
      && (forall j, k | j in breakers && k in breakers && j != k :: breakers[j] != breakers[k])
    }

    ghost function Table(): map<string, Cells>
      reads this, breakers.Values
    {
      map k | k in breakers :: breakers[k].Snapshot()
    }

    constructor (threshold: int, resetTimeout: int, timeout: int)
      ensures Valid() && Table() == map[]
      ensures settings == Settings(Config(threshold, resetTimeout, 2), timeout)
    {
      settings := Settings(Config(threshold, resetTimeout, 2), timeout);
      breakers := map[];
    }

    method LoadOrStore(key: string, offered: CircuitBreaker) returns (actual: CircuitBreaker)
      modifies this
      ensures breakers == if key in old(breakers) then old(breakers) else old(breakers)[key := offered]
      ensures actual == breakers[key]
    {
      if key in breakers {
        actual := breakers[key];
      } else {
        breakers := breakers[key := offered];
        actual := offered;
      }
    }

    /** The admission gate, the handler's outcome and its classification. */
    method Guard(breaker: CircuitBreaker, r: Request) returns (rejected: bool)
      requires breaker.Settings() == settings.breaker
      modifies breaker
      ensures Reply(breaker.Snapshot(), rejected) == Serve(settings, old(breaker.Snapshot()), r)
      ensures rejected <==> StillOpen(settings.breaker, old(breaker.Snapshot()), r.polledAt)
      ensures rejected ==> breaker.Snapshot() == old(breaker.Snapshot())
      ensures !rejected && (r.erred || r.duration > settings.timeout) ==>
                breaker.failures == old(breaker.failures) + 1 && breaker.lastFailure == r.recordedAt
      ensures !rejected && !r.erred && r.duration <= settings.timeout ==>
                breaker.failures in {0, old(breaker.failures)} && breaker.lastFailure == old(breaker.lastFailure)
    {
      rejected := breaker.IsOpen(r.polledAt);
      if rejected {
        return;
      }
      if r.erred || r.duration > settings.timeout {
        breaker.RecordFailure(r.recordedAt);
      } else {
        breaker.RecordSuccess();
      }
    }

    twostate lemma OnlyOneChanged(key: string)
      requires breakers == old(breakers) && key in breakers
      requires forall k | k in breakers && k != key :: unchanged(breakers[k])
      ensures Table() == old(Table())[key := breakers[key].Snapshot()]
    {
    }

    /** Finds the breaker of a key, or puts the one offered in the table. */
    method FindOrCreate(key: string) returns (breaker: CircuitBreaker)
      requires Valid()
      modifies this
      ensures Valid()
      ensures key in breakers && breaker == breakers[key]
      ensures key in old(breakers) ==> breakers == old(breakers)
      ensures key !in old(breakers) ==> fresh(breaker) && breakers == old(breakers)[key := breaker]
      ensures Table() == old(Table())[key := Lookup(old(Table()), key)]
    {
      var offered := new CircuitBreaker(settings.breaker.threshold, settings.breaker.resetTimeout);
      breaker := LoadOrStore(key, offered);
    }

    /** Every request offers a new breaker; one that is already in the table is never replaced. */
    method Handle(r: Request) returns (rejected: bool)
      requires Valid()
      modifies this, breakers.Values
      ensures Valid()
      ensures forall k | k in old(breakers) :: k in breakers && breakers[k] == old(breakers[k])
      ensures fresh(breakers.Values - old(breakers.Values))
      ensures var served := Serve(settings, Lookup(old(Table()), KeyOf(r.endpoint)), r);
              && rejected == served.rejected
              && Table() == old(Table())[KeyOf(r.endpoint) := served.cells]
    {
      var breaker := FindOrCreate(KeyOf(r.endpoint));
      assert breaker.Snapshot() == Table()[KeyOf(r.endpoint)];
      label found:
      rejected := Guard(breaker, r);
      OnlyOneChanged@found(KeyOf(r.endpoint));
    }
  }

  // ------------------------------------------------------------------
  // Projection onto one endpoint
  // ------------------------------------------------------------------

  /** The table after a sequence of whole requests to any endpoints. */
  function TableAfter(cfg: Settings, requests: seq<Request>): map<string, Cells>
    decreases |requests|
  {
    if requests == [] then map[]
    else
      var n := |requests| - 1;
      var table := TableAfter(cfg, requests[..n]);
      var key := KeyOf(requests[n].endpoint);
      table[key := Serve(cfg, Lookup(table, key), requests[n]).cells]
  }

  function Rejected(cfg: Settings, requests: seq<Request>, i: nat): bool
    requires i < |requests|
  {
    Serve(cfg, Lookup(TableAfter(cfg, requests[..i]), KeyOf(requests[i].endpoint)), requests[i]).rejected
  }

  /** The requests to one endpoint, in order. */
  function Only(requests: seq<Request>, e: Endpoint): seq<Request>
    decreases |requests|
  {
    if requests == [] then []
    else
      var n := |requests| - 1;
      Only(requests[..n], e) + if requests[n].endpoint == e then [requests[n]] else []
  }

  /** The verb of `b` is that of `a` with a colon and some text after it, by which the path of `a` is longer. */
  ghost predicate Extends(a: Endpoint, b: Endpoint) {
    exists x :: b.verb == a.verb + ":" + x && a.path == x + ":" + b.path
  }

  lemma ExtensionSharesKey(a: Endpoint, b: Endpoint)
    requires Extends(a, b)
    ensures KeyOf(a) == KeyOf(b)
  {
    var x :| b.verb == a.verb + ":" + x && a.path == x + ":" + b.path;
    assert a.verb + ":" + (x + ":" + b.path) == a.verb + ":" + x + ":" + b.path;
  }

  lemma LongerVerbExtends(a: Endpoint, b: Endpoint)
    requires KeyOf(a) == KeyOf(b) && |a.verb| < |b.verb|
    ensures Extends(a, b)
  {
    var k, n, m := KeyOf(a), |a.verb|, |b.verb|;
    var x := k[n + 1..m];
    assert a.verb == k[..n] && b.verb == k[..m] && k[n] == k[m] == ':';
    assert b.verb == a.verb + ":" + x;
    assert a.path == k[n + 1..] == x + ":" + b.path;
  }

  lemma SameVerbSamePath(a: Endpoint, b: Endpoint)
    requires KeyOf(a) == KeyOf(b) && |a.verb| == |b.verb|
    ensures a == b
  {
    var k, n := KeyOf(a), |a.verb|;
    assert a.verb == k[..n] == b.verb;
    assert a.path == k[n + 1..] == b.path;
  }

  /** Two endpoints share a breaker if and only if they are one, or one verb runs on into the other's path. */
  lemma KeyIdentifiesEndpoint(a: Endpoint, b: Endpoint)
    ensures KeyOf(a) == KeyOf(b) <==> a == b || Extends(a, b) || Extends(b, a)
  {
    if Extends(a, b) {
      ExtensionSharesKey(a, b);
    } else if Extends(b, a) {
      ExtensionSharesKey(b, a);
    } else if KeyOf(a) == KeyOf(b) {
      if |a.verb| < |b.verb| {
        LongerVerbExtends(a, b);
      } else if |b.verb| < |a.verb| {
        LongerVerbExtends(b, a);
      } else {
        SameVerbSamePath(a, b);
      }
    }
  }

  /** The path of every request that is received begins with a slash. */
  predicate Rooted(path: string) {
    path != "" && path[0] == '/'
  }

  ghost predicate RunsOn(v: string, w: string) {
    exists rest :: w == v + ":/" + rest
  }

  /** Verbs under which no two different endpoints can share a breaker. */
  ghost predicate Apart(v: string, w: string) {
    !RunsOn(v, w) && !RunsOn(w, v)
  }

  lemma RootedExtensionRunsOn(a: Endpoint, b: Endpoint)
    requires Rooted(a.path) && Extends(a, b)
    ensures RunsOn(a.verb, b.verb)
  {
    var x :| b.verb == a.verb + ":" + x && a.path == x + ":" + b.path;
    assert x != "" && x[0] == a.path[0];
    assert x == "/" + x[1..];
    assert b.verb == a.verb + ":/" + x[1..];
  }

  lemma RunningOnCollides(v: string, w: string) returns (p: string, q: string)
    requires RunsOn(v, w)
    ensures Rooted(p) && Rooted(q) && v != w && KeyOf(Endpoint(v, p)) == KeyOf(Endpoint(w, q))
  {
    var rest :| w == v + ":/" + rest;
    p, q := "/" + rest + ":/", "/";
    assert w == v + ":" + ("/" + rest) && p == "/" + rest + ":" + q;
    ExtensionSharesKey(Endpoint(v, p), Endpoint(w, q));
  }

  /** On the paths that can be received, different verbs share a breaker for some endpoints if and
      only if one is the other with a colon, a slash and some text after it. */
  lemma VerbsCollideExactlyWhenRunningOn(v: string, w: string)
    requires v != w
    ensures (exists p, q :: Rooted(p) && Rooted(q) && KeyOf(Endpoint(v, p)) == KeyOf(Endpoint(w, q))) <==> !Apart(v, w)
  {
    if RunsOn(v, w) {
      var p, q := RunningOnCollides(v, w);
    } else if RunsOn(w, v) {
      var q, p := RunningOnCollides(w, v);
      assert KeyOf(Endpoint(v, p)) == KeyOf(Endpoint(w, q));
    } else {
      forall p, q | Rooted(p) && Rooted(q)
        ensures KeyOf(Endpoint(v, p)) != KeyOf(Endpoint(w, q))
      {
        ApartKeysDiffer(Endpoint(v, p), Endpoint(w, q));
      }
    }
  }

  lemma ApartKeysDiffer(a: Endpoint, b: Endpoint)
    requires Rooted(a.path) && Rooted(b.path) && Apart(a.verb, b.verb)
    ensures KeyOf(a) == KeyOf(b) ==> a == b
  {
    KeyIdentifiesEndpoint(a, b);
    if Extends(a, b) {
      RootedExtensionRunsOn(a, b);
    } else if Extends(b, a) {
      RootedExtensionRunsOn(b, a);
    }
  }

  /** Two different endpoints that can be received and share a breaker. */
  lemma ColonInVerbSharesBreaker()
    ensures KeyOf(Endpoint("A", "/x:/y")) == KeyOf(Endpoint("A:/x", "/y"))
  {
    assert KeyOf(Endpoint("A", "/x:/y")) == "A:/x:/y" == KeyOf(Endpoint("A:/x", "/y"));
  }

  /** Requests that can be received, with verbs that cannot be mistaken for that of `e`. */
  ghost predicate Separate(requests: seq<Request>, e: Endpoint) {
    && Rooted(e.path)
    && forall r <- requests :: Rooted(r.endpoint.path) && Apart(r.endpoint.verb, e.verb)
  }

  /** The breaker of an endpoint is in the state that this endpoint's requests alone lead to. */
  lemma {:induction false} EndpointProjection(cfg: Settings, requests: seq<Request>, e: Endpoint)
    requires Separate(requests, e)
    ensures Lookup(TableAfter(cfg, requests), KeyOf(e)) == Lookup(TableAfter(cfg, Only(requests, e)), KeyOf(e))
    decreases |requests|
  {
    if requests == [] {
    } else {
      var n := |requests| - 1;
      EndpointProjection(cfg, requests[..n], e);
      assert requests[n] in requests;
      ApartKeysDiffer(requests[n].endpoint, e);
      if requests[n].endpoint == e {
        var only := Only(requests, e);
        assert only[..|only| - 1] == Only(requests[..n], e);
      } else {
        assert Only(requests, e) == Only(requests[..n], e);
      }
    }
  }

  /** Each request to an endpoint gets the answer it would get if the other endpoints did not exist. */
  lemma AnswersProject(cfg: Settings, requests: seq<Request>, i: nat)
    requires i < |requests|
    requires Separate(requests, requests[i].endpoint)
    ensures var only := Only(requests[..i + 1], requests[i].endpoint);
            |only| > 0 && Rejected(cfg, requests, i) == Rejected(cfg, only, |only| - 1)
  {
    var e := requests[i].endpoint;
    var only := Only(requests[..i + 1], e);
    assert requests[i] in requests;
    assert requests[..i + 1][..i] == requests[..i];
    assert only == Only(requests[..i], e) + [requests[i]];
    assert only[..|only| - 1] == Only(requests[..i], e);
    EndpointProjection(cfg, requests[..i], e);
  }

  /** All calls made on the breaker of an endpoint to which every request goes. */
  function AllCalls(cfg: Settings, requests: seq<Request>): seq<Call>
    decreases |requests|
  {
    if requests == [] then []
    else
      var n := |requests| - 1;
      var calls := AllCalls(cfg, requests[..n]);
      calls + CallsOf(cfg, After(cfg.breaker, FRESH, calls), requests[n])
  }

  lemma CallsServe(cfg: Settings, calls: seq<Call>, r: Request)
    ensures var s := After(cfg.breaker, FRESH, calls);
            After(cfg.breaker, FRESH, calls + CallsOf(cfg, s, r)) == Serve(cfg, s, r).cells
  {
    var s := After(cfg.breaker, FRESH, calls);
    var made := calls + CallsOf(cfg, s, r);
    var polled := calls + [Poll(r.polledAt)];
    assert polled[..|calls|] == calls;
    if |CallsOf(cfg, s, r)| == 2 {
      assert made[..|made| - 1] == polled;
    } else {
      assert made == polled;
    }
  }

  /** The breaker of an endpoint has seen the calls of that endpoint's requests, so it
      follows the reference automaton on exactly those calls. */
  lemma {:induction false} EndpointFollowsAutomaton(cfg: Settings, requests: seq<Request>, e: Endpoint)
    requires forall r <- requests :: r.endpoint == e
    ensures var calls := AllCalls(cfg, requests);
            && Lookup(TableAfter(cfg, requests), KeyOf(e)) == After(cfg.breaker, FRESH, calls)
            && Represents(cfg.breaker, Lookup(TableAfter(cfg, requests), KeyOf(e)),
                          PhaseAfter(cfg.breaker, Counting(0), calls))
    decreases |requests|
  {
    FollowsAutomaton(cfg.breaker, AllCalls(cfg, requests));
    if requests == [] {
    } else {
      var n := |requests| - 1;
      EndpointFollowsAutomaton(cfg, requests[..n], e);
      assert requests[n] in requests;
      CallsServe(cfg, AllCalls(cfg, requests[..n]), requests[n]);
    }
  }

  /** A request is rejected exactly when the reference automaton, after all calls made on its
      breaker so far, rejects a poll at that time. */
  lemma VerdictsFollowAutomaton(cfg: Settings, requests: seq<Request>, i: nat)
    requires i < |requests|
    requires Separate(requests[..i], requests[i].endpoint)
    ensures var calls := AllCalls(cfg, Only(requests[..i], requests[i].endpoint));
            Rejected(cfg, requests, i)
            <==> Rejects(cfg.breaker, PhaseAfter(cfg.breaker, Counting(0), calls), Poll(requests[i].polledAt))
  {
    var e := requests[i].endpoint;
    var only := Only(requests[..i], e);
    OnlyIsOfEndpoint(requests[..i], e);
    EndpointProjection(cfg, requests[..i], e);
    EndpointFollowsAutomaton(cfg, only, e);
    var s := Lookup(TableAfter(cfg, requests[..i]), KeyOf(e));
    CallFollowsAutomaton(cfg.breaker, s, PhaseAfter(cfg.breaker, Counting(0), AllCalls(cfg, only)),
                         Poll(requests[i].polledAt));
  }

  lemma {:induction false} OnlyIsOfEndpoint(requests: seq<Request>, e: Endpoint)
    ensures forall r <- Only(requests, e) :: r.endpoint == e
    decreases |requests|
  {
    if requests == [] {
    } else {
      OnlyIsOfEndpoint(requests[..|requests| - 1], e);
    }
  }
}
