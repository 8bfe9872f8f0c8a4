/** router.go: the registry and dispatcher. A router keeps its routes in registration order,
    a prefix, a strict-slash flag and a middleware list that each new route inherits, an
    optional not-found handler, and a lazily built index from route names to routes used by
    `UrlFor`. Serving a request runs the first route that accepts its path and method,
    wrapped in the route's middleware, or the not-found handler when none does. */
module Routers {
  import opened Common
  import opened Patterns
  import opened Routes

  const StatusNotFound: nat := 404

  /** The parts of an incoming request the router reads and writes: the URL path, the HTTP
      method and the query, as (name, value) pairs in order. */
  datatype Request = Request(path: string, httpMethod: string, query: Params)

  /** One observable step of serving a request. */
  datatype Event = BeforeRequest(mw: MiddlewareId) | Serve(handler: Handler) | AfterRequest(mw: MiddlewareId)

  /** The status a handler answers with, when the router itself decides it. */
  function StatusOf(h: Handler): (s: Option<nat>)
    ensures h.Redirect? ==> s == Some(h.status)
    ensures h.DefaultNotFound? ==> s == Some(StatusNotFound)
    ensures h.App? ==> s.None?
  {
    match h
    case App(_) => None
    case Redirect(_, status) => Some(status)
    case DefaultNotFound => Some(StatusNotFound)
  }

  /** True when the text ends in two slashes. */
  predicate EndsWithDoubleSlash(p: string) {
    |p| >= 2 && p[|p| - 2] == '/' && p[|p| - 1] == '/'
  }

  /** `Prefix` normalisation: a leading `/` is added when missing, then one trailing `/` is
      removed. */
  function NormalizePrefix(p: string): (r: string)
    ensures r == [] || r[0] == '/'
    ensures EndsWithSlash(r) <==> EndsWithDoubleSlash(p)
    ensures r == [] <==> p == [] || p == "/"
  {
    var q := if |p| > 0 && p[0] == '/' then p else "/" + p;
    if EndsWithSlash(q) then q[..|q| - 1] else q
  }

  /** The handler used when no route accepts a request: the configured one, or the default
      404 responder. */
  function NotFoundOf(custom: Option<HandlerId>): (h: Handler)
    ensures custom.Some? ==> h == App(custom.value)
    ensures custom.None? ==> StatusOf(h) == Some(StatusNotFound)
  {
    if custom.Some? then App(custom.value) else DefaultNotFound
  }

  /** Every `BeforeRequest` of the middleware list in order, the handler, then every
      `AfterRequest` in the same order. */
  function Trace(mws: seq<MiddlewareId>, h: Handler): (t: seq<Event>)
    ensures |t| == 2 * |mws| + 1
    ensures forall i :: 0 <= i < |mws| ==> t[i] == BeforeRequest(mws[i])
    ensures t[|mws|] == Serve(h)
    ensures forall i :: 0 <= i < |mws| ==> t[|mws| + 1 + i] == AfterRequest(mws[i])
  {
    seq(|mws|, i requires 0 <= i < |mws| => BeforeRequest(mws[i])) + [Serve(h)] +
    seq(|mws|, i requires 0 <= i < |mws| => AfterRequest(mws[i]))
  }

  ghost predicate AllValid(rs: seq<Route>)
    reads rs
  {
    forall i :: 0 <= i < |rs| ==> rs[i].Valid()
  }

  /** The route accepts the path and the method. */
  predicate Takes(route: Route, path: string, httpMethod: string)
    reads route
    requires route.Valid()
  {
    route.Outcome(path, httpMethod).1
  }

  lemma AllValidAppend(rs: seq<Route>, r: Route)
    requires AllValid(rs) && r.Valid()
    ensures AllValid(rs + [r])
  {
  }

  /** Which routes, in registration order, accept the path and the method. */
  function Accepting(rs: seq<Route>, path: string, httpMethod: string): (a: seq<bool>)
    reads rs
    requires AllValid(rs)
    ensures |a| == |rs|
    ensures forall j :: 0 <= j < |rs| ==> a[j] == Takes(rs[j], path, httpMethod)
    decreases |rs|
  {
    if rs == [] then [] else [Takes(rs[0], path, httpMethod)] + Accepting(rs[1..], path, httpMethod)
  }

  /** The first position at or after `i` holding true. */
  function FirstTrue(a: seq<bool>, i: nat): (r: Option<nat>)
    requires i <= |a|
    ensures r.Some? ==> i <= r.value < |a| && a[r.value]
    ensures forall j :: i <= j < (if r.Some? then r.value else |a|) ==> !a[j]
    decreases |a| - i
  {
    if i == |a| then None
    else if a[i] then Some(i)
    else FirstTrue(a, i + 1)
  }

  /** The name index `parseNamedRoute` builds from `m` and the routes, in order: every route
      with a non-empty name is stored under it, a later one replacing an earlier one. */
  function Indexed(m: map<string, Route>, rs: seq<Route>): map<string, Route>
    reads rs
    decreases |rs|
  {
    if rs == [] then m
    else
      var prev := Indexed(m, rs[..|rs| - 1]);
      var last := rs[|rs| - 1];
      if last.name != "" then prev[last.name := last] else prev
  }

  /** `UrlFor`'s substitution: for each (key, value) pair in order, every `<key>` in the
      current text is replaced by the value. */
  function Substitute(s: string, ps: seq<(string, string)>): string
    decreases |ps|
  {
    if ps == [] then s
    else
      var (k, v) := ps[|ps| - 1];
      ReplaceAll(Substitute(s, ps[..|ps| - 1]), "<" + k + ">", v)
  }

  /** The body of `ServeHTTP` for a matched route: every `BeforeRequest`, the handler,
      then every `AfterRequest`. */
  method RunMiddleware(mws: seq<MiddlewareId>, h: Handler) returns (trace: seq<Event>)
    ensures trace == Trace(mws, h)
  {
    trace := [];
    for j := 0 to |mws|
      invariant trace == seq(j, k requires 0 <= k < j => BeforeRequest(mws[k]))
    {
      trace := trace + [BeforeRequest(mws[j])];
    }
    trace := trace + [Serve(h)];
    var before := trace;
    for j := 0 to |mws|
      invariant trace == before + seq(j, k requires 0 <= k < j => AfterRequest(mws[k]))
    {
      trace := trace + [AfterRequest(mws[j])];
    }
  }

  /** The loop of `parseNamedRoute`: stores each route with a non-empty name under that
      name, in order. */
  method AddNamed(m: map<string, Route>, rs: seq<Route>) returns (r: map<string, Route>)
    ensures r == Indexed(m, rs)
  {
    r := m;
    for i := 0 to |rs|
      invariant r == Indexed(m, rs[..i])
    {
      var route := rs[i];
      assert rs[..i + 1][..i] == rs[..i];
      if route.name != "" {
        r := r[route.name := route];
      }
    }
    assert rs[..|rs|] == rs;
  }

  /** The builder chain `Handle` runs: a new route for the template and the handler, then
      its strict-slash flag and its middleware set. */
  method NewRoute(pattern: string, handler: HandlerId, strictSlash: bool, mws: seq<MiddlewareId>)
    returns (route: Route)
    requires Supported(pattern)
    ensures fresh(route) && route.Valid()
    ensures route.pattern == pattern && route.handler == handler
    ensures route.strictSlash == strictSlash && route.middleware == mws
    ensures route.name == "" && route.methods == []
  {
    route := new Route(pattern, handler);
    assert route.Valid();
    route.StrictSlash(strictSlash);
    assert route.Valid();
    route.Middleware(mws);
  }

  class Router {
    var prefix: string
    var namedRoutes: map<string, Route>
    var parse: bool
    var routes: seq<Route>
    var strictSlash: bool
    var notFoundHandler: Option<HandlerId>
    var middlewares: seq<MiddlewareId>

    /** Every registered route is compiled, and the name index stays empty until it is
        built. */
    ghost predicate Valid()
      reads this, routes
    {
      AllValid(routes) && (!parse ==> namedRoutes == map[])
    }

    /** `NewRouter`: no routes, an empty name index, empty prefix and middleware list,
        strict slash off and no custom not-found handler. */
    constructor ()
      ensures Valid()
      ensures prefix == "" && namedRoutes == map[] && !parse && routes == []
      ensures !strictSlash && notFoundHandler == None && middlewares == []
    {
      prefix := "";
      namedRoutes := map[];
      parse := false;
      routes := [];
      strictSlash := false;
      notFoundHandler := None;
      middlewares := [];
    }

    /** Builder setter `StrictSlash`: applies to routes registered afterwards. */
    method StrictSlash(value: bool)
      modifies this`strictSlash
      ensures strictSlash == value
    {
      strictSlash := value;
    }

    /** `SubRouter`: clears the prefix, strict slash and middleware list for routes
        registered afterwards; the routes already registered keep what they inherited. */
    method SubRouter()
      modifies this`prefix, this`strictSlash, this`middlewares
      ensures prefix == "" && !strictSlash && middlewares == []
    {
      prefix := "";
      strictSlash := false;
      middlewares := [];
    }

    /** `Prefix`: stores the normalised prefix. */
    method Prefix(p: string)
      modifies this`prefix
      ensures prefix == NormalizePrefix(p)
    {
      var q := p;
      if !(|q| > 0 && q[0] == '/') {
        q := "/" + q;
      }
      if EndsWithSlash(q) {
        q := q[..|q| - 1];
      }
      prefix := q;
    }

    /** `Middlewares`: appends each middleware, in order. */
    method Middlewares(ms: seq<MiddlewareId>)
      modifies this`middlewares
      ensures middlewares == old(middlewares) + ms
    {
      for i := 0 to |ms|
        invariant middlewares == old(middlewares) + ms[..i]
      {
        assert ms[..i + 1] == ms[..i] + [ms[i]];
        middlewares := middlewares + [ms[i]];
      }
      assert ms[..|ms|] == ms;
    }

    /** `Handle`: registers one new route at the end, for the prefixed template, with the
        router's current strict-slash flag and middleware list. */
    method Handle(pattern: string, handler: HandlerId) returns (route: Route)
      requires Valid()
      requires Supported(prefix + pattern)
      modifies this`routes
      ensures Valid()
      ensures fresh(route) && routes == old(routes) + [route]
      ensures route.pattern == prefix + pattern && route.handler == handler
      ensures route.strictSlash == strictSlash && route.middleware == middlewares
      ensures route.name == "" && route.methods == []
    {
      route := NewRoute(prefix + pattern, handler, strictSlash, middlewares);
      AllValidAppend(routes, route);
      routes := routes + [route];
    }

    /** What serving `req` does: the first route accepting the path and the method runs,
        its parameters put before the existing query and its handler wrapped in its
        middleware; with no such route the not-found handler runs on the request as it
        came. */
    function Dispatch(req: Request): (Request, seq<Event>)
      reads this, routes
      requires Valid()
    {
      match FirstTrue(Accepting(routes, req.path, req.httpMethod), 0)
      case None => (req, [Serve(NotFoundOf(notFoundHandler))])
      case Some(i) =>
        var m := routes[i].Outcome(req.path, req.httpMethod).0;
        (req.(query := m.params + req.query), Trace(routes[i].middleware, m.handler.value))
    }

    /** The route loop of `ServeHTTP`: asks each route in registration order whether it
        accepts the path and the method, and stops at the first that does. */
    method FirstRoute(path: string, httpMethod: string) returns (i: nat, matched: MatchedRoute, ok: bool)
      requires Valid()
      ensures ok ==> i < |routes| && Takes(routes[i], path, httpMethod)
      ensures ok ==> matched == routes[i].Outcome(path, httpMethod).0 && matched.handler.Some?
      ensures forall j :: 0 <= j < (if ok then i else |routes|) ==> !Takes(routes[j], path, httpMethod)
    {
      i := 0;
      matched, ok := NoMatch, false;
      while i < |routes|
        invariant 0 <= i <= |routes|
        invariant forall j :: 0 <= j < i ==> !Takes(routes[j], path, httpMethod)
      {
        var route := routes[i];
        matched, ok := route.Matches(path, httpMethod);
        if ok {
          return;
        }
        i := i + 1;
      }
    }

    /** `ServeHTTP`: serves the request with the first route that accepts it, its
        parameters put before the existing query and its handler wrapped in its
        middleware, or with the not-found handler; returns the request as the handler sees
        it and the events in order. */
    method ServeHTTP(req: Request) returns (out: Request, trace: seq<Event>)
      requires Valid()
      ensures (out, trace) == Dispatch(req)
    {
      var i, matched, ok := FirstRoute(req.path, req.httpMethod);
      if ok {
        DispatchFirstMatch(this, req, i);
        out := req.(query := matched.params + req.query);
        trace := RunMiddleware(routes[i].middleware, matched.handler.value);
      } else {
        DispatchNotFound(this, req);
        out, trace := req, [Serve(NotFoundOf(notFoundHandler))];
      }
    }

    /** `parseNamedRoute`: builds the name index from the routes registered so far, once;
        after that it leaves the index as it is. */
    method ParseNamedRoute()
      requires Valid()
      modifies this`namedRoutes, this`parse
      ensures Valid() && parse
      ensures old(parse) ==> namedRoutes == old(namedRoutes)
      ensures !old(parse) ==> namedRoutes == Indexed(map[], routes)
    {
      if parse {
        return;
      }
      namedRoutes := AddNamed(namedRoutes, routes);
      parse := true;
    }

    /** `UrlFor`: builds the name index if needed; for a known name, substitutes the values
        into the route's template, and for an unknown one returns the empty string. */
    method UrlFor(name: string, params: seq<(string, string)>) returns (url: string)
      requires Valid()
      modifies this`namedRoutes, this`parse
      ensures Valid() && parse
      ensures old(parse) ==> namedRoutes == old(namedRoutes)
      ensures !old(parse) ==> namedRoutes == Indexed(map[], routes)
      ensures url == if name in namedRoutes then Substitute(namedRoutes[name].pattern, params) else ""
    {
      ParseNamedRoute();
      url := "";
      if name in namedRoutes {
        url := namedRoutes[name].pattern;
        for i := 0 to |params|
          invariant url == Substitute(namedRoutes[name].pattern, params[..i])
        {
          assert params[..i + 1][..i] == params[..i];
          var (key, value) := params[i];
          url := ReplaceAll(url, "<" + key + ">", value);
        }
        assert params[..|params|] == params;
      }
    }
  }

  /** Normalising twice changes nothing when the input does not end in two slashes. */
  lemma PrefixIdempotent(p: string)
    requires !EndsWithDoubleSlash(p)
    ensures NormalizePrefix(NormalizePrefix(p)) == NormalizePrefix(p)
  {
  }

  /** A position holding true after none that does is the one chosen. */
  lemma FirstTrueIsFirst(a: seq<bool>, i: nat)
    requires i < |a| && a[i]
    requires forall j :: 0 <= j < i ==> !a[j]
    ensures FirstTrue(a, 0) == Some(i)
  {
  }

  /** Routes registered after the one that serves a request are never consulted: appending
      routes does not change which route is chosen. */
  lemma FirstMatchIgnoresLater(rs: seq<Route>, more: seq<Route>, path: string, httpMethod: string)
    requires AllValid(rs) && AllValid(rs + more)
    requires FirstTrue(Accepting(rs, path, httpMethod), 0).Some?
    ensures FirstTrue(Accepting(rs + more, path, httpMethod), 0) == FirstTrue(Accepting(rs, path, httpMethod), 0)
  {
    var a, b := Accepting(rs, path, httpMethod), Accepting(rs + more, path, httpMethod);
    var i := FirstTrue(a, 0).value;
    assert forall j :: 0 <= j <= i ==> (rs + more)[j] == rs[j] && b[j] == a[j];
    FirstTrueIsFirst(b, i);
  }

  /** The first route, in registration order, that accepts the path and the method serves
      the request: its parameters come before the existing query, and the events are its
      middleware's `BeforeRequest` calls in order, its handler, then the `AfterRequest`
      calls in the same order. */
  lemma DispatchFirstMatch(r: Router, req: Request, i: nat)
    requires r.Valid() && i < |r.routes| && Takes(r.routes[i], req.path, req.httpMethod)
    requires forall j :: 0 <= j < i ==> !Takes(r.routes[j], req.path, req.httpMethod)
    ensures var m := r.routes[i].Outcome(req.path, req.httpMethod).0;
            m.handler.Some? &&
            r.Dispatch(req) == (req.(query := m.params + req.query), Trace(r.routes[i].middleware, m.handler.value))
  {
    FirstTrueIsFirst(Accepting(r.routes, req.path, req.httpMethod), i);
  }

  /** Served by a route with a plain match, the request's query gains exactly the route's
      placeholder names paired with their captures, before what it held, and the route's
      own handler runs between its middleware. */
  lemma DispatchParams(r: Router, req: Request, i: nat, caps: seq<string>)
    requires r.Valid() && i < |r.routes|
    requires forall j :: 0 <= j < i ==> !Takes(r.routes[j], req.path, req.httpMethod)
    requires var route := r.routes[i];
             Supports(route.methods, req.httpMethod) &&
             Accepts(Compile(route.pattern).body, req.path, caps) &&
             (!route.strictSlash || EndsWithSlash(route.pattern) == EndsWithSlash(req.path))
    ensures var route := r.routes[i];
            r.Dispatch(req) ==
            (req.(query := Zip(Names(Compile(route.pattern).body), caps) + req.query),
             Trace(route.middleware, App(route.handler)))
  {
    var route := r.routes[i];
    assert route.Valid();
    OutcomeParams(Compile(route.pattern), route.pattern, route.strictSlash, route.handler, req.path, caps);
    DispatchFirstMatch(r, req, i);
  }

  /** When no route accepts the request, only the not-found handler runs, on the request as
      it came. */
  lemma DispatchNotFound(r: Router, req: Request)
    requires r.Valid()
    requires forall j :: 0 <= j < |r.routes| ==> !Takes(r.routes[j], req.path, req.httpMethod)
    ensures r.Dispatch(req) == (req, [Serve(NotFoundOf(r.notFoundHandler))])
  {
  }

  /** router_test.go TestNotFound: a router with no routes and no custom handler answers
      every request with the default 404. */
  lemma EmptyRouterNotFound(r: Router, req: Request)
    requires r.Valid() && r.routes == [] && r.notFoundHandler == None
    ensures r.Dispatch(req) == (req, [Serve(DefaultNotFound)])
    ensures StatusOf(DefaultNotFound) == Some(404)
  {
  }

  /** A name is in the index exactly when it was already there or some route carries it and
      it is not empty. */
  lemma {:induction false} IndexedKeys(m: map<string, Route>, rs: seq<Route>, k: string)
    ensures k in Indexed(m, rs) <==> k in m || (k != "" && exists i :: 0 <= i < |rs| && rs[i].name == k)
    decreases |rs|
  {
    if rs != [] {
      var init := rs[..|rs| - 1];
      IndexedKeys(m, init, k);
      if k != "" && exists i :: 0 <= i < |rs| && rs[i].name == k {
        var i :| 0 <= i < |rs| && rs[i].name == k;
        if i < |rs| - 1 {
          assert init[i].name == k;
        }
      }
      if k != "" && exists i :: 0 <= i < |init| && init[i].name == k {
        var i :| 0 <= i < |init| && init[i].name == k;
        assert rs[i].name == k;
      }
    }
  }

  /** The last route carrying a non-empty name is the one the index keeps for it. */
  lemma {:induction false} IndexedLastWins(m: map<string, Route>, rs: seq<Route>, i: nat)
    requires i < |rs| && rs[i].name != ""
    requires forall j :: i < j < |rs| ==> rs[j].name != rs[i].name
    ensures rs[i].name in Indexed(m, rs) && Indexed(m, rs)[rs[i].name] == rs[i]
    decreases |rs|
  {
    if i < |rs| - 1 {
      var init := rs[..|rs| - 1];
      assert init[i] == rs[i];
      IndexedLastWins(m, init, i);
    }
  }

  /** A name no route carries keeps the entry it had before. */
  lemma {:induction false} IndexedKeeps(m: map<string, Route>, rs: seq<Route>, k: string)
    requires k in m
    requires forall j :: 0 <= j < |rs| ==> rs[j].name != k
    ensures k in Indexed(m, rs) && Indexed(m, rs)[k] == m[k]
    decreases |rs|
  {
    if rs != [] {
      IndexedKeeps(m, rs[..|rs| - 1], k);
    }
  }

  /** The value of the first pair whose key is `k`. */
  function Lookup(ps: seq<(string, string)>, k: string): (r: Option<string>)
    ensures r.None? ==> forall i :: 0 <= i < |ps| ==> ps[i].0 != k
    ensures r.Some? ==> exists i :: 0 <= i < |ps| && ps[i] == (k, r.value) &&
                                    forall j :: 0 <= j < i ==> ps[j].0 != k
    decreases |ps|
  {
    if ps == [] then None
    else if ps[0].0 == k then Some(ps[0].1)
    else
      var r := Lookup(ps[1..], k);
      if r.Some? then
        var i :| 0 <= i < |ps[1..]| && ps[1..][i] == (k, r.value) &&
                 forall j :: 0 <= j < i ==> ps[1..][j].0 != k;
        assert ps[i + 1] == (k, r.value);
        r
      else r
  }

  /** A token after substitution: a placeholder whose text between `<` and `>` is a
      supplied key becomes the literal value of the first such pair; anything else stays. */
  function Instantiate(t: Token, ps: seq<(string, string)>): Token {
    if t.Param? && Lookup(ps, Inner(t)).Some? then Lit(Lookup(ps, Inner(t)).value) else t
  }

  function InstantiateAll(ts: seq<Token>, ps: seq<(string, string)>): (r: seq<Token>)
    ensures |r| == |ts|
    ensures forall i :: 0 <= i < |ts| ==> r[i] == Instantiate(ts[i], ps)
  {
    seq(|ts|, i requires 0 <= i < |ts| => Instantiate(ts[i], ps))
  }

  /** Token lists whose text can be substituted token by token: no `<` in a literal, and
      no `<` or `>` inside a placeholder. */
  predicate Substitutable(ts: seq<Token>) {
    forall i :: 0 <= i < |ts| ==>
      (ts[i].Lit? ==> '<' !in ts[i].text) &&
      (ts[i].Param? ==> '<' !in Inner(ts[i]) && '>' !in Inner(ts[i]))
  }

  /** Parameters whose keys hold no `>` and whose values hold no `<`. */
  predicate PlainPairs(ps: seq<(string, string)>) {
    forall i :: 0 <= i < |ps| ==> '>' !in ps[i].0 && '<' !in ps[i].1
  }

  /** Adding a pair at the end only supplies a key that was missing. */
  lemma {:induction false} LookupAppend(ps: seq<(string, string)>, k: string, v: string, x: string)
    ensures Lookup(ps + [(k, v)], x) ==
            if Lookup(ps, x).Some? then Lookup(ps, x) else if x == k then Some(v) else None
    decreases |ps|
  {
    if ps != [] {
      assert (ps + [(k, v)])[1..] == ps[1..] + [(k, v)];
      LookupAppend(ps[1..], k, v, x);
    }
  }

  /** `<k>` can only be found at the start of a placeholder whose text is `k`. */
  lemma NeedleMismatch(i: string, k: string, rest: string)
    requires i != k && '>' !in i && '>' !in k
    requires |"<" + i + ">" + rest| >= |k| + 2
    ensures ("<" + i + ">" + rest)[..|k| + 2] != "<" + k + ">"
  {
    var s := "<" + i + ">" + rest;
    var n := "<" + k + ">";
    var h := s[..|n|];
    if |i| == |k| {
      assert h[1..|k| + 1] == i;
      assert n[1..|k| + 1] == k;
    } else if |i| < |k| {
      assert h[|i| + 1] == '>';
      assert n[|i| + 1] == k[|i|];
    } else {
      assert h[|k| + 1] == i[|k|];
      assert n[|k| + 1] == '>';
    }
  }

  /** A literal without `<` is copied through. */
  lemma ReplaceLit(t: Token, r: string, k: string, v: string)
    requires t.Lit? && '<' !in t.text
    ensures ReplaceAll(Piece(t) + r, "<" + k + ">", v) ==
            Piece(Instantiate(t, [(k, v)])) + ReplaceAll(r, "<" + k + ">", v)
  {
    ReplaceAllSkip(t.text, r, "<" + k + ">", v);
  }

  /** A placeholder whose text is `k` is replaced by `v`. */
  lemma ReplaceHit(t: Token, r: string, k: string, v: string)
    requires t.Param? && Inner(t) == k
    ensures ReplaceAll(Piece(t) + r, "<" + k + ">", v) ==
            Piece(Instantiate(t, [(k, v)])) + ReplaceAll(r, "<" + k + ">", v)
  {
    var n := "<" + k + ">";
    var s := Piece(t) + r;
    assert Piece(t) == n;
    assert s[..|n|] == n && s[|n|..] == r;
    assert Lookup([(k, v)], k) == Some(v);
  }

  /** Any other placeholder is copied through. */
  lemma ReplaceMiss(t: Token, r: string, k: string, v: string)
    requires t.Param? && Inner(t) != k
    requires '<' !in Inner(t) && '>' !in Inner(t) && '>' !in k
    ensures ReplaceAll(Piece(t) + r, "<" + k + ">", v) ==
            Piece(Instantiate(t, [(k, v)])) + ReplaceAll(r, "<" + k + ">", v)
  {
    var n := "<" + k + ">";
    var i := Inner(t);
    var s := "<" + i + ">" + r;
    assert Piece(t) + r == s;
    assert Lookup([(k, v)], i) == None;
    if |s| < |n| {
      assert ReplaceAll(r, n, v) == r;
    } else {
      NeedleMismatch(i, k, r);
      assert s[1..] == (i + ">") + r;
      ReplaceAllSkip(i + ">", r, n, v);
    }
  }

  /** Replacing `<k>` in the text of a substitutable token list replaces exactly the
      placeholders whose text is `k`. */
  lemma {:induction false} ReplaceTokens(ts: seq<Token>, k: string, v: string)
    requires Substitutable(ts) && '>' !in k
    ensures ReplaceAll(Render(ts), "<" + k + ">", v) == Render(InstantiateAll(ts, [(k, v)]))
    decreases |ts|
  {
    var ps := [(k, v)];
    if ts != [] {
      var t, tail := ts[0], ts[1..];
      assert Substitutable(tail);
      ReplaceTokens(tail, k, v);
      assert InstantiateAll(ts, ps) == [Instantiate(t, ps)] + InstantiateAll(tail, ps);
      assert Render(ts) == Piece(t) + Render(tail);
      if t.Lit? {
        ReplaceLit(t, Render(tail), k, v);
      } else if Inner(t) == k {
        ReplaceHit(t, Render(tail), k, v);
      } else {
        ReplaceMiss(t, Render(tail), k, v);
      }
    }
  }

  /** Substituting values without `<` keeps a token list substitutable. */
  lemma InstantiateSubstitutable(ts: seq<Token>, ps: seq<(string, string)>)
    requires Substitutable(ts) && PlainPairs(ps)
    ensures Substitutable(InstantiateAll(ts, ps))
  {
    var out := InstantiateAll(ts, ps);
    forall j | 0 <= j < |out|
      ensures (out[j].Lit? ==> '<' !in out[j].text) &&
              (out[j].Param? ==> '<' !in Inner(out[j]) && '>' !in Inner(out[j]))
    {
      if ts[j].Param? && Lookup(ps, Inner(ts[j])).Some? {
        var w := Lookup(ps, Inner(ts[j])).value;
        var x :| 0 <= x < |ps| && ps[x] == (Inner(ts[j]), w) &&
                 forall y :: 0 <= y < x ==> ps[y].0 != Inner(ts[j]);
        assert '<' !in ps[x].1;
      }
    }
  }

  /** Substituting a list of pairs and then one more pair is substituting the longer list. */
  lemma InstantiateAppend(ts: seq<Token>, ps: seq<(string, string)>, k: string, v: string)
    ensures InstantiateAll(InstantiateAll(ts, ps), [(k, v)]) == InstantiateAll(ts, ps + [(k, v)])
  {
    var mid := InstantiateAll(ts, ps);
    forall j | 0 <= j < |ts|
      ensures Instantiate(mid[j], [(k, v)]) == Instantiate(ts[j], ps + [(k, v)])
    {
      if ts[j].Param? {
        LookupAppend(ps, k, v, Inner(ts[j]));
      }
    }
  }

  /** `UrlFor`'s substitution on a template read as tokens: each placeholder whose text is
      a supplied key is replaced by the value of the first pair with that key, and every
      other placeholder, typed ones included, is left as it was. */
  lemma {:induction false} SubstituteTokens(ts: seq<Token>, ps: seq<(string, string)>)
    requires Substitutable(ts) && PlainPairs(ps)
    ensures Substitute(Render(ts), ps) == Render(InstantiateAll(ts, ps))
    decreases |ps|
  {
    if ps == [] {
      assert InstantiateAll(ts, ps) == ts;
    } else {
      var init := ps[..|ps| - 1];
      var (k, v) := ps[|ps| - 1];
      assert PlainPairs(init);
      SubstituteTokens(ts, init);
      InstantiateSubstitutable(ts, init);
      ReplaceTokens(InstantiateAll(ts, init), k, v);
      assert ps == init + [(k, v)];
      InstantiateAppend(ts, init, k, v);
    }
  }

  /** Rendering three tokens spells their pieces in order. */
  lemma RenderThree(a: Token, b: Token, c: Token)
    ensures Render([a, b, c]) == Piece(a) + Piece(b) + Piece(c)
  {
    RenderCons(c, []);
    RenderCons(b, [c]);
    RenderCons(a, [b, c]);
    assert [a] + [b, c] == [a, b, c];
    assert [b] + [c] == [b, c];
  }

  /** Substituting one pair into a template with a single placeholder between two
      literals: the placeholder is replaced exactly when its text is the key. */
  lemma SubstituteSingle(a: Token, b: Token, c: Token, k: string, v: string)
    requires a.Lit? && c.Lit? && '<' !in a.text && '<' !in c.text
    requires b.Param? && '<' !in Inner(b) && '>' !in Inner(b)
    requires '>' !in k && '<' !in v
    ensures Substitute(Piece(a) + Piece(b) + Piece(c), [(k, v)]) ==
            Piece(a) + (if Inner(b) == k then v else Piece(b)) + Piece(c)
  {
    var ps := [(k, v)];
    RenderThree(a, b, c);
    assert Substitutable([a, b, c]);
    SubstituteTokens([a, b, c], ps);
    var b' := Instantiate(b, ps);
    assert InstantiateAll([a, b, c], ps) == [a, b', c];
    RenderThree(a, b', c);
    if Inner(b) == k {
      assert Lookup(ps, k) == Some(v);
    } else {
      assert Lookup(ps, Inner(b)) == None;
    }
  }

  lemma IdPieces()
    ensures Inner(Param(false, "", "id")) == "id" && Piece(Param(false, "", "id")) == "<id>"
    ensures Inner(Param(true, "int", "id")) == "int:id" && Piece(Param(true, "int", "id")) == "<int:id>"
  {
  }

  lemma UserIdTexts()
    ensures "/user/" + "<id>" + "/" == "/user/<id>/"
    ensures "/user/" + "7" + "/" == "/user/7/"
    ensures "/user/" + "<int:id>" + "/" == "/user/<int:id>/"
  {
  }

  /** `UrlFor` on the template `/user/<id>/` with `id` set to `7` yields `/user/7/`. */
  lemma UrlForExample()
    ensures Substitute("/user/<id>/", [("id", "7")]) == "/user/7/"
  {
    var a, b, c := Lit("/user/"), Param(false, "", "id"), Lit("/");
    IdPieces();
    UserIdTexts();
    SubstituteSingle(a, b, c, "id", "7");
  }

  /** A typed placeholder is not found by its bare name: `UrlFor` on `/user/<int:id>/`
      with `id` set to `7` leaves the template unchanged. */
  lemma UrlForTypedExample()
    ensures Substitute("/user/<int:id>/", [("id", "7")]) == "/user/<int:id>/"
  {
    var a, b, c := Lit("/user/"), Param(true, "int", "id"), Lit("/");
    IdPieces();
    UserIdTexts();
    SubstituteSingle(a, b, c, "id", "7");
  }
}
