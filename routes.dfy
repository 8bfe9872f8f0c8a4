/** route.go: one registered endpoint. A route keeps its template, its handler, the matcher
    compiled once from the template, an optional symbolic name, the allowed HTTP methods
    (upper-cased; none configured means GET only), the strict-slash flag and the middleware
    it inherited. Matching a path gives no match, a 301 redirect to the slash-corrected path,
    or the route's handler with one parameter per placeholder. */
module Routes {
  import opened Common
  import opened Patterns

  /** An opaque handler registered with a route; what it writes is not modelled. */
  type HandlerId = nat

  /** An opaque middleware object with `BeforeRequest` and `AfterRequest`. */
  type MiddlewareId = nat

  const MethodGet := "GET"
  const MovedPermanently: nat := 301

  /** What serves a request: a registered handler, the redirect handler `matches` builds,
      or the default not-found responder. */
  datatype Handler = App(id: HandlerId) | Redirect(location: string, status: nat) | DefaultNotFound

  /** Path parameters as `url.Values` filled with `Add`: (name, value) pairs in group order. */
  type Params = seq<(string, string)>

  /** `MatchedRoute`: the handler bound by a match (None when nothing matched) and the
      extracted parameters. */
  datatype MatchedRoute = MatchedRoute(handler: Option<Handler>, params: Params)

  const NoMatch := MatchedRoute(None, [])

  /** `supportsHttpMethod`: the method, upper-cased, is GET when no method is configured,
      and one of the configured methods otherwise. */
  predicate Supports(methods: seq<string>, httpMethod: string) {
    var m := Upper(httpMethod);
    if |methods| == 0 then m == MethodGet else m in methods
  }

  function Zip(names: seq<string>, values: seq<string>): (ps: Params)
    requires |names| == |values|
    ensures |ps| == |names|
    ensures forall i :: 0 <= i < |ps| ==> ps[i] == (names[i], values[i])
  {
    seq(|names|, i requires 0 <= i < |names| => (names[i], values[i]))
  }

  /** Where the strict-slash redirect sends a path: a `/` added when the template ends in
      `/`, the last character dropped otherwise. */
  function RedirectTarget(pattern: string, path: string): (r: string)
    requires EndsWithSlash(pattern) || path != []
    ensures EndsWithSlash(pattern) ==> EndsWithSlash(r) && r[..|r| - 1] == path
    ensures !EndsWithSlash(pattern) ==> |r| + 1 == |path| && r == path[..|r|]
  {
    if EndsWithSlash(pattern) then path + "/" else path[..|path| - 1]
  }

  /** The result of `matches` for a route with matcher `m`, template `pattern`, strict-slash
      flag `strictSlash` and handler `handler`. */
  function MatchOutcome(m: Matcher, pattern: string, strictSlash: bool, handler: HandlerId,
                        path: string): (r: (MatchedRoute, bool))
    ensures r.1 <==> r.0.handler.Some?
    ensures !r.1 ==> r.0 == NoMatch
  {
    match Match(m.body, path)
    case None => (NoMatch, false)
    case Some(caps) =>
      if strictSlash && EndsWithSlash(pattern) != EndsWithSlash(path) then
        (MatchedRoute(Some(Redirect(RedirectTarget(pattern, path), MovedPermanently)), []), true)
      else
        (MatchedRoute(Some(App(handler)), Zip(Names(m.body), caps)), true)
  }

  class Route {
    const pattern: string
    const handler: HandlerId
    var regexp: Option<Matcher>
    var name: string
    var methods: seq<string>
    var strictSlash: bool
    var middleware: seq<MiddlewareId>

    /** The template lies in the modelled fragment and has been compiled. */
    ghost predicate Valid()
      reads this`regexp
    {
      Supported(pattern) && regexp == Some(Compile(pattern))
    }

    /** `NewRoute`: records the template and the handler, then compiles the template. */
    constructor (pattern: string, handler: HandlerId)
      requires Supported(pattern)
      ensures Valid()
      ensures this.pattern == pattern && this.handler == handler
      ensures name == "" && methods == [] && !strictSlash && middleware == []
    {
      this.pattern := pattern;
      this.handler := handler;
      regexp := None;
      name := "";
      methods := [];
      strictSlash := false;
      middleware := [];
      new;
      ParsePattern();
    }

    /** `parsePattern`: compiles the template the first time only; once a matcher is
        stored it is kept, so every later call leaves the route as it is. */
    method ParsePattern()
      modifies this`regexp
      ensures old(regexp).Some? ==> regexp == old(regexp)
      ensures old(regexp).None? ==> regexp == Some(Compile(pattern))
    {
      if regexp.Some? {
        return;
      }
      regexp := Some(Compile(pattern));
    }

    /** Builder setter `Name`. */
    method Name(name: string)
      modifies this`name
      ensures this.name == name
    {
      this.name := name;
    }

    /** Builder setter `Methods`: appends each method upper-cased, in order. */
    method Methods(v: seq<string>)
      modifies this`methods
      ensures methods == old(methods) + UpperAll(v)
    {
      for i := 0 to |v|
        invariant methods == old(methods) + UpperAll(v[..i])
      {
        assert UpperAll(v[..i + 1]) == UpperAll(v[..i]) + [Upper(v[i])];
        methods := methods + [Upper(v[i])];
      }
      assert v[..|v|] == v;
    }

    /** Builder setter `StrictSlash`. */
    method StrictSlash(strictSlash: bool)
      modifies this`strictSlash
      ensures this.strictSlash == strictSlash
    {
      this.strictSlash := strictSlash;
    }

    /** Builder setter `Middleware`: appends the given middleware, in order. */
    method Middleware(ms: seq<MiddlewareId>)
      modifies this`middleware
      ensures middleware == old(middleware) + ms
    {
      middleware := middleware + ms;
    }

    /** `supportsHttpMethod`: a linear search of the configured methods. */
    method SupportsHttpMethod(httpMethod: string) returns (ok: bool)
      ensures ok == Supports(methods, httpMethod)
    {
      var m := Upper(httpMethod);
      if |methods| == 0 {
        return m == MethodGet;
      }
      for i := 0 to |methods|
        invariant m !in methods[..i]
      {
        if m == methods[i] {
          return true;
        }
      }
      assert methods[..|methods|] == methods;
      return false;
    }

    /** `matches`: runs the compiled matcher; on a strict-slash mismatch binds the redirect
        handler with no parameters, otherwise binds the route's handler and adds one
        parameter per capture group. */
    method MatchPath(path: string) returns (matched: MatchedRoute, ok: bool)
      requires Valid()
      ensures (matched, ok) == MatchOutcome(regexp.value, pattern, strictSlash, handler, path)
    {
      matched := NoMatch;
      var body := regexp.value.body;
      var out := Match(body, path);
      if out.None? {
        return matched, false;
      }
      if strictSlash {
        var p1 := EndsWithSlash(pattern);
        var p2 := EndsWithSlash(path);
        if p1 != p2 {
          var target := RedirectTarget(pattern, path);
          matched := matched.(handler := Some(Redirect(target, MovedPermanently)));
          return matched, true;
        }
      }
      var names := Names(body);
      var caps := out.value;
      var params: Params := [];
      for k := 0 to |caps|
        invariant |params| == k
        invariant forall j :: 0 <= j < k ==> params[j] == (names[j], caps[j])
      {
        params := params + [(names[k], caps[k])];
      }
      assert params == Zip(names, caps);
      matched := MatchedRoute(Some(App(handler)), params);
      return matched, true;
    }

    /** What `Matches(path, method)` answers: the method check, then `matches`. */
    function Outcome(path: string, httpMethod: string): (MatchedRoute, bool)
      reads this
      requires Valid()
    {
      if Supports(methods, httpMethod) then MatchOutcome(regexp.value, pattern, strictSlash, handler, path)
      else (NoMatch, false)
    }

    /** `Matches(path, method)` = `supportsHttpMethod(method) && matches(path)`. */
    method Matches(path: string, httpMethod: string) returns (matched: MatchedRoute, ok: bool)
      requires Valid()
      ensures (matched, ok) == Outcome(path, httpMethod)
    {
      var supported := SupportsHttpMethod(httpMethod);
      if supported {
        matched, ok := MatchPath(path);
      } else {
        matched, ok := NoMatch, false;
      }
    }
  }

  /** Methods are compared case-insensitively: with methods configured through `Methods(v)`
      a request method is accepted exactly when it equals one of `v` up to case, and with
      none configured exactly when it is GET up to case. */
  lemma {:induction false} SupportsConfigured(v: seq<string>, httpMethod: string)
    ensures Supports(UpperAll(v), httpMethod) <==>
            (if v == [] then Upper(httpMethod) == MethodGet
             else exists i :: 0 <= i < |v| && Upper(v[i]) == Upper(httpMethod))
  {
    if v != [] && Supports(UpperAll(v), httpMethod) {
      var i :| 0 <= i < |v| && UpperAll(v)[i] == Upper(httpMethod);
    }
  }

  /** A path outside the template's language gives no match, no handler and no parameters. */
  lemma OutcomeNoMatch(m: Matcher, pattern: string, strictSlash: bool, handler: HandlerId,
                       path: string)
    requires forall caps :: !Accepts(m.body, path, caps)
    ensures MatchOutcome(m, pattern, strictSlash, handler, path) == (NoMatch, false)
  {
  }

  /** On a match without redirect, the parameters pair each placeholder name, in order, with
      exactly the text its placeholder captured, and the route's own handler is bound. */
  lemma OutcomeParams(m: Matcher, pattern: string, strictSlash: bool, handler: HandlerId,
                      path: string, caps: seq<string>)
    requires WellFormed(m.body) && Accepts(m.body, path, caps)
    requires !strictSlash || EndsWithSlash(pattern) == EndsWithSlash(path)
    ensures MatchOutcome(m, pattern, strictSlash, handler, path) ==
            (MatchedRoute(Some(App(handler)), Zip(Names(m.body), caps)), true)
  {
    MatchComplete(m.body, path, caps);
  }

  /** Without strict slash no redirect is ever produced. */
  lemma LaxNeverRedirects(m: Matcher, pattern: string, handler: HandlerId, path: string)
    ensures var (matched, _) := MatchOutcome(m, pattern, false, handler, path);
            matched.handler.None? || matched.handler == Some(App(handler))
  {
  }

  /** With strict slash, a path in the template's language whose trailing `/` disagrees
      with the template's is answered by a 301 redirect with no parameters; the target's
      trailing `/` agrees with the template's, and the target itself is matched by the
      route's own handler with the same captures. */
  lemma StrictRedirect(pattern: string, handler: HandlerId, path: string, caps: seq<string>)
    requires Supported(pattern) && Accepts(Compile(pattern).body, path, caps)
    requires EndsWithSlash(pattern) != EndsWithSlash(path)
    ensures path != [] || EndsWithSlash(pattern)
    ensures var target := RedirectTarget(pattern, path);
            && MatchOutcome(Compile(pattern), pattern, true, handler, path) ==
               (MatchedRoute(Some(Redirect(target, MovedPermanently)), []), true)
            && EndsWithSlash(target) == EndsWithSlash(pattern)
            && MatchOutcome(Compile(pattern), pattern, true, handler, target) ==
               (MatchedRoute(Some(App(handler)), Zip(Names(Compile(pattern).body), caps)), true)
  {
    var body := Compile(pattern).body;
    var w := Fill(body, caps);
    MatchComplete(body, path, caps);
    FillEnds(body, caps);
    var target: string;
    if EndsWithSlash(pattern) {
      // the body is the template without its `/`, so `path` is `w` itself
      assert path == w;
      target := path + "/";
    } else {
      // the body is the template, which does not end in `/`, so neither does `w`
      assert path == w + "/";
      target := path[..|path| - 1];
      assert target == w;
    }
    assert Accepts(body, target, caps);
    OutcomeParams(Compile(pattern), pattern, true, handler, target, caps);
  }

  /** route_test.go TestDefaultMethod: a route without methods supports GET. */
  lemma DefaultMethodExample()
    ensures Supports([], "GET") && !Supports([], "POST")
  {
  }

  /** route_test.go TestOtherMethod: after `Methods("POST")` the route supports POST, in any
      case, and no longer GET. */
  lemma OtherMethodExample()
    ensures Supports(UpperAll(["POST"]), "POST") && Supports(UpperAll(["POST"]), "post")
    ensures !Supports(UpperAll(["POST"]), "GET")
  {
    assert Upper("POST") == "POST";
    assert Upper("post") == "POST";
    assert UpperAll(["POST"]) == ["POST"];
  }

  /** The one-literal token list of `/test/ok/` spells `/test/ok`, has no placeholder and
      is well formed. */
  lemma TestOkTokens()
    ensures Render([Lit("/test/ok")]) == "/test/ok" && Names([Lit("/test/ok")]) == []
    ensures Canonical([Lit("/test/ok")]) && WellFormed([Lit("/test/ok")])
  {
    var a := Lit("/test/ok");
    assert [a][1..] == [];
  }

  /** The compiled form of `/test/ok/`: a single literal, the template without its `/`. */
  lemma CompileTestOk()
    ensures Compile("/test/ok/") == Matcher([Lit("/test/ok")])
  {
    var pattern, a := "/test/ok/", Lit("/test/ok");
    TestOkTokens();
    assert EndsWithSlash(pattern) && pattern[..|pattern| - 1] == Render([a]);
    TokenizeRender([a]);
  }

  /** route_test.go TestMatchPath: `/test/ok/` with strict slash redirects `/test/ok` to
      `/test/ok/` with status 301. */
  lemma MatchPathExample(handler: HandlerId)
    ensures Supported("/test/ok/")
    ensures MatchOutcome(Compile("/test/ok/"), "/test/ok/", true, handler, "/test/ok") ==
            (MatchedRoute(Some(Redirect("/test/ok/", MovedPermanently)), []), true)
  {
    var pattern, path, a := "/test/ok/", "/test/ok", Lit("/test/ok");
    CompileTestOk();
    TestOkTokens();
    FillLiteral([a]);
    StrictRedirect(pattern, handler, path, []);
    assert RedirectTarget(pattern, path) == pattern;
  }

  /** Rendering a token followed by more spells the token's piece first. */
  lemma RenderCons(t: Token, rest: seq<Token>)
    ensures Render([t] + rest) == Piece(t) + Render(rest)
  {
    assert ([t] + rest)[1..] == rest;
  }

  /** Rendering four tokens spells their pieces in order. */
  lemma RenderFour(a: Token, b: Token, c: Token, d: Token)
    ensures Render([a, b, c, d]) == Piece(a) + Piece(b) + Piece(c) + Piece(d)
  {
    RenderCons(d, []);
    RenderCons(c, [d]);
    RenderCons(b, [c, d]);
    RenderCons(a, [b, c, d]);
  }

  /** The template of route_test.go TestMatchParams. */
  const UserParamsTemplate := "/<string:value>/<int:user_id>/"

  /** The tokens of `/<string:value>/<int:user_id>/` without its final `/`. */
  const UserParams: seq<Token> := [Lit("/"), Param(true, "string", "value"), Lit("/"), Param(true, "int", "user_id")]

  /** The template `/<string:value>/<int:user_id>/` spelled piece by piece. */
  lemma UserParamsText()
    ensures "/" + "<string:value>" + "/" + "<int:user_id>" + "/" == "/<string:value>/<int:user_id>/"
  {
    assert "/" + "<string:value>" == "/<string:value>";
    assert "/<string:value>" + "/" == "/<string:value>/";
    assert "/<string:value>/" + "<int:user_id>" == "/<string:value>/<int:user_id>";
  }

  lemma UserParamsPieces()
    ensures Piece(UserParams[1]) == "<string:value>" && Piece(UserParams[3]) == "<int:user_id>"
  {
    assert Inner(UserParams[1]) == "string:value";
    assert Inner(UserParams[3]) == "int:user_id";
  }

  /** The template `/<string:value>/<int:user_id>/` is its token list rendered, then `/`. */
  lemma UserParamsRender()
    ensures Render(UserParams) == "/" + "<string:value>" + "/" + "<int:user_id>"
  {
    var ts := UserParams;
    RenderFour(ts[0], ts[1], ts[2], ts[3]);
    assert ts == [ts[0], ts[1], ts[2], ts[3]];
    UserParamsPieces();
  }

  /** The token list of `/<string:value>/<int:user_id>/` is in canonical form. */
  lemma UserParamsCanonical()
    ensures Canonical(UserParams)
  {
    var ts := UserParams;
    var a, b, c, d := ts[0], ts[1], ts[2], ts[3];
    assert ts[1..] == [b, c, d] && [b, c, d][1..] == [c, d] && [c, d][1..] == [d];
    assert Canonical([d]);
    assert Canonical([c, d]);
    assert Canonical([b, c, d]);
  }

  /** The token list of `/<string:value>/<int:user_id>/` is well formed. */
  lemma UserParamsWellFormed()
    ensures WellFormed(UserParams)
    ensures Names(UserParams) == ["value", "user_id"]
  {
    var ts := UserParams;
    var a, b, c, d := ts[0], ts[1], ts[2], ts[3];
    assert ts[1..] == [b, c, d] && [b, c, d][1..] == [c, d] && [c, d][1..] == [d];
    assert WellFormed([d]);
    assert WellFormed([c, d]);
    assert WellFormed([b, c, d]);
    assert Names([d]) == ["user_id"];
    assert Names([c, d]) == ["user_id"];
    assert Names([b, c, d]) == ["value", "user_id"];
  }

  /** `/user/10000/` is in the language of `/<string:value>/<int:user_id>/` with captures
      `user` and `10000`. */
  lemma UserParamsAccepts()
    ensures Accepts(UserParams, "/user/10000/", ["user", "10000"])
  {
    var ts := UserParams;
    var a, b, c, d := ts[0], ts[1], ts[2], ts[3];
    assert ts[1..] == [b, c, d] && [b, c, d][1..] == [c, d] && [c, d][1..] == [d];
    var caps := ["user", "10000"];
    assert Captures(KindOf(d), "10000");
    assert Captures(KindOf(b), "user");
    assert ValidCaptures([d], caps[1..]);
    assert ValidCaptures([b, c, d], caps);
    assert Fill([d], caps[1..]) == "10000";
    assert Fill([c, d], caps[1..]) == "/10000";
    assert Fill([b, c, d], caps) == "user/10000";
    assert Fill(ts, caps) == "/user/10000";
  }

  /** The compiled form of `/<string:value>/<int:user_id>/`: a typed string placeholder and a
      typed int placeholder, each after a `/`. */
  lemma CompileUserParams()
    ensures Compile(UserParamsTemplate) == Matcher(UserParams)
  {
    var pattern := UserParamsTemplate;
    var r := Render(UserParams);
    UserParamsRender();
    UserParamsText();
    assert pattern == r + "/";
    assert EndsWithSlash(pattern) && pattern[..|pattern| - 1] == r;
    UserParamsCanonical();
    TokenizeRender(UserParams);
  }

  lemma UserParamsZip()
    ensures Zip(["value", "user_id"], ["user", "10000"]) == [("value", "user"), ("user_id", "10000")]
  {
  }

  /** The matcher of `/<string:value>/<int:user_id>/` binds the handler on `/user/10000/`
      with value=user and user_id=10000. */
  lemma UserParamsOutcome(handler: HandlerId)
    ensures MatchOutcome(Matcher(UserParams), UserParamsTemplate, false, handler, "/user/10000/") ==
            (MatchedRoute(Some(App(handler)), [("value", "user"), ("user_id", "10000")]), true)
  {
    UserParamsWellFormed();
    UserParamsAccepts();
    OutcomeParams(Matcher(UserParams), UserParamsTemplate, false, handler, "/user/10000/", ["user", "10000"]);
    UserParamsZip();
  }

  /** route_test.go TestMatchParams: `/<string:value>/<int:user_id>/` on `/user/10000/`
      gives value=user and user_id=10000. */
  lemma MatchParamsExample(handler: HandlerId)
    ensures Supported(UserParamsTemplate)
    ensures MatchOutcome(Compile(UserParamsTemplate), UserParamsTemplate, false, handler, "/user/10000/") ==
            (MatchedRoute(Some(App(handler)), [("value", "user"), ("user_id", "10000")]), true)
  {
    CompileUserParams();
    UserParamsWellFormed();
    UserParamsOutcome(handler);
  }
}
