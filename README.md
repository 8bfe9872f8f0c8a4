# zakzou/router in Dafny

A verified model of the core of `zakzou/router`, a small HTTP router for Go. The model covers
`route.go` and `router.go`.

- **Routes.** A route compiles a path template such as `/user/<int:user_id>/` into an
  anchored matcher. It accepts a request when the method is allowed and the path is in the
  template's language. It then binds either its handler plus one parameter per placeholder,
  or, under the strict-slash policy, a 301 redirect to the slash-corrected path.
- **Routers.** A router keeps its routes in registration order. Each new route inherits the
  router's prefix, strict-slash flag and middleware. Serving a request picks the first route
  that accepts it, puts the path parameters before the existing query and runs the route's
  middleware around its handler. With no accepting route it runs the not-found handler.
- **Reverse URLs.** `UrlFor` builds a URL from a route's name through a lazily built name
  index.

The files:

- `common.dfy` (`Common`): `Option`, plus ASCII `strings.ToUpper` and
  `strings.Replace(s, old, new, -1)` on character sequences.
- `patterns.dfy` (`Patterns`): the pure half of `route.go`.
  - A template is read as tokens (`Tokenize`) exactly as the scan of `<[^>]+>` in
    `parsePattern` splits it, and `TokenizeRender` proves the round trip.
  - The regular expression `^Body/?$` is modelled by a direct matcher (`MatchTokens`,
    `Match`).
  - `MatchCorrect` proves the matcher equal to a declarative language: literals are copied,
    and each placeholder is filled by a non-empty run of its converter's class
    (`int` = `\d+`, `string` = `[\w\-]+`, `any` = `[^/]+`), with an optional final `/`.
- `routes.dfy` (`Routes`): the `Route` class, with its fields, builder setters,
  `parsePattern`, `supportsHttpMethod` and `matches`. `MatchOutcome` is the specification
  of `matches`.
- `routers.dfy` (`Routers`): the `Router` class.
  - Its builder setters, `Handle`, `ServeHTTP`, `parseNamedRoute` and `UrlFor`.
  - `Dispatch` is the specification of `ServeHTTP`.
  - `Indexed` specifies the name index and `Substitute` the substitution of `UrlFor`.

How the request and the handlers are represented:

- **Requests.** A request is the datatype `Request(path, httpMethod, query)`. `ServeHTTP`
  returns the request as the handler sees it, together with the sequence of observable
  events: `BeforeRequest(m)`, `Serve(h)` and `AfterRequest(m)`.
- **Handlers.** Handlers and middleware are opaque identifiers. The router's own handlers
  are explicit: the 301 redirect and the default 404 responder.

`route.go` and `router.go` do not agree with each other: `router.go` calls members that
`route.go` does not define. The model reconciles them as follows:

- `NewRoute().Pattern(p).Handler(h)` is the constructor `NewRoute(p, h)`.
- `Middlewares(...)` on a route is `Middleware(...)`.
- `route.Matches(path, method)` is `supportsHttpMethod(method)` followed by `matches(path)`.
  Its handler and parameters are the ones `matches` returns, and they are what
  `ServeHTTP` uses.
- `route.namedPattern` is the route's template.
- `route.middlewares` holds the router's middleware objects, each with `BeforeRequest` and
  `AfterRequest`.

Where the code differs from the router's intended design, the model follows the code:

- **Redirects run the middleware.** The redirect handler bound on a strict-slash mismatch
  is wrapped in the route's middleware like any other handler.
- **Typed placeholders in `UrlFor`.** `UrlFor` replaces only the exact text `<key>`, so the
  typed placeholder `<int:id>` is left untouched by `id=7` (`UrlForTypedExample`).
- **Unknown names in `UrlFor`.** `UrlFor` on an unknown name returns the empty string.
- **No leading `/` in `Handle`.** `Handle` does not add a leading `/` to a template; only
  `Prefix` normalises.

## Model

| member | source | states |
|---|---|---|
| Common.Upper | route.go:103 | `strings.ToUpper` on ASCII: same length, each letter `a`–`z` mapped to its capital, every other character kept |
| Common.UpperIdempotent | route.go:103 | upper-casing a method that was already upper-cased by `Methods` changes nothing |
| Common.UpperAll | route.go:51-56 | each method of the list upper-cased, in order |
| Common.ReplaceAllAbsent | router.go:121 | `strings.Replace` returns a text in which the searched text occurs nowhere unchanged |
| Common.ReplaceAllSelf | router.go:121 | `strings.Replace` of a text by itself changes nothing |
| Common.ReplaceAllSkip | router.go:121 | `strings.Replace` copies a prefix holding no first character of the searched text unchanged |
| Patterns.PlaceholderLength | route.go:78 | the match of `<[^>]+>` at the start of the text: `<`, at least one character other than `>`, then `>` |
| Patterns.KindOf | route.go:80-87 | the converter of an untyped `<name>` is `any`; a typed placeholder has a class exactly when its converter is `int`, `string` or `any`, the names of the `DefaultReplacer` table |
| Patterns.MakeParam | route.go:80-86 | `SplitN(in, ":", 2)`: typed exactly when the text has a `:`; converter and name spell the text back |
| Patterns.Tokenize | route.go:77-92 | the literal runs and placeholders of a template spell the template back |
| Patterns.TokenizeRender | route.go:77-92 | reading back the rendering of a canonical token list gives the same tokens (round trip) |
| Patterns.NamesAppend | route.go:136 | the group names of a template are the names of its parts, in order |
| Patterns.NamesOfPlaceholders | route.go:136 | the group names (`SubexpNames`): a single token gives its name exactly when it is a placeholder, so with `NamesAppend` the list is the placeholder names, one per placeholder, in template order; it is empty exactly when there is no placeholder |
| Patterns.MatchTokens | route.go:121 | any captures returned are valid for their classes, and filling the body with them spells the text |
| Patterns.Match | route.go:121 | `FindAllStringSubmatch` of `^Body/?$`: any captures returned put the path in the template's language |
| Patterns.Body | route.go:94-98 | the template without its one trailing `/`, or the template itself |
| Patterns.Compile | route.go:68-100 | the compiled body spells the template without its trailing `/` |
| Patterns.CaptureHasNoSlash | route.go:21 | no converter class captures `/` |
| Patterns.MatchTokensComplete | route.go:121 | every valid filling of a well-formed body is matched, with exactly those captures |
| Patterns.MatchComplete | route.go:94-99 | every reading of a path in the language, with or without the optional `/`, is what the matcher returns |
| Patterns.MatchCorrect | route.go:94-99 | the matcher returns `caps` if and only if the path is the body filled with `caps`, with or without one `/` |
| Patterns.CapturesInClass | route.go:21 | each capture is non-empty and made of digits (`int`), word characters or `-` (`string`), or non-`/` characters (`any`) |
| Patterns.FillEnds | route.go:123-124 | a filled body ends in `/` exactly when the template body does |
| Patterns.LiteralPattern | route.go:90-98 | a template without placeholders matches exactly its body, and its body plus `/`, with no parameters |
| Routes.Zip | route.go:136-141 | parameters pair each group name with its capture, in group order |
| Routes.RedirectTarget | route.go:126-130 | the redirect target is the path with one `/` appended when the template ends in `/`, and the path without its last character otherwise |
| Routes.MatchOutcome | route.go:118-146 | a match is reported exactly when a handler is bound; no match binds nothing and has no parameters |
| Routes.Route.constructor | route.go:40-44 | a new route stores its template and handler, is compiled, and has no name, no methods, strict slash off and no middleware |
| Routes.Route.ParsePattern | route.go:68-100 | compiles the template on the first call only; later calls keep the stored matcher |
| Routes.Route.Name | route.go:46-49 | sets the name |
| Routes.Route.Methods | route.go:51-56 | appends the given methods upper-cased, in order, to the configured ones |
| Routes.Route.StrictSlash | route.go:58-61 | sets the strict-slash flag |
| Routes.Route.Middleware | route.go:63-66 | appends the given middleware, in order |
| Routes.Route.SupportsHttpMethod | route.go:102-116 | true exactly when the upper-cased method is GET (no methods configured) or one of the configured methods |
| Routes.Route.MatchPath | route.go:118-146 | `matches` gives exactly `MatchOutcome`: no match, a 301 redirect on a strict-slash mismatch, or the handler with the parameters |
| Routes.Route.Matches | router.go:74-75 | accepts only when the method is supported and then answers as `matches` |
| Routes.SupportsConfigured | route.go:102-116 | after `Methods(v)` a request method is accepted exactly when it equals one of `v` up to case; with none, exactly when it is GET up to case |
| Routes.OutcomeNoMatch | route.go:119-121 | a path outside the template's language gives no match and no parameters |
| Routes.OutcomeParams | route.go:136-143 | on a match without redirect, the route's handler is bound and the parameters pair each name with exactly its capture |
| Routes.LaxNeverRedirects | route.go:122 | without strict slash no redirect is ever bound |
| Routes.StrictRedirect | route.go:122-133 | a slash mismatch under strict slash gives a 301 with no parameters; the target agrees with the template's slash and is itself served by the route's handler with the same captures |
| Routes.DefaultMethodExample | route_test.go:15-20 | a route without methods supports GET and not POST |
| Routes.OtherMethodExample | route_test.go:22-27 | after `Methods("POST")` the route supports POST, in any case, and not GET |
| Routes.MatchPathExample | route_test.go:29-39 | `/test/ok/` with strict slash redirects `/test/ok` to `/test/ok/` with status 301 |
| Routes.MatchParamsExample | route_test.go:41-54 | `/<string:value>/<int:user_id>/` on `/user/10000/` binds the handler with `value=user`, `user_id=10000` |
| Routers.StatusOf | router.go:96 | a redirect answers with its status, the default not-found handler with 404 |
| Routers.NormalizePrefix | router.go:38-47 | the prefix is empty or starts with `/`, ends in `/` only if the input ended in `//`, and is empty only for `""` and `/` |
| Routers.NotFoundOf | router.go:92-97 | the custom not-found handler when set, otherwise the default 404 responder |
| Routers.Trace | router.go:81-87 | every `BeforeRequest` in middleware order, the handler once, then every `AfterRequest` in the same order |
| Routers.RunMiddleware | router.go:81-87 | the loops produce exactly that event sequence |
| Routers.AddNamed | router.go:106-110 | the loop stores each named route under its name, in route order |
| Routers.NewRoute | router.go:58-59 | a fresh compiled route with the template, the handler, the given strict-slash flag and middleware |
| Routers.Router.constructor | router.go:20-24 | an empty router: no routes, empty name index, no prefix, strict slash off, no middleware, no custom not-found handler |
| Routers.Router.StrictSlash | router.go:26-29 | sets the strict-slash flag for later routes |
| Routers.Router.SubRouter | router.go:31-36 | clears the prefix, strict slash and middleware list |
| Routers.Router.Prefix | router.go:38-47 | stores the normalised prefix |
| Routers.Router.Middlewares | router.go:49-54 | appends the given middleware, in order |
| Routers.Router.Handle | router.go:56-62 | appends exactly one fresh route, for the prefixed template, inheriting the current strict-slash flag and middleware; earlier routes are kept |
| Routers.Router.FirstRoute | router.go:74-90 | the chosen route accepts the request and no earlier route does; with none chosen, no route accepts |
| Routers.Router.ServeHTTP | router.go:68-100 | serving equals `Dispatch`: the first accepting route's parameters go before the query and its handler runs inside its middleware, else the not-found handler runs |
| Routers.Router.ParseNamedRoute | router.go:102-112 | builds the name index from the routes once; later calls leave it unchanged |
| Routers.Router.UrlFor | router.go:114-125 | builds the index if needed; a known name gives its template with the values substituted, an unknown name gives `""` |
| Routers.PrefixIdempotent | router.go:38-47 | normalising a normalised prefix changes nothing (input not ending in `//`) |
| Routers.FirstMatchIgnoresLater | router.go:88 | routes registered after the first accepting one never change which route serves the request |
| Routers.DispatchFirstMatch | router.go:74-90 | the first accepting route serves: its parameters go before the query, and the events are its middleware around its bound handler |
| Routers.DispatchParams | router.go:76-80 | a plain match adds exactly the placeholder names paired with their captures, before the old query, and runs the route's handler |
| Routers.DispatchNotFound | router.go:92-99 | with no accepting route only the not-found handler runs, on the unchanged request |
| Routers.EmptyRouterNotFound | router_test.go:43-52 | a router with no routes answers every request with the default 404 |
| Routers.IndexedKeys | router.go:106-110 | a name is indexed exactly when it was indexed before or some route carries it and it is not empty |
| Routers.IndexedLastWins | router.go:106-110 | among routes with the same name, the last one is kept |
| Routers.IndexedKeeps | router.go:106-110 | a name no route carries keeps its earlier entry |
| Routers.ReplaceTokens | router.go:121 | replacing `<k>` in a template replaces exactly the placeholders whose text is `k` and nothing else |
| Routers.SubstituteTokens | router.go:119-122 | the substitution fills each placeholder whose text is a supplied key with the first value for that key, and leaves every other placeholder as written |
| Routers.SubstituteSingle | router.go:119-122 | with one pair and one placeholder, the placeholder is replaced exactly when its text is the key |
| Routers.UrlForExample | router.go:114-125 | `/user/<id>/` with `id=7` gives `/user/7/` |
| Routers.UrlForTypedExample | router.go:121 | `/user/<int:id>/` with `id=7` is left unchanged |

## Left out

- Routes.Route.constructor: requires the template to be `Supported`. Go compiles any
  template, and a `MustCompile` failure panics.
  - The `Supported` fragment is: converters `int`, `string` and `any`; word-character names;
    each placeholder followed by a literal starting with `/` or by the end; and no
    regular-expression operators in literals.
  - Outside it, the order-sensitive `strings.NewReplacer` rewriting of unknown converter
    names, backtracking into captures and unescaped operators are not modelled.
- Routers.NewRoute: carries the same `Supported` requirement.
- Routers.Router.Handle: carries the same `Supported` requirement, for the prefixed
  template.
- Common.Upper: maps ASCII letters only. Go's Unicode case mapping is not modelled.
- Routers.Router.UrlFor: takes the Go map of parameters as a sequence of (key, value) pairs
  in the order the map iteration happens to visit them. It takes values as strings, since
  `fmt.Sprintf("%v", …)` formatting is not modelled.
- Routers.SubstituteTokens: stated only under two conditions, although `strings.Replace`
  has no such limits. Outside them a value or a key can straddle token boundaries, so the
  substitution is then described only by `Substitute` itself.
  - The template has no `<` in literals and no `<` or `>` inside placeholders.
  - The pairs have keys without `>` and values without `<`.
- Routers.ReplaceTokens: stated only for a key without `>` and a template with no `<` in
  literals and no `<` or `>` inside placeholders.
- Routers.SubstituteSingle: stated only for the same conditions, with one pair: literals
  without `<`, a placeholder without `<` or `>`, a key without `>` and a value without `<`.
- **Query.** `ServeHTTP` returns the query as (name, value) pairs, path parameters first.
  `url.Values.Encode` (key sorting, escaping) and the `&` join into `RawQuery` are not
  modelled.
- **Request.** The request is returned rather than updated in place.
- **Responses.** Response writing (`http.ResponseWriter`, `http.Redirect`,
  `http.NotFoundHandler` bodies) is not modelled. What the handlers do is represented only by
  the `Serve` event and, for the router's own handlers, their status.
- `HandleFunc` is left out: it is `Handle` with a function wrapped as a handler, and handlers
  are opaque here.
- `types.go` and `middleware.go` are not part of this model. Middleware objects are opaque
  identifiers whose `BeforeRequest` and `AfterRequest` calls are events.
- Concurrency is left out: the router is not safe for concurrent registration and serving.
  Benchmarks are also left out.
