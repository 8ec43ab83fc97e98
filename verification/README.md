# Route table of the accounts content server

This project models `server/lib/routes.js`, which builds the HTTP route
table of the accounts content server once, at startup. It has four parts:

- **Validation of a route definition** (`RouteLoader.IsValidRoute`). It returns
  the JavaScript value of `!! route.method && route.path && route.process`,
  which is `false`, the path or the process. That value is truthy exactly when
  all three fields are truthy. JavaScript values and their truthiness are in
  `JsValues`.
- **Directory scan** (`RouteLoader.LoadRouteDefinitions`). The method walks the
  listing in order. A name whose `path.extname` is not `.js`, or that starts
  with a dot, is skipped with an info line. Any other name is `require`d: a
  value that fails validation is dropped with an error line, and a valid one is
  appended. A `require` that throws ends the scan with no result. The method is
  proved equal to the specification function `Scan`. The lemmas next to it
  show how a scan splits at any point, when it succeeds, what it collects, and
  what it logs.
- **Handlers** (`Handlers`). These are the `/v1` redirect (`originalUrl.slice(3)`),
  the `/config` body, the template body, the coverage flag of the test page,
  the frontend rewrite (sets `req.url` to `/`, then calls `next`) and the index
  page. Each handler returns an `Action` value that stands for what it asks of
  the dispatcher.
- **Wiring** (`RouteComposer.Wire`). It registers the four fixed routes, then
  the test page in development only, then the 18 frontend rewrites, then `/`,
  then each loaded definition under `app[route.method]`. The resulting
  registration log is proved equal to the function `Wiring`. `Startup` puts
  the scan and the wiring together.

Four details of the code shape the model:

- `isValidRoute` reads `route.method` without a guard, so a `null` or
  `undefined` export throws. In the model, a loaded value is always an object
  record (`Exports`).
- The test page's coverage flag is `false` when the `coverage` key is absent
  (`'coverage' in req.query`). When the key is present, the flag is `false`
  only for the exact string `"false"`.
- `isValidRoute` returns whichever operand decided the `&&` chain, not a
  boolean. The model returns the same value.
- `isValidRoute` only checks that the three fields are truthy, so a
  definition can pass it and still fail to register. Line 124 throws when
  `app[route.method]` is not a function (a TypeError), and the registration
  function itself throws when `route.process` is not a function. The
  registrations made before it stay, and the model stops at that definition.

## Model

| member | source | states |
|---|---|---|
| `JsValues.FalsyValues` | server/lib/routes.js:24 | The falsy JavaScript values are exactly undefined, null, false, 0, NaN and the empty string. |
| `RouteLoader.IsValidRoute` | server/lib/routes.js:23-25 | The returned value is truthy iff `method`, `path` and `process` are all truthy. It is `false`, the path or the process, and when truthy it is the process. |
| `RouteLoader.LastDot` | server/lib/routes.js:32 | The index found is a dot with no dot after it, or -1 when the name has no dot. |
| `RouteLoader.ExtName` | server/lib/routes.js:32 | `path.extname`: empty exactly when no dot follows the first character or the name is `..`. Otherwise it is the suffix of the name that starts at its last dot. |
| `RouteLoader.ExtNameExamples` | server/lib/routes.js:32 | extname of `.js` is empty, of `.x.js` is `.js`, of `a.json` is `.json`, of `README` and `..` is empty, and of `a.` is `.`. |
| `RouteLoader.CandidateExactly` | server/lib/routes.js:31-34 | The line-32 test (extname is `.js` and no leading dot) holds iff the name ends in `.js` and does not start with a dot. |
| `RouteLoader.NotCandidates` | server/lib/routes.js:31-34 | `.js`, `.x.js`, `a.json` and `README` are never loaded, and `a.js` is. |
| `RouteLoader.LoadRouteDefinitions` | server/lib/routes.js:27-45 | The loop's effects (requires, info and error lines) and its result are exactly those of `Scan` on the listing, including the abort on a failing `require`. |
| `RouteLoader.ScanSplits` | server/lib/routes.js:30-42 | Scanning `a + b` gives the report of `a` if that one aborted. Otherwise it gives `a`'s effects and routes followed by `b`'s. Skipped and invalid entries never stop the scan. |
| `RouteLoader.ScanSucceedsIff` | server/lib/routes.js:36 | The scan returns routes iff every candidate of the listing loads. |
| `RouteLoader.ScanCollectsAccepted` | server/lib/routes.js:27-45 | When every candidate loads, the routes are the loaded values of the accepted files, one per file, in listing order. |
| `RouteLoader.AcceptedMembership` | server/lib/routes.js:37-41 | Every collected definition passes `isValidRoute`. A value is collected iff some candidate of the listing loads to it and is valid. |
| `RouteLoader.OnlyCandidatesRequired` | server/lib/routes.js:31-36 | `require` is called only on candidate names of the listing. A skipped name is never loaded. |
| `RouteLoader.AllLoadPrefix` | server/lib/routes.js:36 | If every candidate of a listing loads, every candidate of any prefix of it loads too. |
| `RouteLoader.CompletedPrefixSplits` | server/lib/routes.js:30-42 | In a completed scan, the log is the log of any prefix followed by the log of the rest. |
| `RouteLoader.EntryTraceInPlace` | server/lib/routes.js:30-42 | In a completed scan, entry k leaves its own trace after the trace of the entries before it: one info line if skipped, a `require` if a candidate, and after it one error line if invalid. |
| `RouteLoader.ScanAbortsAtFirstFailure` | server/lib/routes.js:36 | At the first candidate whose `require` fails, the scan ends with that `require` and returns no routes. Later entries are never seen. |
| `RouteLoader.LoadTwice` | server/lib/routes.js:47-48 | Loading the same listing twice gives the same result. The result is present iff every candidate loads, and it is then the accepted definitions. |
| `Handlers.RedirectTarget` | server/lib/routes.js:56-70 | `slice(3)`: the target has length max(0, length(u) - 3), and the url is its first three characters followed by the target. |
| `Handlers.RedirectDropsV1` | server/lib/routes.js:56-70 | `/v1` + rest redirects to rest. |
| `Handlers.RedirectExamples` | server/lib/routes.js:56-70 | `/v1/verify_email?x=1` redirects to `/verify_email?x=1`, and the reset link likewise. |
| `Handlers.CheckCoverage` | server/lib/routes.js:79-80 | The flag is false when the key is absent. When the key is present, the flag is false only for the single string `"false"`. |
| `Handlers.CoverageCases` | server/lib/routes.js:77-84 | Absent gives false and `"false"` gives false. An empty value, `"true"` and a repeated key give true. |
| `Handlers.ConfigExposesTwoValues` | server/lib/routes.js:60-65 | `/config` answers with exactly the keys `fxaccountUrl` and `i18n`, echoing the configuration. |
| `Handlers.Handle` | server/lib/routes.js:55-121 | A handler's action is `Respond`'s. The frontend rewrite sets `req.url` to `/` and calls next, and no other handler changes the request. The `/v1` handlers redirect to `originalUrl[3..]`. |
| `RouteComposer.App.Register` | server/lib/routes.js:124 | A registration appends exactly one entry to the application's log. |
| `RouteComposer.DynamicRegistration` | server/lib/routes.js:123-125 | A loaded definition is registered under its own method string (which names a registration function of the application), its own path and its own process, which is a function. |
| `RouteComposer.Registrable` | server/lib/routes.js:123-125 | The count of leading definitions that register: the method names a registration function of the application and the process is a function. The next definition, if any, does not register. |
| `RouteComposer.Wire` | server/lib/routes.js:54-126 | The new log is the old one followed by `Wiring(env, routes)`. The call succeeds iff every loaded definition registers: its method names a registration function and its process is a function. |
| `RouteComposer.RegisterFixedRoutes` | server/lib/routes.js:55-85 | Appends the four fixed GET routes in source order, followed by the test page only when `env` is the string "development". |
| `RouteComposer.RegisterRewrites` | server/lib/routes.js:110-117 | One rewrite route per frontend path is appended, in list order. |
| `RouteComposer.RegisterLoaded` | server/lib/routes.js:123-125 | Loaded definitions are appended in order up to the first whose method names no registration function or whose process is not a function. The call succeeds iff there is no such definition. |
| `RouteComposer.WiringCount` | server/lib/routes.js:54-125 | There are 23 + (1 in development) + n registrations, where n is the number of registrable definitions. This is 23 + dev + the number of routes when all register. |
| `RouteComposer.WiringOrder` | server/lib/routes.js:54-125 | The entries come in this order: the four fixed GET routes, the test page in development, the 18 rewrites in array order, `/`, and then the loaded definitions in loader order. |
| `RouteComposer.TestHarnessOnlyInDevelopment` | server/lib/routes.js:76-85 | The test page is registered iff `env === 'development'`. |
| `RouteComposer.RewritesFallThroughToIndex` | server/lib/routes.js:110-121 | Each rewrite comes before the index route, and no registration between them has the path `/`. |
| `RouteComposer.Startup` | server/lib/routes.js:47-54 | The scan's log is returned. If a `require` fails, nothing is registered. Otherwise the accepted definitions are wired, and the call succeeds iff all of them register. |

## Left out

- `fs.readdirSync` and `require` are parameters. The directory listing is a sequence of names, and `require` is a total function from a file name (not the joined path) to "loaded value" or "throws". Module caching is not modelled.
- `path.extname` is modelled for POSIX names without a slash, which is all a directory listing can contain.
- `intel` logging is modelled as `Effect` events (info "not loaded", error "invalid") in order. Formatting and levels are not modelled.
- `url.parse(...).hostname` and `dns` are left out. The hostname is computed and never used.
- `RouteComposer.Wire` and `RouteComposer.Startup` assume `fxaccount_url` is a string, since `Handlers.Config.fxaccountUrl` has type `string`. If it is not, `url.parse` at line 52 throws before the wiring function is returned, and no route is registered. The model does not capture that failure.
- `config.get` is replaced by a fixed `Config` record. The `templates` resolver is an opaque function parameter.
- Express is left out: path and regular-expression matching, the precedence of `next()`, and what `res.redirect`, `res.json` and `res.render` do. Handlers return `Action` values instead.
- The application's other properties (`use`, `set`, ...) are left out. `App.verbs` stands for the names of its method-specific registration functions. A method value that is not a string is treated as naming none of them.
- `RouteComposer.Wire` and `RouteComposer.RegisterLoaded` treat a method string that names another function of the application (`set`, `listen`, `enable`) like one that names no function: the model stops there with failure. The source calls that function with the path and process instead, and goes on.
- `RouteComposer.RegisterLoaded` accepts only a single function as a process. The registration functions also accept an array of functions, which the model, where objects are opaque, treats as a throw.
- `RouteComposer.Wire` requires `"get"` to be a registration function, which Express always provides.
- A `module.exports` that is not an object (such as `null`) makes the source's `isValidRoute` throw. The model only loads object records.
- JavaScript numbers are finite reals, with NaN and the two infinities as separate values. BigInt and other exotic falsy values are not modelled.
- `Handlers.RedirectTarget` counts characters, while `slice(3)` counts UTF-16 code units. The two agree on the ASCII request urls the server receives.
