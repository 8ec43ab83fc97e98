/** The function that wires the route table into the application: the
    fixed routes, the development-only test page, the frontend rewrites, the
    index route and then every loaded definition, in that order. */
module RouteComposer {
  import opened JsValues
  import opened RouteLoader
  import opened Handlers

  /** One call of a registration function of the application:
      `app[verb](path, handler)`. */
  datatype Registration = Registration(verb: string, path: JsValue, handler: Handler)

  /** The application, seen through what the route table does to it: it
      registers routes, in order. `verbs` are the names under which the
      application offers a method-specific registration function. */
  class App {
    var registrations: seq<Registration>
    const verbs: set<string>

    constructor (verbs: set<string>)
      ensures registrations == [] && this.verbs == verbs
    {
      registrations := [];
      this.verbs := verbs;
    }

    /** `app[verb](path, handler)`, for a verb the application offers. */
    method Register(verb: string, path: JsValue, handler: Handler)
      requires verb in verbs
      modifies this
      ensures registrations == old(registrations) + [Registration(verb, path, handler)]
    {
      registrations := registrations + [Registration(verb, path, handler)];
    }
  }

  /** `app.get(path, handler)` with a literal path. */
  function GetRoute(path: string, handler: Handler): Registration {
    Registration("get", Str(path), handler)
  }

  /** The single-page-application paths, one rewrite route each. */
  const FrontendRoutes: seq<string> := [
    "/signin",
    "/signin_complete",
    "/signup",
    "/signup_complete",
    "/confirm",
    "/settings",
    "/change_password",
    "/legal",
    "/legal/terms",
    "/legal/privacy",
    "/cannot_create_account",
    "/verify_email",
    "/reset_password",
    "/confirm_reset_password",
    "/complete_reset_password",
    "/reset_password_complete",
    "/delete_account",
    "/force_auth"
  ]

  predicate IsDevelopment(env: JsValue) {
    env == Str("development")
  }

  /** The routes registered before the frontend rewrites. */
  function Prelude(env: JsValue): seq<Registration> {
    [GetRoute("/v1/complete_reset_password", StripV1Redirect),
     GetRoute("/config", ConfigJson),
     GetRoute("/v1/verify_email", StripV1Redirect),
     GetRoute("/template/:lang/:type", TemplateJson)]
    + (if IsDevelopment(env) then [GetRoute("/tests/index.html", TestHarness)] else [])
  }

  /** One rewrite route per frontend path, in the order of the list. */
  function SpaRegistrations(paths: seq<string>): seq<Registration> {
    seq(|paths|, k requires 0 <= k < |paths| => GetRoute(paths[k], SpaRewrite))
  }

  /** The property key `app[route.method]` looks up, when the method is a
      string. */
  function MethodName(route: Exports): Option<string> {
    if route.Get("method").Str? then Some(route.Get("method").s) else None
  }

  /** `app[route.method](route.path, route.process)` returns normally: the
      method names a registration function of the application, and the
      process is a function, since a registration function throws for any
      other handler. */
  predicate Registers(route: Exports, verbs: set<string>) {
    MethodName(route).Some? && MethodName(route).value in verbs
    && route.Get("process").Function?
  }

  /** Line 124 for one loaded definition. */
  function DynamicRegistration(route: Exports, verbs: set<string>): (r: Registration)
    requires Registers(route, verbs)
    ensures r.verb in verbs && Str(r.verb) == route.Get("method")
    ensures r.path == route.Get("path")
    ensures r.handler == Dynamic(route.Get("process")) && r.handler.process.Function?
  {
    Registration(MethodName(route).value, route.Get("path"), Dynamic(route.Get("process")))
  }

  /** How many loaded definitions are registered before the first one whose
      registration throws: its method names no registration function, so
      `undefined` is called, or its process is not a function. */
  function Registrable(routes: seq<Exports>, verbs: set<string>): (n: nat)
    ensures n <= |routes|
    ensures forall k :: 0 <= k < n ==> Registers(routes[k], verbs)
    ensures n < |routes| ==> !Registers(routes[n], verbs)
  {
    if routes == [] || !Registers(routes[0], verbs) then 0
    else 1 + Registrable(routes[1..], verbs)
  }

  function DynamicRegistrations(routes: seq<Exports>, verbs: set<string>): seq<Registration>
    requires forall k :: 0 <= k < |routes| ==> Registers(routes[k], verbs)
  {
    seq(|routes|, k requires 0 <= k < |routes| => DynamicRegistration(routes[k], verbs))
  }

  /** Everything the wiring registers, in order. */
  function Wiring(env: JsValue, routes: seq<Exports>, verbs: set<string>): seq<Registration> {
    var n := Registrable(routes, verbs);
    Prelude(env) + SpaRegistrations(FrontendRoutes) + [GetRoute("/", RenderIndex)]
      + DynamicRegistrations(routes[..n], verbs)
  }

  /** The function returned at line 54, applied to `app`, with the loaded
      definitions `routes`. It returns false where the source throws: a
      TypeError because `app[route.method]` is not a function, or the
      registration function's own error for a process that is not a
      function. The registrations made before that remain. */
  method Wire(app: App, cfg: Config, routes: seq<Exports>) returns (ok: bool)
    requires "get" in app.verbs
    modifies app
    ensures ok <==> forall k :: 0 <= k < |routes| ==> Registers(routes[k], app.verbs)
    ensures app.registrations == old(app.registrations) + Wiring(cfg.env, routes, app.verbs)
  {
    ghost var before := app.registrations;
    RegisterFixedRoutes(app, cfg);
    RegisterRewrites(app);
    app.Register("get", Str("/"), RenderIndex);
    ghost var fixed := Prelude(cfg.env) + SpaRegistrations(FrontendRoutes) + [GetRoute("/", RenderIndex)];
    assert app.registrations == before + fixed;
    ok := RegisterLoaded(app, routes);
    ghost var loaded := DynamicRegistrations(routes[..Registrable(routes, app.verbs)], app.verbs);
    assert Wiring(cfg.env, routes, app.verbs) == fixed + loaded;
    assert app.registrations == before + (fixed + loaded);
  }

  /** Lines 55-85: the redirect, configuration and template routes, then
      the test page when the environment is "development". */
  method RegisterFixedRoutes(app: App, cfg: Config)
    requires "get" in app.verbs
    modifies app
    ensures app.registrations == old(app.registrations) + Prelude(cfg.env)
  {
    app.Register("get", Str("/v1/complete_reset_password"), StripV1Redirect);
    app.Register("get", Str("/config"), ConfigJson);
    app.Register("get", Str("/v1/verify_email"), StripV1Redirect);
    app.Register("get", Str("/template/:lang/:type"), TemplateJson);
    if cfg.env == Str("development") {
      app.Register("get", Str("/tests/index.html"), TestHarness);
    }
  }

  /** `FRONTEND_ROUTES.forEach`: one rewrite route per path, in list order. */
  method RegisterRewrites(app: App)
    requires "get" in app.verbs
    modifies app
    ensures app.registrations == old(app.registrations) + SpaRegistrations(FrontendRoutes)
  {
    var i := 0;
    while i < |FrontendRoutes|
      invariant 0 <= i <= |FrontendRoutes|
      invariant app.registrations == old(app.registrations) + SpaRegistrations(FrontendRoutes[..i])
    {
      assert SpaRegistrations(FrontendRoutes[..i + 1])
        == SpaRegistrations(FrontendRoutes[..i]) + [GetRoute(FrontendRoutes[i], SpaRewrite)];
      app.Register("get", Str(FrontendRoutes[i]), SpaRewrite);
      i := i + 1;
    }
    assert FrontendRoutes[..i] == FrontendRoutes;
  }

  /** `routes.forEach`: each loaded definition under its own method, path
      and process, until one whose method the application does not offer or
      whose process is not a function. */
  method RegisterLoaded(app: App, routes: seq<Exports>) returns (ok: bool)
    modifies app
    ensures ok <==> forall k :: 0 <= k < |routes| ==> Registers(routes[k], app.verbs)
    ensures app.registrations == old(app.registrations)
      + DynamicRegistrations(routes[..Registrable(routes, app.verbs)], app.verbs)
  {
    var j := 0;
    while j < |routes|
      invariant 0 <= j <= |routes|
      invariant forall k :: 0 <= k < j ==> Registers(routes[k], app.verbs)
      invariant app.registrations == old(app.registrations) + DynamicRegistrations(routes[..j], app.verbs)
    {
      var route := routes[j];
      var verb := route.Get("method");
      if !verb.Str? || verb.s !in app.verbs || !route.Get("process").Function? {
        assert Registrable(routes, app.verbs) == j;
        return false;
      }
      assert DynamicRegistrations(routes[..j + 1], app.verbs)
        == DynamicRegistrations(routes[..j], app.verbs) + [DynamicRegistration(route, app.verbs)];
      app.Register(verb.s, route.Get("path"), Dynamic(route.Get("process")));
      j := j + 1;
    }
    assert routes[..j] == routes;
    return true;
  }

  // ---------------------------------------------------------------------
  // Properties of the wiring
  // ---------------------------------------------------------------------

  function DevCount(env: JsValue): nat {
    if IsDevelopment(env) then 1 else 0
  }

  /** Every registration is counted: 4 fixed routes, the test page in
      development, 18 rewrites, the index route, and one per loaded
      definition up to the first that cannot be registered. */
  lemma WiringCount(env: JsValue, routes: seq<Exports>, verbs: set<string>)
    ensures |Wiring(env, routes, verbs)| == 23 + DevCount(env) + Registrable(routes, verbs)
    ensures (forall k :: 0 <= k < |routes| ==> Registers(routes[k], verbs)) ==>
      |Wiring(env, routes, verbs)| == 23 + DevCount(env) + |routes|
  {
  }

  /** The order of the registrations, entry by entry. */
  lemma WiringOrder(env: JsValue, routes: seq<Exports>, verbs: set<string>)
    ensures var w, d := Wiring(env, routes, verbs), DevCount(env);
      && |w| == 23 + d + Registrable(routes, verbs)
      && w[0] == GetRoute("/v1/complete_reset_password", StripV1Redirect)
      && w[1] == GetRoute("/config", ConfigJson)
      && w[2] == GetRoute("/v1/verify_email", StripV1Redirect)
      && w[3] == GetRoute("/template/:lang/:type", TemplateJson)
      && (IsDevelopment(env) ==> w[4] == GetRoute("/tests/index.html", TestHarness))
      && (forall k :: 0 <= k < 18 ==> w[4 + d + k] == GetRoute(FrontendRoutes[k], SpaRewrite))
      && w[22 + d] == GetRoute("/", RenderIndex)
      && (forall k :: 0 <= k < Registrable(routes, verbs) ==>
            Registers(routes[k], verbs) && w[23 + d + k] == DynamicRegistration(routes[k], verbs))
  {
    var w, d := Wiring(env, routes, verbs), DevCount(env);
    var n := Registrable(routes, verbs);
    var pre, spa := Prelude(env), SpaRegistrations(FrontendRoutes);
    var fixed := pre + spa + [GetRoute("/", RenderIndex)];
    var dyn := DynamicRegistrations(routes[..n], verbs);
    assert |pre| == 4 + d && |spa| == 18 && |fixed| == 23 + d && |dyn| == n;
    assert w == fixed + dyn;
    assert forall i :: 0 <= i < 23 + d ==> w[i] == fixed[i];
    assert forall i :: 0 <= i < 4 + d ==> fixed[i] == pre[i];
    forall k | 0 <= k < 18 ensures w[4 + d + k] == GetRoute(FrontendRoutes[k], SpaRewrite) {
      assert fixed[4 + d + k] == spa[k];
    }
    forall k | 0 <= k < n
      ensures Registers(routes[k], verbs) && w[23 + d + k] == DynamicRegistration(routes[k], verbs)
    {
      assert w[23 + d + k] == dyn[k];
      assert routes[..n][k] == routes[k];
    }
  }

  /** The test page is registered exactly when the environment is
      "development": no other registration carries its handler. */
  lemma TestHarnessOnlyInDevelopment(env: JsValue, routes: seq<Exports>, verbs: set<string>)
    ensures (exists i :: 0 <= i < |Wiring(env, routes, verbs)| &&
              Wiring(env, routes, verbs)[i].handler == TestHarness)
      <==> IsDevelopment(env)
  {
    var w, d := Wiring(env, routes, verbs), DevCount(env);
    WiringOrder(env, routes, verbs);
    if IsDevelopment(env) {
      assert w[4].handler == TestHarness;
    } else {
      var n := Registrable(routes, verbs);
      var dyn := DynamicRegistrations(routes[..n], verbs);
      assert w == Prelude(env) + SpaRegistrations(FrontendRoutes) + [GetRoute("/", RenderIndex)] + dyn;
      forall i | 0 <= i < |w| ensures w[i].handler != TestHarness {
        if i >= 23 {
          assert w[i] == dyn[i - 23];
        }
      }
    }
  }

  /** Each frontend path gets its rewrite before the index route, and no
      registration in between has the path "/". So once a rewrite has set
      the url to "/" and called next, the next literal "/" route is the
      one that renders the index document. */
  lemma RewritesFallThroughToIndex(env: JsValue, routes: seq<Exports>, verbs: set<string>, k: nat)
    requires k < |FrontendRoutes|
    ensures var w, d := Wiring(env, routes, verbs), DevCount(env);
      && 22 + d < |w|
      && w[4 + d + k] == GetRoute(FrontendRoutes[k], SpaRewrite)
      && w[22 + d] == GetRoute("/", RenderIndex)
      && (forall i :: 4 + d + k < i < 22 + d ==> w[i].path != Str("/"))
  {
    var w, d := Wiring(env, routes, verbs), DevCount(env);
    WiringOrder(env, routes, verbs);
    forall i | 4 + d + k < i < 22 + d ensures w[i].path != Str("/") {
      assert w[i] == GetRoute(FrontendRoutes[i - 4 - d], SpaRewrite);
      assert FrontendRoutes[i - 4 - d] != "/";
    }
  }

  /** Startup as a whole: the definitions are loaded once, when the module
      is first required, and the wiring registers them afterwards. A
      failing `require` during the scan means the module never loads, so
      nothing is registered. */
  method Startup(names: seq<string>, load: string -> LoadOutcome, cfg: Config, app: App)
    returns (log: seq<Effect>, ok: bool)
    requires EntryNames(names) && "get" in app.verbs
    modifies app
    ensures log == Scan(names, load).effects
    ensures !AllLoad(names, load) ==> !ok && app.registrations == old(app.registrations)
    ensures AllLoad(names, load) ==>
      app.registrations == old(app.registrations) + Wiring(cfg.env, AcceptedDefinitions(names, load), app.verbs)
    ensures ok <==> (AllLoad(names, load) &&
      forall k :: 0 <= k < |AcceptedDefinitions(names, load)| ==>
        Registers(AcceptedDefinitions(names, load)[k], app.verbs))
  {
    var routes;
    log, routes := LoadRouteDefinitions(names, load);
    ScanSucceedsIff(names, load);
    if routes.None? {
      return log, false;
    }
    ScanCollectsAccepted(names, load);
    ok := Wire(app, cfg, routes.value);
  }
}
