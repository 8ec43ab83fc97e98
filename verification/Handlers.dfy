/** The inline request handlers that the route table installs, each one
    reduced to the action it asks of the dispatcher. */
module Handlers {
  import opened JsValues

  /** A parsed query-string value: one string, or several when the key is
      repeated (`?coverage=a&coverage=b`). */
  datatype QueryValue = Text(s: string) | Many(items: seq<string>)

  /** The configuration values the route table reads with `config.get`. */
  datatype Config = Config(fxaccountUrl: string, i18n: JsValue, env: JsValue)

  /** The handler a registration carries: one tag per inline handler of the
      route table, and the `process` function of a loaded definition. */
  datatype Handler =
    | StripV1Redirect   // /v1/complete_reset_password and /v1/verify_email
    | ConfigJson        // /config
    | TemplateJson      // /template/:lang/:type
    | TestHarness       // /tests/index.html, development only
    | SpaRewrite        // each frontend route
    | RenderIndex       // /
    | Dynamic(process: JsValue)

  /** What a handler asks of the dispatcher. */
  datatype Action =
    | Redirect(location: string)              // res.redirect
    | SendJson(fields: map<string, JsValue>)   // res.json of an object literal
    | SendValue(body: JsValue)                 // res.json of another value
    | Render(view: string, checkCoverage: Option<bool>)  // res.render
    | Next                                     // next()
    | Invoke(process: JsValue)                 // the loaded process(req, res)

  /** The request as the handlers see it. Only `url` is ever changed, by the
      frontend rewrite. */
  class Request {
    var url: string
    const originalUrl: string
    const query: map<string, QueryValue>
    const params: map<string, string>

    /** A request as it reaches the application: its url is the original one. */
    constructor (originalUrl: string, query: map<string, QueryValue>, params: map<string, string>)
      ensures url == originalUrl && this.originalUrl == originalUrl
      ensures this.query == query && this.params == params
    {
      url := originalUrl;
      this.originalUrl := originalUrl;
      this.query := query;
      this.params := params;
    }
  }

  /** `originalUrl.slice(3)`: the url without its first three characters,
      empty when it is shorter. */
  function RedirectTarget(originalUrl: string): (target: string)
    ensures |target| == if |originalUrl| <= 3 then 0 else |originalUrl| - 3
    ensures |originalUrl| >= 3 ==> originalUrl == originalUrl[..3] + target
  {
    if |originalUrl| <= 3 then "" else originalUrl[3..]
  }

  /** A link under `/v1` redirects to the same link without the prefix,
      query string and all. */
  lemma {:induction false} RedirectDropsV1(rest: string)
    ensures RedirectTarget("/v1" + rest) == rest
  {
    var u := "/v1" + rest;
    assert u[..3] == "/v1";
    assert u == u[..3] + u[3..];
  }

  lemma RedirectExamples()
    ensures RedirectTarget("/v1/verify_email?x=1") == "/verify_email?x=1"
    ensures RedirectTarget("/v1/complete_reset_password?x=1") == "/complete_reset_password?x=1"
  {
    RedirectDropsV1("/verify_email?x=1");
    RedirectDropsV1("/complete_reset_password?x=1");
  }

  /** `'coverage' in req.query && req.query.coverage !== 'false'`: the key
      must be present, and only the exact single string "false" turns the
      check off. */
  function CheckCoverage(query: map<string, QueryValue>): (on: bool)
    ensures "coverage" !in query ==> !on
    ensures "coverage" in query ==> (on <==> query["coverage"] != Text("false"))
  {
    "coverage" in query && query["coverage"] != Text("false")
  }

  /** The cases the test page depends on: absent, `?coverage=false`, a bare
      `?coverage`, and a repeated key, which is an array and so never equal
      to the string "false". */
  lemma CoverageCases(query: map<string, QueryValue>)
    ensures !CheckCoverage(map[])
    ensures !CheckCoverage(query["coverage" := Text("false")])
    ensures CheckCoverage(query["coverage" := Text("")])
    ensures CheckCoverage(query["coverage" := Text("true")])
    ensures CheckCoverage(query["coverage" := Many(["false", "false"])])
  {
  }

  /** `req.params[name]`, `undefined` when the route has no such parameter. */
  function Param(params: map<string, string>, name: string): JsValue {
    if name in params then Str(params[name]) else Undefined
  }

  /** The action each handler takes for a request with the given original
      url, query and route parameters. `templates` is the template resolver
      handed to the route table. */
  function Respond(h: Handler, originalUrl: string, query: map<string, QueryValue>,
                   params: map<string, string>, cfg: Config,
                   templates: (JsValue, JsValue) -> JsValue): Action
  {
    match h
    case StripV1Redirect => Redirect(RedirectTarget(originalUrl))
    case ConfigJson => SendJson(map["fxaccountUrl" := Str(cfg.fxaccountUrl), "i18n" := cfg.i18n])
    case TemplateJson => SendValue(templates(Param(params, "lang"), Param(params, "type")))
    case TestHarness => Render("mocha", Some(CheckCoverage(query)))
    case SpaRewrite => Next
    case RenderIndex => Render("index", None)
    case Dynamic(process) => Invoke(process)
  }

  /** `/config` answers with exactly two keys, echoing the configuration. */
  lemma ConfigExposesTwoValues(originalUrl: string, query: map<string, QueryValue>,
                               params: map<string, string>, cfg: Config,
                               templates: (JsValue, JsValue) -> JsValue)
    ensures Respond(ConfigJson, originalUrl, query, params, cfg, templates).SendJson?
    ensures Respond(ConfigJson, originalUrl, query, params, cfg, templates).fields.Keys
      == {"fxaccountUrl", "i18n"}
    ensures Respond(ConfigJson, originalUrl, query, params, cfg, templates).fields["fxaccountUrl"]
      == Str(cfg.fxaccountUrl)
    ensures Respond(ConfigJson, originalUrl, query, params, cfg, templates).fields["i18n"]
      == cfg.i18n
  {
  }

  /** Runs handler `h` on `req`. The frontend rewrite sets `req.url` to `/`
      and hands the request on; no other handler changes the request. */
  method Handle(h: Handler, req: Request, cfg: Config, templates: (JsValue, JsValue) -> JsValue)
    returns (a: Action)
    modifies req
    ensures a == Respond(h, req.originalUrl, req.query, req.params, cfg, templates)
    ensures req.url == if h == SpaRewrite then "/" else old(req.url)
    ensures h == SpaRewrite ==> a == Next && req.url == "/"
    ensures h.StripV1Redirect? && |req.originalUrl| >= 3 ==>
      a == Redirect(req.originalUrl[3..])
  {
    if h == SpaRewrite {
      req.url := "/";
    }
    a := Respond(h, req.originalUrl, req.query, req.params, cfg, templates);
  }
}
