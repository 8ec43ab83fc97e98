/** Discovery of route definitions in the `routes` directory: the validity
    test for a loaded definition, the file-name filter, and the scan that
    loads, validates and collects the definitions in listing order. */
module RouteLoader {
  import opened JsValues

  // ---------------------------------------------------------------------
  // Validation of one loaded definition
  // ---------------------------------------------------------------------

  /** `!! route.method && route.path && route.process`. The operator `!!`
      binds tighter than `&&`, so the value returned is `false` when the
      method is falsy, otherwise the path when that is falsy, otherwise the
      process. */
  function IsValidRoute(route: Exports): (v: JsValue)
    ensures Truthy(v) <==>
      Truthy(route.Get("method")) && Truthy(route.Get("path")) && Truthy(route.Get("process"))
    ensures v == Bool(false) || v == route.Get("path") || v == route.Get("process")
    ensures Truthy(v) ==> v == route.Get("process")
  {
    var m := Bool(Truthy(route.Get("method")));
    if !Truthy(m) then m
    else if !Truthy(route.Get("path")) then route.Get("path")
    else route.Get("process")
  }

  predicate PassesValidation(route: Exports) {
    Truthy(IsValidRoute(route))
  }

  // ---------------------------------------------------------------------
  // The candidate-file filter
  // ---------------------------------------------------------------------

  /** A directory entry name: `readdir` never yields a name with a slash. */
  predicate EntryName(name: string) {
    '/' !in name
  }

  /** Index of the last '.' in `s`, or -1 when there is none. */
  function LastDot(s: string): (k: int)
    ensures -1 <= k < |s|
    ensures k >= 0 ==> s[k] == '.'
    ensures forall j :: k < j < |s| ==> s[j] != '.'
  {
    if s == [] then -1
    else if s[|s| - 1] == '.' then |s| - 1
    else LastDot(s[..|s| - 1])
  }

  /** POSIX `path.extname` of a name without slashes: the text from the last
      dot to the end, except that a name without a dot, a name whose only
      dot-led part starts it (`.js`, `.bashrc`), and `..` have none. */
  function ExtName(name: string): (e: string)
    requires EntryName(name)
    ensures e == "" <==> (forall i :: 0 < i < |name| ==> name[i] != '.') || name == ".."
    ensures e == "" || (e[0] == '.' && '.' !in e[1..])
    ensures e != "" ==> |e| < |name| && name == name[..|name| - |e|] + e
  {
    var d := LastDot(name);
    if d <= 0 || name == ".." then "" else name[d..]
  }

  predicate EndsWithJs(name: string) {
    |name| >= 3 && name[|name| - 3..] == ".js"
  }

  predicate StartsWithDot(name: string) {
    |name| > 0 && name[0] == '.'
  }

  /** A load candidate: a name that ends in `.js` and does not begin with a dot. */
  predicate IsCandidate(name: string) {
    EndsWithJs(name) && !StartsWithDot(name)
  }

  /** The test of line 32 as written, `path.extname(file) === '.js'` and not
      `/^\./.test(file)`, is exactly the candidate rule. */
  lemma CandidateExactly(name: string)
    requires EntryName(name)
    ensures (ExtName(name) == ".js" && !StartsWithDot(name)) <==> IsCandidate(name)
  {
    var d := LastDot(name);
    var n := |name|;
    if IsCandidate(name) {
      assert name[n - 3] == '.' && name[n - 2] == 'j' && name[n - 1] == 's' by {
        assert name[n - 3..][0] == '.' && name[n - 3..][1] == 'j' && name[n - 3..][2] == 's';
      }
      assert d == n - 3;
      assert d > 0;
    }
    if ExtName(name) == ".js" && !StartsWithDot(name) {
      assert name[d..] == ".js";
      assert d == n - 3;
    }
  }

  /** `path.extname` on the names the filter is about: a leading dot does
      not start an extension, the last dot does. */
  lemma ExtNameExamples()
    ensures ExtName(".js") == "" && ExtName(".x.js") == ".js"
    ensures ExtName("a.json") == ".json" && ExtName("README") == ""
    ensures ExtName("..") == "" && ExtName("a.") == "."
  {
    assert LastDot(".x.js") == 2 by { assert ".x.js"[2] == '.'; }
    assert LastDot("a.json") == 1 by { assert "a.json"[1] == '.'; }
    assert LastDot(".js") == 0 by { assert ".js"[0] == '.'; }
    assert LastDot("README") == -1 by {
      assert forall j :: 0 <= j < 4 ==> "README"[j] != '.';
    }
  }

  /** Names that are never loaded, and names that are. */
  lemma NotCandidates()
    ensures !IsCandidate(".js") && !IsCandidate(".x.js")
    ensures !IsCandidate("a.json") && !IsCandidate("README")
    ensures IsCandidate("a.js")
  {
    assert ".x.js"[0] == '.';
    assert "a.json"[3..] == "son";
    assert "a.js"[1..] == ".js";
  }

  // ---------------------------------------------------------------------
  // The directory scan
  // ---------------------------------------------------------------------

  /** The two outcomes of `require` on a candidate file. */
  datatype LoadOutcome = Loaded(exports: Exports) | LoadFail

  /** What the scan does that can be observed: the files it requires and
      the lines it logs. */
  datatype Effect =
    | Required(file: string)   // `require` is called on the file
    | NotLoaded(file: string)  // info: "route definition not loaded: %s"
    | Invalid(file: string)    // error: "route definition invalid: %s"

  /** The whole result of a scan: its effects in order, and the collected
      definitions, or None when a `require` threw and aborted the scan. */
  datatype ScanReport = ScanReport(effects: seq<Effect>, routes: Option<seq<Exports>>)

  predicate EntryNames(names: seq<string>) {
    forall i :: 0 <= i < |names| ==> EntryName(names[i])
  }

  /** The effects of an earlier part of the scan followed by the report of
      the rest of it. */
  function Then(effects: seq<Effect>, routes: seq<Exports>, rest: ScanReport): ScanReport {
    ScanReport(effects + rest.effects,
               if rest.routes.Some? then Some(routes + rest.routes.value) else None)
  }

  /** An empty prefix leaves a report as it is. */
  lemma ThenNothing(rest: ScanReport)
    ensures Then([], [], rest) == rest
  {
    assert [] + rest.effects == rest.effects;
    if rest.routes.Some? {
      assert [] + rest.routes.value == rest.routes.value;
    }
  }

  /** Two prefixes in a row are one longer prefix. */
  lemma ThenThen(e1: seq<Effect>, r1: seq<Exports>, e2: seq<Effect>, r2: seq<Exports>, rest: ScanReport)
    ensures Then(e1, r1, Then(e2, r2, rest)) == Then(e1 + e2, r1 + r2, rest)
  {
    assert e1 + (e2 + rest.effects) == (e1 + e2) + rest.effects;
    if rest.routes.Some? {
      assert r1 + (r2 + rest.routes.value) == (r1 + r2) + rest.routes.value;
    }
  }

  /** What one entry of the listing contributes to the scan: its effects,
      and either the definitions it adds (none or one) with the scan going
      on, or the end of the scan. */
  datatype Step = Continue(effects: seq<Effect>, routes: seq<Exports>) | Abort(effects: seq<Effect>)

  /** Lines 31-41 for one file: skip with an info line, or require it and
      then either throw, drop it with an error line, or keep it. */
  function StepOf(file: string, load: string -> LoadOutcome): Step {
    if !IsCandidate(file) then Continue([NotLoaded(file)], [])
    else
      match load(file)
      case LoadFail => Abort([Required(file)])
      case Loaded(route) =>
        if !PassesValidation(route) then Continue([Required(file), Invalid(file)], [])
        else Continue([Required(file)], [route])
  }

  /** The scan of a directory listing by `loadRouteDefinitions`, written
      first-entry-first. */
  function Scan(names: seq<string>, load: string -> LoadOutcome): ScanReport {
    if names == [] then ScanReport([], Some([]))
    else
      match StepOf(names[0], load)
      case Abort(e) => ScanReport(e, None)
      case Continue(e, r) => Then(e, r, Scan(names[1..], load))
  }

  /** `loadRouteDefinitions(routesPath)`: the directory listing is `names`
      and `require` is `load`. The loop visits the entries in order, as the
      `forEach` at line 30 does; a failing `require` ends it. */
  method LoadRouteDefinitions(names: seq<string>, load: string -> LoadOutcome)
    returns (effects: seq<Effect>, routes: Option<seq<Exports>>)
    requires EntryNames(names)
    ensures ScanReport(effects, routes) == Scan(names, load)
  {
    var acc: seq<Exports> := [];
    effects := [];
    var i := 0;
    assert names[0..] == names;
    ThenNothing(Scan(names, load));
    while i < |names|
      invariant 0 <= i <= |names|
      invariant Then(effects, acc, Scan(names[i..], load)) == Scan(names, load)
    {
      var file := names[i];
      assert names[i..][0] == file && names[i..][1..] == names[i + 1..];
      ghost var rest := Scan(names[i + 1..], load);
      CandidateExactly(file);
      if ExtName(file) != ".js" || StartsWithDot(file) {
        ThenThen(effects, acc, [NotLoaded(file)], [], rest);
        effects := effects + [NotLoaded(file)];
        assert acc + [] == acc;
      } else {
        var outcome := load(file);
        match outcome
        case LoadFail =>
          assert Scan(names[i..], load) == ScanReport([Required(file)], None);
          effects := effects + [Required(file)];
          routes := None;
          return;
        case Loaded(route) =>
          if !Truthy(IsValidRoute(route)) {
            ThenThen(effects, acc, [Required(file), Invalid(file)], [], rest);
            effects := effects + [Required(file), Invalid(file)];
            assert acc + [] == acc;
          } else {
            ThenThen(effects, acc, [Required(file)], [route], rest);
            effects := effects + [Required(file)];
            acc := acc + [route];
          }
      }
      i := i + 1;
    }
    assert names[|names|..] == [];
    assert effects + [] == effects && acc + [] == acc;
    routes := Some(acc);
  }

  // ---------------------------------------------------------------------
  // Properties of the scan
  // ---------------------------------------------------------------------

  /** A file contributes its loaded definition to the routes. */
  predicate Accepted(file: string, load: string -> LoadOutcome) {
    IsCandidate(file) && load(file).Loaded? && PassesValidation(load(file).exports)
  }

  /** No candidate of the listing fails to load. */
  predicate AllLoad(names: seq<string>, load: string -> LoadOutcome) {
    forall i :: 0 <= i < |names| && IsCandidate(names[i]) ==> load(names[i]).Loaded?
  }

  /** Reference definition: the loaded definitions of the accepted files,
      in listing order. */
  function AcceptedDefinitions(names: seq<string>, load: string -> LoadOutcome): (rs: seq<Exports>)
    ensures |rs| <= |names|
  {
    if names == [] then []
    else if Accepted(names[0], load) then [load(names[0]).exports] + AcceptedDefinitions(names[1..], load)
    else AcceptedDefinitions(names[1..], load)
  }

  /** How the scan of a listing splits at any point: the first part's report,
      then, unless it aborted, the second part's. Skipped and invalid entries
      never stop the scan. */
  lemma {:induction false} ScanSplits(a: seq<string>, b: seq<string>, load: string -> LoadOutcome)
    ensures Scan(a + b, load) ==
      if Scan(a, load).routes.None? then Scan(a, load)
      else Then(Scan(a, load).effects, Scan(a, load).routes.value, Scan(b, load))
  {
    if a == [] {
      assert a + b == b;
      ThenNothing(Scan(b, load));
    } else {
      assert (a + b)[0] == a[0] && (a + b)[1..] == a[1..] + b;
      ScanSplits(a[1..], b, load);
      match StepOf(a[0], load)
      case Abort(e) =>
      case Continue(e, r) =>
        var tail := Scan(a[1..], load);
        if tail.routes.Some? {
          ThenThen(e, r, tail.effects, tail.routes.value, Scan(b, load));
        }
    }
  }

  /** The scan yields routes exactly when every candidate loads. */
  lemma {:induction false} ScanSucceedsIff(names: seq<string>, load: string -> LoadOutcome)
    ensures Scan(names, load).routes.Some? <==> AllLoad(names, load)
  {
    if names != [] {
      ScanSucceedsIff(names[1..], load);
      assert forall i :: 1 <= i < |names| ==> names[i] == names[1..][i - 1];
    }
  }

  /** With every candidate loading, the routes are exactly the accepted
      definitions, one per accepted file, in listing order. */
  lemma {:induction false} ScanCollectsAccepted(names: seq<string>, load: string -> LoadOutcome)
    requires AllLoad(names, load)
    ensures Scan(names, load).routes == Some(AcceptedDefinitions(names, load))
  {
    if names != [] {
      assert AllLoad(names[1..], load) by {
        forall i | 0 <= i < |names[1..]| && IsCandidate(names[1..][i])
          ensures load(names[1..][i]).Loaded?
        {
          assert names[1..][i] == names[i + 1];
        }
      }
      ScanCollectsAccepted(names[1..], load);
      assert IsCandidate(names[0]) ==> load(names[0]).Loaded?;
      var tail := AcceptedDefinitions(names[1..], load);
      assert [] + tail == tail;
    }
  }

  /** Every collected definition passes `isValidRoute`, and a value is
      collected exactly when some accepted file of the listing loads to it. */
  lemma {:induction false} AcceptedMembership(names: seq<string>, load: string -> LoadOutcome, r: Exports)
    ensures r in AcceptedDefinitions(names, load) ==> PassesValidation(r)
    ensures r in AcceptedDefinitions(names, load) <==>
      exists i :: 0 <= i < |names| && Accepted(names[i], load) && load(names[i]).exports == r
  {
    if names != [] {
      AcceptedMembership(names[1..], load, r);
      if exists i :: 0 <= i < |names| && Accepted(names[i], load) && load(names[i]).exports == r {
        var i :| 0 <= i < |names| && Accepted(names[i], load) && load(names[i]).exports == r;
        if i > 0 {
          assert names[1..][i - 1] == names[i];
        }
      }
      if exists i :: 0 <= i < |names[1..]| && Accepted(names[1..][i], load) && load(names[1..][i]).exports == r {
        var i :| 0 <= i < |names[1..]| && Accepted(names[1..][i], load) && load(names[1..][i]).exports == r;
        assert names[i + 1] == names[1..][i];
      }
    }
  }

  /** A file is required only if it is a candidate of the listing: the
      skipped names are never loaded. */
  lemma {:induction false} OnlyCandidatesRequired(names: seq<string>, load: string -> LoadOutcome, file: string)
    ensures Required(file) in Scan(names, load).effects ==> file in names && IsCandidate(file)
  {
    if names != [] {
      OnlyCandidatesRequired(names[1..], load, file);
    }
  }

  lemma AllLoadPrefix(names: seq<string>, load: string -> LoadOutcome, k: nat)
    requires AllLoad(names, load) && k <= |names|
    ensures AllLoad(names[..k], load)
  {
    forall i | 0 <= i < k && IsCandidate(names[..k][i]) ensures load(names[..k][i]).Loaded? {
      assert names[..k][i] == names[i];
    }
  }

  /** When every candidate loads, the log of the whole scan is the log of
      any prefix followed by the log of the rest. */
  lemma CompletedPrefixSplits(names: seq<string>, load: string -> LoadOutcome, k: nat)
    requires AllLoad(names, load) && k <= |names|
    ensures Scan(names, load).effects == Scan(names[..k], load).effects + Scan(names[k..], load).effects
  {
    var a, b := names[..k], names[k..];
    var sa := Scan(a, load);
    assert sa.routes.Some? by {
      AllLoadPrefix(names, load, k);
      ScanSucceedsIff(a, load);
    }
    assert Scan(a + b, load) == Then(sa.effects, sa.routes.value, Scan(b, load)) by {
      ScanSplits(a, b, load);
    }
    assert names == a + b;
  }

  /** Each entry of a completed scan leaves exactly its own trace, right
      after the traces of the entries before it: one info line for a skipped
      name; a `require` for a candidate, followed by an error line when its
      definition is invalid. */
  lemma EntryTraceInPlace(names: seq<string>, load: string -> LoadOutcome, k: nat)
    requires AllLoad(names, load) && k < |names|
    ensures StepOf(names[k], load).Continue?
    ensures Scan(names, load).effects ==
      Scan(names[..k], load).effects + StepOf(names[k], load).effects + Scan(names[k + 1..], load).effects
  {
    var a, rest, c := names[..k], names[k..], names[k + 1..];
    assert StepOf(names[k], load).Continue? by {
      assert IsCandidate(names[k]) ==> load(names[k]).Loaded?;
    }
    CompletedPrefixSplits(names, load, k);
    assert Scan(rest, load).effects == StepOf(names[k], load).effects + Scan(c, load).effects by {
      assert rest != [] && rest[0] == names[k] && rest[1..] == c;
      var step := StepOf(rest[0], load);
      assert Scan(rest, load) == Then(step.effects, step.routes, Scan(rest[1..], load));
    }
    var x, y, z := Scan(a, load).effects, StepOf(names[k], load).effects, Scan(c, load).effects;
    assert x + (y + z) == x + y + z;
  }

  /** A failing `require` aborts the scan right there: the report ends with
      that `require`, no routes are returned, and no later entry is seen. */
  lemma ScanAbortsAtFirstFailure(names: seq<string>, load: string -> LoadOutcome, k: nat)
    requires k < |names| && IsCandidate(names[k]) && load(names[k]).LoadFail?
    requires AllLoad(names[..k], load)
    ensures Scan(names, load) ==
      ScanReport(Scan(names[..k], load).effects + [Required(names[k])], None)
  {
    assert names[..k] + names[k..] == names;
    ScanSplits(names[..k], names[k..], load);
    ScanSucceedsIff(names[..k], load);
    assert names[k..][0] == names[k];
  }

  /** Loading the same listing twice gives the same definitions: the scan
      depends only on the listing and on what `require` yields. */
  method LoadTwice(names: seq<string>, load: string -> LoadOutcome)
    returns (first: Option<seq<Exports>>, second: Option<seq<Exports>>)
    requires EntryNames(names)
    ensures first == second
    ensures first.Some? <==> AllLoad(names, load)
    ensures first.Some? ==> first.value == AcceptedDefinitions(names, load)
  {
    var log1, log2;
    log1, first := LoadRouteDefinitions(names, load);
    log2, second := LoadRouteDefinitions(names, load);
    ScanSucceedsIff(names, load);
    if first.Some? {
      ScanCollectsAccepted(names, load);
    }
  }
}
