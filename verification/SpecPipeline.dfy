/**
 From detection results to a plan: the analyzer's spec generator, the control
 plane's validation and the plan renderer. Go ranges over a map in an arbitrary
 order; each such loop here picks any key not yet visited.
 */
module SpecPipeline {
  import opened Common
  import opened Sorting
  import Cron

  datatype ServiceFacts = ServiceFacts(framework: string, runtime: string, port: int)

  datatype MongoEvidence = MongoEvidence(evidence: string, found: bool)

  datatype ServiceDef = ServiceDef(kind: string, runtime: string, path: string, schedule: string, port: int)

  /** `database` is the mongodb flag when the section is present. */
  datatype AppSpec = AppSpec(
    services: map<string, ServiceDef>, routing: map<string, string>, database: Option<bool>, version: string)

  datatype ConfidenceEntry = ConfidenceEntry(field: string, decision: string, evidence: string)

  datatype Analysis = Analysis(spec: AppSpec, confidence: seq<ConfidenceEntry>)

  // ---------------------------------------------------------------------
  // The analyzer's Generate
  // ---------------------------------------------------------------------

  predicate Supported(runtime: string) {
    runtime == "node" || runtime == "python" || runtime == "go"
  }

  predicate FrontendFramework(f: string) {
    f == "next" || f == "vue" || f == "react" || f == "vite" || f == "nuxt"
  }

  function KindOf(facts: ServiceFacts): string {
    if FrontendFramework(facts.framework) then "frontend" else "backend"
  }

  function DefOf(dir: string, facts: ServiceFacts): ServiceDef {
    ServiceDef(KindOf(facts), facts.runtime, dir, "", facts.port)
  }

  /** A "/" route to some frontend, an "/api" route to some backend, when there is one; nothing else. */
  ghost predicate RoutesFor(services: map<string, ServiceDef>, routing: map<string, string>) {
    routing.Keys <= {"/", "/api"} &&
    ("/" in routing <==> exists n :: n in services && services[n].kind == "frontend") &&
    ("/api" in routing <==> exists n :: n in services && services[n].kind == "backend") &&
    ("/" in routing ==> routing["/"] in services && services[routing["/"]].kind == "frontend") &&
    ("/api" in routing ==> routing["/api"] in services && services[routing["/api"]].kind == "backend")
  }

  /** One entry per route, "/" first. */
  function RouteEntries(routing: map<string, string>): seq<ConfidenceEntry> {
    (if "/" in routing
     then [ConfidenceEntry("routing./", routing["/"], routing["/"] + " is type=frontend")] else []) +
    (if "/api" in routing
     then [ConfidenceEntry("/api", routing["/api"], routing["/api"] + " is type=backend")] else [])
  }

  /** The entries of the routes and then that of the database. */
  ghost predicate ConfidenceFor(a: Analysis, mongo: MongoEvidence) {
    a.confidence == RouteEntries(a.spec.routing) +
      [ConfidenceEntry("database.mongodb", if mongo.found then "true" else "false", mongo.evidence)]
  }

  ghost predicate Frontend(facts: ServiceFacts) {
    facts.framework in {"next", "vue", "react", "vite", "nuxt"}
  }

  /** A service is a frontend by one of five frameworks, a backend by any other. */
  ghost predicate Describes(dir: string, facts: ServiceFacts, def: ServiceDef) {
    def.kind == (if Frontend(facts) then "frontend" else "backend") &&
    def.runtime == facts.runtime && def.path == dir && def.schedule == "" && def.port == facts.port
  }

  lemma DefDescribes(dir: string, facts: ServiceFacts)
    ensures Describes(dir, facts, DefOf(dir, facts))
  {
  }

  /** What every iteration order must produce. */
  ghost predicate Generated(services: map<string, ServiceFacts>, mongo: MongoEvidence, a: Analysis) {
    a.spec.version == "v1" &&
    a.spec.services.Keys == services.Keys &&
    (forall dir :: dir in services ==> Describes(dir, services[dir], a.spec.services[dir])) &&
    RoutesFor(a.spec.services, a.spec.routing) &&
    a.spec.database == (if mongo.found then Some(true) else None) &&
    ConfidenceFor(a, mongo)
  }

  datatype AnalyzeError = ErrUnsupportedStack(dirs: seq<string>) | ErrNoServices

  /** The range over the detected services. */
  method SplitBySupport(services: map<string, ServiceFacts>)
    returns (defs: map<string, ServiceDef>, unsupported: seq<string>)
    ensures forall d :: d in defs <==> d in services && Supported(services[d].runtime)
    ensures forall d :: d in defs ==> defs[d] == DefOf(d, services[d])
    ensures Distinct(unsupported)
    ensures forall d :: d in unsupported <==> d in services && !Supported(services[d].runtime)
  {
    defs, unsupported := map[], [];
    var todo := services.Keys;
    while todo != {}
      invariant todo <= services.Keys
      invariant forall d :: d in defs <==> d in services && d !in todo && Supported(services[d].runtime)
      invariant forall d :: d in defs ==> defs[d] == DefOf(d, services[d])
      invariant Distinct(unsupported)
      invariant forall d :: d in unsupported <==> d in services && d !in todo && !Supported(services[d].runtime)
      decreases |todo|
    {
      var dir :| dir in todo;
      todo := todo - {dir};
      var facts := services[dir];
      if Supported(facts.runtime) {
        defs := defs[dir := DefOf(dir, facts)];
      } else {
        unsupported := unsupported + [dir];
      }
    }
  }

  method Generate(services: map<string, ServiceFacts>, mongo: MongoEvidence) returns (r: Result<Analysis, AnalyzeError>)
    ensures r.Ok? <==>
            services != map[] && forall d :: d in services ==> services[d].runtime in {"node", "python", "go"}
    ensures r.Ok? ==> Generated(services, mongo, r.value)
    ensures r.Err? && r.error.ErrUnsupportedStack? ==>
              Distinct(r.error.dirs) && r.error.dirs != [] &&
              forall d :: d in r.error.dirs <==> d in services && services[d].runtime !in {"node", "python", "go"}
    ensures r.Err? && r.error.ErrNoServices? ==> services == map[]
  {
    var defs, unsupported := SplitBySupport(services);
    if |unsupported| > 0 {
      assert unsupported[0] in unsupported;
      return Err(ErrUnsupportedStack(unsupported));
    }
    assert defs.Keys == services.Keys;
    if |defs| == 0 {
      assert defs == map[];
      return Err(ErrNoServices);
    }
    DefsDescribe(services, defs);
    var routing, entries := BuildRouting(defs);
    var database := if mongo.found then Some(true) else None;
    entries := entries + [ConfidenceEntry("database.mongodb", if mongo.found then "true" else "false", mongo.evidence)];
    return Ok(Analysis(AppSpec(defs, routing, database, "v1"), entries));
  }

  lemma DefsDescribe(services: map<string, ServiceFacts>, defs: map<string, ServiceDef>)
    requires forall d :: d in defs ==> d in services && defs[d] == DefOf(d, services[d])
    ensures forall d :: d in defs ==> Describes(d, services[d], defs[d])
    ensures forall d :: d in defs ==> defs[d].kind == "frontend" || defs[d].kind == "backend"
  {
    forall d | d in defs ensures Describes(d, services[d], defs[d]) {
      DefDescribes(d, services[d]);
    }
  }

  /** The first service of the wanted kind that the range happens to visit. */
  method PickKind(services: map<string, ServiceDef>, kind: string) returns (name: Option<string>)
    ensures name.None? <==> forall n :: n in services ==> services[n].kind != kind
    ensures name.Some? ==> name.value in services && services[name.value].kind == kind
  {
    var todo := services.Keys;
    while todo != {}
      invariant todo <= services.Keys
      invariant forall n :: n in services && n !in todo ==> services[n].kind != kind
      decreases |todo|
    {
      var n :| n in todo;
      todo := todo - {n};
      if services[n].kind == kind {
        return Some(n);
      }
    }
    return None;
  }

  /** The rewrite for a single service with two routes is never taken. */
  method BuildRouting(services: map<string, ServiceDef>)
    returns (routing: map<string, string>, entries: seq<ConfidenceEntry>)
    requires forall n :: n in services ==> services[n].kind == "frontend" || services[n].kind == "backend"
    ensures RoutesFor(services, routing)
    ensures |routing| <= |services| && |entries| == |routing|
    ensures entries == RouteEntries(routing)
  {
    routing, entries := map[], [];
    var web := PickKind(services, "frontend");
    if web.Some? {
      routing := routing["/" := web.value];
      entries := entries + [ConfidenceEntry("routing./", web.value, web.value + " is type=frontend")];
    }
    var api := PickKind(services, "backend");
    if api.Some? {
      if "/api" !in routing {
        routing := routing["/api" := api.value];
        entries := entries + [ConfidenceEntry("/api", api.value, api.value + " is type=backend")];
      }
    }
    RoutingIsNoLarger(services, routing);
    TwoRoutes(routing);
    if |routing| == |services| + 1 && |services| == 1 {
      assert false;
    }
  }

  function Routed(routing: map<string, string>, route: string): set<string> {
    if route in routing then {routing[route]} else {}
  }

  lemma TwoRoutes(routing: map<string, string>)
    requires routing.Keys <= {"/", "/api"}
    ensures |routing| == |Routed(routing, "/")| + |Routed(routing, "/api")|
    ensures |routing| == (if "/" in routing then 1 else 0) + (if "/api" in routing then 1 else 0)
  {
    var web: set<string> := if "/" in routing then {"/"} else {};
    var api: set<string> := if "/api" in routing then {"/api"} else {};
    assert web !! api;
    assert routing.Keys == web + api;
    assert |routing| == |routing.Keys|;
  }

  /** Each route has a service of its own kind, so there are at least as many services. */
  lemma RoutingIsNoLarger(services: map<string, ServiceDef>, routing: map<string, string>)
    requires RoutesFor(services, routing)
    ensures |routing| <= |services|
  {
    var web, api := Routed(routing, "/"), Routed(routing, "/api");
    TwoRoutes(routing);
    assert web !! api;
    assert |web + api| == |web| + |api|;
    SubsetSize(web + api, services.Keys);
  }

  /** "/" goes to some service of a frontend framework and "/api" to some other, wherever there is one. */
  lemma RoutedByFramework(services: map<string, ServiceFacts>, mongo: MongoEvidence, a: Analysis)
    requires Generated(services, mongo, a)
    ensures var routing := a.spec.routing;
            ("/" in routing <==> exists d :: d in services && Frontend(services[d])) &&
            ("/api" in routing <==> exists d :: d in services && !Frontend(services[d])) &&
            ("/" in routing ==> routing["/"] in services && Frontend(services[routing["/"]])) &&
            ("/api" in routing ==> routing["/api"] in services && !Frontend(services[routing["/api"]]))
  {
  }

  /** Routing never outgrows the services, and confidence has one entry more than routing. */
  lemma GeneratedSizes(services: map<string, ServiceFacts>, mongo: MongoEvidence, a: Analysis)
    requires Generated(services, mongo, a)
    ensures |a.spec.routing| <= |a.spec.services|
    ensures |a.confidence| == |a.spec.routing| + 1
  {
    RoutingIsNoLarger(a.spec.services, a.spec.routing);
    TwoRoutes(a.spec.routing);
  }

  // ---------------------------------------------------------------------
  // Validation
  // ---------------------------------------------------------------------

  predicate HttpKind(kind: string) {
    kind == "frontend" || kind == "backend"
  }

  predicate ValidKind(kind: string) {
    HttpKind(kind) || kind == "worker" || kind == "cron"
  }

  /** strings.TrimSpace(s) == "" */
  predicate Blank(s: string) {
    Cron.AllSpace(s)
  }

  predicate ServiceOk(svc: ServiceDef) {
    svc.kind in {"frontend", "backend", "worker", "cron"} && svc.runtime in {"node", "python", "go"} &&
    (svc.kind in {"frontend", "backend"} ==> !Cron.AllSpace(svc.path)) &&
    (svc.kind == "cron" ==> Cron.Accepted(svc.schedule))
  }

  predicate RouteOk(services: map<string, ServiceDef>, target: string) {
    target in services && services[target].kind in {"frontend", "backend"}
  }

  ghost predicate SpecOk(s: AppSpec) {
    s.version == "v1" && s.services != map[] &&
    (forall n :: n in s.services ==> ServiceOk(s.services[n])) &&
    forall route :: route in s.routing ==> RouteOk(s.services, s.routing[route])
  }

  datatype SpecError =
    | BadVersion | NoServices
    | BadKind(service: string) | BadRuntime(service: string) | MissingPath(service: string)
    | BadSchedule(service: string, cause: Cron.CronError)
    | UnknownTarget(route: string) | NonHttpTarget(route: string)

  /** The first of the four checks that this service fails. */
  ghost predicate ServiceBlamed(name: string, svc: ServiceDef, e: SpecError) {
    match e
    case BadKind(n) => n == name && !ValidKind(svc.kind)
    case BadRuntime(n) => n == name && ValidKind(svc.kind) && !Supported(svc.runtime)
    case MissingPath(n) => n == name && Supported(svc.runtime) && HttpKind(svc.kind) && Blank(svc.path)
    case BadSchedule(n, cause) =>
      n == name && Supported(svc.runtime) && svc.kind == "cron" &&
      !Cron.Accepted(svc.schedule) && Cron.Blames(svc.schedule, cause)
    case _ => false
  }

  ghost predicate ServicesOk(s: AppSpec) {
    s.services != map[] && forall n :: n in s.services ==> ServiceOk(s.services[n])
  }

  /** What each error says about the spec. The checks come in the order of the cases, services before routes. */
  ghost predicate SpecBlamed(s: AppSpec, e: SpecError) {
    match e
    case BadVersion => s.version != "v1"
    case NoServices => s.version == "v1" && s.services == map[]
    case UnknownTarget(route) =>
      s.version == "v1" && ServicesOk(s) && route in s.routing && s.routing[route] !in s.services
    case NonHttpTarget(route) =>
      s.version == "v1" && ServicesOk(s) && route in s.routing && s.routing[route] in s.services &&
      !HttpKind(s.services[s.routing[route]].kind)
    case _ => s.version == "v1" && e.service in s.services && ServiceBlamed(e.service, s.services[e.service], e)
  }

  method CheckService(name: string, svc: ServiceDef) returns (r: Result<(), SpecError>)
    ensures r.Ok? <==> ServiceOk(svc)
    ensures r.Err? ==> ServiceBlamed(name, svc, r.error)
  {
    if !ValidKind(svc.kind) {
      return Err(BadKind(name));
    }
    if !Supported(svc.runtime) {
      return Err(BadRuntime(name));
    }
    if HttpKind(svc.kind) && Blank(svc.path) {
      return Err(MissingPath(name));
    }
    if svc.kind == "cron" {
      var c := Cron.ValidateSchedule(svc.schedule);
      if c.Err? {
        return Err(BadSchedule(name, c.error));
      }
    }
    return Ok(());
  }

  /** Whatever order the two maps are walked in, the verdict is SpecOk and an error blames a check that fails. */
  method Validate(s: AppSpec) returns (r: Result<(), SpecError>)
    ensures r.Ok? <==> SpecOk(s)
    ensures r.Err? ==> SpecBlamed(s, r.error)
  {
    if s.version != "v1" {
      return Err(BadVersion);
    }
    if |s.services| == 0 {
      assert s.services == map[];
      return Err(NoServices);
    }
    var todo := s.services.Keys;
    while todo != {}
      invariant todo <= s.services.Keys
      invariant forall n :: n in s.services && n !in todo ==> ServiceOk(s.services[n])
      decreases |todo|
    {
      var name :| name in todo;
      todo := todo - {name};
      var c := CheckService(name, s.services[name]);
      if c.Err? {
        return c;
      }
    }
    todo := s.routing.Keys;
    while todo != {}
      invariant todo <= s.routing.Keys
      invariant forall route :: route in s.routing && route !in todo ==> RouteOk(s.services, s.routing[route])
      decreases |todo|
    {
      var route :| route in todo;
      todo := todo - {route};
      if s.routing[route] !in s.services {
        return Err(UnknownTarget(route));
      }
      if !HttpKind(s.services[s.routing[route]].kind) {
        return Err(NonHttpTarget(route));
      }
    }
    return Ok(());
  }

  /** What the analyzer emits validates exactly when no service directory is blank. */
  lemma {:induction false} GeneratedValidatesIff(services: map<string, ServiceFacts>, mongo: MongoEvidence, a: Analysis)
    requires Generated(services, mongo, a) && services != map[]
    requires forall d :: d in services ==> services[d].runtime in {"node", "python", "go"}
    ensures SpecOk(a.spec) <==> forall d :: d in services ==> !Cron.AllSpace(d)
  {
    var defs := a.spec.services;
    forall d | d in services ensures ServiceOk(defs[d]) <==> !Cron.AllSpace(d) {
      assert Describes(d, services[d], defs[d]);
    }
    forall route | route in a.spec.routing ensures RouteOk(defs, a.spec.routing[route]) {
      assert route == "/" || route == "/api";
    }
    if SpecOk(a.spec) {
      forall d | d in services ensures !Cron.AllSpace(d) {
        assert d in defs;
      }
    }
  }

  // ---------------------------------------------------------------------
  // The plan
  // ---------------------------------------------------------------------

  datatype PlanService = PlanService(name: string, cpuMillicores: int, memoryMegabytes: int)

  datatype PlanInput = PlanInput(
    spec: AppSpec, now: real, appId: string, slug: string, env: string, baseDomain: string, ttl: real)

  datatype Plan = Plan(
    services: seq<PlanService>, expiresAt: real, namespaceName: string, databaseName: string, domain: string)

  datatype PlanError = Incomplete | NoEstimate(kind: string)

  /** The part of the id before its first '-'. */
  function ShortId(appId: string): string {
    appId[..Cron.IndexOf(appId, '-')]
  }

  function Estimate(name: string, svc: ServiceDef): PlanService {
    if svc.kind == "frontend" then PlanService(name, 250, 256) else PlanService(name, 500, 512)
  }

  predicate Complete(input: PlanInput) {
    input.appId != "" && input.slug != "" && input.env != "" && input.baseDomain != ""
  }

  function NamesOf(services: seq<PlanService>): seq<string> {
    seq(|services|, i requires 0 <= i < |services| => services[i].name)
  }

  /** 250m and 256 MB for a frontend, 500m and 512 MB for a backend. */
  ghost predicate Sized(s: PlanService, frontend: bool) {
    s.cpuMillicores == (if frontend then 250 else 500) && s.memoryMegabytes == if frontend then 256 else 512
  }

  /** The id up to its first '-', if it has one. */
  lemma ShortIdIs(first: string, rest: string)
    requires '-' !in first
    ensures ShortId(first) == first && ShortId(first + "-" + rest) == first
  {
    Cron.IndexOfAbsent(first, '-');
    Cron.IndexOfFirst(first, '-', rest);
    assert first + "-" + rest == first + ['-'] + rest;
  }

  /** Every service once, strictly sorted by name and sized by its kind. */
  ghost predicate Listed(services: map<string, ServiceDef>, list: seq<PlanService>) {
    StrictlySorted(NamesOf(list)) &&
    (forall n :: n in NamesOf(list) <==> n in services) &&
    forall i :: 0 <= i < |list| ==>
      list[i].name in services && Sized(list[i], services[list[i].name].kind == "frontend")
  }

  lemma EstimatesAreListed(services: map<string, ServiceDef>, names: seq<string>, list: seq<PlanService>)
    requires StrictlySorted(names) && (forall n :: n in names <==> n in services) && |list| == |names|
    requires forall k :: 0 <= k < |names| ==> names[k] in services && list[k] == Estimate(names[k], services[names[k]])
    ensures Listed(services, list)
  {
    assert NamesOf(list) == names;
  }

  ghost predicate Planned(input: PlanInput, p: Plan) {
    Listed(input.spec.services, p.services) &&
    p.expiresAt == input.now + input.ttl &&
    p.namespaceName == "app-" + ShortId(input.appId) + "-" + input.env &&
    p.databaseName == (if input.spec.database == Some(true) then "app_" + ShortId(input.appId) else "") &&
    p.domain == (if input.env == "production" then input.slug + "." + input.baseDomain
                 else input.slug + "-" + input.env + "." + input.baseDomain)
  }

  method CollectNames(services: map<string, ServiceDef>) returns (names: seq<string>)
    ensures Distinct(names) && forall n :: n in names <==> n in services
  {
    names := [];
    var todo := services.Keys;
    while todo != {}
      invariant todo <= services.Keys && Distinct(names)
      invariant forall n :: n in names <==> n in services && n !in todo
      decreases |todo|
    {
      var n :| n in todo;
      todo := todo - {n};
      names := names + [n];
    }
  }

  lemma LeastIsFirst(names: seq<string>, i: nat)
    requires StrictlySorted(names) && i < |names|
    ensures forall m :: m in names && Less(m, names[i]) ==> m in names[..i]
  {
    forall m | m in names && Less(m, names[i]) ensures m in names[..i] {
      var k :| 0 <= k < |names| && names[k] == m;
      if k > i {
        Total(m, names[i]);
      }
      assert k < i ==> names[..i][k] == m;
    }
  }

  /** The service whose kind has no estimate is the least-named one. */
  ghost predicate PlanBlamed(input: PlanInput, e: PlanError) {
    var services := input.spec.services;
    match e
    case Incomplete => !Complete(input)
    case NoEstimate(kind) =>
      Complete(input) && kind !in {"frontend", "backend"} &&
      exists n :: n in services && services[n].kind == kind &&
                  forall m :: m in services && Less(m, n) ==> services[m].kind in {"frontend", "backend"}
  }

  lemma LeastIsBlamed(input: PlanInput, names: seq<string>, i: nat)
    requires Complete(input) && StrictlySorted(names) && i < |names|
    requires forall n :: n in names <==> n in input.spec.services
    requires names[i] in input.spec.services && !HttpKind(input.spec.services[names[i]].kind)
    requires forall k :: 0 <= k < i ==>
               names[k] in input.spec.services && HttpKind(input.spec.services[names[k]].kind)
    ensures PlanBlamed(input, NoEstimate(input.spec.services[names[i]].kind))
  {
    LeastIsFirst(names, i);
  }

  /** Every service once, strictly sorted by name, whatever order the map is walked in. */
  method RenderPlan(input: PlanInput) returns (r: Result<Plan, PlanError>)
    ensures r.Ok? <==>
            input.appId != "" && input.slug != "" && input.env != "" && input.baseDomain != "" &&
            forall n :: n in input.spec.services ==> input.spec.services[n].kind in {"frontend", "backend"}
    ensures r.Ok? ==> Planned(input, r.value)
    ensures r.Err? ==> PlanBlamed(input, r.error)
  {
    if !Complete(input) {
      return Err(Incomplete);
    }
    var collected := CollectNames(input.spec.services);
    SortDistinct(collected);
    var names := Sort(collected);
    var services: seq<PlanService> := [];
    for i := 0 to |names|
      invariant |services| == i
      invariant forall k :: 0 <= k < i ==>
                  names[k] in input.spec.services && HttpKind(input.spec.services[names[k]].kind) &&
                  services[k] == Estimate(names[k], input.spec.services[names[k]])
    {
      assert names[i] in names;
      var def := input.spec.services[names[i]];
      if !HttpKind(def.kind) {
        LeastIsBlamed(input, names, i);
        return Err(NoEstimate(def.kind));
      }
      services := services + [Estimate(names[i], def)];
    }
    var database := if input.spec.database == Some(true) then "app_" + ShortId(input.appId) else "";
    var domain := input.slug + "." + input.baseDomain;
    if input.env != "production" {
      domain := input.slug + "-" + input.env + "." + input.baseDomain;
    }
    var p := Plan(services, input.now + input.ttl, "app-" + ShortId(input.appId) + "-" + input.env, database, domain);
    EstimatesAreListed(input.spec.services, names, services);
    return Ok(p);
  }

  datatype PipelineError = Analyze(a: AnalyzeError) | Invalid(v: SpecError) | NoPlan(p: PlanError)

  /** The detected services the whole pipeline carries through. */
  ghost predicate Deployable(services: map<string, ServiceFacts>) {
    services != map[] &&
    forall d :: d in services ==> services[d].runtime in {"node", "python", "go"} && !Cron.AllSpace(d)
  }

  lemma GeneratedIsHttp(services: map<string, ServiceFacts>, mongo: MongoEvidence, a: Analysis)
    requires Generated(services, mongo, a)
    ensures forall n :: n in a.spec.services ==> a.spec.services[n].kind in {"frontend", "backend"}
  {
    forall n | n in a.spec.services ensures a.spec.services[n].kind in {"frontend", "backend"} {
      assert Describes(n, services[n], a.spec.services[n]);
    }
  }

  /** What validation and the renderer find in the analyzer's output. */
  lemma GeneratedIsReady(services: map<string, ServiceFacts>, mongo: MongoEvidence, a: Analysis)
    requires Generated(services, mongo, a) && services != map[]
    requires forall d :: d in services ==> services[d].runtime in {"node", "python", "go"}
    ensures SpecOk(a.spec) <==> Deployable(services)
    ensures forall n :: n in a.spec.services ==> a.spec.services[n].kind in {"frontend", "backend"}
  {
    GeneratedValidatesIff(services, mongo, a);
    GeneratedIsHttp(services, mongo, a);
  }

  lemma SizedByFramework(services: map<string, ServiceFacts>, mongo: MongoEvidence, a: Analysis,
                         input: PlanInput, p: Plan)
    requires Generated(services, mongo, a) && Planned(input.(spec := a.spec), p)
    ensures forall i :: 0 <= i < |p.services| ==>
              p.services[i].name in services && Sized(p.services[i], Frontend(services[p.services[i].name]))
  {
    forall i | 0 <= i < |p.services|
      ensures p.services[i].name in services &&
              Sized(p.services[i], Frontend(services[p.services[i].name]))
    {
      var n := p.services[i].name;
      assert Describes(n, services[n], a.spec.services[n]);
    }
  }

  /**
   Analyzer, validation and plan in a row, whatever order any map is walked in:
   a plan comes out exactly for supported services in non-blank directories and
   complete identifiers, and it lists exactly those directories, each once,
   strictly sorted and sized by its framework.
   */
  method AnalyzeToPlan(services: map<string, ServiceFacts>, mongo: MongoEvidence, input: PlanInput)
    returns (r: Result<Plan, PipelineError>, ghost found: Option<Analysis>)
    ensures r.Ok? <==> Deployable(services) && Complete(input)
    ensures r.Ok? ==> StrictlySorted(NamesOf(r.value.services))
    ensures r.Ok? ==> forall n :: n in NamesOf(r.value.services) <==> n in services
    ensures r.Ok? ==>
              forall i :: 0 <= i < |r.value.services| ==>
                var s := r.value.services[i];
                s.name in services && Sized(s, Frontend(services[s.name]))
    ensures r.Ok? ==>
              found.Some? && Generated(services, mongo, found.value) && SpecOk(found.value.spec) &&
              Planned(input.(spec := found.value.spec), r.value)
  {
    var a := Generate(services, mongo);
    if a.Err? {
      return Err(Analyze(a.error)), None;
    }
    var spec := a.value.spec;
    GeneratedIsReady(services, mongo, a.value);
    var v := Validate(spec);
    if v.Err? {
      return Err(Invalid(v.error)), None;
    }
    var p := RenderPlan(input.(spec := spec));
    if p.Err? {
      return Err(NoPlan(p.error)), None;
    }
    SizedByFramework(services, mongo, a.value, input, p.value);
    return Ok(p.value), Some(a.value);
  }
}
