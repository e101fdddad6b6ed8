/**
 From a request to its report: the steps of a routed plan with the models the outbounds offer,
 and the run of the dispatcher over them.
 */
module Planning {
  import opened Common
  import opened Routing
  import Dispatching

  // ----- models -----

  /** A model an outbound offers, under its name and any aliases. */
  datatype OutboundModel = OutboundModel(name: string, aliases: seq<string>)

  function Lookup<V>(table: map<string, V>, key: string): Option<V> {
    if key in table then Some(table[key]) else None
  }

  predicate Offers(m: OutboundModel, key: string) {
    key == m.name || key in m.aliases
  }

  /** The name of the last listed model that goes by `key`. */
  function LastOffering(models: seq<OutboundModel>, key: string): Option<string> {
    if models == [] then None
    else if Offers(models[|models| - 1], key) then Some(models[|models| - 1].name)
    else LastOffering(models[..|models| - 1], key)
  }

  /** Where the table stands on `key` after the name and the first `n` aliases of the next model. */
  predicate ListedAs(resolved: map<string, string>, before: seq<OutboundModel>, m: OutboundModel, n: nat, key: string)
    requires n <= |m.aliases|
  {
    Lookup(resolved, key) == if key == m.name || key in m.aliases[..n] then Some(m.name) else LastOffering(before, key)
  }

  ghost predicate PartlyListed(resolved: map<string, string>, before: seq<OutboundModel>, m: OutboundModel, n: nat)
    requires n <= |m.aliases|
  {
    forall key :: ListedAs(resolved, before, m, n, key)
  }

  lemma {:induction false} OneAliasMore(resolved: map<string, string>, before: seq<OutboundModel>, m: OutboundModel, n: nat)
    requires n < |m.aliases| && PartlyListed(resolved, before, m, n)
    ensures PartlyListed(resolved[m.aliases[n] := m.name], before, m, n + 1)
  {
    assert m.aliases[..n + 1] == m.aliases[..n] + [m.aliases[n]];
    var grown, more := resolved[m.aliases[n] := m.name], n + 1;
    forall key
      ensures ListedAs(grown, before, m, more, key)
    {
      assert ListedAs(resolved, before, m, n, key);
    }
  }

  lemma {:induction false} NameListed(resolved: map<string, string>, before: seq<OutboundModel>, m: OutboundModel)
    requires forall key :: Lookup(resolved, key) == LastOffering(before, key)
    ensures PartlyListed(resolved[m.name := m.name], before, m, 0)
  {
    var grown := resolved[m.name := m.name];
    forall key
      ensures ListedAs(grown, before, m, 0, key)
    {
      assert Lookup(resolved, key) == LastOffering(before, key);
    }
  }

  lemma {:induction false} ModelListed(resolved: map<string, string>, before: seq<OutboundModel>, m: OutboundModel, key: string)
    requires PartlyListed(resolved, before, m, |m.aliases|)
    ensures Lookup(resolved, key) == LastOffering(before + [m], key)
  {
    assert ListedAs(resolved, before, m, |m.aliases|, key);
    assert m.aliases[..|m.aliases|] == m.aliases;
    assert (before + [m])[..|before|] == before;
  }

  /** The table of an outbound's models: a key leads to the last model that goes by it; without any
      model listed there is no table, and everything is passed through. */
  method CompileOutboundModels(models: seq<OutboundModel>) returns (table: Option<map<string, string>>)
    ensures table.None? <==> models == []
    ensures table.Some? ==> forall key :: Lookup(table.value, key) == LastOffering(models, key)
  {
    if |models| == 0 {
      return None;
    }
    var resolved: map<string, string> := map[];
    for i := 0 to |models|
      invariant forall key :: Lookup(resolved, key) == LastOffering(models[..i], key)
    {
      var m := models[i];
      NameListed(resolved, models[..i], m);
      resolved := resolved[m.name := m.name];
      for j := 0 to |m.aliases|
        invariant PartlyListed(resolved, models[..i], m, j)
      {
        OneAliasMore(resolved, models[..i], m, j);
        resolved := resolved[m.aliases[j] := m.name];
      }
      assert models[..i + 1] == models[..i] + [m];
      forall key
        ensures Lookup(resolved, key) == LastOffering(models[..i + 1], key)
      {
        ModelListed(resolved, models[..i], m, key);
      }
    }
    assert models[..|models|] == models;
    return Some(resolved);
  }

  /** The model a rule routes to: an entry for the model, else one for all models, else itself. */
  function ResolveModel(modelMap: map<string, string>, requested: string): string {
    if requested in modelMap && modelMap[requested] != "" then modelMap[requested]
    else if "*" in modelMap && modelMap["*"] != "" then modelMap["*"]
    else requested
  }

  function ResolveOutboundModel(table: Option<map<string, string>>, routed: string): (string, bool) {
    if table.None? then (routed, false)
    else if routed !in table.value then (routed, true)
    else (table.value[routed], false)
  }

  // ----- steps -----

  datatype PlanStep = PlanStep(outbound: string, hasTarget: bool, model: string, modelUnavailable: bool)

  /** What the router knows of its outbounds: the providers in place and the models each offers. */
  datatype Outbounds = Outbounds(providers: set<string>, models: map<string, map<string, string>>)

  function StepFor(known: Outbounds, outbound: string, routed: string): PlanStep {
    var (model, unavailable) := ResolveOutboundModel(Lookup(known.models, outbound), routed);
    PlanStep(outbound, outbound in known.providers, model, unavailable)
  }

  method BuildSteps(known: Outbounds, rule: Rule, ordered: seq<string>, requested: string) returns (steps: seq<PlanStep>)
    ensures |steps| == |ordered|
    ensures forall i | 0 <= i < |ordered| :: steps[i] == StepFor(known, ordered[i], ResolveModel(rule.modelMap, requested))
  {
    steps := [];
    var routed := ResolveModel(rule.modelMap, requested);
    for i := 0 to |ordered|
      invariant |steps| == i
      invariant forall j | 0 <= j < i :: steps[j] == StepFor(known, ordered[j], routed)
    {
      var table := Lookup(known.models, ordered[i]);
      var (model, unavailable) := ResolveOutboundModel(table, routed);
      steps := steps + [PlanStep(ordered[i], ordered[i] in known.providers, model, unavailable)];
    }
  }

  /** Which model a rule routes to: its target model if it has one, else what its map says for the model or for all models. */
  lemma {:induction false} RoutedModels(spec: RuleSpec, requested: string)
    ensures var routed := ResolveModel(CompiledModelMap(spec), requested);
            && (spec.targetModel != "" ==> routed == spec.targetModel)
            && (spec.targetModel == "" && requested in spec.modelMap && spec.modelMap[requested] != "" ==> routed == spec.modelMap[requested])
            && (spec.targetModel == "" && requested !in spec.modelMap && "*" in spec.modelMap && spec.modelMap["*"] != "" ==> routed == spec.modelMap["*"])
            && (spec.targetModel == "" && spec.modelMap == map[] ==> routed == requested)
  {
  }

  /** What a step asks of its outbound: the last model that goes by the routed name; nothing if none does; the routed name
      itself if the outbound lists no models. */
  lemma {:induction false} StepsAskForOfferedModels(known: Outbounds, outbound: string, models: seq<OutboundModel>, routed: string)
    requires outbound in known.models <==> models != []
    requires models != [] ==> forall key :: Lookup(known.models[outbound], key) == LastOffering(models, key)
    ensures var step := StepFor(known, outbound, routed);
            && step.outbound == outbound && (step.hasTarget <==> outbound in known.providers)
            && (step.modelUnavailable <==> models != [] && forall i | 0 <= i < |models| :: routed != models[i].name && routed !in models[i].aliases)
            && (models == [] ==> step.model == routed)
            && (models != [] && !step.modelUnavailable ==> LastOffering(models, routed) == Some(step.model))
  {
    if models != [] {
      assert Lookup(known.models[outbound], routed) == LastOffering(models, routed);
      NoneOffers(models, routed);
    }
  }

  lemma {:induction false} NoneOffers(models: seq<OutboundModel>, key: string)
    ensures LastOffering(models, key) == None <==> forall i | 0 <= i < |models| :: key != models[i].name && key !in models[i].aliases
  {
    if models != [] {
      var n := |models| - 1;
      NoneOffers(models[..n], key);
      assert forall i | 0 <= i < n :: models[..n][i] == models[i];
    }
  }

  // ----- dispatch -----

  /** What happens when a step is tried. */
  datatype Attempt = Attempt(quotaAllows: bool, healthAllows: bool, failure: Option<Dispatching.Failure>)

  /** A plan of the router as the dispatcher meets it. */
  function Tried(steps: seq<PlanStep>, attempts: nat -> Attempt): (tried: seq<Dispatching.Step>)
    ensures |tried| == |steps|
  {
    seq(|steps|, i requires 0 <= i < |steps| =>
      Dispatching.Step(true, steps[i].hasTarget, steps[i].modelUnavailable, Dispatching.OnRetryable,
                       attempts(i).quotaAllows, attempts(i).healthAllows, attempts(i).failure))
  }

  predicate AllInPlace(known: Outbounds, ordered: seq<string>) {
    forall i | 0 <= i < |ordered| :: ordered[i] in known.providers
  }

  ghost predicate BuiltFor(known: Outbounds, rule: Rule, ordered: seq<string>, requested: string, steps: seq<PlanStep>) {
    && |steps| == |ordered|
    && forall i | 0 <= i < |ordered| :: steps[i] == StepFor(known, ordered[i], ResolveModel(rule.modelMap, requested))
  }

  lemma {:induction false} BuiltPlansAreRouterMade(known: Outbounds, rule: Rule, ordered: seq<string>, requested: string, steps: seq<PlanStep>, attempts: nat -> Attempt)
    requires BuiltFor(known, rule, ordered, requested, steps)
    ensures Dispatching.RouterMade(Tried(steps, attempts)) <==> ordered != [] && AllInPlace(known, ordered)
  {
    var tried := Tried(steps, attempts);
    assert forall i | 0 <= i < |ordered| :: tried[i].hasTarget <==> ordered[i] in known.providers;
  }

  /** Main result: the plans a compiled rule makes are plans as the dispatcher expects them exactly if every
      outbound of the rule has a provider in place, whatever the counters and the attempts are. */
  lemma {:induction false} PlansAreRouterMade(
    spec: RuleSpec, index: nat, outbounds: map<string, seq<string>>, counter: nat,
    known: Outbounds, requested: string, steps: seq<PlanStep>, attempts: nat -> Attempt)
    requires Resolve(spec.toTags, outbounds) != []
    requires spec.strategy.WeightedRoundRobin? ==> forall t | t in spec.toTags :: Weight(spec.weights, t) > 0
    requires BuiltFor(known, Compiled(spec, index, outbounds), Order(Compiled(spec, index, outbounds), counter), requested, steps)
    ensures Dispatching.RouterMade(Tried(steps, attempts)) <==>
            forall x | x in Resolve(spec.toTags, outbounds) :: x in known.providers
  {
    var rule := Compiled(spec, index, outbounds);
    var ordered := Order(rule, counter);
    BuiltPlansAreRouterMade(known, rule, ordered, requested, steps, attempts);
    PlansArePermutations(spec, outbounds, rule, counter);
    assert rule.resolved[0] in ordered;
    assert forall i | 0 <= i < |ordered| :: ordered[i] in rule.resolved;
    forall x | x in rule.resolved && AllInPlace(known, ordered)
      ensures x in known.providers
    {
      var i :| 0 <= i < |ordered| && ordered[i] == x;
    }
  }

  lemma {:induction false} RouterMadeIsRecordedOnce(tried: seq<Dispatching.Step>, stop: nat, report: Dispatching.Report)
    requires Dispatching.RouterMade(tried) && Dispatching.Ends(tried, stop, report)
    ensures |report.records| == 1 && (report.clientUsages != [] <==> report.records[0].error.None?)
  {
    Dispatching.RouterPlansEndOnce(tried, stop);
  }

  /** The outbound of step `i` may be asked: its provider is in place, it offers the routed model, and quota and health let
      the attempt through. */
  predicate MayBeAsked(known: Outbounds, routed: string, outbound: string, attempt: Attempt) {
    && outbound in known.providers && attempt.quotaAllows && attempt.healthAllows
    && (outbound in known.models ==> routed in known.models[outbound])
  }

  /** Only such outbounds are called, and each call ends as its attempt does. */
  ghost predicate AsksOnlyThose(known: Outbounds, rule: Rule, ordered: seq<string>, requested: string, attempts: nat -> Attempt, report: Dispatching.Report) {
    forall c | c in report.calls ::
      && c.step < |ordered|
      && MayBeAsked(known, ResolveModel(rule.modelMap, requested), ordered[c.step], attempts(c.step))
      && (c.error.None? <==> attempts(c.step).failure.None?)
  }

  lemma {:induction false} CallsAreAdmitted(
    known: Outbounds, rule: Rule, ordered: seq<string>, requested: string, steps: seq<PlanStep>, attempts: nat -> Attempt, stop: nat, report: Dispatching.Report)
    requires BuiltFor(known, rule, ordered, requested, steps) && Dispatching.Ends(Tried(steps, attempts), stop, report)
    ensures AsksOnlyThose(known, rule, ordered, requested, attempts, report)
  {
    var tried := Tried(steps, attempts);
    forall c | c in report.calls
      ensures c.step < |ordered|
      ensures MayBeAsked(known, ResolveModel(rule.modelMap, requested), ordered[c.step], attempts(c.step))
      ensures c.error.None? <==> attempts(c.step).failure.None?
    {
      assert Dispatching.IsCalled(tried[c.step]) && c == Dispatching.CallOf(tried, c.step);
    }
  }

  /** A request from the router through the dispatcher. Only outbounds that may be asked are
      called. Whatever the attempts bring, a planned request
      whose outbounds are in place leaves exactly one usage record, and the client is charged exactly if
      that record is a success. */
  method Serve(router: Router, known: Outbounds, request: Request, attempts: nat -> Attempt) returns (plan: Plan, report: Option<Dispatching.Report>)
    modifies router
    ensures (router.roundRobin, plan) == PlanFor(router.rules, old(router.roundRobin), request)
    ensures report.Some? <==> plan.Planned?
    ensures plan.Planned? ==> AsksOnlyThose(known, router.rules[plan.rule], plan.ordered, request.model, attempts, report.value)
    ensures plan.Planned? && plan.ordered != [] && AllInPlace(known, plan.ordered) ==>
              |report.value.records| == 1 && (report.value.clientUsages != [] <==> report.value.records[0].error.None?)
  {
    plan := router.MakePlan(request);
    if !plan.Planned? {
      return plan, None;
    }
    var rule := router.rules[plan.rule];
    var steps := BuildSteps(known, rule, plan.ordered, request.model);
    var done := Dispatching.Dispatch(Tried(steps, attempts));
    BuiltPlansAreRouterMade(known, rule, plan.ordered, request.model, steps, attempts);
    ghost var stop :| Dispatching.Ends(Tried(steps, attempts), stop, done);
    CallsAreAdmitted(known, rule, plan.ordered, request.model, steps, attempts, stop, done);
    if plan.ordered != [] && AllInPlace(known, plan.ordered) {
      RouterMadeIsRecordedOnce(Tried(steps, attempts), stop, done);
    }
    return plan, Some(done);
  }
}
