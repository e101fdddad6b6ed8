/**
 The router: which rule serves a request, in which order it offers its outbounds, and
 the fairness of (weighted) round robin over whole runs.
 */
module Routing {
  import opened Money
  import opened Wildcards

  datatype Strategy = Failover | RoundRobin | WeightedRoundRobin

  datatype RuleSpec = RuleSpec(
    name: string,
    fromTags: seq<string>,
    hasModelMatch: bool,
    models: seq<string>,
    toTags: seq<string>,
    strategy: Strategy,
    weights: map<string, int>,
    targetModel: string,
    modelMap: map<string, string>)

  datatype Rule = Rule(
    name: string,
    fromTags: seq<string>,
    hasModelMatch: bool,
    models: seq<string>,
    strategy: Strategy,
    modelMap: map<string, string>,
    resolved: seq<string>,
    weighted: seq<string>)

  datatype Request = Request(tag: string, model: string, mutate: bool)

  datatype Plan =
    | NoRuleMatched
    | NoEnabledOutbounds(rule: nat)
    | Planned(rule: nat, ordered: seq<string>)

  // ----- compiling rules -----

  function ByTag(outbounds: map<string, seq<string>>, tag: string): seq<string> {
    if tag in outbounds then outbounds[tag] else []
  }

  function Weight(weights: map<string, int>, tag: string): int {
    if tag in weights then weights[tag] else 0
  }

  function Repeat(values: seq<string>, n: int): seq<string>
    decreases n
  {
    if n <= 0 then [] else Repeat(values, n - 1) + values
  }

  function Expand(toTags: seq<string>, weights: map<string, int>, outbounds: map<string, seq<string>>): seq<string> {
    if toTags == [] then []
    else
      var n := |toTags| - 1;
      Expand(toTags[..n], weights, outbounds) + Repeat(ByTag(outbounds, toTags[n]), Weight(weights, toTags[n]))
  }

  function Resolve(toTags: seq<string>, outbounds: map<string, seq<string>>): seq<string> {
    if toTags == [] then []
    else Resolve(toTags[..|toTags| - 1], outbounds) + ByTag(outbounds, toTags[|toTags| - 1])
  }

  /** How often the weights of a rule ask for an outbound. */
  function Share(toTags: seq<string>, weights: map<string, int>, outbounds: map<string, seq<string>>, outbound: string): int {
    if toTags == [] then 0
    else
      var n := |toTags| - 1;
      var weight := Weight(weights, toTags[n]);
      Share(toTags[..n], weights, outbounds, outbound) +
      (if weight > 0 then weight else 0) * multiset(ByTag(outbounds, toTags[n]))[outbound]
  }

  method ExpandWeighted(toTags: seq<string>, weights: map<string, int>, outbounds: map<string, seq<string>>) returns (weighted: seq<string>)
    ensures weighted == Expand(toTags, weights, outbounds)
  {
    weighted := [];
    for t := 0 to |toTags|
      invariant weighted == Expand(toTags[..t], weights, outbounds)
    {
      assert toTags[..t + 1][..t] == toTags[..t];
      var members := ByTag(outbounds, toTags[t]);
      var i := 0;
      ghost var before := weighted;
      assert before + [] == before;
      while i < Weight(weights, toTags[t])
        invariant i >= 0 && (i <= Weight(weights, toTags[t]) || i == 0)
        invariant weighted == before + Repeat(members, i)
      {
        assert before + (Repeat(members, i) + members) == before + Repeat(members, i) + members;
        weighted := weighted + members;
        i := i + 1;
      }
    }
    assert toTags[..|toTags|] == toTags;
  }

  /** A rule without a name is named by its position. */
  function RuleName(spec: RuleSpec, index: nat): string {
    if spec.name != "" then spec.name else "rule-" + Decimal(index)
  }

  /** A target model stands for a map that sends every model to it. */
  function CompiledModelMap(spec: RuleSpec): map<string, string> {
    if spec.targetModel != "" then map["*" := spec.targetModel] else spec.modelMap
  }

  /** The compiled form of a rule at a position of the configuration. */
  function Compiled(spec: RuleSpec, index: nat, outbounds: map<string, seq<string>>): Rule {
    Rule(RuleName(spec, index), spec.fromTags, spec.hasModelMatch, spec.models, spec.strategy, CompiledModelMap(spec),
         Resolve(spec.toTags, outbounds),
         if spec.strategy.WeightedRoundRobin? then Expand(spec.toTags, spec.weights, outbounds)
         else Resolve(spec.toTags, outbounds))
  }

  method CompileRule(spec: RuleSpec, index: nat, outbounds: map<string, seq<string>>) returns (rule: Rule)
    ensures rule == Compiled(spec, index, outbounds)
  {
    var name := spec.name;
    if name == "" {
      name := "rule-" + Decimal(index);
    }
    var resolved := [];
    for t := 0 to |spec.toTags|
      invariant resolved == Resolve(spec.toTags[..t], outbounds)
    {
      assert spec.toTags[..t + 1][..t] == spec.toTags[..t];
      resolved := resolved + ByTag(outbounds, spec.toTags[t]);
    }
    assert spec.toTags[..|spec.toTags|] == spec.toTags;
    var weighted := resolved;
    if spec.strategy.WeightedRoundRobin? {
      weighted := ExpandWeighted(spec.toTags, spec.weights, outbounds);
    }
    rule := Rule(name, spec.fromTags, spec.hasModelMatch, spec.models, spec.strategy, CompiledModelMap(spec), resolved, weighted);
  }

  /** Rules named by their positions never share a counter. */
  lemma {:induction false} DefaultNamesDiffer(i: nat, j: nat)
    requires i != j
    ensures "rule-" + Decimal(i) != "rule-" + Decimal(j)
  {
    DecimalDenotes(i);
    DecimalDenotes(j);
    assert ("rule-" + Decimal(i))[5..] == Decimal(i) && ("rule-" + Decimal(j))[5..] == Decimal(j);
  }

  lemma {:induction false} RepeatCounts(values: seq<string>, n: int, x: string)
    ensures multiset(Repeat(values, n))[x] == (if n > 0 then n else 0) * multiset(values)[x]
    decreases n
  {
    if n > 0 {
      RepeatCounts(values, n - 1, x);
      OneMore(n, multiset(values)[x]);
    }
  }

  lemma {:induction false} OneMore(n: int, m: int)
    ensures (n - 1) * m + m == n * m
  {
  }

  /** The expansion holds every outbound exactly as often as the weights ask for it. */
  lemma {:induction false} ExpandCounts(toTags: seq<string>, weights: map<string, int>, outbounds: map<string, seq<string>>, x: string)
    ensures multiset(Expand(toTags, weights, outbounds))[x] == Share(toTags, weights, outbounds, x)
  {
    if toTags != [] {
      var n := |toTags| - 1;
      ExpandCounts(toTags[..n], weights, outbounds, x);
      RepeatCounts(ByTag(outbounds, toTags[n]), Weight(weights, toTags[n]), x);
    }
  }

  /** With positive weights, as validation demands, the expansion mentions exactly the resolved outbounds. */
  lemma {:induction false} ExpandCoversResolved(toTags: seq<string>, weights: map<string, int>, outbounds: map<string, seq<string>>, x: string)
    requires forall t | t in toTags :: Weight(weights, t) > 0
    ensures x in Expand(toTags, weights, outbounds) <==> x in Resolve(toTags, outbounds)
  {
    if toTags != [] {
      var n := |toTags| - 1;
      ExpandCoversResolved(toTags[..n], weights, outbounds, x);
      var members, weight := ByTag(outbounds, toTags[n]), Weight(weights, toTags[n]);
      RepeatCounts(members, weight, x);
      assert x in Repeat(members, weight) <==> x in multiset(Repeat(members, weight));
      assert x in members <==> x in multiset(members);
      assert weight * multiset(members)[x] > 0 <==> multiset(members)[x] > 0;
    }
  }

  // ----- rotation and de-duplication -----

  function Rotate(values: seq<string>, index: nat): (r: seq<string>)
    ensures |r| == |values|
    ensures values != [] ==> r[0] == values[index % |values|]
    ensures multiset(r) == multiset(values)
  {
    if values == [] || index % |values| == 0 then values
    else
      var i := index % |values|;
      assert values == values[..i] + values[i..];
      values[i..] + values[..i]
  }

  lemma {:induction false} ModOf(m: int, q: int, r: int, size: int)
    requires size > 0 && m == q * size + r && 0 <= r < size
    ensures m % size == r
  {
    var q', r' := m / size, m % size;
    assert m == q' * size + r';
    assert (q - q') * size == r' - r;
    if q > q' {
      AtLeastOnce(q - q', size);
    } else if q < q' {
      AtLeastOnce(q' - q, size);
    }
  }

  lemma {:induction false} AtLeastOnce(d: int, size: int)
    requires d >= 1 && size > 0
    ensures d * size >= size
  {
    assert (d - 1) * size >= 0;
  }

  lemma {:induction false} RotateReduced(values: seq<string>, index: nat)
    requires values != []
    ensures Rotate(values, index % |values|) == Rotate(values, index)
  {
    ModOf(index % |values|, 0, index % |values|, |values|);
  }

  function Dedupe(values: seq<string>): seq<string> {
    if values == [] then []
    else
      var n := |values| - 1;
      Dedupe(values[..n]) + if values[n] in values[..n] then [] else [values[n]]
  }

  predicate Distinct(values: seq<string>) {
    forall i, j | 0 <= i < j < |values| :: values[i] != values[j]
  }

  lemma {:induction false} DedupeKeepsEachOnce(values: seq<string>)
    ensures Distinct(Dedupe(values))
    ensures forall x :: x in Dedupe(values) <==> x in values
    ensures values != [] ==> Dedupe(values) != [] && Dedupe(values)[0] == values[0]
  {
    if values != [] {
      var n := |values| - 1;
      DedupeKeepsEachOnce(values[..n]);
      OneMoreValue(values[..n], Dedupe(values[..n]), values[n]);
      assert values == values[..n] + [values[n]];
    }
  }

  lemma {:induction false} OneMoreValue(values: seq<string>, kept: seq<string>, x: string)
    requires Distinct(kept) && (forall y :: y in kept <==> y in values)
    requires values != [] ==> kept != [] && kept[0] == values[0]
    ensures var grown := kept + if x in values then [] else [x];
            && Distinct(grown) && (forall y :: y in grown <==> y in values + [x])
            && grown != [] && grown[0] == (values + [x])[0]
  {
    if x in values {
      assert kept + [] == kept;
    } else {
      assert forall i | 0 <= i < |kept| :: kept[i] in kept;
      assert values == [] ==> kept == [] by {
        if kept != [] { assert kept[0] in kept; }
      }
    }
  }

  method DedupePreserveOrder(values: seq<string>) returns (ordered: seq<string>)
    ensures ordered == Dedupe(values)
  {
    var seen := {};
    ordered := [];
    for i := 0 to |values|
      invariant ordered == Dedupe(values[..i])
      invariant forall x :: x in seen <==> x in values[..i]
    {
      assert values[..i + 1][..i] == values[..i];
      if values[i] !in seen {
        seen := seen + {values[i]};
        ordered := ordered + [values[i]];
      }
    }
    assert values[..|values|] == values;
  }

  // ----- one plan -----

  ghost predicate RuleMatches(rule: Rule, request: Request) {
    && request.tag in rule.fromTags
    && (rule.hasModelMatch ==> exists p :: p in rule.models && (p == "" || Glob(p, request.model)))
  }

  /** The first rule that matches, or the number of rules. */
  ghost function FirstMatch(rules: seq<Rule>, request: Request): (i: nat)
    ensures i <= |rules|
    ensures i < |rules| ==> RuleMatches(rules[i], request)
    ensures forall j | 0 <= j < i :: !RuleMatches(rules[j], request)
  {
    if rules == [] then 0
    else if RuleMatches(rules[0], request) then 0
    else
      assert forall j | 0 <= j < |rules| - 1 :: rules[1..][j] == rules[j + 1];
      1 + FirstMatch(rules[1..], request)
  }

  function Counter(counters: map<string, nat>, key: string): nat {
    if key in counters then counters[key] else 0
  }

  /** The list a rule turns as a wheel; a failover rule has none. */
  function Wheel(rule: Rule): seq<string> {
    match rule.strategy
    case Failover => []
    case RoundRobin => rule.resolved
    case WeightedRoundRobin => rule.weighted
  }

  function Order(rule: Rule, index: nat): seq<string> {
    match rule.strategy
    case Failover => rule.resolved
    case RoundRobin => Rotate(rule.resolved, index)
    case WeightedRoundRobin => Dedupe(Rotate(rule.weighted, index))
  }

  function Advance(counters: map<string, nat>, rule: Rule): map<string, nat> {
    var size := |Wheel(rule)|;
    if size == 0 then counters
    else counters[rule.name := (Counter(counters, rule.name) % size + 1) % size]
  }

  ghost function PlanFor(rules: seq<Rule>, counters: map<string, nat>, request: Request): (map<string, nat>, Plan) {
    var i := FirstMatch(rules, request);
    if i == |rules| then (counters, NoRuleMatched)
    else if rules[i].resolved == [] then (counters, NoEnabledOutbounds(i))
    else if request.mutate then (Advance(counters, rules[i]), Planned(i, Order(rules[i], Counter(counters, rules[i].name))))
    else (counters, Planned(i, Order(rules[i], 0)))
  }

  class Router {
    const rules: seq<Rule>
    var roundRobin: map<string, nat>

    constructor (rules: seq<Rule>)
      ensures this.rules == rules && roundRobin == map[]
    {
      this.rules := rules;
      roundRobin := map[];
    }

    method MatchesModel(rule: Rule, model: string) returns (matched: bool)
      ensures matched <==> (rule.hasModelMatch ==> exists p :: p in rule.models && (p == "" || Glob(p, model)))
    {
      if !rule.hasModelMatch {
        return true;
      }
      for i := 0 to |rule.models|
        invariant forall j | 0 <= j < i :: !(rule.models[j] == "" || Glob(rule.models[j], model))
      {
        var hit := PatternMatches(rule.models[i], model);
        if hit {
          assert rule.models[i] in rule.models;
          return true;
        }
      }
      return false;
    }

    method NextRoundRobinIndex(key: string, size: nat) returns (index: nat)
      modifies this
      ensures size == 0 ==> index == 0 && roundRobin == old(roundRobin)
      ensures size > 0 ==>
                index == Counter(old(roundRobin), key) % size
                && roundRobin == old(roundRobin)[key := (Counter(old(roundRobin), key) % size + 1) % size]
    {
      if size == 0 {
        return 0;
      }
      index := Counter(roundRobin, key) % size;
      roundRobin := roundRobin[key := (index + 1) % size];
    }

    method OrderOutbounds(rule: Rule, mutate: bool) returns (ordered: seq<string>)
      modifies this
      ensures mutate ==> roundRobin == Advance(old(roundRobin), rule) && ordered == Order(rule, Counter(old(roundRobin), rule.name))
      ensures !mutate ==> roundRobin == old(roundRobin) && ordered == Order(rule, 0)
    {
      ordered := rule.resolved;
      match rule.strategy {
        case Failover =>
        case RoundRobin =>
          if mutate {
            var index := NextRoundRobinIndex(rule.name, |ordered|);
            if |ordered| > 0 { RotateReduced(ordered, Counter(old(roundRobin), rule.name)); }
            ordered := Rotate(ordered, index);
          }
        case WeightedRoundRobin =>
          var weighted := rule.weighted;
          if mutate {
            var index := NextRoundRobinIndex(rule.name, |weighted|);
            if |weighted| > 0 { RotateReduced(weighted, Counter(old(roundRobin), rule.name)); }
            weighted := Rotate(weighted, index);
          }
          ordered := DedupePreserveOrder(weighted);
      }
    }

    method MakePlan(request: Request) returns (plan: Plan)
      modifies this
      ensures (roundRobin, plan) == PlanFor(rules, old(roundRobin), request)
    {
      for i := 0 to |rules|
        invariant roundRobin == old(roundRobin)
        invariant forall j | 0 <= j < i :: !RuleMatches(rules[j], request)
      {
        var rule := rules[i];
        if request.tag in rule.fromTags {
          var matched := MatchesModel(rule, request.model);
          if matched {
            assert FirstMatch(rules, request) == i;
            if |rule.resolved| == 0 {
              return NoEnabledOutbounds(i);
            }
            var ordered := OrderOutbounds(rule, request.mutate);
            return Planned(i, ordered);
          }
        }
      }
      return NoRuleMatched;
    }
  }

  // ----- runs -----

  ghost function Counters(rules: seq<Rule>, counters: map<string, nat>, requests: seq<Request>): map<string, nat> {
    if requests == [] then counters
    else
      var n := |requests| - 1;
      PlanFor(rules, Counters(rules, counters, requests[..n]), requests[n]).0
  }

  /** The first outbound of every real plan that rule `r` served in a run, in order. */
  ghost function Firsts(rules: seq<Rule>, counters: map<string, nat>, requests: seq<Request>, r: nat): seq<string> {
    if requests == [] then []
    else
      var n := |requests| - 1;
      Firsts(rules, counters, requests[..n], r) + FirstOf(rules, Counters(rules, counters, requests[..n]), requests[n], r)
  }

  predicate UniqueNames(rules: seq<Rule>) {
    forall i, j | 0 <= i < j < |rules| :: rules[i].name != rules[j].name
  }

  lemma {:induction false} StepOfWheel(c: nat, k: nat, size: nat)
    requires size > 0
    ensures ((c + k) % size + 1) % size == (c + k + 1) % size
  {
    WheelStep(c + k, (c + k) / size, (c + k) % size, size);
  }

  lemma {:induction false} WheelStep(m: int, q: int, r: int, size: int)
    requires size > 0 && m == q * size + r && 0 <= r < size
    ensures (r + 1) % size == (m + 1) % size
  {
    if r + 1 == size {
      OneMore(q + 1, size);
      ModOf(m + 1, q + 1, 0, size);
      ModOf(r + 1, 1, 0, size);
    } else {
      ModOf(m + 1, q, r + 1, size);
      ModOf(r + 1, 0, r + 1, size);
    }
  }

  lemma {:induction false} OrderStartsAtTheCounter(rule: Rule, index: nat)
    requires Wheel(rule) != []
    ensures Order(rule, index) != []
    ensures Order(rule, index)[0] == Wheel(rule)[index % |Wheel(rule)|]
  {
    if rule.strategy.WeightedRoundRobin? {
      DedupeKeepsEachOnce(Rotate(rule.weighted, index));
    }
  }

  /** `count` plans into a run, the wheel of a rule that started at `start` stands here. */
  ghost predicate Turned(rule: Rule, start: nat, firsts: seq<string>, counter: nat)
    requires Wheel(rule) != []
  {
    var size := |Wheel(rule)|;
    && counter % size == (start + |firsts|) % size
    && forall k | 0 <= k < |firsts| :: firsts[k] == Wheel(rule)[(start + k) % size]
  }

  lemma {:induction false} TurnOnce(rule: Rule, start: nat, firsts: seq<string>, counter: nat)
    requires Wheel(rule) != [] && Turned(rule, start, firsts, counter)
    ensures var size := |Wheel(rule)|;
            Order(rule, counter) != []
            && Turned(rule, start, firsts + [Order(rule, counter)[0]], (counter % size + 1) % size)
  {
    var size := |Wheel(rule)|;
    OrderStartsAtTheCounter(rule, counter);
    StepOfWheel(start, |firsts|, size);
    var next := (start + |firsts| + 1) % size;
    assert next % size == next by { ModOf(next, 0, next, size); }
  }

  /** What one request adds to the first outbounds served by rule `r`. */
  ghost function FirstOf(rules: seq<Rule>, counters: map<string, nat>, request: Request, r: nat): seq<string> {
    var plan := PlanFor(rules, counters, request).1;
    if request.mutate && plan.Planned? && plan.rule == r && plan.ordered != [] then [plan.ordered[0]] else []
  }

  lemma {:induction false} StepTurns(rules: seq<Rule>, now: map<string, nat>, request: Request, r: nat, start: nat, firsts: seq<string>)
    requires UniqueNames(rules) && r < |rules| && Wheel(rules[r]) != [] && rules[r].resolved != []
    requires Turned(rules[r], start, firsts, Counter(now, rules[r].name))
    ensures Turned(rules[r], start, firsts + FirstOf(rules, now, request, r), Counter(PlanFor(rules, now, request).0, rules[r].name))
  {
    var i, rule := FirstMatch(rules, request), rules[r];
    if i == r && request.mutate {
      TurnOnce(rule, start, firsts, Counter(now, rule.name));
    } else {
      assert firsts + FirstOf(rules, now, request, r) == firsts;
      if i < |rules| && i != r {
        assert rules[i].name != rule.name;
        assert Counter(Advance(now, rules[i]), rule.name) == Counter(now, rule.name);
      }
    }
  }

  /** Over any run, with any other requests in between, the k-th real plan of a rule starts one
      wheel position after the one before it. */
  lemma {:induction false} WheelTurns(rules: seq<Rule>, counters: map<string, nat>, requests: seq<Request>, r: nat)
    requires UniqueNames(rules) && r < |rules| && Wheel(rules[r]) != [] && rules[r].resolved != []
    ensures Turned(rules[r], Counter(counters, rules[r].name), Firsts(rules, counters, requests, r),
                   Counter(Counters(rules, counters, requests), rules[r].name))
  {
    if requests != [] {
      var n := |requests| - 1;
      WheelTurns(rules, counters, requests[..n], r);
      StepTurns(rules, Counters(rules, counters, requests[..n]), requests[n], r,
                Counter(counters, rules[r].name), Firsts(rules, counters, requests[..n], r));
    }
  }

  /** One full turn of a wheel visits every position once. */
  lemma {:induction false} FullTurn(wheel: seq<string>, turn: seq<string>, start: nat)
    requires wheel != [] && |turn| == |wheel|
    requires forall k | 0 <= k < |turn| :: turn[k] == wheel[(start + k) % |wheel|]
    ensures multiset(turn) == multiset(wheel)
  {
    var size := |wheel|;
    var a, q := start % size, start / size;
    assert start == q * size + a;
    var rotated := wheel[a..] + wheel[..a];
    forall k | 0 <= k < size
      ensures turn[k] == rotated[k]
    {
      if a + k < size {
        ModOf(start + k, q, a + k, size);
      } else {
        assert start + k == (q + 1) * size + (a + k - size);
        ModOf(start + k, q + 1, a + k - size, size);
      }
    }
    assert turn == rotated;
    assert wheel == wheel[..a] + wheel[a..];
  }

  /** Main result: over any W consecutive real plans of a rule (W is the length of its wheel), each
      outbound is offered first exactly as often as it occurs on the wheel. */
  lemma {:induction false} RoundRobinIsFair(rules: seq<Rule>, counters: map<string, nat>, requests: seq<Request>, r: nat, from: nat)
    requires UniqueNames(rules) && r < |rules| && Wheel(rules[r]) != [] && rules[r].resolved != []
    requires from + |Wheel(rules[r])| <= |Firsts(rules, counters, requests, r)|
    ensures multiset(Firsts(rules, counters, requests, r)[from..from + |Wheel(rules[r])|]) == multiset(Wheel(rules[r]))
  {
    WheelTurns(rules, counters, requests, r);
    TurnFrom(rules[r], Counter(counters, rules[r].name), Firsts(rules, counters, requests, r),
             Counter(Counters(rules, counters, requests), rules[r].name), from);
  }

  lemma {:induction false} TurnFrom(rule: Rule, start: nat, firsts: seq<string>, counter: nat, from: nat)
    requires Wheel(rule) != [] && Turned(rule, start, firsts, counter) && from + |Wheel(rule)| <= |firsts|
    ensures multiset(firsts[from..from + |Wheel(rule)|]) == multiset(Wheel(rule))
  {
    var turn := firsts[from..from + |Wheel(rule)|];
    assert forall k | 0 <= k < |turn| :: turn[k] == firsts[from + k];
    FullTurn(Wheel(rule), turn, start + from);
  }

  /** For a compiled weighted rule: each outbound comes first exactly as often as its weights say. */
  lemma {:induction false} WeightsAreHonoured(
    rules: seq<Rule>, counters: map<string, nat>, requests: seq<Request>, r: nat, from: nat,
    spec: RuleSpec, outbounds: map<string, seq<string>>, outbound: string)
    requires UniqueNames(rules) && r < |rules| && rules[r].strategy == WeightedRoundRobin
    requires rules[r].resolved != [] && rules[r].weighted != []
    requires rules[r].weighted == Expand(spec.toTags, spec.weights, outbounds)
    requires from + |rules[r].weighted| <= |Firsts(rules, counters, requests, r)|
    ensures multiset(Firsts(rules, counters, requests, r)[from..from + |rules[r].weighted|])[outbound]
            == Share(spec.toTags, spec.weights, outbounds, outbound)
  {
    WheelTurns(rules, counters, requests, r);
    SharesFrom(rules[r], Counter(counters, rules[r].name), Firsts(rules, counters, requests, r),
               Counter(Counters(rules, counters, requests), rules[r].name), from, spec, outbounds, outbound);
  }

  lemma {:induction false} SharesFrom(
    rule: Rule, start: nat, firsts: seq<string>, counter: nat, from: nat,
    spec: RuleSpec, outbounds: map<string, seq<string>>, outbound: string)
    requires rule.strategy == WeightedRoundRobin && rule.weighted != [] && Turned(rule, start, firsts, counter)
    requires rule.weighted == Expand(spec.toTags, spec.weights, outbounds) && from + |rule.weighted| <= |firsts|
    ensures multiset(firsts[from..from + |rule.weighted|])[outbound] == Share(spec.toTags, spec.weights, outbounds, outbound)
  {
    TurnFrom(rule, start, firsts, counter, from);
    SharesOfTurn(firsts[from..from + |rule.weighted|], rule.weighted, spec, outbounds, outbound);
  }

  lemma {:induction false} SharesOfTurn(turn: seq<string>, weighted: seq<string>, spec: RuleSpec, outbounds: map<string, seq<string>>, outbound: string)
    requires multiset(turn) == multiset(weighted) && weighted == Expand(spec.toTags, spec.weights, outbounds)
    ensures multiset(turn)[outbound] == Share(spec.toTags, spec.weights, outbounds, outbound)
  {
    ExpandCounts(spec.toTags, spec.weights, outbounds, outbound);
  }

  /** Every plan of a compiled rule offers each of its outbounds; a weighted plan offers it once. */
  lemma {:induction false} PlansArePermutations(spec: RuleSpec, outbounds: map<string, seq<string>>, rule: Rule, index: nat)
    requires rule.strategy == spec.strategy && rule.resolved == Resolve(spec.toTags, outbounds)
    requires spec.strategy.WeightedRoundRobin? ==> rule.weighted == Expand(spec.toTags, spec.weights, outbounds)
    requires spec.strategy.WeightedRoundRobin? ==> forall t | t in spec.toTags :: Weight(spec.weights, t) > 0
    ensures forall x :: x in Order(rule, index) <==> x in rule.resolved
    ensures spec.strategy.WeightedRoundRobin? ==> Distinct(Order(rule, index))
    ensures !spec.strategy.WeightedRoundRobin? ==> multiset(Order(rule, index)) == multiset(rule.resolved)
  {
    if spec.strategy.WeightedRoundRobin? {
      var rotated := Rotate(rule.weighted, index);
      DedupeKeepsEachOnce(rotated);
      forall x
        ensures x in Order(rule, index) <==> x in rule.resolved
      {
        ExpandCoversResolved(spec.toTags, spec.weights, outbounds, x);
        assert x in rotated <==> x in multiset(rotated);
        assert x in rule.weighted <==> x in multiset(rule.weighted);
      }
    } else {
      forall x
        ensures x in Order(rule, index) <==> x in rule.resolved
      {
        assert x in Order(rule, index) <==> x in multiset(Order(rule, index));
        assert x in rule.resolved <==> x in multiset(rule.resolved);
      }
    }
  }

  /** Dry runs change no counter, so they leave every later plan as it was. */
  lemma {:induction false} DryRunsAreInvisible(rules: seq<Rule>, counters: map<string, nat>, requests: seq<Request>)
    ensures Counters(rules, counters, requests) == Counters(rules, counters, RealOnly(requests))
  {
    if requests != [] {
      var n := |requests| - 1;
      DryRunsAreInvisible(rules, counters, requests[..n]);
      if requests[n].mutate {
        AppendRequest(rules, counters, RealOnly(requests[..n]), requests[n]);
      } else {
        assert RealOnly(requests) == RealOnly(requests[..n]);
      }
    }
  }

  lemma {:induction false} AppendRequest(rules: seq<Rule>, counters: map<string, nat>, requests: seq<Request>, request: Request)
    ensures Counters(rules, counters, requests + [request]) == PlanFor(rules, Counters(rules, counters, requests), request).0
  {
    assert (requests + [request])[..|requests|] == requests;
  }

  function RealOnly(requests: seq<Request>): seq<Request> {
    if requests == [] then []
    else RealOnly(requests[..|requests| - 1]) + if requests[|requests| - 1].mutate then [requests[|requests| - 1]] else []
  }
}
