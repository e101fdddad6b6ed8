/**
 The order of a plan, told from the configuration: which outbound comes where under each strategy.
 */
module PlanOrders {
  import opened Routing

  /** The list starts with the outbounds of the first tag, as listed, and goes on with those of the next tags. */
  predicate ListsInOrder(list: seq<string>, toTags: seq<string>, outbounds: map<string, seq<string>>) {
    if toTags == [] then list == []
    else if toTags[0] !in outbounds then ListsInOrder(list, toTags[1..], outbounds)
    else outbounds[toTags[0]] <= list && ListsInOrder(list[|outbounds[toTags[0]]|..], toTags[1..], outbounds)
  }

  /** The same with the outbounds of each tag listed as many times in a row as the weight of the tag says;
      `listed` counts the times the first tag has been listed. */
  predicate ListsByWeight(list: seq<string>, toTags: seq<string>, weights: map<string, int>, outbounds: map<string, seq<string>>, listed: nat)
    decreases |toTags|, if toTags != [] && toTags[0] in weights then weights[toTags[0]] - listed else 0
  {
    if toTags == [] then list == []
    else if toTags[0] !in outbounds || toTags[0] !in weights || listed >= weights[toTags[0]]
    then ListsByWeight(list, toTags[1..], weights, outbounds, 0)
    else
      && outbounds[toTags[0]] <= list
      && ListsByWeight(list[|outbounds[toTags[0]]|..], toTags, weights, outbounds, listed + 1)
  }

  /** Walking the wheel from `start`, `x` comes up before step `k`. */
  predicate SeenBefore(wheel: seq<string>, start: nat, x: string, k: nat)
    requires wheel != []
  {
    exists j :: 0 <= j < k && At(wheel, start, j) == x
  }

  function At(wheel: seq<string>, start: nat, k: nat): string
    requires wheel != []
  {
    wheel[(start + k) % |wheel|]
  }

  /** The plan is the wheel read from `start`. */
  predicate ReadsWheel(plan: seq<string>, wheel: seq<string>, start: nat) {
    |plan| == |wheel| && forall k | 0 <= k < |plan| :: plan[k] == At(wheel, start, k)
  }

  /** Whenever an outbound comes up, those before it in the plan have come up already. */
  predicate InOrderOfFirstSight(plan: seq<string>, wheel: seq<string>, start: nat)
    requires wheel != []
  {
    forall p, q, k | 0 <= p < q < |plan| && 0 <= k < |wheel| && At(wheel, start, k) == plan[q] :: SeenBefore(wheel, start, plan[p], k)
  }

  // ----- lists -----

  lemma {:induction false} Regroup(a: seq<string>, b: seq<string>, c: seq<string>)
    ensures a + b + c == a + (b + c) && (a + (b + c))[|a|..] == b + c
  {
  }

  lemma {:induction false} ResolveFirst(toTags: seq<string>, outbounds: map<string, seq<string>>)
    requires toTags != []
    ensures Resolve(toTags, outbounds) == ByTag(outbounds, toTags[0]) + Resolve(toTags[1..], outbounds)
  {
    var n := |toTags| - 1;
    if n == 0 {
      assert toTags[..0] == [] && toTags[1..] == [];
    } else {
      ResolveFirst(toTags[..n], outbounds);
      assert toTags[..n][1..] == toTags[1..][..n - 1];
      Regroup(ByTag(outbounds, toTags[0]), Resolve(toTags[..n][1..], outbounds), ByTag(outbounds, toTags[n]));
    }
  }

  lemma {:induction false} ResolvedInOrder(toTags: seq<string>, outbounds: map<string, seq<string>>)
    ensures ListsInOrder(Resolve(toTags, outbounds), toTags, outbounds)
  {
    if toTags != [] {
      var first, rest := ByTag(outbounds, toTags[0]), Resolve(toTags[1..], outbounds);
      ResolveFirst(toTags, outbounds);
      ResolvedInOrder(toTags[1..], outbounds);
      assert (first + rest)[|first|..] == rest;
      assert [] + rest == rest;
    }
  }

  lemma {:induction false} ExpandFirst(toTags: seq<string>, weights: map<string, int>, outbounds: map<string, seq<string>>)
    requires toTags != []
    ensures Expand(toTags, weights, outbounds)
            == Repeat(ByTag(outbounds, toTags[0]), Weight(weights, toTags[0])) + Expand(toTags[1..], weights, outbounds)
  {
    var n := |toTags| - 1;
    if n == 0 {
      assert toTags[..0] == [] && toTags[1..] == [];
    } else {
      ExpandFirst(toTags[..n], weights, outbounds);
      assert toTags[..n][1..] == toTags[1..][..n - 1];
      Regroup(Repeat(ByTag(outbounds, toTags[0]), Weight(weights, toTags[0])), Expand(toTags[..n][1..], weights, outbounds),
              Repeat(ByTag(outbounds, toTags[n]), Weight(weights, toTags[n])));
    }
  }

  lemma {:induction false} RepeatFirst(values: seq<string>, n: int)
    requires n > 0
    ensures Repeat(values, n) == values + Repeat(values, n - 1)
    decreases n
  {
    if n > 1 {
      RepeatFirst(values, n - 1);
    }
  }

  /** What is left of the wheel when the first tag has been listed `listed` times. */
  lemma {:induction false} LeftByWeight(toTags: seq<string>, weights: map<string, int>, outbounds: map<string, seq<string>>, listed: nat)
    requires toTags != []
    ensures ListsByWeight(Repeat(ByTag(outbounds, toTags[0]), Weight(weights, toTags[0]) - listed) + Expand(toTags[1..], weights, outbounds),
                          toTags, weights, outbounds, listed)
    decreases |toTags|, 0, Weight(weights, toTags[0]) - listed
  {
    var left, rest := Weight(weights, toTags[0]) - listed, Expand(toTags[1..], weights, outbounds);
    if left > 0 && toTags[0] in outbounds {
      LeftByWeight(toTags, weights, outbounds, listed + 1);
      OneListingMore(toTags, weights, outbounds, listed, left, rest);
    } else {
      WheelByWeight(toTags[1..], weights, outbounds);
      NextTag(toTags, weights, outbounds, listed, rest);
    }
  }

  lemma {:induction false} NextTag(toTags: seq<string>, weights: map<string, int>, outbounds: map<string, seq<string>>, listed: nat, rest: seq<string>)
    requires toTags != [] && ListsByWeight(rest, toTags[1..], weights, outbounds, 0)
    requires Weight(weights, toTags[0]) <= listed || toTags[0] !in outbounds
    ensures ListsByWeight(Repeat(ByTag(outbounds, toTags[0]), Weight(weights, toTags[0]) - listed) + rest, toTags, weights, outbounds, listed)
  {
    RepeatNothing(ByTag(outbounds, toTags[0]), Weight(weights, toTags[0]) - listed);
    assert [] + rest == rest;
  }

  lemma {:induction false} OneListingMore(
    toTags: seq<string>, weights: map<string, int>, outbounds: map<string, seq<string>>, listed: nat, left: int, rest: seq<string>)
    requires toTags != [] && toTags[0] in outbounds && toTags[0] in weights && left == weights[toTags[0]] - listed > 0
    requires ListsByWeight(Repeat(outbounds[toTags[0]], left - 1) + rest, toTags, weights, outbounds, listed + 1)
    ensures ListsByWeight(Repeat(outbounds[toTags[0]], left) + rest, toTags, weights, outbounds, listed)
  {
    var first := outbounds[toTags[0]];
    RepeatFirst(first, left);
    Regroup(first, Repeat(first, left - 1), rest);
  }

  lemma {:induction false} RepeatNothing(values: seq<string>, n: int)
    requires n <= 0 || values == []
    ensures Repeat(values, n) == []
    decreases n
  {
    if n > 0 {
      RepeatNothing(values, n - 1);
    }
  }

  lemma {:induction false} WheelByWeight(toTags: seq<string>, weights: map<string, int>, outbounds: map<string, seq<string>>)
    ensures ListsByWeight(Expand(toTags, weights, outbounds), toTags, weights, outbounds, 0)
    decreases |toTags|, 1, 0
  {
    if toTags != [] {
      ExpandFirst(toTags, weights, outbounds);
      LeftByWeight(toTags, weights, outbounds, 0);
    }
  }

  // ----- rotation and first sight -----

  lemma {:induction false} RotateReads(values: seq<string>, index: nat)
    requires values != []
    ensures ReadsWheel(Rotate(values, index), values, index)
  {
    var size := |values|;
    var a, q := index % size, index / size;
    assert index == q * size + a;
    var rotated := Rotate(values, index);
    forall k | 0 <= k < size
      ensures rotated[k] == At(values, index, k)
    {
      if a + k < size {
        ModOf(index + k, q, a + k, size);
      } else {
        OneMore(q + 1, size);
        ModOf(index + k, q + 1, a + k - size, size);
      }
    }
  }

  /** In a list without its repetitions, order is order of first occurrence. */
  lemma {:induction false} DedupeByFirstSight(values: seq<string>, p: nat, q: nat, k: nat)
    requires p < q < |Dedupe(values)| && k < |values| && values[k] == Dedupe(values)[q]
    ensures exists j :: 0 <= j < k && values[j] == Dedupe(values)[p]
  {
    var n := |values| - 1;
    var front := Dedupe(values[..n]);
    DedupeKeepsEachOnce(values[..n]);
    if q < |front| {
      assert front[q] in values[..n];
      var k' := if k < n then k else FirstIndex(values[..n], front[q]);
      DedupeByFirstSight(values[..n], p, q, k');
      var j :| 0 <= j < k' && values[..n][j] == front[p];
      assert values[j] == Dedupe(values)[p];
    } else {
      assert front[p] in front;
      NewComesLast(values, front[p], k);
    }
  }

  lemma {:induction false} NewComesLast(values: seq<string>, x: string, k: nat)
    requires values != [] && k < |values| && values[k] == values[|values| - 1] && values[|values| - 1] !in values[..|values| - 1]
    requires x in values[..|values| - 1]
    ensures exists j :: 0 <= j < k && values[j] == x
  {
    var n := |values| - 1;
    assert forall i | 0 <= i < n :: values[..n][i] == values[i] && values[i] in values[..n];
    var j :| 0 <= j < n && values[..n][j] == x;
    assert k == n && values[j] == x;
  }

  function FirstIndex(values: seq<string>, x: string): (i: nat)
    requires x in values
    ensures i < |values| && values[i] == x
  {
    if values[0] == x then 0 else 1 + FirstIndex(values[1..], x)
  }

  lemma {:induction false} WeightedInOrder(wheel: seq<string>, start: nat)
    requires wheel != []
    ensures InOrderOfFirstSight(Dedupe(Rotate(wheel, start)), wheel, start)
  {
    var rotated := Rotate(wheel, start);
    var plan := Dedupe(rotated);
    RotateReads(wheel, start);
    forall p, q, k | 0 <= p < q < |plan| && 0 <= k < |wheel| && At(wheel, start, k) == plan[q]
      ensures SeenBefore(wheel, start, plan[p], k)
    {
      DedupeByFirstSight(rotated, p, q, k);
      var j :| 0 <= j < k && rotated[j] == plan[p];
      assert At(wheel, start, j) == plan[p];
    }
  }

  // ----- plans -----

  /** The order a strategy gives, from `start` on. */
  ghost predicate FollowsStrategy(spec: RuleSpec, outbounds: map<string, seq<string>>, start: nat, plan: seq<string>) {
    match spec.strategy
    case Failover => ListsInOrder(plan, spec.toTags, outbounds)
    case RoundRobin => exists listed :: ListsInOrder(listed, spec.toTags, outbounds) && ReadsWheel(plan, listed, start)
    case WeightedRoundRobin =>
      exists wheel ::
        && ListsByWeight(wheel, spec.toTags, spec.weights, outbounds, 0)
        && PicksFrom(wheel, start, plan)
  }

  /** The plan holds what is on the wheel, once each, in order of first sight. */
  ghost predicate PicksFrom(wheel: seq<string>, start: nat, plan: seq<string>) {
    if wheel == [] then plan == []
    else Distinct(plan) && (forall x :: x in plan <==> x in wheel) && InOrderOfFirstSight(plan, wheel, start)
  }

  lemma {:induction false} OrderFollowsStrategy(spec: RuleSpec, index: nat, outbounds: map<string, seq<string>>, start: nat)
    ensures FollowsStrategy(spec, outbounds, start, Order(Compiled(spec, index, outbounds), start))
  {
    match spec.strategy
    case Failover => ResolvedInOrder(spec.toTags, outbounds);
    case RoundRobin =>
      ResolvedInOrder(spec.toTags, outbounds);
      TurnedOrder(Resolve(spec.toTags, outbounds), start);
    case WeightedRoundRobin =>
      WheelByWeight(spec.toTags, spec.weights, outbounds);
      WeightedOrder(Expand(spec.toTags, spec.weights, outbounds), start);
  }

  lemma {:induction false} TurnedOrder(listed: seq<string>, start: nat)
    ensures ReadsWheel(Rotate(listed, start), listed, start)
  {
    if listed != [] {
      RotateReads(listed, start);
    }
  }

  lemma {:induction false} WeightedOrder(wheel: seq<string>, start: nat)
    ensures PicksFrom(wheel, start, Dedupe(Rotate(wheel, start)))
  {
    if wheel != [] {
      var rotated := Rotate(wheel, start);
      DedupeKeepsEachOnce(rotated);
      WeightedInOrder(wheel, start);
      forall x
        ensures x in rotated <==> x in wheel
      {
        assert x in rotated <==> x in multiset(rotated);
        assert x in wheel <==> x in multiset(wheel);
      }
    }
  }

  /** Main result: the plan of a request is that of the first rule that matches it. A failover plan and every dry
      run start at the front of the configured order; a real (weighted) round-robin plan starts where the counter of
      its rule stands. */
  lemma {:induction false} PlansFollowTheStrategy(spec: RuleSpec, outbounds: map<string, seq<string>>, rules: seq<Rule>, counters: map<string, nat>, request: Request)
    requires var i := FirstMatch(rules, request);
             i < |rules| && rules[i] == Compiled(spec, i, outbounds) && rules[i].resolved != []
    ensures var i, plan := FirstMatch(rules, request), PlanFor(rules, counters, request).1;
            && plan.Planned? && plan.rule == i
            && FollowsStrategy(spec, outbounds, if request.mutate && rules[i].name in counters then counters[rules[i].name] else 0, plan.ordered)
  {
    var i := FirstMatch(rules, request);
    OrderFollowsStrategy(spec, i, outbounds, if request.mutate then Counter(counters, rules[i].name) else 0);
  }
}
