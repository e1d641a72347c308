/**
 Replayed usage notifications: prices are erased before storing and written again on delivery. The
 rewrite walks a JSON tree; an object that holds a turn and a thread with tokens is a usage record,
 and one whose basis is "approxBytesPerToken" is a size estimate.
 */
module Replay {
  import opened Wrappers
  import opened Usage

  datatype Json = Null | Bool(b: bool) | Int(n: int) | Real(r: real) | Str(s: string) | Arr(items: seq<Json>) | Obj(fields: map<string, Json>)

  /** A provider's own cost of the turn and the thread. */
  datatype Reported = Reported(model: string, version: string, turnUsd: real, threadUsd: Option<real>)

  /** What is stored to price a notification later. */
  datatype Inputs = Inputs(model: Option<string>, threadModel: Option<string>, turnRequests: Option<seq<RequestUsage>>, reported: Option<Reported>)

  const STORED := "codewideReplayPricing"
  const PROVIDER_REPORTED_BASIS := "providerReported"

  // --- Reading tokens, writing costs ---

  function Counter(value: Json): (n: Option<nat>) {
    if value.Int? && 0 <= value.n <= U64_MAX then Some(value.n) else None
  }

  function CounterAt(fields: map<string, Json>, key: string): (n: Option<nat>) {
    if key in fields then Counter(fields[key]) else None
  }

  function Counts(total: Option<nat>, input: Option<nat>, cached: Option<nat>, write: Option<nat>,
          output: Option<nat>, reasoning: Option<nat>): (t: Option<TokenCounts>) {
    if total.Some? && input.Some? && cached.Some? && write.Some? && output.Some? && reasoning.Some?
    then Some(TokenCounts(total.value, input.value, cached.value, write.value, output.value, reasoning.value))
    else None
  }

  /** Six named counters, or six counters in order. */
  function ReadCounts(value: Json): (t: Option<TokenCounts>) {
    match value
    case Obj(f) =>
      Counts(CounterAt(f, "totalTokens"), CounterAt(f, "inputTokens"), CounterAt(f, "cachedInputTokens"),
             CounterAt(f, "cacheWriteInputTokens"), CounterAt(f, "outputTokens"), CounterAt(f, "reasoningOutputTokens"))
    case Arr(items) =>
      if |items| != 6 then None
      else Counts(Counter(items[0]), Counter(items[1]), Counter(items[2]), Counter(items[3]), Counter(items[4]), Counter(items[5]))
    case _ => None
  }

  function ScopeTokens(scope: map<string, Json>): (t: Option<TokenCounts>) {
    if "tokens" in scope then ReadCounts(scope["tokens"]) else None
  }

  function CostJson(cost: Option<Cost>): (value: Json) {
    if cost.None? then Null
    else
      var c := cost.value;
      Obj(map[
        "model" := Str(c.model), "pricingVersion" := Str(c.pricingVersion), "currency" := Str("USD"), "basis" := Str(c.basis),
        "price" := Obj(map["input" := Real(c.price.input), "cachedInput" := Real(c.price.cachedInput), "output" := Real(c.price.output)]),
        "uncachedInputTokens" := Int(c.tokens.uncached), "cachedInputTokens" := Int(c.tokens.cached),
        "cacheWriteInputTokens" := Int(c.tokens.cacheWrite), "outputTokens" := Int(c.tokens.output),
        "cacheHitPercent" := Real(c.cacheHitPercent),
        "uncachedInputCostUsd" := Real(c.usd.uncached), "cachedInputCostUsd" := Real(c.usd.cached),
        "cacheWriteInputCostUsd" := Real(c.usd.cacheWrite), "outputCostUsd" := Real(c.usd.output), "totalCostUsd" := Real(c.usd.total)])
  }

  function ReportedCost(reported: Reported, usd: real, usage: TokenCounts): (cost: Cost) {
    var t := Split(usage);
    Cost(reported.model, reported.version, PROVIDER_REPORTED_BASIS, FREE, t, Percent(t.cached, usage.input), Dollars(0.0, 0.0, 0.0, 0.0, usd))
  }

  function SessionCost(pricing: Pricing, model: string, usage: TokenCounts): (cost: Option<Cost>) {
    var name := pricing.normalize(model);
    if pricing.prices(name).Some? then Some(RatesCost(name, pricing.prices(name).value, usage, false)) else None
  }

  function TurnCost(tokens: Option<TokenCounts>, inputs: Option<Inputs>, pricing: Pricing): (cost: Option<Cost>) {
    if inputs.None? then None
    else if inputs.value.reported.Some? then
      var reported := inputs.value.reported.value;
      if tokens.Some? then Some(ReportedCost(reported, reported.turnUsd, tokens.value)) else None
    else if inputs.value.turnRequests.Some? then SumCosts(pricing, inputs.value.turnRequests.value)
    else None
  }

  function ThreadCost(tokens: Option<TokenCounts>, inputs: Option<Inputs>, pricing: Pricing): (cost: Option<Cost>) {
    if inputs.None? || tokens.None? then None
    else if inputs.value.reported.Some? then
      var reported := inputs.value.reported.value;
      if reported.threadUsd.Some? then Some(ReportedCost(reported, reported.threadUsd.value, tokens.value)) else None
    else if inputs.value.threadModel.Some? then SessionCost(pricing, inputs.value.threadModel.value, tokens.value)
    else None
  }

  // --- The rewrite ---

  predicate HasTokens(fields: map<string, Json>, key: string) {
    key in fields && fields[key].Obj? && "tokens" in fields[key].fields
  }

  predicate IsUsage(fields: map<string, Json>) {
    HasTokens(fields, "turn") && HasTokens(fields, "thread")
  }

  predicate IsEstimate(fields: map<string, Json>) {
    "basis" in fields && fields["basis"] == Str("approxBytesPerToken")
  }

  function EstimatedCost(fields: map<string, Json>, inputs: Option<Inputs>, pricing: Pricing): (value: Json) {
    var tokens := CounterAt(fields, "estimatedTokens");
    var price := if inputs.Some? && inputs.value.model.Some? then pricing.prices(pricing.normalize(inputs.value.model.value)) else None;
    if tokens.Some? && price.Some? then Real(Usd(tokens.value, price.value.rates.input)) else Null
  }

  /** The cost that a usage record writes into the scope under this key. */
  function ScopeCost(fields: map<string, Json>, key: string, inputs: Option<Inputs>, pricing: Pricing): (cost: Option<Json>) {
    if !IsUsage(fields) then None
    else if key == "turn" then Some(CostJson(TurnCost(ScopeTokens(fields["turn"].fields), inputs, pricing)))
    else if key == "thread" then Some(CostJson(ThreadCost(ScopeTokens(fields["thread"].fields), inputs, pricing)))
    else None
  }

  function WrittenKeys(fields: map<string, Json>, scope: bool): (keys: set<string>) {
    (if scope then {"cost"} else {}) + (if IsEstimate(fields) then {"estimatedInputCostUsd"} else {})
  }

  /**
   The tree after the rewrite. `cost` is what the enclosing usage record has just written here; it is
   not rewritten again (see `CostIsLeftAlone`), so the recursion follows the tree.
   */
  function Visit(value: Json, inputs: Option<Inputs>, pricing: Pricing, cost: Option<Json>): (r: Json)
    decreases value, 1
  {
    match value
    case Arr(items) => Arr(seq(|items|, i requires 0 <= i < |items| => Visit(items[i], inputs, pricing, None)))
    case Obj(fields) => Obj(map k | k in fields.Keys + WrittenKeys(fields, cost.Some?) :: ValueAt(fields, k, inputs, pricing, cost))
    case _ => value
  }

  function ValueAt(fields: map<string, Json>, key: string, inputs: Option<Inputs>, pricing: Pricing,
          cost: Option<Json>): (r: Json)
    requires key in fields.Keys + WrittenKeys(fields, cost.Some?)
    decreases Obj(fields), 0
  {
    if cost.Some? && key == "cost" then cost.value
    else if IsEstimate(fields) && key == "estimatedInputCostUsd" then EstimatedCost(fields, inputs, pricing)
    else Visit(fields[key], inputs, pricing, ScopeCost(fields, key, inputs, pricing))
  }

  // --- What the rewrite may touch ---

  predicate IsPrice(fields: map<string, Json>, scope: bool, key: string) {
    (scope && key == "cost") || (IsEstimate(fields) && key == "estimatedInputCostUsd")
  }

  predicate IsScope(fields: map<string, Json>, key: string) {
    IsUsage(fields) && (key == "turn" || key == "thread")
  }

  /** Two trees that differ in nothing but prices. `scope` says that this is a scope of a usage record. */
  predicate SameButPrices(a: Json, b: Json, scope: bool)
    decreases a
  {
    match a
    case Arr(items) => b.Arr? && |b.items| == |items| && forall i :: 0 <= i < |items| ==> SameButPrices(items[i], b.items[i], false)
    case Obj(fields) =>
      && b.Obj?
      && (forall k :: k in fields.Keys + b.fields.Keys && !IsPrice(fields, scope, k) ==> k in fields && k in b.fields)
      && (forall k :: k in fields && !IsPrice(fields, scope, k) ==> k in b.fields && SameButPrices(fields[k], b.fields[k], IsScope(fields, k)))
    case _ => a == b
  }

  /** The rewrite changes prices only. */
  lemma {:induction false} VisitChangesOnlyPrices(value: Json, inputs: Option<Inputs>, pricing: Pricing, cost: Option<Json>)
    ensures SameButPrices(value, Visit(value, inputs, pricing, cost), cost.Some?)
    decreases value
  {
    match value
    case Arr(items) =>
      forall i | 0 <= i < |items| ensures SameButPrices(items[i], Visit(items[i], inputs, pricing, None), false) {
        VisitChangesOnlyPrices(items[i], inputs, pricing, None);
      }
    case Obj(fields) =>
      forall k | k in fields ensures SameButPrices(fields[k], Visit(fields[k], inputs, pricing, ScopeCost(fields, k, inputs, pricing)), IsScope(fields, k)) {
        VisitChangesOnlyPrices(fields[k], inputs, pricing, ScopeCost(fields, k, inputs, pricing));
      }
    case _ =>
  }

  /** Trees that differ in prices only hold the same records, tokens and estimates. */
  lemma {:induction false} SameFacts(a: map<string, Json>, b: map<string, Json>, scope: bool)
    requires SameButPrices(Obj(a), Obj(b), scope)
    ensures IsEstimate(a) == IsEstimate(b) && IsUsage(a) == IsUsage(b)
    ensures CounterAt(a, "estimatedTokens") == CounterAt(b, "estimatedTokens")
  {
    assert "basis" in a <==> "basis" in b;
    SameTokens(a, b, scope, "turn");
    SameTokens(a, b, scope, "thread");
    SameCounter(a, b, scope, "estimatedTokens");
  }

  lemma {:induction false} SameTokens(a: map<string, Json>, b: map<string, Json>, scope: bool, key: string)
    requires SameButPrices(Obj(a), Obj(b), scope) && (key == "turn" || key == "thread")
    ensures HasTokens(a, key) == HasTokens(b, key)
  {
    assert key in a <==> key in b;
    if key in a {
      assert SameButPrices(a[key], b[key], IsScope(a, key));
      if a[key].Obj? {
        assert "tokens" in a[key].fields <==> "tokens" in b[key].fields;
      }
    }
  }

  lemma {:induction false} SameCounter(a: map<string, Json>, b: map<string, Json>, scope: bool, key: string)
    requires SameButPrices(Obj(a), Obj(b), scope) && key != "cost" && key != "estimatedInputCostUsd"
    ensures CounterAt(a, key) == CounterAt(b, key)
  {
    assert key in a <==> key in b;
    if key in a {
      assert SameButPrices(a[key], b[key], IsScope(a, key));
    }
  }

  lemma {:induction false} SameCounts(a: Json, b: Json)
    requires SameButPrices(a, b, false)
    ensures ReadCounts(a) == ReadCounts(b)
  {
    match a
    case Obj(f) =>
      SameCounter(f, b.fields, false, "totalTokens");
      SameCounter(f, b.fields, false, "inputTokens");
      SameCounter(f, b.fields, false, "cachedInputTokens");
      SameCounter(f, b.fields, false, "cacheWriteInputTokens");
      SameCounter(f, b.fields, false, "outputTokens");
      SameCounter(f, b.fields, false, "reasoningOutputTokens");
    case Arr(items) =>
      forall i | 0 <= i < |items| ensures Counter(items[i]) == Counter(b.items[i]) {
        assert SameButPrices(items[i], b.items[i], false);
      }
    case _ =>
  }

  lemma {:induction false} SameScopeTokens(a: map<string, Json>, b: map<string, Json>, scope: bool)
    requires SameButPrices(Obj(a), Obj(b), scope)
    ensures ScopeTokens(a) == ScopeTokens(b)
  {
    assert "tokens" in a <==> "tokens" in b;
    if "tokens" in a {
      assert SameButPrices(a["tokens"], b["tokens"], IsScope(a, "tokens"));
      SameCounts(a["tokens"], b["tokens"]);
    }
  }

  lemma {:induction false} SameScopeCost(a: map<string, Json>, b: map<string, Json>, scope: bool, key: string,
          inputs: Option<Inputs>, pricing: Pricing)
    requires SameButPrices(Obj(a), Obj(b), scope)
    ensures ScopeCost(a, key, inputs, pricing) == ScopeCost(b, key, inputs, pricing)
  {
    SameFacts(a, b, scope);
    if IsScope(a, key) {
      assert SameButPrices(a[key], b[key], true);
      SameScopeTokens(a[key].fields, b[key].fields, true);
    }
  }

  lemma {:induction false} SameKeys(a: map<string, Json>, b: map<string, Json>, scope: bool)
    requires SameButPrices(Obj(a), Obj(b), scope)
    ensures a.Keys + WrittenKeys(a, scope) == b.Keys + WrittenKeys(b, scope)
  {
    SameFacts(a, b, scope);
    forall k ensures k in a.Keys + WrittenKeys(a, scope) <==> k in b.Keys + WrittenKeys(b, scope) {
      if !IsPrice(a, scope, k) && k in a.Keys + b.Keys {
        assert k in a && k in b;
      }
    }
  }

  /** What the rewrite yields does not depend on the prices it finds. */
  lemma {:induction false} VisitForgetsPrices(a: Json, b: Json, inputs: Option<Inputs>, pricing: Pricing, cost: Option<Json>)
    requires SameButPrices(a, b, cost.Some?)
    ensures Visit(a, inputs, pricing, cost) == Visit(b, inputs, pricing, cost)
    decreases a, 2
  {
    match a
    case Arr(items) =>
      forall i | 0 <= i < |items| ensures Visit(items[i], inputs, pricing, None) == Visit(b.items[i], inputs, pricing, None) {
        VisitForgetsPrices(items[i], b.items[i], inputs, pricing, None);
      }
    case Obj(fields) => ObjectForgetsPrices(fields, b.fields, inputs, pricing, cost);
    case _ =>
  }

  lemma {:induction false} ObjectForgetsPrices(a: map<string, Json>, b: map<string, Json>,
          inputs: Option<Inputs>, pricing: Pricing, cost: Option<Json>)
    requires SameButPrices(Obj(a), Obj(b), cost.Some?)
    ensures Visit(Obj(a), inputs, pricing, cost) == Visit(Obj(b), inputs, pricing, cost)
    decreases Obj(a), 1
  {
    SameKeys(a, b, cost.Some?);
    forall k | k in a.Keys + WrittenKeys(a, cost.Some?)
      ensures ValueAt(a, k, inputs, pricing, cost) == ValueAt(b, k, inputs, pricing, cost)
    {
      ValueForgetsPrices(a, b, k, inputs, pricing, cost);
    }
    VisitFromValues(a, cost, b, cost, inputs, pricing);
  }

  lemma {:induction false} VisitedValues(fields: map<string, Json>, cost: Option<Json>, inputs: Option<Inputs>, pricing: Pricing)
    ensures var out := Visit(Obj(fields), inputs, pricing, cost);
            && out.Obj? && out.fields.Keys == fields.Keys + WrittenKeys(fields, cost.Some?)
            && forall k :: k in out.fields ==> out.fields[k] == ValueAt(fields, k, inputs, pricing, cost)
  {
  }

  lemma {:induction false} SameMaps(a: map<string, Json>, b: map<string, Json>)
    requires a.Keys == b.Keys && forall k :: k in a ==> a[k] == b[k]
    ensures a == b
  {
  }

  lemma {:induction false} VisitFromValues(a: map<string, Json>, costA: Option<Json>, b: map<string, Json>, costB: Option<Json>,
          inputs: Option<Inputs>, pricing: Pricing)
    requires a.Keys + WrittenKeys(a, costA.Some?) == b.Keys + WrittenKeys(b, costB.Some?)
    requires forall k :: k in a.Keys + WrittenKeys(a, costA.Some?) ==>
      ValueAt(a, k, inputs, pricing, costA) == ValueAt(b, k, inputs, pricing, costB)
    ensures Visit(Obj(a), inputs, pricing, costA) == Visit(Obj(b), inputs, pricing, costB)
  {
    var x, y := Visit(Obj(a), inputs, pricing, costA).fields, Visit(Obj(b), inputs, pricing, costB).fields;
    VisitedValues(a, costA, inputs, pricing);
    VisitedValues(b, costB, inputs, pricing);
    SameMaps(x, y);
  }

  lemma {:induction false} ValueForgetsPrices(a: map<string, Json>, b: map<string, Json>, key: string,
          inputs: Option<Inputs>, pricing: Pricing, cost: Option<Json>)
    requires SameButPrices(Obj(a), Obj(b), cost.Some?) && key in a.Keys + WrittenKeys(a, cost.Some?) && key in b.Keys + WrittenKeys(b, cost.Some?)
    ensures ValueAt(a, key, inputs, pricing, cost) == ValueAt(b, key, inputs, pricing, cost)
    decreases Obj(a), 0
  {
    SameFacts(a, b, cost.Some?);
    if !IsPrice(a, cost.Some?, key) {
      assert key in a && SameButPrices(a[key], b[key], IsScope(a, key));
      SameScopeCost(a, b, cost.Some?, key, inputs, pricing);
      VisitForgetsPrices(a[key], b[key], inputs, pricing, ScopeCost(a, key, inputs, pricing));
    }
  }

  /** The last rewrite wins: nothing an earlier one wrote survives. */
  lemma {:induction false} LastVisitWins(value: Json, first: Option<Inputs>, firstPricing: Pricing,
          inputs: Option<Inputs>, pricing: Pricing)
    ensures Visit(Visit(value, first, firstPricing, None), inputs, pricing, None) == Visit(value, inputs, pricing, None)
  {
    VisitChangesOnlyPrices(value, first, firstPricing, None);
    VisitForgetsPrices(value, Visit(value, first, firstPricing, None), inputs, pricing, None);
  }

  // --- The rewrite, step by step as it is done in place ---

  /** What a record first writes into one of its own values: a scope's cost, or the estimate. */
  function Written(fields: map<string, Json>, key: string, inputs: Option<Inputs>, pricing: Pricing): (value: Json)
    requires key in fields.Keys + WrittenKeys(fields, false)
  {
    if IsEstimate(fields) && key == "estimatedInputCostUsd" then EstimatedCost(fields, inputs, pricing)
    else
      match ScopeCost(fields, key, inputs, pricing)
      case None => fields[key]
      case Some(cost) => Obj(fields[key].fields["cost" := cost])
  }

  function Rewritten(fields: map<string, Json>, inputs: Option<Inputs>, pricing: Pricing): (r: map<string, Json>) {
    map k | k in fields.Keys + WrittenKeys(fields, false) :: Written(fields, k, inputs, pricing)
  }

  lemma {:induction false} ScopeCostIsCost(fields: map<string, Json>, key: string, inputs: Option<Inputs>, pricing: Pricing)
    requires ScopeCost(fields, key, inputs, pricing).Some?
    ensures var cost := ScopeCost(fields, key, inputs, pricing).value;
            forall i, p :: Visit(cost, i, p, None) == cost
  {
    forall i, p ensures var cost := ScopeCost(fields, key, inputs, pricing).value; Visit(cost, i, p, None) == cost {
      if key == "turn" {
        BasisOfTurnCost(ScopeTokens(fields["turn"].fields), inputs, pricing);
        CostIsLeftAlone(TurnCost(ScopeTokens(fields["turn"].fields), inputs, pricing), i, p);
      } else {
        CostIsLeftAlone(ThreadCost(ScopeTokens(fields["thread"].fields), inputs, pricing), i, p);
      }
    }
  }

  lemma {:induction false} BasisOfTurnCost(tokens: Option<TokenCounts>, inputs: Option<Inputs>, pricing: Pricing)
    ensures var cost := TurnCost(tokens, inputs, pricing); cost.Some? ==> cost.value.basis != "approxBytesPerToken"
  {
    if inputs.Some? && inputs.value.turnRequests.Some? {
      BasisOfSum(pricing, inputs.value.turnRequests.value);
    }
  }

  lemma {:induction false} BasisOfSum(pricing: Pricing, requests: seq<RequestUsage>)
    ensures var total := SumCosts(pricing, requests); total.Some? ==> total.value.basis == API_EQUIVALENT_BASIS
  {
    if requests != [] { BasisOfSum(pricing, requests[..|requests| - 1]); }
  }

  predicate Plain(value: Json) {
    value.Str? || value.Int? || value.Real? || (value.Obj? && forall k :: k in value.fields ==> value.fields[k].Real?)
  }

  lemma {:induction false} PlainIsLeftAlone(value: Json, inputs: Option<Inputs>, pricing: Pricing)
    requires Plain(value)
    ensures Visit(value, inputs, pricing, None) == value
  {
    if value.Obj? {
      var fields := value.fields;
      assert !IsEstimate(fields) && !IsUsage(fields);
      forall k | k in fields ensures ValueAt(fields, k, inputs, pricing, None) == fields[k] {
      }
    }
  }

  lemma {:induction false} PlainFieldsAreLeftAlone(fields: map<string, Json>, inputs: Option<Inputs>, pricing: Pricing)
    requires "turn" !in fields && !IsEstimate(fields) && forall k :: k in fields ==> Plain(fields[k])
    ensures Visit(Obj(fields), inputs, pricing, None) == Obj(fields)
  {
    forall k | k in fields ensures ValueAt(fields, k, inputs, pricing, None) == fields[k] {
      PlainIsLeftAlone(fields[k], inputs, pricing);
    }
  }

  lemma {:induction false} CostFields(cost: Cost)
    ensures var fields := CostJson(Some(cost)).fields;
            "turn" !in fields && "basis" in fields && fields["basis"] == Str(cost.basis) && forall k :: k in fields ==> Plain(fields[k])
  {
  }

  /** A written cost is no record of the kinds that the rewrite looks for. */
  lemma {:induction false} CostIsLeftAlone(cost: Option<Cost>, inputs: Option<Inputs>, pricing: Pricing)
    requires cost.Some? ==> cost.value.basis != "approxBytesPerToken"
    ensures Visit(CostJson(cost), inputs, pricing, None) == CostJson(cost)
  {
    if cost.Some? {
      CostFields(cost.value);
      PlainFieldsAreLeftAlone(CostJson(cost).fields, inputs, pricing);
    }
  }

  /** Whatever else two records hold, one value depends on itself and on these few fields. */
  predicate Alike(a: map<string, Json>, b: map<string, Json>, key: string) {
    (key in a <==> key in b) && (key in a ==> a[key] == b[key])
  }

  lemma {:induction false} ScopeCostReads(a: map<string, Json>, b: map<string, Json>, key: string,
          inputs: Option<Inputs>, pricing: Pricing)
    requires Alike(a, b, "turn") && Alike(a, b, "thread")
    ensures ScopeCost(a, key, inputs, pricing) == ScopeCost(b, key, inputs, pricing)
  {
    assert IsUsage(a) == IsUsage(b);
  }

  lemma {:induction false} EstimateReads(a: map<string, Json>, b: map<string, Json>, inputs: Option<Inputs>, pricing: Pricing)
    requires Alike(a, b, "basis") && Alike(a, b, "estimatedTokens")
    ensures IsEstimate(a) == IsEstimate(b) && EstimatedCost(a, inputs, pricing) == EstimatedCost(b, inputs, pricing)
  {
  }

  lemma {:induction false} ValueReads(a: map<string, Json>, b: map<string, Json>, key: string,
          inputs: Option<Inputs>, pricing: Pricing, cost: Option<Json>)
    requires key in a.Keys + WrittenKeys(a, cost.Some?) && Alike(a, b, key) && (cost.Some? ==> key != "cost")
    requires Alike(a, b, "turn") && Alike(a, b, "thread") && Alike(a, b, "basis") && Alike(a, b, "estimatedTokens")
    ensures key in b.Keys + WrittenKeys(b, false)
    ensures ValueAt(a, key, inputs, pricing, cost) == ValueAt(b, key, inputs, pricing, None)
  {
    EstimateReads(a, b, inputs, pricing);
    ScopeCostReads(a, b, key, inputs, pricing);
  }

  lemma {:induction false} PlacedCost(placed: map<string, Json>, cost: Json, inputs: Option<Inputs>, pricing: Pricing)
    requires "cost" in placed && placed["cost"] == cost && Visit(cost, inputs, pricing, None) == cost
    ensures ValueAt(placed, "cost", inputs, pricing, None) == cost
  {
  }

  lemma {:induction false} PlacedKeys(scope: map<string, Json>, cost: Json)
    ensures var placed := scope["cost" := cost];
            placed.Keys + WrittenKeys(placed, false) == scope.Keys + WrittenKeys(scope, true)
  {
    assert IsEstimate(scope["cost" := cost]) == IsEstimate(scope);
  }

  /** A scope whose cost is already in place is visited as if the cost were handed to it. */
  lemma {:induction false} CostInPlace(scope: map<string, Json>, cost: Json, inputs: Option<Inputs>, pricing: Pricing)
    requires Visit(cost, inputs, pricing, None) == cost
    ensures Visit(Obj(scope["cost" := cost]), inputs, pricing, None) == Visit(Obj(scope), inputs, pricing, Some(cost))
  {
    var placed := scope["cost" := cost];
    PlacedKeys(scope, cost);
    forall k | k in placed.Keys + WrittenKeys(placed, false)
      ensures ValueAt(placed, k, inputs, pricing, None) == ValueAt(scope, k, inputs, pricing, Some(cost))
    {
      if k == "cost" { PlacedCost(placed, cost, inputs, pricing); } else { ValueReads(scope, placed, k, inputs, pricing, Some(cost)); }
    }
    VisitFromValues(placed, None, scope, Some(cost), inputs, pricing);
  }

  /** Write into the record, then walk all its values: the same tree. */
  lemma {:induction false} VisitWritesThenWalks(fields: map<string, Json>, inputs: Option<Inputs>, pricing: Pricing)
    ensures var written := Rewritten(fields, inputs, pricing);
            Visit(Obj(fields), inputs, pricing, None) == Obj(map k | k in written :: Visit(written[k], inputs, pricing, None))
  {
    forall k | k in fields.Keys + WrittenKeys(fields, false)
      ensures ValueAt(fields, k, inputs, pricing, None) == Visit(Written(fields, k, inputs, pricing), inputs, pricing, None)
    {
      WrittenThenWalked(fields, k, inputs, pricing);
    }
    var written := Rewritten(fields, inputs, pricing);
    assert Visit(Obj(fields), inputs, pricing, None).fields == map k | k in written :: Visit(written[k], inputs, pricing, None);
  }

  lemma {:induction false} WrittenThenWalked(fields: map<string, Json>, k: string, inputs: Option<Inputs>, pricing: Pricing)
    requires k in fields.Keys + WrittenKeys(fields, false)
    ensures ValueAt(fields, k, inputs, pricing, None) == Visit(Written(fields, k, inputs, pricing), inputs, pricing, None)
  {
    if !(IsEstimate(fields) && k == "estimatedInputCostUsd") && ScopeCost(fields, k, inputs, pricing).Some? {
      ScopeCostIsCost(fields, k, inputs, pricing);
      CostInPlace(fields[k].fields, ScopeCost(fields, k, inputs, pricing).value, inputs, pricing);
    }
  }

  // --- Storing and delivering ---

  function NoPricing(): (p: Pricing) {
    Pricing(s => s, s => None)
  }

  /** What goes into the journal. */
  function Prepare(payload: Json, stored: Option<Json>): (r: Json) {
    var erased := Visit(payload, None, NoPricing(), None);
    if stored.Some? && erased.Obj? then Obj(erased.fields[STORED := stored.value]) else erased
  }

  /** What is delivered from the journal; `read` parses stored inputs. */
  function Price(payload: Json, pricing: Pricing, read: Json -> Option<Inputs>): (r: Json) {
    if payload.Obj? && STORED in payload.fields
    then Visit(Obj(payload.fields - {STORED}), read(payload.fields[STORED]), pricing, None)
    else Visit(payload, None, pricing, None)
  }

  /** Every price field of the tree is there and empty. */
  predicate Unpriced(value: Json, scope: bool) {
    match value
    case Arr(items) => forall i :: 0 <= i < |items| ==> Unpriced(items[i], false)
    case Obj(fields) =>
      && (forall k :: k in WrittenKeys(fields, scope) ==> k in fields && fields[k] == Null)
      && (forall k :: k in fields && !IsPrice(fields, scope, k) ==> Unpriced(fields[k], IsScope(fields, k)))
    case _ => true
  }

  lemma {:induction false} VisitErases(value: Json, pricing: Pricing, cost: Option<Json>)
    requires cost.Some? ==> cost.value == Null
    ensures Unpriced(Visit(value, None, pricing, cost), cost.Some?)
    decreases value, 2
  {
    match value
    case Arr(items) =>
      forall i | 0 <= i < |items| ensures Unpriced(Visit(items[i], None, pricing, None), false) {
        VisitErases(items[i], pricing, None);
      }
    case Obj(fields) =>
      ObjectErases(value, pricing, cost);
    case _ =>
  }

  lemma {:induction false} ObjectErases(value: Json, pricing: Pricing, cost: Option<Json>)
    requires value.Obj? && (cost.Some? ==> cost.value == Null)
    ensures Unpriced(Visit(value, None, pricing, cost), cost.Some?)
    decreases value, 1
  {
    VisitChangesOnlyPrices(value, None, pricing, cost);
    var visited := Visit(value, None, pricing, cost).fields;
    SameFacts(value.fields, visited, cost.Some?);
    forall k | k in visited && !IsPrice(visited, cost.Some?, k) ensures Unpriced(visited[k], IsScope(visited, k)) {
      MemberErases(value, pricing, cost, k);
    }
  }

  lemma {:induction false} MemberErases(value: Json, pricing: Pricing, cost: Option<Json>, k: string)
    requires value.Obj? && (cost.Some? ==> cost.value == Null)
    requires k in value.fields.Keys + WrittenKeys(value.fields, cost.Some?) && !IsPrice(value.fields, cost.Some?, k)
    ensures Unpriced(Visit(value, None, pricing, cost).fields[k], IsScope(value.fields, k))
    decreases value, 0
  {
    var fields := value.fields;
    assert k in fields && Visit(value, None, pricing, cost).fields[k] == ValueAt(fields, k, None, pricing, cost);
    VisitErases(fields[k], pricing, ScopeCost(fields, k, None, pricing));
  }

  lemma {:induction false} DropStored(fields: map<string, Json>, inputs: Option<Inputs>, pricing: Pricing)
    ensures Visit(Obj(fields - {STORED}), inputs, pricing, None) == Obj(Visit(Obj(fields), inputs, pricing, None).fields - {STORED})
  {
    var rest := fields - {STORED};
    assert rest.Keys + WrittenKeys(rest, false) == fields.Keys + WrittenKeys(fields, false) - {STORED};
    forall k | k in rest.Keys + WrittenKeys(rest, false)
      ensures ValueAt(rest, k, inputs, pricing, None) == ValueAt(fields, k, inputs, pricing, None)
    {
      ValueReads(rest, fields, k, inputs, pricing, None);
    }
    var visited := Visit(Obj(fields), inputs, pricing, None).fields - {STORED};
    assert Visit(Obj(rest), inputs, pricing, None).fields == visited;
  }

  /** The field for stored inputs is neither a price nor a scope, and decides about no other field. */
  lemma {:induction false} UnpricedBeside(fields: map<string, Json>, stored: Json)
    requires Unpriced(Obj(fields), false)
    ensures Unpriced(Obj(fields - {STORED}), false)
    ensures Unpriced(Obj(fields[STORED := stored]), false) <==> Unpriced(stored, false)
  {
    UnpricedAlong(fields, fields - {STORED});
    if Unpriced(stored, false) { UnpricedAlong(fields, fields[STORED := stored]); }
    if Unpriced(Obj(fields[STORED := stored]), false) { UnpricedAt(fields[STORED := stored]); }
  }

  lemma {:induction false} UnpricedAlong(a: map<string, Json>, b: map<string, Json>)
    requires Unpriced(Obj(a), false) && (STORED in b ==> Unpriced(b[STORED], false))
    requires forall k :: k != STORED ==> (k in a <==> k in b) && (k in a ==> a[k] == b[k])
    ensures Unpriced(Obj(b), false)
  {
    SameKinds(a, b);
    NotAPrice(b);
    forall k | k in b && k != STORED && !IsPrice(b, false, k) ensures Unpriced(b[k], IsScope(b, k)) {
      assert Unpriced(a[k], IsScope(a, k));
    }
  }

  lemma {:induction false} UnpricedAt(fields: map<string, Json>)
    requires Unpriced(Obj(fields), false) && STORED in fields
    ensures Unpriced(fields[STORED], false)
  {
    NotAPrice(fields);
  }

  lemma {:induction false} NotAPrice(fields: map<string, Json>)
    ensures !IsPrice(fields, false, STORED) && !IsScope(fields, STORED)
  {
  }

  lemma {:induction false} SameKinds(a: map<string, Json>, b: map<string, Json>)
    requires forall k :: k != STORED ==> (k in a <==> k in b) && (k in a ==> a[k] == b[k])
    ensures IsEstimate(a) == IsEstimate(b) && IsUsage(a) == IsUsage(b)
    ensures forall k :: IsPrice(a, false, k) == IsPrice(b, false, k) && IsScope(a, k) == IsScope(b, k)
  {
    assert "basis" != STORED && "turn" != STORED && "thread" != STORED;
  }

  /**
   What is stored holds no price, whatever inputs are stored with it: the journal entry is free of
   prices exactly if those inputs are, and without them it always is.
   */
  lemma {:induction false} StoredHoldsNoPrice(payload: Json, stored: Option<Json>)
    ensures var entry := Prepare(payload, stored);
            && (Unpriced(entry, false) <==> stored.None? || !payload.Obj? || Unpriced(stored.value, false))
            && (entry.Obj? && stored.Some? ==> Unpriced(Obj(entry.fields - {STORED}), false))
  {
    VisitErases(payload, NoPricing(), None);
    var erased := Visit(payload, None, NoPricing(), None);
    if stored.Some? && erased.Obj? {
      UnpricedBeside(erased.fields, stored.value);
      assert erased.fields[STORED := stored.value] - {STORED} == erased.fields - {STORED};
    }
  }

  /** What is delivered is the payload priced afresh from its stored inputs. */
  lemma {:induction false} DeliveredIsPricedAfresh(fields: map<string, Json>, stored: Json, pricing: Pricing,
          read: Json -> Option<Inputs>)
    ensures Price(Prepare(Obj(fields), Some(stored)), pricing, read) == Visit(Obj(fields - {STORED}), read(stored), pricing, None)
  {
    var erased := Visit(Obj(fields), None, NoPricing(), None).fields;
    var journal := erased[STORED := stored];
    assert journal - {STORED} == erased - {STORED};
    DropStored(fields, None, NoPricing());
    LastVisitWins(Obj(fields - {STORED}), None, NoPricing(), read(stored), pricing);
  }

  /** So payloads that differ only in the prices they hold are delivered alike. */
  lemma {:induction false} DeliveryForgetsOldPrices(a: Json, b: Json, stored: Option<Json>, pricing: Pricing,
          read: Json -> Option<Inputs>)
    requires SameButPrices(a, b, false)
    ensures Price(Prepare(a, stored), pricing, read) == Price(Prepare(b, stored), pricing, read)
  {
    VisitForgetsPrices(a, b, None, NoPricing(), None);
  }

  // --- What the prices are ---

  /** `value` spells these counters: under their names, or as six numbers in order. */
  predicate SpellsCounts(value: Json, t: TokenCounts) {
    match value
    case Obj(f) =>
      && Counts64(f, "totalTokens", t.total) && Counts64(f, "inputTokens", t.input) && Counts64(f, "cachedInputTokens", t.cachedInput)
      && Counts64(f, "cacheWriteInputTokens", t.cacheWriteInput) && Counts64(f, "outputTokens", t.output)
      && Counts64(f, "reasoningOutputTokens", t.reasoningOutput)
    case Arr(items) =>
      && items == [Int(t.total), Int(t.input), Int(t.cachedInput), Int(t.cacheWriteInput), Int(t.output), Int(t.reasoningOutput)]
      && forall i :: 0 <= i < |items| ==> items[i].n <= U64_MAX
    case _ => false
  }

  predicate Counts64(fields: map<string, Json>, key: string, n: nat) {
    key in fields && fields[key] == Int(n) && n <= U64_MAX
  }

  /** `value` is a JSON cost with these numbers and labels. */
  predicate ShowsCost(value: Json, model: string, version: string, basis: string, price: ModelPrice, t: Tokens, percent: real, usd: Dollars) {
    && value.Obj?
    && Shows(value.fields, "model", Str(model)) && Shows(value.fields, "pricingVersion", Str(version))
    && Shows(value.fields, "currency", Str("USD")) && Shows(value.fields, "basis", Str(basis))
    && ShowsPrice(value.fields, price)
    && Shows(value.fields, "uncachedInputTokens", Int(t.uncached)) && Shows(value.fields, "cachedInputTokens", Int(t.cached))
    && Shows(value.fields, "cacheWriteInputTokens", Int(t.cacheWrite)) && Shows(value.fields, "outputTokens", Int(t.output))
    && Shows(value.fields, "cacheHitPercent", Real(percent))
    && Shows(value.fields, "uncachedInputCostUsd", Real(usd.uncached)) && Shows(value.fields, "cachedInputCostUsd", Real(usd.cached))
    && Shows(value.fields, "cacheWriteInputCostUsd", Real(usd.cacheWrite)) && Shows(value.fields, "outputCostUsd", Real(usd.output))
    && Shows(value.fields, "totalCostUsd", Real(usd.total))
  }

  /** The cached share of the input, in percent. */
  function CachedShare(t: TokenCounts): (percent: real) {
    if t.input == 0 then 0.0 else Split(t).cached as real / t.input as real * 100.0
  }

  /** `value` charges these tokens at the base rates of `entry`, each part at its own rate per million. */
  predicate ShowsBaseCost(value: Json, name: string, entry: PriceEntry, t: TokenCounts) {
    ShowsCost(value, name, entry.pricingVersion, "apiEquivalent", ModelPrice(entry.rates.input, entry.rates.cachedInput, entry.rates.output),
              Split(t), CachedShare(t), Charges(entry.rates, t))
  }

  function Charges(rates: Rates, t: TokenCounts): (usd: Dollars) {
    var n := Split(t);
    var u, c := n.uncached as real * rates.input / 1_000_000.0, n.cached as real * rates.cachedInput / 1_000_000.0;
    var w, o := n.cacheWrite as real * rates.cacheWriteInput / 1_000_000.0, t.output as real * rates.output / 1_000_000.0;
    Dollars(u, c, w, o, u + c + w + o)
  }

  lemma {:induction false} BaseCostIs(name: string, entry: PriceEntry, t: TokenCounts)
    ensures RatesCost(name, entry, t, false)
         == Cost(name, entry.pricingVersion, "apiEquivalent", ModelPrice(entry.rates.input, entry.rates.cachedInput, entry.rates.output),
                 Split(t), CachedShare(t), Charges(entry.rates, t))
  {
  }

  lemma {:induction false} BaseCostIsShown(name: string, entry: PriceEntry, t: TokenCounts)
    ensures ShowsBaseCost(CostJson(Some(RatesCost(name, entry, t, false))), name, entry, t)
  {
    BaseCostIs(name, entry, t);
    CostIsShown(RatesCost(name, entry, t, false));
  }

  /** `value` shows a provider's own cost: a total without parts and without rates. */
  predicate ShowsReported(value: Json, reported: Reported, usd: real, t: TokenCounts) {
    ShowsCost(value, reported.model, reported.version, "providerReported", ModelPrice(0.0, 0.0, 0.0), Split(t),
              CachedShare(t), Dollars(0.0, 0.0, 0.0, 0.0, usd))
  }

  predicate Shows(fields: map<string, Json>, key: string, value: Json) {
    key in fields && fields[key] == value
  }

  predicate ShowsPrice(fields: map<string, Json>, price: ModelPrice) {
    && "price" in fields && fields["price"].Obj?
    && Shows(fields["price"].fields, "input", Real(price.input)) && Shows(fields["price"].fields, "cachedInput", Real(price.cachedInput))
    && Shows(fields["price"].fields, "output", Real(price.output))
  }

  predicate ShowsAll(value: Json, c: Cost) {
    ShowsCost(value, c.model, c.pricingVersion, c.basis, c.price, c.tokens, c.cacheHitPercent, c.usd)
  }

  /** A usage record: an object whose turn and thread are objects that hold tokens. */
  predicate UsageRecord(fields: map<string, Json>) {
    && "turn" in fields && fields["turn"].Obj? && "tokens" in fields["turn"].fields
    && "thread" in fields && fields["thread"].Obj? && "tokens" in fields["thread"].fields
  }

  /** The cost that is written into one scope of a record. */
  function CostOf(fields: map<string, Json>, scope: string): (cost: Json) {
    if scope in fields && fields[scope].Obj? && "cost" in fields[scope].fields then fields[scope].fields["cost"] else Bool(false)
  }

  lemma {:induction false} CostIsShown(cost: Cost)
    ensures ShowsAll(CostJson(Some(cost)), cost)
  {
  }

  lemma {:induction false} CountsAreRead(value: Json, t: TokenCounts)
    requires SpellsCounts(value, t)
    ensures ReadCounts(value) == Some(t)
  {
    if value.Arr? {
      assert value.items[0] == Int(t.total) && value.items[1] == Int(t.input) && value.items[2] == Int(t.cachedInput);
      assert value.items[3] == Int(t.cacheWriteInput) && value.items[4] == Int(t.output) && value.items[5] == Int(t.reasoningOutput);
    }
  }

  lemma {:induction false} ReadIsSpelled(value: Json)
    ensures ReadCounts(value).Some? ==> SpellsCounts(value, ReadCounts(value).value)
  {
    if value.Arr? && |value.items| == 6 && ReadCounts(value).Some? {
      var t, items := ReadCounts(value).value, value.items;
      assert items == [items[0], items[1], items[2], items[3], items[4], items[5]];
      forall i | 0 <= i < |items| ensures items[i].n <= U64_MAX { assert Counter(items[i]).Some?; }
    }
  }

  /** The rewrite writes a cost into both scopes of a usage record. */
  lemma {:induction false} ScopesArePriced(fields: map<string, Json>, inputs: Option<Inputs>, pricing: Pricing)
    requires UsageRecord(fields)
    ensures var out := Visit(Obj(fields), inputs, pricing, None);
            && out.Obj?
            && CostOf(out.fields, "turn") == CostJson(TurnCost(ReadCounts(fields["turn"].fields["tokens"]), inputs, pricing))
            && CostOf(out.fields, "thread") == CostJson(ThreadCost(ReadCounts(fields["thread"].fields["tokens"]), inputs, pricing))
  {
    ScopeIsPriced(fields, "turn", inputs, pricing);
    ScopeIsPriced(fields, "thread", inputs, pricing);
  }

  lemma {:induction false} ScopeIsPriced(fields: map<string, Json>, key: string, inputs: Option<Inputs>, pricing: Pricing)
    requires UsageRecord(fields) && (key == "turn" || key == "thread")
    ensures var out := Visit(Obj(fields), inputs, pricing, None);
            out.Obj? && Some(CostOf(out.fields, key)) == ScopeCost(fields, key, inputs, pricing)
  {
    assert key != "estimatedInputCostUsd";
    var cost := ScopeCost(fields, key, inputs, pricing);
    var visited := Visit(fields[key], inputs, pricing, cost);
    assert ValueAt(fields, key, inputs, pricing, None) == visited;
    assert "cost" in visited.fields && visited.fields["cost"] == ValueAt(fields[key].fields, "cost", inputs, pricing, cost);
  }

  /** Without a provider's own cost, the turn's cost is the sum of its requests' costs, or null if one of them has no price. */
  lemma {:induction false} TurnIsPriced(fields: map<string, Json>, inputs: Inputs, pricing: Pricing)
    requires UsageRecord(fields) && inputs.reported.None? && inputs.turnRequests.Some?
    requires forall i :: 0 <= i < |inputs.turnRequests.value| ==> Representable(inputs.turnRequests.value[i].tokens)
    ensures var (requests, shown) := (inputs.turnRequests.value, CostOf(Visit(Obj(fields), Some(inputs), pricing, None).fields, "turn"));
            if requests != [] && AllPriced(pricing, requests) then exists cost :: Sums(pricing, requests, cost) && ShowsAll(shown, cost)
            else shown == Null
  {
    var requests := inputs.turnRequests.value;
    ScopesArePriced(fields, Some(inputs), pricing);
    SumCostsSums(pricing, requests);
    if SumCosts(pricing, requests).Some? {
      var cost := SumCosts(pricing, requests).value;
      CostIsShown(cost);
      assert Sums(pricing, requests, cost) && ShowsAll(CostOf(Visit(Obj(fields), Some(inputs), pricing, None).fields, "turn"), cost);
    }
  }

  /** Without a provider's own cost, the thread's tokens are charged at the base rates of its model, long context or not. */
  lemma {:induction false} ThreadIsPriced(fields: map<string, Json>, inputs: Inputs, pricing: Pricing, t: TokenCounts)
    requires UsageRecord(fields) && inputs.reported.None? && inputs.threadModel.Some?
    requires SpellsCounts(fields["thread"].fields["tokens"], t)
    ensures var name := pricing.normalize(inputs.threadModel.value);
            var (entry, shown) := (pricing.prices(name), CostOf(Visit(Obj(fields), Some(inputs), pricing, None).fields, "thread"));
            if entry.None? then shown == Null else ShowsBaseCost(shown, name, entry.value, t)
  {
    ScopesArePriced(fields, Some(inputs), pricing);
    CountsAreRead(fields["thread"].fields["tokens"], t);
    SessionCostIs(pricing, inputs.threadModel.value, t);
  }

  lemma {:induction false} SessionCostIs(pricing: Pricing, model: string, t: TokenCounts)
    ensures var name := pricing.normalize(model);
            var (entry, cost) := (pricing.prices(name), SessionCost(pricing, model, t));
            if entry.None? then cost.None? else cost.Some? && ShowsBaseCost(CostJson(cost), name, entry.value, t)
  {
    var name := pricing.normalize(model);
    if pricing.prices(name).Some? { BaseCostIsShown(name, pricing.prices(name).value, t); }
  }

  lemma {:induction false} ReportedCostIs(reported: Reported, usd: real, t: TokenCounts)
    ensures ShowsReported(CostJson(Some(ReportedCost(reported, usd, t))), reported, usd, t)
  {
    CostIsShown(ReportedCost(reported, usd, t));
  }

  /** A provider's own cost is shown as the total of each scope, with no parts and no rates. */
  lemma {:induction false} ReportedIsShown(fields: map<string, Json>, inputs: Inputs, pricing: Pricing,
          scope: string, t: TokenCounts)
    requires UsageRecord(fields) && inputs.reported.Some? && (scope == "turn" || scope == "thread")
    requires SpellsCounts(fields[scope].fields["tokens"], t)
    ensures var reported := inputs.reported.value;
            var usd := if scope == "turn" then Some(reported.turnUsd) else reported.threadUsd;
            var shown := CostOf(Visit(Obj(fields), Some(inputs), pricing, None).fields, scope);
            if usd.None? then shown == Null else ShowsReported(shown, reported, usd.value, t)
  {
    ScopesArePriced(fields, Some(inputs), pricing);
    CountsAreRead(fields[scope].fields["tokens"], t);
    var reported := inputs.reported.value;
    ReportedCostIs(reported, reported.turnUsd, t);
    if reported.threadUsd.Some? { ReportedCostIs(reported, reported.threadUsd.value, t); }
  }

  /** Where there is nothing to price a scope by, or its tokens cannot be read, its cost is null. */
  lemma {:induction false} UnpricedIsNull(fields: map<string, Json>, inputs: Option<Inputs>, pricing: Pricing)
    requires UsageRecord(fields)
    ensures var out := Visit(Obj(fields), inputs, pricing, None).fields;
            && (inputs.None? || (inputs.value.reported.None? && inputs.value.turnRequests.None?) ==> CostOf(out, "turn") == Null)
            && (inputs.None? || (inputs.value.reported.None? && inputs.value.threadModel.None?) ==> CostOf(out, "thread") == Null)
    ensures (forall t :: !SpellsCounts(fields["turn"].fields["tokens"], t)) && (inputs.Some? ==> inputs.value.reported.Some?) ==>
              CostOf(Visit(Obj(fields), inputs, pricing, None).fields, "turn") == Null
    ensures (forall t :: !SpellsCounts(fields["thread"].fields["tokens"], t)) ==>
              CostOf(Visit(Obj(fields), inputs, pricing, None).fields, "thread") == Null
  {
    ScopesArePriced(fields, inputs, pricing);
    ReadIsSpelled(fields["turn"].fields["tokens"]);
    ReadIsSpelled(fields["thread"].fields["tokens"]);
  }

  /** A size estimate is priced by its tokens at the model's input rate, and is null without a count or a price. */
  lemma {:induction false} EstimateIsPriced(fields: map<string, Json>, inputs: Option<Inputs>, pricing: Pricing)
    requires "basis" in fields && fields["basis"] == Str("approxBytesPerToken")
    ensures var out := Visit(Obj(fields), inputs, pricing, None);
            && out.Obj? && "estimatedInputCostUsd" in out.fields
            && var entry := if inputs.Some? && inputs.value.model.Some? then pricing.prices(pricing.normalize(inputs.value.model.value)) else None;
            out.fields["estimatedInputCostUsd"] ==
            if entry.Some? && "estimatedTokens" in fields && fields["estimatedTokens"].Int? && 0 <= fields["estimatedTokens"].n <= U64_MAX
            then Real(fields["estimatedTokens"].n as real * entry.value.rates.input / 1_000_000.0) else Null
  {
    var out := Visit(Obj(fields), inputs, pricing, None);
    assert out.fields["estimatedInputCostUsd"] == ValueAt(fields, "estimatedInputCostUsd", inputs, pricing, None);
  }
}
