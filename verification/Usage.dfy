/** Token accounting and API-equivalent cost. Money is real; counters are `u64`. */
module Usage {
  import opened Wrappers

  datatype TokenCounts = TokenCounts(total: nat, input: nat, cachedInput: nat, cacheWriteInput: nat, output: nat, reasoningOutput: nat)

  datatype Rates = Rates(input: real, cachedInput: real, cacheWriteInput: real, output: real)

  datatype LongContext = LongContext(aboveInputTokens: nat, rates: Rates)

  datatype PriceEntry = PriceEntry(pricingVersion: string, rates: Rates, longContext: Option<LongContext>)

  datatype ModelPrice = ModelPrice(input: real, cachedInput: real, output: real)

  const FREE := ModelPrice(0.0, 0.0, 0.0)

  datatype Tokens = Tokens(uncached: nat, cached: nat, cacheWrite: nat, output: nat)

  datatype Dollars = Dollars(uncached: real, cached: real, cacheWrite: real, output: real, total: real)

  datatype Cost = Cost(model: string, pricingVersion: string, basis: string, price: ModelPrice, tokens: Tokens, cacheHitPercent: real, usd: Dollars)

  datatype RequestUsage = RequestUsage(model: string, tokens: TokenCounts)

  /** A price table: the library's normal form of a model id, and the entry under each normal form. */
  datatype Pricing = Pricing(normalize: string -> string, prices: string -> Option<PriceEntry>)

  const API_EQUIVALENT_BASIS := "apiEquivalent"

  function Percent(part: nat, total: nat): (p: real) {
    if total == 0 then 0.0 else part as real / total as real * 100.0
  }

  function Usd(tokens: nat, perMillion: real): (usd: real) {
    tokens as real * perMillion / 1_000_000.0
  }

  /**
   Splits the input tokens. The parts are clipped so that they cannot exceed the whole: cached tokens
   come first, then cache writes, and what is left is uncached.
   */
  function Split(usage: TokenCounts): (t: Tokens)
    ensures t.uncached + t.cached + t.cacheWrite == usage.input && t.output == usage.output
    ensures t.cached <= usage.cachedInput && (t.cached < usage.cachedInput ==> t.cached == usage.input)
    ensures t.cacheWrite <= usage.cacheWriteInput && (t.cacheWrite < usage.cacheWriteInput ==> t.uncached == 0)
  {
    var cached := Min(usage.cachedInput, usage.input);
    var cacheWrite := Min(usage.cacheWriteInput, usage.input - cached);
    Tokens(usage.input - cached - cacheWrite, cached, cacheWrite, usage.output)
  }

  function RatesCost(model: string, price: PriceEntry, usage: TokenCounts, requestBoundaries: bool): (cost: Cost)
    ensures cost.usd.total == cost.usd.uncached + cost.usd.cached + cost.usd.cacheWrite + cost.usd.output
    ensures cost.tokens == Split(usage) && cost.cacheHitPercent == Percent(cost.tokens.cached, usage.input)
  {
    var rates := if price.longContext.Some? && requestBoundaries && usage.input > price.longContext.value.aboveInputTokens
                 then price.longContext.value.rates else price.rates;
    var t := Split(usage);
    var u, c, w, o := Usd(t.uncached, rates.input), Usd(t.cached, rates.cachedInput), Usd(t.cacheWrite, rates.cacheWriteInput), Usd(t.output, rates.output);
    Cost(model, price.pricingVersion, API_EQUIVALENT_BASIS, ModelPrice(price.rates.input, price.rates.cachedInput, price.rates.output),
         t, Percent(t.cached, usage.input), Dollars(u, c, w, o, u + c + w + o))
  }

  function RequestCost(pricing: Pricing, request: RequestUsage): (cost: Option<Cost>) {
    var model := pricing.normalize(request.model);
    if pricing.prices(model).Some? then Some(RatesCost(model, pricing.prices(model).value, request.tokens, true)) else None
  }

  /** An unchecked `u64` sum. */
  function Wrapped(n: nat): (r: nat)
    ensures n <= U64_MAX ==> r == n
  {
    n % 0x1_0000_0000_0000_0000
  }

  /** Saturating counters; the input total for the percentage is an unchecked `u64` sum. */
  function AddCost(left: Option<Cost>, right: Cost): (sum: Cost) {
    if left.None? then right
    else
      var l, same := left.value, left.value.model == right.model;
      var tokens := AddTokens(l.tokens, right.tokens);
      Cost(if same then l.model else "mixed", l.pricingVersion, l.basis, if same then l.price else FREE, tokens,
           Percent(tokens.cached, Wrapped(tokens.uncached + tokens.cached + tokens.cacheWrite)), AddDollars(l.usd, right.usd))
  }

  function AddTokens(a: Tokens, b: Tokens): (t: Tokens) {
    Tokens(SaturatingAdd(a.uncached, b.uncached), SaturatingAdd(a.cached, b.cached), SaturatingAdd(a.cacheWrite, b.cacheWrite), SaturatingAdd(a.output, b.output))
  }

  function AddDollars(a: Dollars, b: Dollars): (d: Dollars) {
    Dollars(a.uncached + b.uncached, a.cached + b.cached, a.cacheWrite + b.cacheWrite, a.output + b.output, a.total + b.total)
  }

  /** The sum that the pricing loop computes. */
  function SumCosts(pricing: Pricing, requests: seq<RequestUsage>): (total: Option<Cost>) {
    if requests == [] then None
    else
      var before, last := SumCosts(pricing, requests[..|requests| - 1]), RequestCost(pricing, requests[|requests| - 1]);
      if last.None? || (|requests| > 1 && before.None?) then None else Some(AddCost(before, last.value))
  }

  // --- What the sum should be ---

  predicate AllPriced(pricing: Pricing, requests: seq<RequestUsage>) {
    forall i :: 0 <= i < |requests| ==> Entry(pricing, requests[i]).Some?
  }

  /** The entry of the price table under the normal form of the request's model. */
  function Entry(pricing: Pricing, request: RequestUsage): (entry: Option<PriceEntry>) {
    pricing.prices(pricing.normalize(request.model))
  }

  /** What one request is charged per million tokens: the long-context rates exactly if its input exceeds their threshold. */
  function Charged(pricing: Pricing, request: RequestUsage): (rates: Rates) {
    match Entry(pricing, request)
    case None => Rates(0.0, 0.0, 0.0, 0.0)
    case Some(entry) =>
      match entry.longContext
      case Some(long) => if long.aboveInputTokens < request.tokens.input then long.rates else entry.rates
      case None => entry.rates
  }

  /** The sum over the requests of what `part` says, taken from the front. */
  function Summed(requests: seq<RequestUsage>, part: RequestUsage -> real): (sum: real) {
    if requests == [] then 0.0 else part(requests[0]) + Summed(requests[1..], part)
  }

  function UncachedPart(pricing: Pricing): (part: RequestUsage -> real) {
    (r: RequestUsage) => Split(r.tokens).uncached as real * Charged(pricing, r).input / 1_000_000.0
  }

  function CachedPart(pricing: Pricing): (part: RequestUsage -> real) {
    (r: RequestUsage) => Split(r.tokens).cached as real * Charged(pricing, r).cachedInput / 1_000_000.0
  }

  function CacheWritePart(pricing: Pricing): (part: RequestUsage -> real) {
    (r: RequestUsage) => Split(r.tokens).cacheWrite as real * Charged(pricing, r).cacheWriteInput / 1_000_000.0
  }

  function OutputPart(pricing: Pricing): (part: RequestUsage -> real) {
    (r: RequestUsage) => r.tokens.output as real * Charged(pricing, r).output / 1_000_000.0
  }

  /** Each part of the money is the sum over the requests of its own tokens at its own rate. */
  predicate SumsMoney(pricing: Pricing, requests: seq<RequestUsage>, usd: Dollars) {
    && usd.uncached == Summed(requests, UncachedPart(pricing))
    && usd.cached == Summed(requests, CachedPart(pricing))
    && usd.cacheWrite == Summed(requests, CacheWritePart(pricing))
    && usd.output == Summed(requests, OutputPart(pricing))
  }

  ghost predicate OneModel(pricing: Pricing, requests: seq<RequestUsage>) {
    forall i, j :: 0 <= i < |requests| && 0 <= j < |requests| ==> pricing.normalize(requests[i].model) == pricing.normalize(requests[j].model)
  }

  /** The basis, the version of the first request's entry, and its base prices as long as all requests share one model. */
  ghost predicate Labels(pricing: Pricing, requests: seq<RequestUsage>, cost: Cost) {
    && cost.basis == "apiEquivalent"
    && (requests != [] && Entry(pricing, requests[0]).Some? ==>
          var entry := Entry(pricing, requests[0]).value;
          && cost.pricingVersion == entry.pricingVersion
          && cost.price == if OneModel(pricing, requests) then ModelPrice(entry.rates.input, entry.rates.cachedInput, entry.rates.output)
                           else ModelPrice(0.0, 0.0, 0.0))
  }

  /** The exact counts of the requests, each split on its own. */
  function ExactTokens(requests: seq<RequestUsage>): (t: Tokens) {
    if requests == [] then Tokens(0, 0, 0, 0)
    else PlusTokens(ExactTokens(requests[..|requests| - 1]), Split(requests[|requests| - 1].tokens))
  }

  function InputTokens(requests: seq<RequestUsage>): (n: nat) {
    if requests == [] then 0 else InputTokens(requests[..|requests| - 1]) + requests[|requests| - 1].tokens.input
  }

  function Clip(t: Tokens): (r: Tokens) {
    Tokens(Min(t.uncached, U64_MAX), Min(t.cached, U64_MAX), Min(t.cacheWrite, U64_MAX), Min(t.output, U64_MAX))
  }

  /** The model all requests share, or "mixed". */
  ghost predicate NamesModel(pricing: Pricing, requests: seq<RequestUsage>, model: string) {
    if OneModel(pricing, requests)
    then forall i :: 0 <= i < |requests| ==> pricing.normalize(requests[i].model) == model
    else model == "mixed"
  }

  predicate Representable(t: TokenCounts) {
    t.input <= U64_MAX && t.output <= U64_MAX
  }

  /** What the summed cost of these requests is. */
  ghost predicate Sums(pricing: Pricing, requests: seq<RequestUsage>, cost: Cost) {
    && SumsTokens(requests, cost) && SumsMoney(pricing, requests, cost.usd) && TotalsParts(cost.usd)
    && SumsPercent(requests, cost) && NamesModel(pricing, requests, cost.model) && Labels(pricing, requests, cost)
  }

  predicate SumsTokens(requests: seq<RequestUsage>, cost: Cost) {
    cost.tokens == Clip(ExactTokens(requests))
  }

  predicate TotalsParts(usd: Dollars) {
    usd.total == usd.uncached + usd.cached + usd.cacheWrite + usd.output
  }

  /** The cached share of the input in percent; the input is counted by an unchecked `u64` sum of its parts. */
  predicate SumsPercent(requests: seq<RequestUsage>, cost: Cost) {
    var counted := (cost.tokens.uncached + cost.tokens.cached + cost.tokens.cacheWrite) % 0x1_0000_0000_0000_0000;
    && (InputTokens(requests) <= U64_MAX ==> counted == InputTokens(requests))
    && IsPercent(cost.cacheHitPercent, cost.tokens.cached, counted)
  }

  predicate IsPercent(percent: real, part: nat, total: nat) {
    if total == 0 then percent == 0.0 else percent * total as real == 100.0 * part as real
  }

  /** The loop stops at the first unpriced request; otherwise the running cost is the sum so far. */
  method RequestsCost(pricing: Pricing, requests: seq<RequestUsage>) returns (total: Option<Cost>)
    requires forall i :: 0 <= i < |requests| ==> Representable(requests[i].tokens)
    ensures total.Some? <==> requests != [] && AllPriced(pricing, requests)
    ensures total.Some? ==> Sums(pricing, requests, total.value)
    ensures total == SumCosts(pricing, requests)
  {
    total := None;
    for n := 0 to |requests|
      invariant SummedTo(pricing, requests, n, total)
    {
      var estimate := RequestCost(pricing, requests[n]);
      if estimate.None? {
        UnpricedSum(pricing, requests, n);
        return None;
      }
      OneRequestMore(pricing, requests, n, total);
      total := Some(AddCost(total, estimate.value));
    }
    assert requests[..|requests|] == requests;
  }

  /** `total` is the cost of the first `n` requests, all of which have a price. */
  ghost predicate SummedTo(pricing: Pricing, requests: seq<RequestUsage>, n: nat, total: Option<Cost>)
    requires n <= |requests|
  {
    && AllPriced(pricing, requests[..n])
    && (total.None? <==> n == 0)
    && total == SumCosts(pricing, requests[..n])
    && (total.Some? ==> Sums(pricing, requests[..n], total.value))
  }

  lemma {:induction false} OneRequestMore(pricing: Pricing, requests: seq<RequestUsage>, n: nat, total: Option<Cost>)
    requires n < |requests| && Representable(requests[n].tokens) && SummedTo(pricing, requests, n, total)
    requires RequestCost(pricing, requests[n]).Some?
    ensures SummedTo(pricing, requests, n + 1, Some(AddCost(total, RequestCost(pricing, requests[n]).value)))
  {
    assert requests[..n + 1] == requests[..n] + [requests[n]] && requests[..n + 1][..n] == requests[..n];
    AddingSums(pricing, requests[..n], total, requests[n]);
  }

  lemma {:induction false} UnpricedSum(pricing: Pricing, requests: seq<RequestUsage>, n: nat)
    requires n < |requests| && RequestCost(pricing, requests[n]).None?
    ensures SumCosts(pricing, requests).None?
  {
    if n < |requests| - 1 {
      UnpricedSum(pricing, requests[..|requests| - 1], n);
    }
  }

  /** The same of the sum itself. */
  lemma {:induction false} SumCostsSums(pricing: Pricing, requests: seq<RequestUsage>)
    requires forall i :: 0 <= i < |requests| ==> Representable(requests[i].tokens)
    ensures IsTotal(pricing, requests, SumCosts(pricing, requests))
  {
    if requests != [] {
      var init, last := requests[..|requests| - 1], requests[|requests| - 1];
      SumCostsSums(pricing, init);
      TotalOfMore(pricing, init, SumCosts(pricing, init), last);
      assert init + [last] == requests;
    }
  }

  /** `total` is the sum if every request has a price, and nothing otherwise. */
  ghost predicate IsTotal(pricing: Pricing, requests: seq<RequestUsage>, total: Option<Cost>) {
    && (total.Some? <==> requests != [] && AllPriced(pricing, requests))
    && (total.Some? ==> Sums(pricing, requests, total.value))
  }

  lemma {:induction false} TotalOfMore(pricing: Pricing, before: seq<RequestUsage>, total: Option<Cost>, request: RequestUsage)
    requires Representable(request.tokens) && IsTotal(pricing, before, total)
    ensures var estimate := RequestCost(pricing, request);
            IsTotal(pricing, before + [request],
                    if estimate.None? || (before != [] && total.None?) then None else Some(AddCost(total, estimate.value)))
  {
    AllPricedMore(pricing, before, request);
    var estimate := RequestCost(pricing, request);
    assert estimate.Some? <==> Entry(pricing, request).Some?;
    if estimate.Some? && (before == [] || total.Some?) { AddingSums(pricing, before, total, request); }
  }

  lemma {:induction false} AllPricedMore(pricing: Pricing, before: seq<RequestUsage>, request: RequestUsage)
    ensures AllPriced(pricing, before + [request]) <==> AllPriced(pricing, before) && Entry(pricing, request).Some?
  {
    var all := before + [request];
    assert forall i :: 0 <= i < |before| ==> all[i] == before[i];
    assert all[|before|] == request;
  }

  lemma {:induction false} AddingSums(pricing: Pricing, before: seq<RequestUsage>, total: Option<Cost>, request: RequestUsage)
    requires Representable(request.tokens) && RequestCost(pricing, request).Some?
    requires total.None? <==> before == []
    requires total.Some? ==> Sums(pricing, before, total.value)
    ensures Sums(pricing, before + [request], AddCost(total, RequestCost(pricing, request).value))
  {
    var estimate := RequestCost(pricing, request).value;
    PricedApart(pricing, request);
    if before == [] {
      FirstNumbers(request, estimate);
      FirstMoney(pricing, request, estimate);
      assert before + [request] == [request];
    } else {
      AddingTokens(before, total.value, request, estimate);
      AddingPercent(before, total.value, request, estimate);
      ModelOfMore(pricing, before, request, total.value.model);
      AddingMoney(pricing, before, total.value.usd, request, estimate.usd);
      LabelsOfMore(pricing, before, total.value, request, estimate);
    }
  }

  /** What one request costs, part by part, and how it is labelled. */
  lemma {:induction false} PricedApart(pricing: Pricing, request: RequestUsage)
    requires RequestCost(pricing, request).Some?
    ensures var (cost, entry) := (RequestCost(pricing, request).value, Entry(pricing, request).value);
            && Entry(pricing, request).Some? && cost.model == pricing.normalize(request.model)
            && cost.usd.uncached == UncachedPart(pricing)(request) && cost.usd.cached == CachedPart(pricing)(request)
            && cost.usd.cacheWrite == CacheWritePart(pricing)(request) && cost.usd.output == OutputPart(pricing)(request)
            && cost.basis == "apiEquivalent" && cost.pricingVersion == entry.pricingVersion
            && cost.price == ModelPrice(entry.rates.input, entry.rates.cachedInput, entry.rates.output)
  {
  }

  lemma {:induction false} SummedMore(before: seq<RequestUsage>, request: RequestUsage, part: RequestUsage -> real)
    ensures Summed(before + [request], part) == Summed(before, part) + part(request)
  {
    var all := before + [request];
    if before == [] {
      assert all == [request] && all[1..] == [];
    } else {
      assert all[0] == before[0] && all[1..] == before[1..] + [request];
      SummedMore(before[1..], request, part);
    }
  }

  lemma {:induction false} FirstMoney(pricing: Pricing, request: RequestUsage, estimate: Cost)
    requires RequestCost(pricing, request) == Some(estimate)
    ensures SumsMoney(pricing, [request], estimate.usd) && Labels(pricing, [request], estimate) && NamesModel(pricing, [request], estimate.model)
  {
    PricedApart(pricing, request);
    assert [request][1..] == [];
  }

  lemma {:induction false} AddingMoney(pricing: Pricing, before: seq<RequestUsage>, sum: Dollars,
          request: RequestUsage, usd: Dollars)
    requires SumsMoney(pricing, before, sum) && RequestCost(pricing, request).Some? && usd == RequestCost(pricing, request).value.usd
    ensures SumsMoney(pricing, before + [request], AddDollars(sum, usd))
  {
    PricedApart(pricing, request);
    SummedMore(before, request, UncachedPart(pricing));
    SummedMore(before, request, CachedPart(pricing));
    SummedMore(before, request, CacheWritePart(pricing));
    SummedMore(before, request, OutputPart(pricing));
  }

  lemma {:induction false} LabelsOfMore(pricing: Pricing, before: seq<RequestUsage>, total: Cost,
          request: RequestUsage, estimate: Cost)
    requires before != [] && Labels(pricing, before, total) && NamesModel(pricing, before, total.model)
    requires RequestCost(pricing, request) == Some(estimate)
    ensures Labels(pricing, before + [request], AddCost(Some(total), estimate))
  {
    var all := before + [request];
    PricedApart(pricing, request);
    assert all[0] == before[0];
    OneModelMore(pricing, before, request);
  }

  lemma {:induction false} OneModelMore(pricing: Pricing, before: seq<RequestUsage>, request: RequestUsage)
    requires before != []
    ensures OneModel(pricing, before + [request]) <==>
            OneModel(pricing, before) && pricing.normalize(before[0].model) == pricing.normalize(request.model)
  {
    var all := before + [request];
    assert forall i :: 0 <= i < |before| ==> all[i] == before[i];
    assert all[|before|] == request;
  }

  lemma {:induction false} FirstNumbers(request: RequestUsage, estimate: Cost)
    requires Representable(request.tokens) && PricesRequest(request, estimate)
    ensures SumsTokens([request], estimate) && SumsPercent([request], estimate)
  {
    OneMore([], request);
    assert [] + [request] == [request];
    assert InputTokens([]) == 0;
    PercentIs(estimate.tokens.cached, request.tokens.input);
  }

  /** What every single estimate has: the request's own tokens, and a total that is the sum of its parts. */
  predicate PricesRequest(request: RequestUsage, estimate: Cost) {
    && estimate.tokens == Split(request.tokens)
    && TotalsParts(estimate.usd)
    && estimate.cacheHitPercent == Percent(estimate.tokens.cached, request.tokens.input)
  }

  lemma {:induction false} AddingTokens(before: seq<RequestUsage>, total: Cost, request: RequestUsage, estimate: Cost)
    requires Representable(request.tokens) && estimate.tokens == Split(request.tokens) && SumsTokens(before, total)
    ensures SumsTokens(before + [request], AddCost(Some(total), estimate))
  {
    OneMore(before, request);
    AddClipped(ExactTokens(before), Split(request.tokens));
  }

  lemma {:induction false} AddingPercent(before: seq<RequestUsage>, total: Cost, request: RequestUsage, estimate: Cost)
    requires SumsTokens(before + [request], AddCost(Some(total), estimate))
    ensures SumsPercent(before + [request], AddCost(Some(total), estimate))
  {
    var t := AddTokens(total.tokens, estimate.tokens);
    if InputTokens(before + [request]) <= U64_MAX { PercentOfExact(before + [request], t); }
    var counted := Wrapped(t.uncached + t.cached + t.cacheWrite);
    assert AddCost(Some(total), estimate).cacheHitPercent == Percent(t.cached, counted);
    PercentIs(t.cached, counted);
  }

  lemma {:induction false} PercentIs(part: nat, total: nat)
    ensures IsPercent(Percent(part, total), part, total)
  {
    if total > 0 {
      var p, t := part as real, total as real;
      assert p / t * t == p;
      assert p / t * 100.0 * t == p / t * t * 100.0;
    }
  }

  lemma {:induction false} PercentOfExact(requests: seq<RequestUsage>, t: Tokens)
    requires t == Clip(ExactTokens(requests)) && InputTokens(requests) <= U64_MAX
    ensures Wrapped(t.uncached + t.cached + t.cacheWrite) == InputTokens(requests)
  {
    PartsMakeInput(requests);
  }

  function PlusTokens(a: Tokens, b: Tokens): (t: Tokens) {
    Tokens(a.uncached + b.uncached, a.cached + b.cached, a.cacheWrite + b.cacheWrite, a.output + b.output)
  }

  lemma {:induction false} OneMore(before: seq<RequestUsage>, request: RequestUsage)
    ensures ExactTokens(before + [request]) == PlusTokens(ExactTokens(before), Split(request.tokens))
    ensures InputTokens(before + [request]) == InputTokens(before) + request.tokens.input
    ensures before == [] ==> ExactTokens(before + [request]) == Split(request.tokens)
  {
    assert (before + [request])[..|before|] == before;
    assert ExactTokens([]) == Tokens(0, 0, 0, 0);
  }

  lemma {:induction false} AddClipped(a: Tokens, b: Tokens)
    requires b.uncached <= U64_MAX && b.cached <= U64_MAX && b.cacheWrite <= U64_MAX && b.output <= U64_MAX
    ensures AddTokens(Clip(a), b) == Clip(PlusTokens(a, b))
  {
  }

  lemma {:induction false} ModelOfMore(pricing: Pricing, before: seq<RequestUsage>, request: RequestUsage, model: string)
    requires before != [] && NamesModel(pricing, before, model)
    ensures NamesModel(pricing, before + [request], if model == pricing.normalize(request.model) then model else "mixed")
  {
    var all := before + [request];
    assert forall i :: 0 <= i < |before| ==> all[i] == before[i];
    assert all[|before|] == request;
    if i, j :| 0 <= i < |before| && 0 <= j < |before| && pricing.normalize(before[i].model) != pricing.normalize(before[j].model) {
      assert pricing.normalize(all[i].model) != pricing.normalize(all[j].model);
    } else if model != pricing.normalize(request.model) {
      assert pricing.normalize(all[0].model) != pricing.normalize(all[|before|].model);
    }
  }

  /** The three input parts make up the input, over any number of requests. */
  lemma {:induction false} PartsMakeInput(requests: seq<RequestUsage>)
    ensures var t := ExactTokens(requests); t.uncached + t.cached + t.cacheWrite == InputTokens(requests)
  {
    if requests != [] { PartsMakeInput(requests[..|requests| - 1]); }
  }

  /** Nothing is lost from the input parts, and their unchecked sum fits, exactly while the whole input fits its counter. */
  lemma {:induction false} NothingIsLostBelowSaturation(pricing: Pricing, requests: seq<RequestUsage>, cost: Cost)
    requires Sums(pricing, requests, cost)
    ensures var (t, exact) := (cost.tokens, ExactTokens(requests));
            InputTokens(requests) <= U64_MAX <==>
            t.uncached == exact.uncached && t.cached == exact.cached && t.cacheWrite == exact.cacheWrite && t.uncached + t.cached + t.cacheWrite <= U64_MAX
    ensures InputTokens(requests) <= U64_MAX ==> cost.tokens.uncached + cost.tokens.cached + cost.tokens.cacheWrite == InputTokens(requests)
  {
    PartsMakeInput(requests);
  }
}
