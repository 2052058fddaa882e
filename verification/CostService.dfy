/**
 What a project may spend: the quotes and gates of core/cost_service.py, and the request parameters of
 pipeline/generation_plan.py they price. Money is counted in micro-units, time in milliseconds. A currency that is
 empty or NULL is None.
 */
module CostService {
  import opened Prelude

  datatype Charge = Charge(amount: nat, currency: Option<string>)

  /** A quote of None is an estimate the provider marks unknown. */
  datatype VideoProvider = VideoProvider(charges: bool, durations: set<nat>, resolutions: set<string>,
                                         price: (nat, string) -> Option<Charge>)

  function Amount(cost: Option<Charge>): nat {
    if cost.Some? then cost.value.amount else 0
  }

  const PREFERRED := "360p"
  const DEFAULT_SHOT_MS: nat := 2000

  // ---- request parameters ----------------------------------------------------------------------------------

  lemma WithoutOne(s: set<nat>, a: nat)
    requires a in s
    ensures forall y :: y in s ==> y == a || y in s - {a}
  {
  }

  lemma {:induction false} FindLeast(s: set<nat>) returns (least: nat)
    requires s != {}
    ensures least in s && forall y :: y in s ==> least <= y
  {
    least :| least in s;
    var rest := s - {least};
    WithoutOne(s, least);
    if rest != {} {
      var other := FindLeast(rest);
      if other < least { least := other; }
    }
  }

  function Least(s: set<nat>): (least: nat)
    requires s != {}
    ensures least in s && forall x :: x in s ==> least <= x
  {
    LeastExists(s);
    var x :| x in s && forall y :: y in s ==> x <= y;
    x
  }

  lemma LeastExists(s: set<nat>)
    requires s != {}
    ensures exists x :: x in s && forall y :: y in s ==> x <= y
  {
    var x := FindLeast(s);
  }

  /** The shortest supported duration that still covers the plan; None is a plan conflict. */
  function ResolveDuration(durations: set<nat>, planned: nat): (resolved: Option<nat>)
    ensures resolved.Some? ==>
              && resolved.value in durations && planned <= resolved.value
              && forall d :: d in durations && planned <= d ==> resolved.value <= d
    ensures resolved.None? <==> forall d :: d in durations ==> d < planned
  {
    if planned in durations then Some(planned)
    else
      var longer := set d | d in durations && d > planned;
      assert forall d :: d in durations && planned <= d ==> d in longer;
      if longer == {} then None else Some(Least(longer))
  }

  function ResolveResolution(supported: set<string>, preferred: string): (resolved: Option<string>)
    ensures resolved.Some? ==> resolved.value in supported
    ensures resolved == Some(preferred) <==> preferred in supported
    ensures resolved.None? <==> preferred !in supported && |supported| != 1
  {
    if preferred in supported then Some(preferred)
    else if |supported| == 1 then
      OnlyOne(supported);
      var only :| only in supported;
      Some(only)
    else None
  }

  lemma OnlyOne(s: set<string>)
    requires |s| == 1
    ensures forall x, y :: x in s && y in s ==> x == y
    ensures exists x :: x in s
  {
    var x :| x in s;
    assert |s - {x}| == 0;
    assert forall y :: y in s ==> y == x || y in s - {x};
  }

  /** The provider can generate a shot planned at this length at all. */
  predicate Generable(p: VideoProvider, planned: nat) {
    ResolveDuration(p.durations, planned).Some? && ResolveResolution(p.resolutions, PREFERRED).Some?
  }

  /** What the estimate prices: the resolved duration, at the preferred resolution. */
  function Quote(p: VideoProvider, planned: nat): Option<Charge>
    requires Generable(p, planned)
  {
    p.price(ResolveDuration(p.durations, planned).value, PREFERRED)
  }

  /** What the shot worker orders: the resolved duration, at the resolved resolution. */
  function OrderPrice(p: VideoProvider, planned: nat): Option<Charge>
    requires Generable(p, planned)
  {
    p.price(ResolveDuration(p.durations, planned).value, ResolveResolution(p.resolutions, PREFERRED).value)
  }

  predicate QuoteIsOrder(p: VideoProvider, planned: nat) {
    Generable(p, planned) ==> Quote(p, planned) == OrderPrice(p, planned)
  }

  /**
   The estimate promises to price the request the worker will make. It does, whatever the tariff, exactly when the
   provider supports the preferred resolution: otherwise it prices a resolution that is never ordered.
   */
  lemma QuotePricesTheOrderExactlyWhen(p: VideoProvider, planned: nat)
    requires Generable(p, planned)
    ensures (forall tariff: (nat, string) -> Option<Charge> :: QuoteIsOrder(p.(price := tariff), planned))
            <==> PREFERRED in p.resolutions
  {
    if PREFERRED !in p.resolutions {
      var tariff: (nat, string) -> Option<Charge> := (d, r) => if r == PREFERRED then None else Some(Charge(1, None));
      assert !QuoteIsOrder(p.(price := tariff), planned);
    }
  }

  // ---- the project estimate --------------------------------------------------------------------------------

  datatype Estimate = Estimate(known: bool, amount: Option<nat>, currency: Option<string>, unpriced: nat)

  datatype Estimated = Estimated(estimate: Estimate) | PlanConflict | BadTakes

  ghost predicate AllGenerable(p: VideoProvider, plans: seq<nat>) {
    forall planned :: planned in plans ==> Generable(p, planned)
  }

  /** The price of one take of every shot that has a price. */
  ghost function PricedOnce(p: VideoProvider, plans: seq<nat>): nat
    requires AllGenerable(p, plans)
  {
    if plans == [] then 0
    else
      var quote := Quote(p, plans[|plans| - 1]);
      PricedOnce(p, plans[..|plans| - 1]) + if quote.Some? then quote.value.amount else 0
  }

  ghost function Unpriced(p: VideoProvider, plans: seq<nat>): nat
    requires AllGenerable(p, plans)
  {
    if plans == [] then 0
    else Unpriced(p, plans[..|plans| - 1]) + if Quote(p, plans[|plans| - 1]).None? then 1 else 0
  }

  ghost function Currencies(p: VideoProvider, plans: seq<nat>): set<string>
    requires AllGenerable(p, plans)
  {
    if plans == [] then {}
    else
      var quote := Quote(p, plans[|plans| - 1]);
      Currencies(p, plans[..|plans| - 1])
      + if quote.Some? && quote.value.currency.Some? then {quote.value.currency.value} else {}
  }

  ghost predicate IsEstimate(e: Estimate, p: VideoProvider, plans: seq<nat>, takes: nat)
    requires AllGenerable(p, plans)
  {
    var currencies := Currencies(p, plans);
    && e.unpriced == Unpriced(p, plans)
    && e.known == (e.unpriced == 0 && plans != [] && |currencies| <= 1)
    && e.amount == (if |currencies| == 1 then Some(takes * PricedOnce(p, plans)) else None)
    && e.currency.Some? == (|currencies| == 1) && (e.currency.Some? ==> e.currency.value in currencies)
  }

  method EstimateProjectCost(p: VideoProvider, plans: seq<nat>, takes: int) returns (r: Estimated)
    ensures r.BadTakes? <==> takes < 1
    ensures r.PlanConflict? <==> takes >= 1 && !AllGenerable(p, plans)
    ensures r.Estimated? ==> takes >= 1 && AllGenerable(p, plans) && IsEstimate(r.estimate, p, plans, takes)
  {
    if takes < 1 { return BadTakes; }
    var total, unpriced, currencies := 0, 0, {};
    for k := 0 to |plans|
      invariant AllGenerable(p, plans[..k])
      invariant total == takes * PricedOnce(p, plans[..k])
      invariant unpriced == Unpriced(p, plans[..k]) && currencies == Currencies(p, plans[..k])
    {
      if !Generable(p, plans[k]) {
        assert plans[k] in plans;
        return PlanConflict;
      }
      assert plans[..k + 1][..k] == plans[..k];
      var quote := p.price(ResolveDuration(p.durations, plans[k]).value, PREFERRED);
      if quote.None? {
        unpriced := unpriced + 1;
      } else {
        total := AddTakes(total, takes, PricedOnce(p, plans[..k]), quote.value.amount);
        if quote.value.currency.Some? { currencies := currencies + {quote.value.currency.value}; }
      }
    }
    assert plans[..|plans|] == plans;
    if |currencies| > 1 { return Estimated(Estimate(false, None, None, unpriced)); }
    if currencies == {} { return Estimated(Estimate(unpriced == 0 && plans != [], None, None, unpriced)); }
    OnlyOne(currencies);
    var currency :| currency in currencies;
    return Estimated(Estimate(unpriced == 0 && plans != [], Some(total), Some(currency), unpriced));
  }

  method AddTakes(total: nat, takes: nat, ghost once: nat, amount: nat) returns (sum: nat)
    requires total == takes * once
    ensures sum == takes * (once + amount)
  {
    sum := total + amount * takes;
  }

  // ---- the gates -------------------------------------------------------------------------------------------

  datatype Gate = Allowed | PaidNotAllowed | Exceeded | CurrencyMismatch

  /** A project's spending position. */
  datatype Budget = Budget(limit: Option<nat>, currency: Option<string>, spent: nat)

  /** No exchange rates are invented. */
  predicate Mismatched(b: Budget, currency: Option<string>) {
    currency.Some? && b.currency.Some? && currency != b.currency
  }

  /** The double gate: a provider that charges needs the operator's switch and the project's own limit, both. */
  function PaidGate(b: Budget, charges: bool, allowPaid: bool): (gate: Gate)
    ensures gate.Allowed? <==> charges ==> allowPaid && b.limit.Some?
    ensures gate.PaidNotAllowed? <==> charges && (!allowPaid || b.limit.None?)
  {
    if charges && (!allowPaid || b.limit.None?) then PaidNotAllowed else Allowed
  }

  function WithinBudget(b: Budget, amount: Option<nat>, currency: Option<string>): (gate: Gate)
    ensures gate.Allowed? <==>
              b.limit.Some? ==>
                && amount.Some? && b.spent + amount.value <= b.limit.value
                && (currency.Some? && b.currency.Some? ==> currency == b.currency)
    ensures gate.CurrencyMismatch? <==>
              b.limit.Some? && amount.Some? && currency.Some? && b.currency.Some? && currency != b.currency
    ensures !gate.PaidNotAllowed?
  {
    if b.limit.None? then Allowed
    else if amount.None? then Exceeded
    else if Mismatched(b, currency) then CurrencyMismatch
    else if b.spent + amount.value > b.limit.value then Exceeded
    else Allowed
  }

  /** record_spend: None is a bill in a foreign currency, which is refused rather than converted. */
  function RecordSpend(b: Budget, charge: Option<Charge>): Option<Budget> {
    if charge.None? then Some(b)
    else if Mismatched(b, charge.value.currency) then None
    else Some(b.(spent := b.spent + charge.value.amount))
  }

  /** Refused exactly for two named currencies that differ; otherwise the amount is added and nothing else changes. */
  lemma BookedExactlyWhen(b: Budget, charge: Option<Charge>)
    ensures RecordSpend(b, charge) ==
            if charge.Some? && charge.value.currency.Some? && b.currency.Some?
               && charge.value.currency.value != b.currency.value
            then None else Some(Budget(b.limit, b.currency, b.spent + Amount(charge)))
  {
  }

  /**
   set_budget: None is a refusal. A limit is a positive amount in a named currency, at least what was already spent,
   and never in another currency than the one money was spent in.
   */
  function SetBudget(b: Budget, limit: Option<int>, currency: Option<string>): (set_: Option<Budget>)
    // Refused exactly when a limit is named that is not positive, has no currency, is already spent, or would
    // redenominate what was spent.
    ensures set_.None? <==> limit.Some? && (limit.value <= 0 || currency.None? || limit.value < b.spent
                                            || (b.spent > 0 && b.currency.Some? && currency != b.currency))
    ensures set_.Some? ==>
              set_.value.spent == b.spent
              && if limit.Some? then set_.value.limit == Some(limit.value) && set_.value.currency == currency
                 else set_.value.limit.None? && set_.value.currency == b.currency
    ensures set_.Some? && set_.value.limit.Some? ==> b.spent <= set_.value.limit.value && set_.value.currency.Some?
    ensures set_.Some? && b.spent > 0 && b.currency.Some? ==> set_.value.currency == b.currency
  {
    if limit.None? then Some(b.(limit := None))
    else if limit.value <= 0 || currency.None? || limit.value < b.spent then None
    else if b.currency.Some? && currency != b.currency && b.spent > 0 then None
    else Some(b.(limit := Some(limit.value), currency := currency))
  }

  // ---- what approving the shots promises ---------------------------------------------------------------------

  /** The provider an approval prices with: given, resolved for the project, or none at all. */
  datatype Pricing = PricedBy(provider: VideoProvider) | NothingToPriceWith

  /** _assert_generation_affordable raises exactly when this is false. */
  ghost predicate GenerationAffordable(b: Budget, plans: seq<nat>, pricing: Pricing, allowPaid: bool, takes: nat) {
    match pricing
    case NothingToPriceWith => !allowPaid
    case PricedBy(p) =>
      && PaidGate(b, p.charges, allowPaid).Allowed?
      && AllGenerable(p, plans)
      && (b.limit.Some? ==>
            && takes >= 1 && Unpriced(p, plans) == 0 && plans != [] && |Currencies(p, plans)| == 1
            && b.spent + takes * PricedOnce(p, plans) <= b.limit.value
            && forall c :: c in Currencies(p, plans) ==> !Mismatched(b, Some(c)))
  }

  method AssertGenerationAffordable(b: Budget, plans: seq<nat>, pricing: Pricing, allowPaid: bool, takes: nat)
    returns (ok: bool)
    ensures ok <==> GenerationAffordable(b, plans, pricing, allowPaid, takes)
    ensures ok && pricing.PricedBy? && pricing.provider.charges ==> allowPaid && b.limit.Some?
    ensures pricing.NothingToPriceWith? ==> ok == !allowPaid
  {
    if pricing.NothingToPriceWith? { return !allowPaid; }
    var p := pricing.provider;
    if !PaidGate(b, p.charges, allowPaid).Allowed? { return false; }
    for k := 0 to |plans|
      invariant AllGenerable(p, plans[..k])
    {
      if !Generable(p, plans[k]) {
        assert plans[k] in plans;
        return false;
      }
    }
    assert plans[..|plans|] == plans;
    if b.limit.None? { return true; }
    var r := EstimateProjectCost(p, plans, takes);
    if !r.Estimated? || !r.estimate.known { return false; }
    ok := WithinBudget(b, r.estimate.amount, r.estimate.currency).Allowed?;
    if r.estimate.currency.Some? { OnlyOne(Currencies(p, plans)); }
  }

  /** The price of one take: the shortest supported duration that covers the plan, at 360p. */
  ghost predicate Prices(p: VideoProvider, planned: nat, quote: Option<Charge>) {
    exists d :: d in p.durations && planned <= d && quote == p.price(d, "360p")
                && forall shorter :: shorter in p.durations && planned <= shorter ==> d <= shorter
  }

  /** One quote for every planned length. */
  ghost predicate Quoted(p: VideoProvider, plans: seq<nat>, quotes: seq<Option<Charge>>) {
    |quotes| == |plans| && forall i :: 0 <= i < |plans| ==> Prices(p, plans[i], quotes[i])
  }

  function Amounts(quotes: seq<Option<Charge>>): seq<nat> {
    seq(|quotes|, i requires 0 <= i < |quotes| => Amount(quotes[i]))
  }

  function WithoutPrice(quotes: seq<Option<Charge>>): set<int> {
    set i | 0 <= i < |quotes| && quotes[i].None?
  }

  lemma QuotesArePrices(p: VideoProvider, planned: nat, quote: Option<Charge>)
    requires Generable(p, planned)
    ensures Prices(p, planned, quote) <==> quote == Quote(p, planned)
  {
    var d := ResolveDuration(p.durations, planned).value;
    assert Prices(p, planned, p.price(d, "360p"));
  }

  lemma ShorterBill(p: VideoProvider, plans: seq<nat>, quotes: seq<Option<Charge>>)
    requires AllGenerable(p, plans) && Quoted(p, plans, quotes) && plans != []
    ensures var n := |plans| - 1;
            && AllGenerable(p, plans[..n]) && Quoted(p, plans[..n], quotes[..n])
            && Generable(p, plans[n]) && quotes[n] == Quote(p, plans[n])
  {
    var n := |plans| - 1;
    assert plans[n] in plans;
    QuotesArePrices(p, plans[n], quotes[n]);
  }

  lemma {:induction false} PricesAddUp(p: VideoProvider, plans: seq<nat>, quotes: seq<Option<Charge>>)
    requires AllGenerable(p, plans) && Quoted(p, plans, quotes)
    ensures PricedOnce(p, plans) == Sum(Amounts(quotes))
  {
    if plans != [] {
      var n := |plans| - 1;
      ShorterBill(p, plans, quotes);
      PricesAddUp(p, plans[..n], quotes[..n]);
      assert Amounts(quotes)[..n] == Amounts(quotes[..n]);
    }
  }

  lemma OneMoreQuote(quotes: seq<Option<Charge>>, last: Option<Charge>)
    ensures |WithoutPrice(quotes + [last])| == |WithoutPrice(quotes)| + if last.None? then 1 else 0
  {
    var n, before, after := |quotes|, WithoutPrice(quotes), WithoutPrice(quotes + [last]);
    assert n !in before;
    if last.None? { assert after == before + {n}; } else { assert after == before; }
  }

  lemma {:induction false} MissingPricesAreCounted(p: VideoProvider, plans: seq<nat>, quotes: seq<Option<Charge>>)
    requires AllGenerable(p, plans) && Quoted(p, plans, quotes)
    ensures Unpriced(p, plans) == |WithoutPrice(quotes)|
  {
    if plans != [] {
      var n := |plans| - 1;
      ShorterBill(p, plans, quotes);
      MissingPricesAreCounted(p, plans[..n], quotes[..n]);
      OneMoreQuote(quotes[..n], quotes[n]);
      assert quotes == quotes[..n] + [quotes[n]];
    }
  }

  predicate Names(quotes: seq<Option<Charge>>, currency: string) {
    exists i :: 0 <= i < |quotes| && quotes[i].Some? && quotes[i].value.currency == Some(currency)
  }

  lemma {:induction false} CurrenciesAreCollected(p: VideoProvider, plans: seq<nat>, quotes: seq<Option<Charge>>,
                                                  currency: string)
    requires AllGenerable(p, plans) && Quoted(p, plans, quotes)
    ensures currency in Currencies(p, plans) <==> Names(quotes, currency)
  {
    if plans != [] {
      var n := |plans| - 1;
      ShorterBill(p, plans, quotes);
      CurrenciesAreCollected(p, plans[..n], quotes[..n], currency);
      assert Names(quotes, currency) <==>
             Names(quotes[..n], currency) || (quotes[n].Some? && quotes[n].value.currency == Some(currency));
    }
  }

  /** The estimate counts the quotes: their sum, how many are missing, and every currency among them. */
  lemma EstimateCountsQuotes(p: VideoProvider, plans: seq<nat>, quotes: seq<Option<Charge>>)
    requires AllGenerable(p, plans) && Quoted(p, plans, quotes)
    ensures PricedOnce(p, plans) == Sum(Amounts(quotes)) && Unpriced(p, plans) == |WithoutPrice(quotes)|
    ensures forall c :: c in Currencies(p, plans) <==> Names(quotes, c)
  {
    PricesAddUp(p, plans, quotes);
    MissingPricesAreCounted(p, plans, quotes);
    forall c ensures c in Currencies(p, plans) <==> Names(quotes, c) { CurrenciesAreCollected(p, plans, quotes, c); }
  }

  lemma {:induction false} EveryPlanHasAQuote(p: VideoProvider, plans: seq<nat>) returns (quotes: seq<Option<Charge>>)
    requires AllGenerable(p, plans)
    ensures Quoted(p, plans, quotes)
  {
    quotes := [];
    if plans != [] {
      var n := |plans| - 1;
      assert plans[n] in plans;
      quotes := EveryPlanHasAQuote(p, plans[..n]);
      QuotesArePrices(p, plans[n], Quote(p, plans[n]));
      quotes := quotes + [Quote(p, plans[n])];
    }
  }

  /**
   The promise of the cost gate, shot by shot: every shot has a price, at the shortest supported duration that covers
   its plan, no price is in a foreign currency, and paying for every take of every shot stays within the limit.
   */
  lemma AffordableMeansPayable(b: Budget, plans: seq<nat>, p: VideoProvider, allowPaid: bool, takes: nat)
    returns (quotes: seq<Option<Charge>>)
    requires GenerationAffordable(b, plans, PricedBy(p), allowPaid, takes) && b.limit.Some?
    ensures Quoted(p, plans, quotes) && takes >= 1 && plans != []
    ensures forall i :: 0 <= i < |quotes| ==>
              quotes[i].Some? && (quotes[i].value.currency.Some? && b.currency.Some? ==>
                                    quotes[i].value.currency == b.currency)
    ensures b.spent + takes * Sum(Amounts(quotes)) <= b.limit.value
  {
    quotes := EveryPlanHasAQuote(p, plans);
    EstimateCountsQuotes(p, plans, quotes);
    forall i | 0 <= i < |quotes| ensures quotes[i].Some? { assert i !in WithoutPrice(quotes); }
  }
}
