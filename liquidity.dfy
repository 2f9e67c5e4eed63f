/** app/utils/liquidity_filter.py: per-event checks that both outcomes are quoted, priced
    and deep enough, the all-or-nothing filter built on them, and summary counts. */
module Liquidity {
  import opened Models
  import opened Seqs

  /** The quotes for one outcome of `event`, in input order. */
  function OutcomeQuotes(quotes: seq<MarketQuote>, event: string, side: Side): seq<MarketQuote>
  {
    Filter(quotes, (q: MarketQuote) => q.event == event && q.outcome == side)
  }

  /** `has_both_outcomes`. */
  predicate HasBothOutcomes(quotes: seq<MarketQuote>, event: string)
  {
    var events := set q | q in quotes && q.event == event :: q.event;
    var outcomes := set q | q in quotes && q.event == event :: q.outcome;
    events != {} && Yes in outcomes && No in outcomes
  }

  /** `has_valid_prices`. */
  predicate HasValidPrices(quotes: seq<MarketQuote>, event: string)
  {
    var yes := OutcomeQuotes(quotes, event, Yes);
    var no := OutcomeQuotes(quotes, event, No);
    yes != [] && no != [] && (exists q :: q in yes && q.price > 0.0) && (exists q :: q in no && q.price > 0.0)
  }

  /** `has_minimum_liquidity`. */
  predicate HasMinimumLiquidity(quotes: seq<MarketQuote>, event: string, minSize: real)
  {
    var yes := OutcomeQuotes(quotes, event, Yes);
    var no := OutcomeQuotes(quotes, event, No);
    yes != [] && no != [] && (exists q :: q in yes && q.size >= minSize) && (exists q :: q in no && q.size >= minSize)
  }

  /** Some quote of `event` is for `side`. */
  ghost predicate Quoted(quotes: seq<MarketQuote>, event: string, side: Side)
  {
    exists q :: q in quotes && q.event == event && q.outcome == side
  }

  /** Some quote of `event` for `side` has a positive price. */
  ghost predicate Priced(quotes: seq<MarketQuote>, event: string, side: Side)
  {
    exists q :: q in quotes && q.event == event && q.outcome == side && q.price > 0.0
  }

  /** Some quote of `event` for `side` has at least `minSize`. */
  ghost predicate Deep(quotes: seq<MarketQuote>, event: string, side: Side, minSize: real)
  {
    exists q :: q in quotes && q.event == event && q.outcome == side && q.size >= minSize
  }

  lemma OutcomeQuotesMembership(quotes: seq<MarketQuote>, event: string, side: Side, q: MarketQuote)
    ensures q in OutcomeQuotes(quotes, event, side) <==> q in quotes && q.event == event && q.outcome == side
  {
    FilterMembership(quotes, (q: MarketQuote) => q.event == event && q.outcome == side, q);
  }

  /** `has_both_outcomes` holds exactly when the event has a YES quote and a NO quote. */
  lemma HasBothOutcomesSpec(quotes: seq<MarketQuote>, event: string)
    ensures HasBothOutcomes(quotes, event) <==>
      Quoted(quotes, event, Yes) && Quoted(quotes, event, No)
  {
    var events := set q | q in quotes && q.event == event :: q.event;
    var outcomes := set q | q in quotes && q.event == event :: q.outcome;
    if Quoted(quotes, event, Yes) && Quoted(quotes, event, No) {
      var y :| y in quotes && y.event == event && y.outcome == Yes;
      var n :| n in quotes && n.event == event && n.outcome == No;
      assert Yes in outcomes && No in outcomes && event in events;
    }
  }

  /** `has_valid_prices` holds exactly when some YES and some NO quote of the event have a
      positive price. */
  lemma HasValidPricesSpec(quotes: seq<MarketQuote>, event: string)
    ensures HasValidPrices(quotes, event) <==>
      Priced(quotes, event, Yes) && Priced(quotes, event, No)
  {
    forall q
      ensures q in OutcomeQuotes(quotes, event, Yes) <==> q in quotes && q.event == event && q.outcome == Yes
      ensures q in OutcomeQuotes(quotes, event, No) <==> q in quotes && q.event == event && q.outcome == No
    {
      OutcomeQuotesMembership(quotes, event, Yes, q);
      OutcomeQuotesMembership(quotes, event, No, q);
    }
  }

  /** `has_minimum_liquidity` holds exactly when some YES and some NO quote of the event
      have at least `minSize`. */
  lemma HasMinimumLiquiditySpec(quotes: seq<MarketQuote>, event: string, minSize: real)
    ensures HasMinimumLiquidity(quotes, event, minSize) <==>
      Deep(quotes, event, Yes, minSize) && Deep(quotes, event, No, minSize)
  {
    forall q
      ensures q in OutcomeQuotes(quotes, event, Yes) <==> q in quotes && q.event == event && q.outcome == Yes
      ensures q in OutcomeQuotes(quotes, event, No) <==> q in quotes && q.event == event && q.outcome == No
    {
      OutcomeQuotesMembership(quotes, event, Yes, q);
      OutcomeQuotesMembership(quotes, event, No, q);
    }
  }

  /** Every YES and NO quote of `event` is priced at least `minPrice`. */
  predicate AllPricedAtLeast(quotes: seq<MarketQuote>, event: string, minPrice: real)
  {
    var yes := OutcomeQuotes(quotes, event, Yes);
    var no := OutcomeQuotes(quotes, event, No);
    forall q :: q in yes + no ==> q.price >= minPrice
  }

  /** The checks `filter_by_liquidity` applies to one event (lines 103-119). */
  predicate EventPasses(quotes: seq<MarketQuote>, event: string, requireBoth: bool, minPrice: real, minSize: real)
  {
    && (!requireBoth || HasBothOutcomes(quotes, event))
    && (if minPrice == 0.0 then HasValidPrices(quotes, event)
        else OutcomeQuotes(quotes, event, Yes) != [] && OutcomeQuotes(quotes, event, No) != []
             && AllPricedAtLeast(quotes, event, minPrice))
    && (!(minSize > 0.0) || HasMinimumLiquidity(quotes, event, minSize))
  }

  /** The kept quotes: those whose event passes. */
  function KeptQuotes(quotes: seq<MarketQuote>, requireBoth: bool, minPrice: real, minSize: real): seq<MarketQuote>
  {
    Filter(quotes, (q: MarketQuote) => EventPasses(quotes, q.event, requireBoth, minPrice, minSize))
  }

  /** `filter_by_liquidity`: the loop over the events collecting `valid_events`, then the
      comprehension keeping their quotes. */
  method FilterByLiquidity(quotes: seq<MarketQuote>, requireBoth: bool, minPrice: real, minSize: real)
    returns (kept: seq<MarketQuote>)
    ensures quotes == [] ==> kept == quotes
    ensures kept == KeptQuotes(quotes, requireBoth, minPrice, minSize)
  {
    if quotes == [] {
      return quotes;
    }
    var events := set q | q in quotes :: q.event;
    var order := Enumerate(events);
    var valid: set<string> := {};
    for i := 0 to |order|
      invariant forall e :: e in valid <==> e in order[..i] && EventPasses(quotes, e, requireBoth, minPrice, minSize)
    {
      var e := order[i];
      assert order[..i + 1] == order[..i] + [e];
      if EventPasses(quotes, e, requireBoth, minPrice, minSize) {
        valid := valid + {e};
      }
    }
    assert order[..|order|] == order;
    var inValid := (q: MarketQuote) => q.event in valid;
    kept := Filter(quotes, inValid);
    forall q | q in quotes
      ensures inValid(q) <==> EventPasses(quotes, q.event, requireBoth, minPrice, minSize)
    {
      assert q.event in events;
    }
    FilterCongruent(quotes, inValid, (q: MarketQuote) => EventPasses(quotes, q.event, requireBoth, minPrice, minSize));
  }

  /** The result is an order-preserving subsequence of the input, and an event keeps all
      of its quotes or none of them. */
  lemma KeptQuotesShape(quotes: seq<MarketQuote>, requireBoth: bool, minPrice: real, minSize: real,
                        q1: MarketQuote, q2: MarketQuote)
    requires q1 in quotes && q2 in quotes && q1.event == q2.event
    ensures IsSubsequence(KeptQuotes(quotes, requireBoth, minPrice, minSize), quotes)
    ensures q1 in KeptQuotes(quotes, requireBoth, minPrice, minSize) <==> q2 in KeptQuotes(quotes, requireBoth, minPrice, minSize)
  {
    var p := (q: MarketQuote) => EventPasses(quotes, q.event, requireBoth, minPrice, minSize);
    var idx := FilterIsSubsequence(quotes, p);
    FilterMembership(quotes, p, q1);
    FilterMembership(quotes, p, q2);
  }

  /** With `min_price == 0`, a kept event has a YES and a NO quote priced above zero, even
      when both outcomes are not required. */
  lemma KeptWithZeroMinPriceArePriced(quotes: seq<MarketQuote>, requireBoth: bool, minSize: real, q: MarketQuote)
    requires q in KeptQuotes(quotes, requireBoth, 0.0, minSize)
    ensures Priced(quotes, q.event, Yes) && Priced(quotes, q.event, No)
  {
    FilterMembership(quotes, (q: MarketQuote) => EventPasses(quotes, q.event, requireBoth, 0.0, minSize), q);
    HasValidPricesSpec(quotes, q.event);
  }

  /** With a positive `min_price`, every quote of a kept event is priced at least
      `min_price`. */
  lemma KeptWithMinPriceAreAboveIt(quotes: seq<MarketQuote>, requireBoth: bool, minPrice: real, minSize: real,
                                   q: MarketQuote, q': MarketQuote)
    requires minPrice > 0.0
    requires q in KeptQuotes(quotes, requireBoth, minPrice, minSize)
    requires q' in quotes && q'.event == q.event
    ensures q'.price >= minPrice
  {
    FilterMembership(quotes, (q: MarketQuote) => EventPasses(quotes, q.event, requireBoth, minPrice, minSize), q);
    OutcomeQuotesMembership(quotes, q.event, q'.outcome, q');
    var yes := OutcomeQuotes(quotes, q.event, Yes);
    var no := OutcomeQuotes(quotes, q.event, No);
    assert q' in yes + no;
  }

  /** The numbers `get_liquidity_summary` reports. */
  datatype Summary = Summary(
    totalEvents: nat,
    eventsWithBothOutcomes: nat,
    eventsWithValidPrices: nat,
    yesQuotesWithPrice: nat,
    noQuotesWithPrice: nat,
    totalQuotes: nat)

  /** `get_liquidity_summary`. */
  function LiquiditySummary(quotes: seq<MarketQuote>): (r: Summary)
    ensures r.totalQuotes == |quotes|
  {
    var events := set q | q in quotes :: q.event;
    Summary(
      |events|,
      |set e | e in events && HasBothOutcomes(quotes, e)|,
      |set e | e in events && HasValidPrices(quotes, e)|,
      |Filter(quotes, (q: MarketQuote) => q.outcome == Yes && q.price > 0.0)|,
      |Filter(quotes, (q: MarketQuote) => q.outcome == No && q.price > 0.0)|,
      |quotes|)
  }

  /** An event with valid prices has both outcomes, so the counts are ordered. */
  lemma SummaryCountsOrdered(quotes: seq<MarketQuote>)
    ensures LiquiditySummary(quotes).eventsWithValidPrices <= LiquiditySummary(quotes).eventsWithBothOutcomes
    ensures LiquiditySummary(quotes).eventsWithBothOutcomes <= LiquiditySummary(quotes).totalEvents
    ensures LiquiditySummary(quotes).yesQuotesWithPrice + LiquiditySummary(quotes).noQuotesWithPrice <= |quotes|
  {
    var events := set q | q in quotes :: q.event;
    var both := set e | e in events && HasBothOutcomes(quotes, e);
    var priced := set e | e in events && HasValidPrices(quotes, e);
    forall e | e in priced
      ensures e in both
    {
      HasValidPricesSpec(quotes, e);
      HasBothOutcomesSpec(quotes, e);
    }
    SubsetSize(priced, both);
    SubsetSize(both, events);
    PricedCountsBounded(quotes);
  }

  lemma SubsetSize<T>(a: set<T>, b: set<T>)
    requires a <= b
    ensures |a| <= |b|
  {
    assert b == a + (b - a);
  }

  /** Priced YES quotes and priced NO quotes are disjoint parts of the input. */
  lemma {:induction false} PricedCountsBounded(quotes: seq<MarketQuote>)
    ensures |Filter(quotes, (q: MarketQuote) => q.outcome == Yes && q.price > 0.0)|
          + |Filter(quotes, (q: MarketQuote) => q.outcome == No && q.price > 0.0)| <= |quotes|
  {
    if quotes != [] {
      PricedCountsBounded(quotes[..|quotes| - 1]);
    }
  }
}
