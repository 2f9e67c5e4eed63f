/** app/utils/slippage_protection.py: walking order-book levels to an average fill price,
    the depth available within a price-impact bound, and capping an arbitrage's notional
    by the depth of both legs. */
module Slippage {
  import opened Wrappers
  import opened Models

  /** The cost of taking `take` shares at one level. */
  function LevelCost(take: real, level: OrderLevel): real
  {
    take * level.price
  }

  /** What a fill of `need` more shares takes from `levels`, best level first: the shares
      filled and their total cost. The walk stops as soon as nothing is needed. */
  function FillFrom(levels: seq<OrderLevel>, need: real): (r: (real, real))
    ensures need <= 0.0 || levels == [] ==> r == (0.0, 0.0)
  {
    if levels == [] || need <= 0.0 then (0.0, 0.0)
    else
      var take := Min(need, levels[0].size);
      var rest := FillFrom(levels[1..], need - take);
      (take + rest.0, LevelCost(take, levels[0]) + rest.1)
  }

  /** `estimate_fill_price(levels, target_size)` as a value: `(average price, total cost)`. */
  function FillPrice(levels: seq<OrderLevel>, target: real): (r: (real, real))
    ensures levels == [] || target <= 0.0 ==> r == (0.0, 0.0)
    ensures FillFrom(levels, target).0 == 0.0 ==> r == (0.0, 0.0)
  {
    if levels == [] || target <= 0.0 then (0.0, 0.0)
    else
      var (filled, cost) := FillFrom(levels, target);
      if filled == 0.0 then (0.0, 0.0) else (cost / filled, cost)
  }

  /** One step of the walk. */
  lemma FillFromStep(levels: seq<OrderLevel>, need: real)
    requires levels != [] && need > 0.0
    ensures var take := Min(need, levels[0].size);
      FillFrom(levels, need) == (take + FillFrom(levels[1..], need - take).0,
                                 LevelCost(take, levels[0]) + FillFrom(levels[1..], need - take).1)
  {
  }

  /** Splitting the walk after the first `i` levels. */
  lemma FillFromSplit(levels: seq<OrderLevel>, need: real, i: nat, filled: real, cost: real)
    requires i < |levels| && need - filled > 0.0
    requires FillFrom(levels, need).0 == filled + FillFrom(levels[i..], need - filled).0
    requires FillFrom(levels, need).1 == cost + FillFrom(levels[i..], need - filled).1
    ensures var take := Min(need - filled, levels[i].size);
      && FillFrom(levels, need).0 == filled + take + FillFrom(levels[i + 1..], need - (filled + take)).0
      && FillFrom(levels, need).1 == cost + LevelCost(take, levels[i]) + FillFrom(levels[i + 1..], need - (filled + take)).1
  {
    var t := levels[i..];
    var take := Min(need - filled, levels[i].size);
    var rest := FillFrom(levels[i + 1..], need - (filled + take));
    assert FillFrom(t, need - filled) == (take + rest.0, LevelCost(take, levels[i]) + rest.1) by {
      assert t[0] == levels[i] && t[1..] == levels[i + 1..];
      FillFromStep(t, need - filled);
      assert need - filled - take == need - (filled + take);
    }
  }

  /** `estimate_fill_price`: the loop over the levels with its early exit. */
  method EstimateFillPrice(levels: seq<OrderLevel>, target: real) returns (avg: real, totalCost: real)
    ensures (avg, totalCost) == FillPrice(levels, target)
  {
    if levels == [] || target <= 0.0 {
      return 0.0, 0.0;
    }
    var filled, cost := 0.0, 0.0;
    var i := 0;
    while i < |levels|
      invariant 0 <= i <= |levels|
      invariant FillFrom(levels, target).0 == filled + FillFrom(levels[i..], target - filled).0
      invariant FillFrom(levels, target).1 == cost + FillFrom(levels[i..], target - filled).1
    {
      if filled >= target {
        break;
      }
      FillFromSplit(levels, target, i, filled, cost);
      var take := Min(target - filled, levels[i].size);
      filled := filled + take;
      cost := cost + LevelCost(take, levels[i]);
      i := i + 1;
    }
    if filled == 0.0 {
      return 0.0, 0.0;
    }
    avg, totalCost := cost / filled, cost;
  }

  /** Never more than needed is filled. */
  lemma {:induction false} FillFromBounded(levels: seq<OrderLevel>, need: real)
    ensures need > 0.0 ==> FillFrom(levels, need).0 <= need
  {
    if levels != [] && need > 0.0 {
      var take := Min(need, levels[0].size);
      FillFromBounded(levels[1..], need - take);
    }
  }

  /** The total size of the levels. */
  function Depth(levels: seq<OrderLevel>): real
  {
    if levels == [] then 0.0 else levels[0].size + Depth(levels[1..])
  }

  ghost predicate NonNegativeSizes(levels: seq<OrderLevel>)
  {
    forall i :: 0 <= i < |levels| ==> levels[i].size >= 0.0
  }

  /** With non-negative sizes, the walk fills what is needed or the whole book,
      whichever is smaller. */
  lemma {:induction false} FillFromFillsMinimum(levels: seq<OrderLevel>, need: real)
    requires NonNegativeSizes(levels) && need > 0.0
    ensures FillFrom(levels, need).0 == Min(need, Depth(levels))
  {
    if levels != [] {
      var take := Min(need, levels[0].size);
      assert NonNegativeSizes(levels[1..]) by {
        forall i | 0 <= i < |levels[1..]| ensures levels[1..][i].size >= 0.0 {
          assert levels[1..][i] == levels[i + 1];
        }
      }
      DepthNonNegative(levels[1..]);
      if need - take > 0.0 {
        FillFromFillsMinimum(levels[1..], need - take);
      }
    }
  }

  lemma {:induction false} DepthNonNegative(levels: seq<OrderLevel>)
    requires NonNegativeSizes(levels)
    ensures Depth(levels) >= 0.0
  {
    if levels != [] {
      assert NonNegativeSizes(levels[1..]) by {
        forall i | 0 <= i < |levels[1..]| ensures levels[1..][i].size >= 0.0 {
          assert levels[1..][i] == levels[i + 1];
        }
      }
      DepthNonNegative(levels[1..]);
    }
  }

  /** On a book whose levels all have the same price, the walk costs that price per
      share. */
  lemma {:induction false} FlatBookCost(levels: seq<OrderLevel>, need: real, p: real)
    requires forall i :: 0 <= i < |levels| ==> levels[i].price == p
    ensures FillFrom(levels, need).1 == p * FillFrom(levels, need).0
  {
    if levels != [] && need > 0.0 {
      var take := Min(need, levels[0].size);
      var rest := FillFrom(levels[1..], need - take);
      assert rest.1 == p * rest.0 by {
        assert forall i :: 0 <= i < |levels[1..]| ==> levels[1..][i] == levels[i + 1];
        FlatBookCost(levels[1..], need - take, p);
      }
      var whole := FillFrom(levels, need);
      assert whole == (take + rest.0, LevelCost(take, levels[0]) + rest.1) by {
        FillFromStep(levels, need);
      }
      FlatLevelCost(take, levels[0], p, rest.0);
    }
  }

  lemma FlatLevelCost(take: real, level: OrderLevel, p: real, restFilled: real)
    requires level.price == p
    ensures LevelCost(take, level) + p * restFilled == p * (take + restFilled)
  {
  }

  /** The example of the docstring: 250 shares over 100 @ 0.22, 200 @ 0.23 and 500 @ 0.24
      cost 56.5, an average of 0.226. */
  lemma FillPriceExample()
    ensures FillPrice([OrderLevel(0.22, 100.0), OrderLevel(0.23, 200.0), OrderLevel(0.24, 500.0)], 250.0) == (0.226, 56.5)
  {
    var levels := [OrderLevel(0.22, 100.0), OrderLevel(0.23, 200.0), OrderLevel(0.24, 500.0)];
    assert levels[1..][1..] == [OrderLevel(0.24, 500.0)];
    assert FillFrom(levels[1..][1..], 0.0) == (0.0, 0.0);
    assert FillFrom(levels[1..], 150.0) == (150.0, 34.5);
    assert FillFrom(levels, 250.0) == (250.0, 56.5);
  }

  /** The total size of the leading levels priced at most `maxPrice`. */
  function PrefixDepth(levels: seq<OrderLevel>, maxPrice: real): real
  {
    if levels == [] || levels[0].price > maxPrice then 0.0
    else levels[0].size + PrefixDepth(levels[1..], maxPrice)
  }

  /** `calculate_max_size_for_price_impact(levels, impact)` as a value. */
  function MaxSizeForImpact(levels: seq<OrderLevel>, impact: real): (r: real)
    ensures levels == [] ==> r == 0.0
  {
    if levels == [] then 0.0 else PrefixDepth(levels, levels[0].price * (1.0 + impact))
  }

  /** PrefixDepth is the depth of the longest prefix of levels priced at most
      `maxPrice`: it stops at the first dearer level. */
  lemma {:induction false} PrefixDepthIsLongestPrefix(levels: seq<OrderLevel>, maxPrice: real) returns (k: nat)
    ensures k <= |levels|
    ensures forall i :: 0 <= i < k ==> levels[i].price <= maxPrice
    ensures k < |levels| ==> levels[k].price > maxPrice
    ensures PrefixDepth(levels, maxPrice) == Depth(levels[..k])
  {
    if levels == [] || levels[0].price > maxPrice {
      k := 0;
    } else {
      var k' := PrefixDepthIsLongestPrefix(levels[1..], maxPrice);
      k := k' + 1;
      assert levels[..k][1..] == levels[1..][..k'];
    }
  }

  /** A cheaper level after a dearer one is not counted. */
  lemma MaxSizeStopsAtFirstDearerLevel()
    ensures MaxSizeForImpact([OrderLevel(0.22, 100.0), OrderLevel(0.30, 50.0), OrderLevel(0.22, 500.0)], 0.01) == 100.0
  {
    var levels := [OrderLevel(0.22, 100.0), OrderLevel(0.30, 50.0), OrderLevel(0.22, 500.0)];
    var maxPrice := 0.22 * (1.0 + 0.01);
    assert maxPrice == 0.2222;
    assert PrefixDepth(levels[1..], maxPrice) == 0.0;
    assert PrefixDepth(levels, maxPrice) == 100.0;
  }

  /** `calculate_max_size_for_price_impact`: the loop with its early exit. */
  method MaxSizeForPriceImpact(levels: seq<OrderLevel>, impact: real) returns (total: real)
    ensures total == MaxSizeForImpact(levels, impact)
  {
    if levels == [] {
      return 0.0;
    }
    var maxPrice := levels[0].price * (1.0 + impact);
    total := 0.0;
    var i := 0;
    while i < |levels|
      invariant 0 <= i <= |levels|
      invariant PrefixDepth(levels, maxPrice) == total + PrefixDepth(levels[i..], maxPrice)
    {
      if levels[i].price > maxPrice {
        break;
      }
      assert levels[i..][1..] == levels[i + 1..];
      total := total + levels[i].size;
      i := i + 1;
    }
  }

  /** The depth of a quote's book, when it has a non-empty one. */
  function BookOf(q: MarketQuote): (r: Option<seq<OrderLevel>>)
    ensures r.Some? ==> r == q.orderDepth && r.value != []
  {
    if q.orderDepth.Some? && q.orderDepth.value != [] then q.orderDepth else None
  }

  /** `get_safe_order_size`. */
  function SafeOrderSize(q: MarketQuote, impact: real): (r: real)
    ensures BookOf(q).None? ==> r == q.size
    ensures BookOf(q).Some? ==> r == MaxSizeForImpact(BookOf(q).value, impact)
  {
    match BookOf(q)
    case None => q.size
    case Some(levels) => MaxSizeForImpact(levels, impact)
  }

  /** With a book of non-negative sizes, the safe size is at most the whole depth and not
      negative. */
  lemma SafeOrderSizeWithinDepth(q: MarketQuote, impact: real)
    requires BookOf(q).Some? && NonNegativeSizes(BookOf(q).value)
    ensures 0.0 <= SafeOrderSize(q, impact) <= Depth(BookOf(q).value)
  {
    var levels := BookOf(q).value;
    var k := PrefixDepthIsLongestPrefix(levels, levels[0].price * (1.0 + impact));
    DepthOfPrefix(levels, k);
  }

  /** A prefix of a book of non-negative sizes is no deeper than the book. */
  lemma {:induction false} DepthOfPrefix(levels: seq<OrderLevel>, k: nat)
    requires k <= |levels| && NonNegativeSizes(levels)
    ensures 0.0 <= Depth(levels[..k]) <= Depth(levels)
  {
    if k > 0 {
      assert NonNegativeSizes(levels[1..]) by {
        forall i | 0 <= i < |levels[1..]| ensures levels[1..][i].size >= 0.0 {
          assert levels[1..][i] == levels[i + 1];
        }
      }
      DepthOfPrefix(levels[1..], k - 1);
      assert levels[..k][1..] == levels[1..][..k - 1];
    } else {
      DepthNonNegative(levels);
    }
  }

  /** `estimate_execution_cost`: `(average price, slippage in basis points)`. */
  function ExecutionCost(q: MarketQuote, size: real): (r: (real, real))
    ensures BookOf(q).None? ==> r == (q.price, 0.0)
    ensures BookOf(q).Some? ==> r.0 == FillPrice(BookOf(q).value, size).0
    ensures r.0 == 0.0 || q.price == 0.0 ==> r.1 == 0.0
    ensures BookOf(q).Some? && r.0 != 0.0 && q.price != 0.0 ==> r.1 * q.price == (r.0 - q.price) * 10000.0
  {
    match BookOf(q)
    case None => (q.price, 0.0)
    case Some(levels) =>
      var (avg, _) := FillPrice(levels, size);
      if avg == 0.0 || q.price == 0.0 then (avg, 0.0)
      else (avg, (avg - q.price) / q.price * 10000.0)
  }

  /** A book whose levels are all at the quoted price causes no slippage. */
  lemma FlatBookNoSlippage(q: MarketQuote, size: real)
    requires BookOf(q).Some?
    requires forall i :: 0 <= i < |BookOf(q).value| ==> BookOf(q).value[i].price == q.price
    ensures ExecutionCost(q, size).1 == 0.0
  {
    var levels := BookOf(q).value;
    FlatBookAverage(levels, size, q.price);
    var avg := FillPrice(levels, size).0;
    assert avg == 0.0 || avg == q.price;
  }

  /** On a flat book the average fill price is the level price, or 0 when nothing fills. */
  lemma FlatBookAverage(levels: seq<OrderLevel>, size: real, p: real)
    requires forall i :: 0 <= i < |levels| ==> levels[i].price == p
    ensures FillPrice(levels, size).0 == 0.0 || FillPrice(levels, size).0 == p
  {
    FlatBookCost(levels, size, p);
    var (filled, cost) := FillFrom(levels, size);
    if levels != [] && size > 0.0 && filled != 0.0 {
      assert cost == p * filled;
      QuotientOfProduct(p, filled);
    }
  }

  lemma QuotientOfProduct(p: real, f: real)
    requires f != 0.0
    ensures (p * f) / f == p
  {
  }

  /** `cap_order_by_liquidity`: `(long size, short size, notional)`. */
  function CapOrderByLiquidity(long: MarketQuote, short: MarketQuote, desired: real, impact: real): (r: (real, real, real))
    ensures r.2 <= desired
    ensures r.2 <= SafeOrderSize(long, impact) * long.price
    ensures r.2 <= SafeOrderSize(short, impact) * (1.0 - short.price)
    ensures r.2 == desired || r.2 == SafeOrderSize(long, impact) * long.price ||
            r.2 == SafeOrderSize(short, impact) * (1.0 - short.price)
    ensures long.price <= 0.0 ==> r.0 == 0.0
    ensures short.price >= 1.0 ==> r.1 == 0.0
    ensures long.price > 0.0 ==> r.0 * long.price == r.2
    ensures short.price < 1.0 ==> r.1 * (1.0 - short.price) == r.2
  {
    var longMax := SafeOrderSize(long, impact) * long.price;
    var shortMax := SafeOrderSize(short, impact) * (1.0 - short.price);
    var notional := Min(desired, Min(longMax, shortMax));
    var longSize := if long.price > 0.0 then notional / long.price else 0.0;
    var shortSize := if short.price < 1.0 then notional / (1.0 - short.price) else 0.0;
    (longSize, shortSize, notional)
  }
}
