/** app/core/executor.py: the paper executor, which turns each cross-exchange opportunity
    into a pair of simulated fills without contacting any exchange. */
module Executor {
  import opened Models

  datatype FillSide = Buy | Sell

  /** A simulated fill of one leg. */
  datatype Fill = Fill(exchange: string, marketId: string, side: FillSide, price: real, size: real)

  /** Contracts bought on the long leg: the notional at the long price, or none at a
      non-positive price. */
  function BuySize(opp: CrossExchangeArb): (r: real)
    ensures opp.long.price > 0.0 ==> r * opp.long.price == opp.maxNotional
    ensures opp.long.price <= 0.0 ==> r == 0.0
  {
    if opp.long.price > 0.0 then opp.maxNotional / opp.long.price else 0.0
  }

  /** Contracts sold on the short leg: the notional at the complementary price, or none when
      the short price is 1 or more. */
  function SellSize(opp: CrossExchangeArb): (r: real)
    ensures opp.short.price < 1.0 ==> r * (1.0 - opp.short.price) == opp.maxNotional
    ensures opp.short.price >= 1.0 ==> r == 0.0
  {
    if opp.short.price < 1.0 then opp.maxNotional / (1.0 - opp.short.price) else 0.0
  }

  /** The two fills of one opportunity: a buy on the long leg, then a sell on the short leg. */
  function FillsFor(opp: CrossExchangeArb): seq<Fill>
  {
    [Fill(opp.long.exchange, opp.long.marketId, Buy, opp.long.price, BuySize(opp)),
     Fill(opp.short.exchange, opp.short.marketId, Sell, opp.short.price, SellSize(opp))]
  }

  /** The fills of a list of opportunities, in order. */
  function AllFills(opps: seq<CrossExchangeArb>): (r: seq<Fill>)
    ensures |r| == 2 * |opps|
  {
    if opps == [] then [] else AllFills(opps[..|opps| - 1]) + FillsFor(opps[|opps| - 1])
  }

  /** `PaperExecutor.execute` (the executor holds no state, so this is a plain method). */
  method Execute(opportunities: seq<CrossExchangeArb>) returns (fills: seq<Fill>)
    ensures fills == AllFills(opportunities)
  {
    fills := [];
    for i := 0 to |opportunities|
      invariant fills == AllFills(opportunities[..i])
    {
      var opp := opportunities[i];
      var sizeYes := if opp.long.price > 0.0 then opp.maxNotional / opp.long.price else 0.0;
      var sizeNo := if opp.short.price < 1.0 then opp.maxNotional / (1.0 - opp.short.price) else 0.0;
      fills := fills + [Fill(opp.long.exchange, opp.long.marketId, Buy, opp.long.price, sizeYes)];
      fills := fills + [Fill(opp.short.exchange, opp.short.marketId, Sell, opp.short.price, sizeNo)];
      assert opportunities[..i + 1][..i] == opportunities[..i];
    }
    assert opportunities[..|opportunities|] == opportunities;
  }

  /** Two fills per opportunity, in input order: fill 2i buys the long leg of opportunity i at
      its price, fill 2i+1 sells its short leg at its price. */
  lemma {:induction false} AllFillsLayout(opps: seq<CrossExchangeArb>)
    ensures |AllFills(opps)| == 2 * |opps|
    ensures forall i :: 0 <= i < |opps| ==> AllFills(opps)[2 * i] == FillsFor(opps[i])[0]
    ensures forall i :: 0 <= i < |opps| ==> AllFills(opps)[2 * i + 1] == FillsFor(opps[i])[1]
  {
    if opps != [] {
      var init := opps[..|opps| - 1];
      AllFillsLayout(init);
      assert forall i :: 0 <= i < |init| ==> init[i] == opps[i];
    }
  }

  /** Each opportunity's buy is on its long venue and market at the long price, its sell on
      the short venue and market at the short price, and each leg's size spends the
      opportunity's notional when its price allows a trade. */
  lemma FillsForLegs(opp: CrossExchangeArb)
    ensures FillsFor(opp)[0].exchange == opp.long.exchange && FillsFor(opp)[0].marketId == opp.long.marketId
    ensures FillsFor(opp)[0].side == Buy && FillsFor(opp)[0].price == opp.long.price
    ensures FillsFor(opp)[1].exchange == opp.short.exchange && FillsFor(opp)[1].marketId == opp.short.marketId
    ensures FillsFor(opp)[1].side == Sell && FillsFor(opp)[1].price == opp.short.price
    ensures opp.long.price > 0.0 ==> FillsFor(opp)[0].size * opp.long.price == opp.maxNotional
    ensures opp.short.price < 1.0 ==> FillsFor(opp)[1].size * (1.0 - opp.short.price) == opp.maxNotional
  {
  }
}
