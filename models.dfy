/** The frozen dataclasses of app/core/models.py and the risk and fee settings of
    app/config/settings.py, as plain values. Prices, sizes and basis points are exact reals. */
module Models {
  import opened Wrappers

  /** The outcome of a binary market (Python's `Literal["YES", "NO"]`). */
  datatype Side = Yes | No

  /** One price level of an order book. app/utils/slippage_protection.py imports
      `OrderLevel` from app/core/models.py, which does not define it; the two fields are
      the ones its uses construct and read. */
  datatype OrderLevel = OrderLevel(price: real, size: real)

  /** A quote for one outcome of one market on one venue. `endDate` is the resolution
      time in whole seconds; `orderDepth` is the optional book, best level first. */
  datatype MarketQuote = MarketQuote(
    exchange: string,
    marketId: string,
    event: string,
    outcome: Side,
    price: real,
    size: real,
    endDate: Option<int>,
    orderDepth: Option<seq<OrderLevel>>)

  /** Long YES on one venue, offsetting NO on the other. */
  datatype CrossExchangeArb = CrossExchangeArb(
    eventKey: string,
    long: MarketQuote,
    short: MarketQuote,
    edgeBps: real,
    grossProfitUsd: real,
    maxNotional: real)

  /** A proposed pairing of a Kalshi event with a Polymarket event. */
  datatype MatchCandidate = MatchCandidate(
    eventKey: string,
    kalshiMarketId: Option<string>,
    polymarketMarketId: Option<string>,
    similarity: real)

  /** Buy YES on one venue and NO on the other. */
  datatype TwoBuyArb = TwoBuyArb(
    eventKey: string,
    buyYes: MarketQuote,
    buyNo: MarketQuote,
    sumPrice: real,
    edgeBps: real,
    contracts: real,
    grossProfitUsd: real)

  /** The part of the global settings object that detection reads, passed in explicitly. */
  datatype Settings = Settings(
    takerBps: real,
    slippageBps: real,
    maxNotionalPerLeg: real,
    minProfitUsd: real)

  /** `Fees()` and `Risk()` defaults. */
  const DefaultSettings: Settings := Settings(20.0, 10.0, 500.0, 2.0)

  /** A quote with only the fields the text-matching code looks at filled in. */
  function Plain(exchange: string, event: string, outcome: Side, price: real, size: real): MarketQuote
  {
    MarketQuote(exchange, "", event, outcome, price, size, None, None)
  }

  function Min(a: real, b: real): real { if a <= b then a else b }
  function Max(a: real, b: real): real { if a >= b then a else b }
}
