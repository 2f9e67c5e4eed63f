/** app/core/arb.py: edge arithmetic and the three detectors (cross-exchange, two-buy and
    the matcher-backed cross-exchange variant). Settings are passed in. */
module Arb {
  import opened Wrappers
  import opened Models
  import opened Seqs
  import opened Text
  import opened Selection

  /** `compute_edge_bps`: the edge of long YES at `longPrice` against short NO at
      `shortPrice`, in basis points. */
  function ComputeEdgeBps(longPrice: real, shortPrice: real): (r: real)
    ensures r == (shortPrice - longPrice) * 10000.0
    ensures longPrice == shortPrice ==> r == 0.0
  {
    var impliedTotal := longPrice + (1.0 - shortPrice);
    var edge := 1.0 - impliedTotal;
    edge * 10000.0
  }

  // ---------------------------------------------------------------------------
  // Indexing quotes by event and outcome

  /** Outcome quotes of one event on one venue. */
  type Outcomes = map<Side, MarketQuote>

  /** `by_event[key][outcome]` for one venue. */
  type Book = map<string, Outcomes>

  /** The two-buy detector keys events by their text as given. */
  function Verbatim(e: string): string { e }

  /** The dictionary the `by_event[key(q.event)][q.outcome] = q` loop builds. */
  function IndexByEvent(qs: seq<MarketQuote>, key: string -> string): Book
  {
    if qs == [] then map[]
    else
      var b := IndexByEvent(qs[..|qs| - 1], key);
      var q := qs[|qs| - 1];
      var k := key(q.event);
      b[k := (if k in b then b[k] else map[])[q.outcome := q]]
  }

  /** `i` is the last position of a quote with key `k` and outcome `side`. */
  ghost predicate IsLastFor(qs: seq<MarketQuote>, key: string -> string, k: string, side: Side, i: int)
  {
    && 0 <= i < |qs| && key(qs[i].event) == k && qs[i].outcome == side
    && forall j :: i < j < |qs| ==> key(qs[j].event) != k || qs[j].outcome != side
  }

  /** Some quote has key `k` (and, with `side`, that outcome). */
  ghost predicate HasKey(qs: seq<MarketQuote>, key: string -> string, k: string)
  {
    exists i :: 0 <= i < |qs| && key(qs[i].event) == k
  }

  ghost predicate HasEntry(qs: seq<MarketQuote>, key: string -> string, k: string, side: Side)
  {
    exists i :: 0 <= i < |qs| && key(qs[i].event) == k && qs[i].outcome == side
  }

  /** The index holds exactly the event keys present in the input. */
  lemma {:induction false} IndexByEventKeys(qs: seq<MarketQuote>, key: string -> string, k: string)
    ensures k in IndexByEvent(qs, key) <==> HasKey(qs, key, k)
  {
    if qs != [] {
      var init := qs[..|qs| - 1];
      IndexByEventKeys(init, key, k);
      if HasKey(init, key, k) {
        var i :| 0 <= i < |init| && key(init[i].event) == k;
        assert qs[i] == init[i];
      }
      if HasKey(qs, key, k) && key(qs[|qs| - 1].event) != k {
        var i :| 0 <= i < |qs| && key(qs[i].event) == k;
        assert qs[i] == init[i];
      }
    }
  }

  /** The index holds exactly the (key, outcome) pairs present in the input. */
  lemma {:induction false} IndexByEventEntries(qs: seq<MarketQuote>, key: string -> string, k: string, side: Side)
    ensures (k in IndexByEvent(qs, key) && side in IndexByEvent(qs, key)[k]) <==>
              HasEntry(qs, key, k, side)
  {
    if qs != [] {
      var init := qs[..|qs| - 1];
      IndexByEventEntries(init, key, k, side);
      if HasEntry(init, key, k, side) {
        var i :| 0 <= i < |init| && key(init[i].event) == k && init[i].outcome == side;
        assert qs[i] == init[i];
      }
      if HasEntry(qs, key, k, side) {
        var i :| 0 <= i < |qs| && key(qs[i].event) == k && qs[i].outcome == side;
        if i < |qs| - 1 {
          assert qs[i] == init[i];
        }
      }
    }
  }

  /** A later quote for the same event and outcome overwrites an earlier one: the index
      holds the last such quote. */
  lemma {:induction false} IndexByEventLatest(qs: seq<MarketQuote>, key: string -> string, k: string, side: Side)
    returns (i: int)
    requires k in IndexByEvent(qs, key) && side in IndexByEvent(qs, key)[k]
    ensures IsLastFor(qs, key, k, side, i) && IndexByEvent(qs, key)[k][side] == qs[i]
  {
    var init := qs[..|qs| - 1];
    var n := |qs| - 1;
    var q := qs[n];
    if key(q.event) == k && q.outcome == side {
      i := n;
    } else {
      i := IndexByEventLatest(init, key, k, side);
      assert qs[i] == init[i];
    }
  }

  /** Every indexed quote is an input quote with the indexed key and outcome. */
  lemma IndexByEventSound(qs: seq<MarketQuote>, key: string -> string, k: string, side: Side)
    requires k in IndexByEvent(qs, key) && side in IndexByEvent(qs, key)[k]
    ensures IndexByEvent(qs, key)[k][side] in qs
    ensures IndexByEvent(qs, key)[k][side].outcome == side
    ensures key(IndexByEvent(qs, key)[k][side].event) == k
  {
    var i := IndexByEventLatest(qs, key, k, side);
  }

  /** The indexing loops of all three detectors. */
  method IndexQuotes(qs: seq<MarketQuote>, key: string -> string) returns (book: Book)
    ensures book == IndexByEvent(qs, key)
  {
    book := map[];
    for i := 0 to |qs|
      invariant book == IndexByEvent(qs[..i], key)
    {
      var q := qs[i];
      var k := key(q.event);
      var outcomes := if k in book then book[k] else map[];
      book := book[k := outcomes[q.outcome := q]];
      assert qs[..i + 1][..i] == qs[..i];
    }
    assert qs[..|qs|] == qs;
  }

  // ---------------------------------------------------------------------------
  // Cross-exchange detection

  /** `m` is the smallest of the three. */
  ghost predicate IsMinOf3(m: real, a: real, b: real, c: real)
  {
    m <= a && m <= b && m <= c && (m == a || m == b || m == c)
  }

  function Min3(a: real, b: real, c: real): (m: real)
    ensures IsMinOf3(m, a, b, c)
  {
    Min(Min(a, b), c)
  }

  /** The edge net of the fee and slippage buffer `totalBps`. */
  function NetEdgeBps(long: MarketQuote, short: MarketQuote, totalBps: real): real
  {
    ComputeEdgeBps(long.price, short.price) - totalBps
  }

  /** Notional limited by the per-leg cap and the dollar depth of both legs. */
  function LegNotional(long: MarketQuote, short: MarketQuote, s: Settings): (m: real)
    ensures IsMinOf3(m, long.size * long.price, short.size * (1.0 - short.price), s.maxNotionalPerLeg)
  {
    Min3(long.size * long.price, short.size * (1.0 - short.price), s.maxNotionalPerLeg)
  }

  /** The direction clears both thresholds: a positive net edge and enough profit. */
  predicate Profitable(long: MarketQuote, short: MarketQuote, s: Settings, totalBps: real)
  {
    NetEdgeBps(long, short, totalBps) > 0.0
    && NetEdgeBps(long, short, totalBps) / 10000.0 * LegNotional(long, short, s) >= s.minProfitUsd
  }

  /** `a` is the opportunity of long `long` and short `short` under `eventKey`. */
  ghost predicate IsDirectionArb(a: CrossExchangeArb, eventKey: string, long: MarketQuote, short: MarketQuote,
                                 s: Settings, totalBps: real)
  {
    && a.eventKey == eventKey && a.long == long && a.short == short
    && a.edgeBps == NetEdgeBps(long, short, totalBps) > 0.0
    && a.maxNotional == LegNotional(long, short, s)
    && a.grossProfitUsd == a.edgeBps / 10000.0 * a.maxNotional >= s.minProfitUsd
  }

  /** One direction of the cross-exchange check: long YES `long`, short NO `short`, with
      the fee and slippage buffer `totalBps` already summed. */
  function DirectionArb(eventKey: string, long: MarketQuote, short: MarketQuote, s: Settings, totalBps: real)
    : (r: Option<CrossExchangeArb>)
    ensures r.Some? <==> Profitable(long, short, s, totalBps)
    ensures r.Some? ==> IsDirectionArb(r.value, eventKey, long, short, s, totalBps)
  {
    var edgeBps := ComputeEdgeBps(long.price, short.price) - totalBps;
    if edgeBps > 0.0 then
      var maxNotional := Min3(long.size * long.price, short.size * (1.0 - short.price), s.maxNotionalPerLeg);
      var grossProfit := edgeBps / 10000.0 * maxNotional;
      if grossProfit >= s.minProfitUsd then
        Some(CrossExchangeArb(eventKey, long, short, edgeBps, grossProfit, maxNotional))
      else None
    else None
  }

  function OptionToSeq<T>(o: Option<T>): seq<T>
  {
    if o.Some? then [o.value] else []
  }

  /** Fee plus slippage buffer, in basis points. */
  function TotalBps(s: Settings): real
  {
    s.takerBps + s.slippageBps
  }

  /** Kalshi YES against Polymarket NO is possible for this event. */
  predicate FirstDirection(k: Outcomes, p: Outcomes) { Yes in k && No in p }

  /** Polymarket YES against Kalshi NO is possible for this event. */
  predicate SecondDirection(k: Outcomes, p: Outcomes) { Yes in p && No in k }

  /** The opportunities `detect_arbs` emits for one event present on both venues. */
  function EventArbs(e: string, k: Outcomes, p: Outcomes, s: Settings): seq<CrossExchangeArb>
  {
    (if FirstDirection(k, p) then OptionToSeq(DirectionArb(e, k[Yes], p[No], s, TotalBps(s))) else [])
    + (if SecondDirection(k, p) then OptionToSeq(DirectionArb(e, p[Yes], k[No], s, TotalBps(s))) else [])
  }

  /** The events every key of `order` names exist on both venues. */
  ghost predicate InBoth(order: seq<string>, kb: Book, pb: Book)
  {
    forall i :: 0 <= i < |order| ==> order[i] in kb && order[i] in pb
  }

  /** `order` lists the common events of the two books once each (one iteration order of
      `set(k_by_event) & set(p_by_event)`). */
  ghost predicate EnumeratesCommon(order: seq<string>, kb: Book, pb: Book)
  {
    && Distinct(order) && |order| == |kb.Keys * pb.Keys|
    && forall e :: e in order <==> e in kb && e in pb
  }

  /** What `detect_arbs` returns when it visits the common events in `order`. */
  function ArbsInOrder(order: seq<string>, kb: Book, pb: Book, s: Settings): seq<CrossExchangeArb>
    requires InBoth(order, kb, pb)
  {
    if order == [] then []
    else
      var e := order[|order| - 1];
      ArbsInOrder(order[..|order| - 1], kb, pb, s) + EventArbs(e, kb[e], pb[e], s)
  }

  /** `detect_arbs`, with the fee and slippage buffer computed once before the loop (the
      source assigns it inside the first branch only; see DetectArbsAsWritten). */
  method DetectArbs(kalshi: seq<MarketQuote>, polymarket: seq<MarketQuote>, s: Settings)
    returns (arbs: seq<CrossExchangeArb>, ghost order: seq<string>)
    ensures EnumeratesCommon(order, IndexByEvent(kalshi, EventKey), IndexByEvent(polymarket, EventKey))
    ensures arbs == ArbsInOrder(order, IndexByEvent(kalshi, EventKey), IndexByEvent(polymarket, EventKey), s)
    ensures forall a :: a in arbs ==>
              IsSoundCrossArb(a, kalshi, polymarket, s)
              && EventKey(a.long.event) == a.eventKey && EventKey(a.short.event) == a.eventKey
  {
    var kb := IndexQuotes(kalshi, EventKey);
    var pb := IndexQuotes(polymarket, EventKey);
    arbs, order := ScanCommon(kb, pb, s);
    EnumeratesInBoth(order, kb, pb);
    DetectArbsSound(order, kalshi, polymarket, s, EventKey);
  }

  /** An enumeration of the common events names only events of both books. */
  lemma EnumeratesInBoth(order: seq<string>, kb: Book, pb: Book)
    requires EnumeratesCommon(order, kb, pb)
    ensures InBoth(order, kb, pb)
  {
    forall i | 0 <= i < |order| ensures order[i] in kb && order[i] in pb {
      assert order[i] in order;
    }
  }

  /** The loop of `detect_arbs` over the events common to both books. */
  method ScanCommon(kb: Book, pb: Book, s: Settings) returns (arbs: seq<CrossExchangeArb>, ghost order: seq<string>)
    ensures EnumeratesCommon(order, kb, pb)
    ensures arbs == ArbsInOrder(order, kb, pb, s)
  {
    var common := Enumerate(kb.Keys * pb.Keys);
    order := common;
    forall i | 0 <= i < |common| ensures common[i] in kb && common[i] in pb {
      assert common[i] in common;
    }
    var totalBps := TotalBps(s);
    arbs := [];
    for i := 0 to |common|
      invariant InBoth(common[..i], kb, pb)
      invariant arbs == ArbsInOrder(common[..i], kb, pb, s)
    {
      var e := common[i];
      var k := kb[e];
      var p := pb[e];
      var first: seq<CrossExchangeArb> := [];
      if Yes in k && No in p {
        var a := DirectionArb(e, k[Yes], p[No], s, totalBps);
        if a.Some? { first := [a.value]; }
      }
      var second: seq<CrossExchangeArb> := [];
      if Yes in p && No in k {
        var a := DirectionArb(e, p[Yes], k[No], s, totalBps);
        if a.Some? { second := [a.value]; }
      }
      assert first + second == EventArbs(e, k, p, s);
      ArbsInOrderSnoc(common, i, kb, pb, s);
      arbs := arbs + (first + second);
    }
    assert common[..|common|] == common;
  }

  /** Extending the visited prefix by one event appends that event's opportunities. */
  lemma ArbsInOrderSnoc(order: seq<string>, i: nat, kb: Book, pb: Book, s: Settings)
    requires InBoth(order, kb, pb) && i < |order|
    ensures InBoth(order[..i], kb, pb) && InBoth(order[..i + 1], kb, pb)
    ensures ArbsInOrder(order[..i + 1], kb, pb, s)
         == ArbsInOrder(order[..i], kb, pb, s) + EventArbs(order[i], kb[order[i]], pb[order[i]], s)
  {
    assert order[..i + 1][..i] == order[..i];
    assert order[..i + 1][i] == order[i];
  }

  /** Everything a cross-exchange opportunity promises: a YES leg and a NO leg taken from
      opposite venues, a positive edge net of the buffer, a profit of at least the minimum
      and a notional within the per-leg cap and the depth of both legs. */
  ghost predicate IsSoundCrossArb(a: CrossExchangeArb, kalshi: seq<MarketQuote>, polymarket: seq<MarketQuote>, s: Settings)
  {
    && a.long.outcome == Yes && a.short.outcome == No
    && ((a.long in kalshi && a.short in polymarket) || (a.long in polymarket && a.short in kalshi))
    && IsDirectionArb(a, a.eventKey, a.long, a.short, s, TotalBps(s))
  }

  /** What a sound opportunity means in numbers. */
  lemma SoundCrossArbBounds(a: CrossExchangeArb, kalshi: seq<MarketQuote>, polymarket: seq<MarketQuote>, s: Settings)
    requires IsSoundCrossArb(a, kalshi, polymarket, s)
    ensures a.edgeBps == (a.short.price - a.long.price) * 10000.0 - s.takerBps - s.slippageBps > 0.0
    ensures a.grossProfitUsd >= s.minProfitUsd
    ensures a.maxNotional <= s.maxNotionalPerLeg
    ensures a.maxNotional <= a.long.size * a.long.price && a.maxNotional <= a.short.size * (1.0 - a.short.price)
  {
  }

  lemma EventArbsSound(e: string, kalshi: seq<MarketQuote>, polymarket: seq<MarketQuote>, s: Settings,
                        key: string -> string)
    requires e in IndexByEvent(kalshi, key) && e in IndexByEvent(polymarket, key)
    ensures forall a :: a in EventArbs(e, IndexByEvent(kalshi, key)[e], IndexByEvent(polymarket, key)[e], s) ==>
              IsSoundCrossArb(a, kalshi, polymarket, s) && a.eventKey == e
              && key(a.long.event) == e && key(a.short.event) == e
  {
    var k := IndexByEvent(kalshi, key)[e];
    var p := IndexByEvent(polymarket, key)[e];
    var t := TotalBps(s);
    var first := if FirstDirection(k, p) then OptionToSeq(DirectionArb(e, k[Yes], p[No], s, t)) else [];
    var second := if SecondDirection(k, p) then OptionToSeq(DirectionArb(e, p[Yes], k[No], s, t)) else [];
    assert EventArbs(e, k, p, s) == first + second;
    if FirstDirection(k, p) {
      IndexByEventSound(kalshi, key, e, Yes);
      IndexByEventSound(polymarket, key, e, No);
    }
    if SecondDirection(k, p) {
      IndexByEventSound(polymarket, key, e, Yes);
      IndexByEventSound(kalshi, key, e, No);
    }
    forall a | a in first + second
      ensures IsSoundCrossArb(a, kalshi, polymarket, s) && a.eventKey == e
              && key(a.long.event) == e && key(a.short.event) == e
    {
      if a in first {
        assert IsDirectionArb(a, e, k[Yes], p[No], s, t);
      } else {
        assert IsDirectionArb(a, e, p[Yes], k[No], s, t);
      }
    }
  }

  /** Every opportunity `detect_arbs` emits is sound and both of its legs index to its
      event key (with `key` = EventKey: the normalised event text). */
  lemma {:induction false} DetectArbsSound(order: seq<string>, kalshi: seq<MarketQuote>, polymarket: seq<MarketQuote>, s: Settings,
                        key: string -> string)
    requires InBoth(order, IndexByEvent(kalshi, key), IndexByEvent(polymarket, key))
    ensures forall a :: a in ArbsInOrder(order, IndexByEvent(kalshi, key), IndexByEvent(polymarket, key), s) ==>
              IsSoundCrossArb(a, kalshi, polymarket, s) && a.eventKey in order
              && key(a.long.event) == a.eventKey && key(a.short.event) == a.eventKey
  {
    if order != [] {
      var e := order[|order| - 1];
      DetectArbsSound(order[..|order| - 1], kalshi, polymarket, s, key);
      EventArbsSound(e, kalshi, polymarket, s, key);
    }
  }

  function CountFor(arbs: seq<CrossExchangeArb>, e: string): nat
  {
    |Filter(arbs, (a: CrossExchangeArb) => a.eventKey == e)|
  }

  /** One event contributes at most one opportunity per direction, all under its key. */
  lemma EventArbsShape(e: string, k: Outcomes, p: Outcomes, s: Settings)
    ensures |EventArbs(e, k, p, s)| <= 2
    ensures forall a :: a in EventArbs(e, k, p, s) ==> a.eventKey == e
  {
  }

  /** An event yields at most two opportunities, one per direction, and an event that is
      not on both venues yields none. */
  lemma {:induction false} AtMostTwoPerEvent(order: seq<string>, kb: Book, pb: Book, s: Settings, e: string)
    requires InBoth(order, kb, pb) && Distinct(order)
    ensures CountFor(ArbsInOrder(order, kb, pb, s), e) <= (if e in order then 2 else 0)
  {
    if order != [] {
      var last := order[|order| - 1];
      var init := order[..|order| - 1];
      AtMostTwoPerEvent(init, kb, pb, s, e);
      var ea := EventArbs(last, kb[last], pb[last], s);
      var f := (a: CrossExchangeArb) => a.eventKey == e;
      FilterAppend(ArbsInOrder(init, kb, pb, s), ea, f);
      EventArbsShape(last, kb[last], pb[last], s);
      FilterLength(ea, f);
      if last != e {
        FilterNone(ea, f);
      } else {
        assert e !in init;
      }
    }
  }

  // ---------------------------------------------------------------------------
  // detect_arbs as written: `total_bps` is bound only inside the first branch

  datatype DetectError = UnboundTotalBps

  /** Running `detect_arbs` as written over `order`: the result so far and whether the
      local `total_bps` has been assigned. Reaching the second-direction branch while it
      is unassigned raises `UnboundLocalError`. */
  function RunAsWritten(order: seq<string>, kb: Book, pb: Book, s: Settings)
    : (Result<seq<CrossExchangeArb>, DetectError>, bool)
    requires InBoth(order, kb, pb)
  {
    if order == [] then (Ok([]), false)
    else
      var (r, bound) := RunAsWritten(order[..|order| - 1], kb, pb, s);
      var e := order[|order| - 1];
      var k := kb[e];
      var p := pb[e];
      var bound' := bound || FirstDirection(k, p);
      if r.Err? then (r, bound)
      else if SecondDirection(k, p) && !bound' then (Err(UnboundTotalBps), bound')
      else (Ok(r.value + EventArbs(e, k, p, s)), bound')
  }

  /** `detect_arbs` exactly as written. */
  method DetectArbsAsWritten(kalshi: seq<MarketQuote>, polymarket: seq<MarketQuote>, s: Settings)
    returns (r: Result<seq<CrossExchangeArb>, DetectError>, ghost order: seq<string>)
    ensures EnumeratesCommon(order, IndexByEvent(kalshi, EventKey), IndexByEvent(polymarket, EventKey))
    ensures r == RunAsWritten(order, IndexByEvent(kalshi, EventKey), IndexByEvent(polymarket, EventKey), s).0
    ensures r.Ok? ==> forall a :: a in r.value ==> IsSoundCrossArb(a, kalshi, polymarket, s)
  {
    var kb := IndexQuotes(kalshi, EventKey);
    var pb := IndexQuotes(polymarket, EventKey);
    r, order := ScanCommonAsWritten(kb, pb, s);
    EnumeratesInBoth(order, kb, pb);
    AsWrittenAgreesUnlessUnbound(order, kb, pb, s);
    DetectArbsSound(order, kalshi, polymarket, s, EventKey);
  }

  /** The loop of `detect_arbs` as written over the events common to both books. */
  method ScanCommonAsWritten(kb: Book, pb: Book, s: Settings)
    returns (r: Result<seq<CrossExchangeArb>, DetectError>, ghost order: seq<string>)
    ensures EnumeratesCommon(order, kb, pb)
    ensures r == RunAsWritten(order, kb, pb, s).0
  {
    var common := Enumerate(kb.Keys * pb.Keys);
    order := common;
    forall i | 0 <= i < |common| ensures common[i] in kb && common[i] in pb {
      assert common[i] in common;
    }
    var totalBps: Option<real> := None;
    var arbs: seq<CrossExchangeArb> := [];
    for i := 0 to |common|
      invariant InBoth(common[..i], kb, pb)
      invariant RunAsWritten(common[..i], kb, pb, s) == (Ok(arbs), totalBps.Some?)
      invariant totalBps.Some? ==> totalBps.value == TotalBps(s)
    {
      assert common[..i + 1][..i] == common[..i];
      var e := common[i];
      var k := kb[e];
      var p := pb[e];
      ghost var bound := totalBps.Some?;
      var first: seq<CrossExchangeArb> := [];
      if Yes in k && No in p {
        totalBps := Some(TotalBps(s));
        var a := DirectionArb(e, k[Yes], p[No], s, totalBps.value);
        if a.Some? { first := [a.value]; }
      }
      var second: seq<CrossExchangeArb> := [];
      if Yes in p && No in k {
        if totalBps.None? {
          r := Err(UnboundTotalBps);
          RunAsWrittenErrSticks(common, i + 1, kb, pb, s);
          return;
        }
        var a := DirectionArb(e, p[Yes], k[No], s, totalBps.value);
        if a.Some? { second := [a.value]; }
      }
      assert first + second == EventArbs(e, k, p, s);
      assert totalBps.Some? == (bound || FirstDirection(k, p));
      RunAsWrittenSnoc(common, i, kb, pb, s);
      arbs := arbs + (first + second);
    }
    assert common[..|common|] == common;
    r := Ok(arbs);
  }

  /** Extending the visited prefix by one event that does not raise appends that event's
      opportunities and records whether it bound `total_bps`. */
  lemma RunAsWrittenSnoc(order: seq<string>, i: nat, kb: Book, pb: Book, s: Settings)
    requires InBoth(order, kb, pb) && i < |order|
    ensures InBoth(order[..i], kb, pb) && InBoth(order[..i + 1], kb, pb)
    ensures var (r, bound) := RunAsWritten(order[..i], kb, pb, s);
            var k, p := kb[order[i]], pb[order[i]];
            var bound' := bound || FirstDirection(k, p);
            r.Ok? && !(SecondDirection(k, p) && !bound') ==>
              RunAsWritten(order[..i + 1], kb, pb, s) == (Ok(r.value + EventArbs(order[i], k, p, s)), bound')
  {
    assert order[..i + 1][..i] == order[..i];
    assert order[..i + 1][i] == order[i];
  }

  /** Once the as-written run has raised, later events do not matter. */
  lemma {:induction false} RunAsWrittenErrSticks(order: seq<string>, n: nat, kb: Book, pb: Book, s: Settings)
    requires n <= |order| && InBoth(order, kb, pb)
    requires InBoth(order[..n], kb, pb) && RunAsWritten(order[..n], kb, pb, s).0.Err?
    ensures RunAsWritten(order, kb, pb, s).0 == RunAsWritten(order[..n], kb, pb, s).0
    decreases |order| - n
  {
    if n < |order| {
      var init := order[..|order| - 1];
      assert init[..n] == order[..n];
      RunAsWrittenErrSticks(init, n, kb, pb, s);
    } else {
      assert order[..n] == order;
    }
  }

  /** Some event among the first `hi` of `order` offers the first direction, which binds
      `total_bps`. */
  ghost predicate FirstSeen(order: seq<string>, kb: Book, pb: Book, hi: nat)
    requires InBoth(order, kb, pb) && hi <= |order|
  {
    exists j :: 0 <= j < hi && FirstDirection(kb[order[j]], pb[order[j]])
  }

  /** Event `i` offers only the second direction while `total_bps` is still unbound. */
  ghost predicate UnboundAt(order: seq<string>, kb: Book, pb: Book, i: nat)
    requires InBoth(order, kb, pb) && i < |order|
  {
    SecondDirection(kb[order[i]], pb[order[i]]) && !FirstSeen(order, kb, pb, i + 1)
  }

  lemma FirstSeenStep(order: seq<string>, kb: Book, pb: Book, hi: nat)
    requires InBoth(order, kb, pb) && hi < |order|
    ensures FirstSeen(order, kb, pb, hi + 1)
        <==> FirstSeen(order, kb, pb, hi) || FirstDirection(kb[order[hi]], pb[order[hi]])
  {
    if FirstSeen(order, kb, pb, hi + 1) && !FirstDirection(kb[order[hi]], pb[order[hi]]) {
      var j :| 0 <= j < hi + 1 && FirstDirection(kb[order[j]], pb[order[j]]);
      assert j < hi;
    }
  }

  /** Dropping the last event changes neither predicate on the events before it. */
  lemma PrefixPredicates(order: seq<string>, kb: Book, pb: Book)
    requires InBoth(order, kb, pb) && order != []
    ensures InBoth(order[..|order| - 1], kb, pb)
    ensures forall hi: nat :: hi < |order| ==>
              FirstSeen(order[..|order| - 1], kb, pb, hi) == FirstSeen(order, kb, pb, hi)
    ensures forall i: nat :: i < |order| - 1 ==>
              UnboundAt(order[..|order| - 1], kb, pb, i) == UnboundAt(order, kb, pb, i)
  {
    var init := order[..|order| - 1];
    assert forall j :: 0 <= j < |init| ==> init[j] == order[j];
  }

  /** When the as-written detector does not raise it returns what the corrected one does;
      it raises exactly when some event offers only the second direction before any
      event (itself included) has offered the first. */
  lemma {:induction false} AsWrittenAgreesUnlessUnbound(order: seq<string>, kb: Book, pb: Book, s: Settings)
    requires InBoth(order, kb, pb)
    ensures RunAsWritten(order, kb, pb, s).0.Ok? ==>
              RunAsWritten(order, kb, pb, s).0.value == ArbsInOrder(order, kb, pb, s)
    ensures RunAsWritten(order, kb, pb, s).0.Ok? ==>
              (RunAsWritten(order, kb, pb, s).1 <==> FirstSeen(order, kb, pb, |order|))
    ensures RunAsWritten(order, kb, pb, s).0.Err? <==>
              exists i: nat :: i < |order| && UnboundAt(order, kb, pb, i)
  {
    if order != [] {
      var init := order[..|order| - 1];
      var n := |order| - 1;
      PrefixPredicates(order, kb, pb);
      AsWrittenAgreesUnlessUnbound(init, kb, pb, s);
      FirstSeenStep(order, kb, pb, n);
      var (r, bound) := RunAsWritten(init, kb, pb, s);
      if r.Err? {
        var i: nat :| i < |init| && UnboundAt(init, kb, pb, i);
        assert UnboundAt(order, kb, pb, i);
      } else {
        assert bound == FirstSeen(order, kb, pb, n);
        assert forall i: nat :: i < n ==> !UnboundAt(order, kb, pb, i);
        if RunAsWritten(order, kb, pb, s).0.Err? {
          assert UnboundAt(order, kb, pb, n);
        }
      }
    }
  }

  // ---------------------------------------------------------------------------
  // Worked examples

  /** With a single event on each venue, every enumeration of the common events is that
      one key. */
  lemma SingleCommonEvent(order: seq<string>, kb: Book, pb: Book, e: string)
    requires kb.Keys == {e} && pb.Keys == {e}
    requires EnumeratesCommon(order, kb, pb)
    ensures order == [e]
  {
    assert kb.Keys * pb.Keys == {e};
    assert order[0] in order;
  }

  /** Default settings (a 30 bps buffer), Kalshi YES at 0.40 and Polymarket NO at 0.55,
      100 contracts each: one opportunity, 1470 bps net, 40 dollars of notional and
      5.88 dollars of profit. */
  lemma DetectArbsWorkedExample(order: seq<string>)
    requires EnumeratesCommon(order,
      IndexByEvent([Plain("kalshi", "fed", Yes, 0.40, 100.0)], EventKey),
      IndexByEvent([Plain("polymarket", "fed", No, 0.55, 100.0)], EventKey))
    ensures ArbsInOrder(order,
      IndexByEvent([Plain("kalshi", "fed", Yes, 0.40, 100.0)], EventKey),
      IndexByEvent([Plain("polymarket", "fed", No, 0.55, 100.0)], EventKey), DefaultSettings)
      == [CrossExchangeArb(EventKey("fed"), Plain("kalshi", "fed", Yes, 0.40, 100.0),
                           Plain("polymarket", "fed", No, 0.55, 100.0), 1470.0, 5.88, 40.0)]
  {
    var y := Plain("kalshi", "fed", Yes, 0.40, 100.0);
    var n := Plain("polymarket", "fed", No, 0.55, 100.0);
    var e := EventKey("fed");
    var kb := IndexByEvent([y], EventKey);
    var pb := IndexByEvent([n], EventKey);
    assert [y][..0] == [] && [n][..0] == [];
    assert kb == map[e := map[Yes := y]];
    assert pb == map[e := map[No := n]];
    SingleCommonEvent(order, kb, pb, e);
    assert order[..0] == [];
    assert LegNotional(y, n, DefaultSettings) == 40.0;
    assert DirectionArb(e, y, n, DefaultSettings, 30.0)
      == Some(CrossExchangeArb(e, y, n, 1470.0, 5.88, 40.0));
  }

  /** The same quotes priced YES 0.60 and NO 0.35 leave no edge. */
  lemma DetectArbsNoEdgeExample(order: seq<string>)
    requires EnumeratesCommon(order,
      IndexByEvent([Plain("kalshi", "fed", Yes, 0.60, 100.0)], EventKey),
      IndexByEvent([Plain("polymarket", "fed", No, 0.35, 100.0)], EventKey))
    ensures ArbsInOrder(order,
      IndexByEvent([Plain("kalshi", "fed", Yes, 0.60, 100.0)], EventKey),
      IndexByEvent([Plain("polymarket", "fed", No, 0.35, 100.0)], EventKey), DefaultSettings) == []
  {
    var y := Plain("kalshi", "fed", Yes, 0.60, 100.0);
    var n := Plain("polymarket", "fed", No, 0.35, 100.0);
    var e := EventKey("fed");
    var kb := IndexByEvent([y], EventKey);
    var pb := IndexByEvent([n], EventKey);
    assert [y][..0] == [] && [n][..0] == [];
    assert kb == map[e := map[Yes := y]];
    assert pb == map[e := map[No := n]];
    SingleCommonEvent(order, kb, pb, e);
    assert order[..0] == [];
    assert DirectionArb(e, y, n, DefaultSettings, 30.0) == None;
  }

  /** The unbound `total_bps`: Kalshi NO at 0.55 and Polymarket YES at 0.40 on one event
      make `detect_arbs` as written raise, whatever the iteration order, while the
      corrected detector reports the opportunity. */
  lemma UnboundTotalBpsCounterexample(order: seq<string>)
    requires EnumeratesCommon(order,
      IndexByEvent([Plain("kalshi", "fed", No, 0.55, 100.0)], EventKey),
      IndexByEvent([Plain("polymarket", "fed", Yes, 0.40, 100.0)], EventKey))
    ensures RunAsWritten(order,
      IndexByEvent([Plain("kalshi", "fed", No, 0.55, 100.0)], EventKey),
      IndexByEvent([Plain("polymarket", "fed", Yes, 0.40, 100.0)], EventKey), DefaultSettings).0
      == Err(UnboundTotalBps)
    ensures ArbsInOrder(order,
      IndexByEvent([Plain("kalshi", "fed", No, 0.55, 100.0)], EventKey),
      IndexByEvent([Plain("polymarket", "fed", Yes, 0.40, 100.0)], EventKey), DefaultSettings)
      == [CrossExchangeArb(EventKey("fed"), Plain("polymarket", "fed", Yes, 0.40, 100.0),
                           Plain("kalshi", "fed", No, 0.55, 100.0), 1470.0, 5.88, 40.0)]
  {
    var n := Plain("kalshi", "fed", No, 0.55, 100.0);
    var y := Plain("polymarket", "fed", Yes, 0.40, 100.0);
    var e := EventKey("fed");
    var kb := IndexByEvent([n], EventKey);
    var pb := IndexByEvent([y], EventKey);
    IndexSingle(n, EventKey);
    IndexSingle(y, EventKey);
    SingleCommonEvent(order, kb, pb, e);
    SecondOnlyRaises(order, kb, pb, DefaultSettings, e);
    assert EventArbs(e, kb[e], pb[e], DefaultSettings) == [CrossExchangeArb(e, y, n, 1470.0, 5.88, 40.0)] by {
      assert kb[e][No] == n && pb[e][Yes] == y;
      assert LegNotional(y, n, DefaultSettings) == 40.0;
      assert DirectionArb(e, y, n, DefaultSettings, 30.0)
        == Some(CrossExchangeArb(e, y, n, 1470.0, 5.88, 40.0));
    }
  }

  /** A book of one quote. */
  lemma IndexSingle(q: MarketQuote, key: string -> string)
    ensures IndexByEvent([q], key) == map[key(q.event) := map[q.outcome := q]]
  {
    assert [q][..0] == [];
  }

  /** A single common event offering only the second direction makes the as-written run
      raise, while the corrected one prices that direction. */
  lemma SecondOnlyRaises(order: seq<string>, kb: Book, pb: Book, s: Settings, e: string)
    requires order == [e] && e in kb && e in pb
    requires !FirstDirection(kb[e], pb[e]) && SecondDirection(kb[e], pb[e])
    ensures InBoth(order, kb, pb)
    ensures RunAsWritten(order, kb, pb, s).0 == Err(UnboundTotalBps)
    ensures ArbsInOrder(order, kb, pb, s) == EventArbs(e, kb[e], pb[e], s)
  {
    assert order[..0] == [];
  }

  // ---------------------------------------------------------------------------
  // Two-buy detection

  /** `m` is the smallest of the four. */
  ghost predicate IsMinOf4(m: real, a: real, b: real, c: real, d: real)
  {
    m <= a && m <= b && m <= c && m <= d && (m == a || m == b || m == c || m == d)
  }

  function Min4(a: real, b: real, c: real, d: real): (m: real)
    ensures IsMinOf4(m, a, b, c, d)
  {
    Min(Min(a, b), Min(c, d))
  }

  /** The two-buy edge per contract: one dollar of payout less the cost of both legs and
      the fee and slippage charged in proportion to that cost. */
  function TwoBuyEdge(yes: MarketQuote, no: MarketQuote, s: Settings): real
  {
    1.0 - (yes.price + no.price) - (s.takerBps / 10000.0 + s.slippageBps / 10000.0) * (yes.price + no.price)
  }

  /** The per-leg dollar cap in contracts, with the price floored at 1e-9. */
  function ContractCap(price: real, s: Settings): real
  {
    s.maxNotionalPerLeg / Max(price, 0.000000001)
  }

  /** `a` buys `yes` and `no` under `eventKey` with the two-buy sizing. */
  ghost predicate IsTwoBuy(a: TwoBuyArb, eventKey: string, yes: MarketQuote, no: MarketQuote, s: Settings)
  {
    && a.eventKey == eventKey && a.buyYes == yes && a.buyNo == no
    && a.sumPrice == yes.price + no.price
    && a.edgeBps == TwoBuyEdge(yes, no, s) * 10000.0
    && IsMinOf4(a.contracts, yes.size, no.size, ContractCap(yes.price, s), ContractCap(no.price, s))
    && a.grossProfitUsd == TwoBuyEdge(yes, no, s) * a.contracts
  }

  /** One case of `detect_two_buy_arbs`, before the profit filter. */
  function TwoBuyDirection(eventKey: string, yes: MarketQuote, no: MarketQuote, s: Settings): (r: Option<TwoBuyArb>)
    ensures r.Some? <==> TwoBuyEdge(yes, no, s) > 0.0
    ensures r.Some? ==> IsTwoBuy(r.value, eventKey, yes, no, s)
  {
    var sumPrice := yes.price + no.price;
    var edge := TwoBuyEdge(yes, no, s);
    if edge > 0.0 then
      var capYes := ContractCap(yes.price, s);
      var capNo := ContractCap(no.price, s);
      var contracts := Min4(yes.size, no.size, capYes, capNo);
      Some(TwoBuyArb(eventKey, yes, no, sumPrice, edge * 10000.0, contracts, edge * contracts))
    else None
  }

  /** Case A (Kalshi YES, Polymarket NO) then case B (Polymarket YES, Kalshi NO). */
  function EventTwoBuys(e: string, k: Outcomes, p: Outcomes, s: Settings): seq<TwoBuyArb>
  {
    (if FirstDirection(k, p) then OptionToSeq(TwoBuyDirection(e, k[Yes], p[No], s)) else [])
    + (if SecondDirection(k, p) then OptionToSeq(TwoBuyDirection(e, p[Yes], k[No], s)) else [])
  }

  function TwoBuysInOrder(order: seq<string>, kb: Book, pb: Book, s: Settings): seq<TwoBuyArb>
    requires InBoth(order, kb, pb)
  {
    if order == [] then []
    else
      var e := order[|order| - 1];
      TwoBuysInOrder(order[..|order| - 1], kb, pb, s) + EventTwoBuys(e, kb[e], pb[e], s)
  }

  /** The closing `r.gross_profit_usd >= min_profit_usd` filter. */
  function MeetsMinProfit(s: Settings): TwoBuyArb -> bool
  {
    (a: TwoBuyArb) => a.grossProfitUsd >= s.minProfitUsd
  }

  /** `detect_two_buy_arbs`: events keyed verbatim, both cases per common event, then the
      profit filter. */
  method DetectTwoBuyArbs(kalshi: seq<MarketQuote>, polymarket: seq<MarketQuote>, s: Settings)
    returns (results: seq<TwoBuyArb>, ghost order: seq<string>)
    ensures EnumeratesCommon(order, IndexByEvent(kalshi, Verbatim), IndexByEvent(polymarket, Verbatim))
    ensures results == Filter(TwoBuysInOrder(order, IndexByEvent(kalshi, Verbatim),
                                             IndexByEvent(polymarket, Verbatim), s), MeetsMinProfit(s))
    ensures forall a :: a in results ==> IsSoundTwoBuy(a, kalshi, polymarket, s)
  {
    var kb := IndexQuotes(kalshi, Verbatim);
    var pb := IndexQuotes(polymarket, Verbatim);
    var all;
    all, order := ScanTwoBuys(kb, pb, s);
    results := Filter(all, MeetsMinProfit(s));
    EnumeratesInBoth(order, kb, pb);
    DetectTwoBuyArbsSound(order, kalshi, polymarket, s);
  }

  /** The loop of `detect_two_buy_arbs` over the common events. */
  method ScanTwoBuys(kb: Book, pb: Book, s: Settings) returns (results: seq<TwoBuyArb>, ghost order: seq<string>)
    ensures EnumeratesCommon(order, kb, pb)
    ensures results == TwoBuysInOrder(order, kb, pb, s)
  {
    var common := Enumerate(kb.Keys * pb.Keys);
    order := common;
    forall i | 0 <= i < |common| ensures common[i] in kb && common[i] in pb {
      assert common[i] in common;
    }
    results := [];
    for i := 0 to |common|
      invariant InBoth(common[..i], kb, pb)
      invariant results == TwoBuysInOrder(common[..i], kb, pb, s)
    {
      var e := common[i];
      var k := kb[e];
      var p := pb[e];
      var caseA: seq<TwoBuyArb> := [];
      if Yes in k && No in p {
        var a := TwoBuyDirection(e, k[Yes], p[No], s);
        if a.Some? { caseA := [a.value]; }
      }
      var caseB: seq<TwoBuyArb> := [];
      if Yes in p && No in k {
        var a := TwoBuyDirection(e, p[Yes], k[No], s);
        if a.Some? { caseB := [a.value]; }
      }
      assert caseA + caseB == EventTwoBuys(e, k, p, s);
      assert common[..i + 1][..i] == common[..i];
      results := results + (caseA + caseB);
    }
    assert common[..|common|] == common;
  }

  /** Everything a two-buy opportunity promises: YES and NO bought on opposite venues for
      the same event text, a positive edge, enough profit and the sizing above. */
  ghost predicate IsSoundTwoBuy(a: TwoBuyArb, kalshi: seq<MarketQuote>, polymarket: seq<MarketQuote>, s: Settings)
  {
    && a.buyYes.outcome == Yes && a.buyNo.outcome == No
    && ((a.buyYes in kalshi && a.buyNo in polymarket) || (a.buyYes in polymarket && a.buyNo in kalshi))
    && a.buyYes.event == a.eventKey == a.buyNo.event
    && IsTwoBuy(a, a.eventKey, a.buyYes, a.buyNo, s)
    && TwoBuyEdge(a.buyYes, a.buyNo, s) > 0.0
    && a.grossProfitUsd >= s.minProfitUsd
  }

  lemma EventTwoBuysSound(e: string, kalshi: seq<MarketQuote>, polymarket: seq<MarketQuote>, s: Settings)
    requires e in IndexByEvent(kalshi, Verbatim) && e in IndexByEvent(polymarket, Verbatim)
    ensures forall a :: a in Filter(EventTwoBuys(e, IndexByEvent(kalshi, Verbatim)[e],
                                                 IndexByEvent(polymarket, Verbatim)[e], s), MeetsMinProfit(s)) ==>
              IsSoundTwoBuy(a, kalshi, polymarket, s)
  {
    var k := IndexByEvent(kalshi, Verbatim)[e];
    var p := IndexByEvent(polymarket, Verbatim)[e];
    var caseA := if FirstDirection(k, p) then OptionToSeq(TwoBuyDirection(e, k[Yes], p[No], s)) else [];
    var caseB := if SecondDirection(k, p) then OptionToSeq(TwoBuyDirection(e, p[Yes], k[No], s)) else [];
    assert EventTwoBuys(e, k, p, s) == caseA + caseB;
    if FirstDirection(k, p) {
      IndexByEventSound(kalshi, Verbatim, e, Yes);
      IndexByEventSound(polymarket, Verbatim, e, No);
    }
    if SecondDirection(k, p) {
      IndexByEventSound(polymarket, Verbatim, e, Yes);
      IndexByEventSound(kalshi, Verbatim, e, No);
    }
    forall a | a in Filter(caseA + caseB, MeetsMinProfit(s))
      ensures IsSoundTwoBuy(a, kalshi, polymarket, s)
    {
      FilterMembership(caseA + caseB, MeetsMinProfit(s), a);
      if a in caseA {
        assert IsTwoBuy(a, e, k[Yes], p[No], s);
      } else {
        assert IsTwoBuy(a, e, p[Yes], k[No], s);
      }
    }
  }

  /** Every two-buy opportunity `detect_two_buy_arbs` returns is sound. */
  lemma {:induction false} DetectTwoBuyArbsSound(order: seq<string>, kalshi: seq<MarketQuote>,
                                                 polymarket: seq<MarketQuote>, s: Settings)
    requires InBoth(order, IndexByEvent(kalshi, Verbatim), IndexByEvent(polymarket, Verbatim))
    ensures forall a :: a in Filter(TwoBuysInOrder(order, IndexByEvent(kalshi, Verbatim),
                                                   IndexByEvent(polymarket, Verbatim), s), MeetsMinProfit(s)) ==>
              IsSoundTwoBuy(a, kalshi, polymarket, s) && a.eventKey in order
  {
    if order != [] {
      var e := order[|order| - 1];
      var kb := IndexByEvent(kalshi, Verbatim);
      var pb := IndexByEvent(polymarket, Verbatim);
      var init := order[..|order| - 1];
      DetectTwoBuyArbsSound(init, kalshi, polymarket, s);
      LastEventTwoBuysSound(e, order, kalshi, polymarket, s);
      FilterAppend(TwoBuysInOrder(init, kb, pb, s), EventTwoBuys(e, kb[e], pb[e], s), MeetsMinProfit(s));
    }
  }

  /** The opportunities kept for one listed event are sound and carry that event's key. */
  lemma LastEventTwoBuysSound(e: string, order: seq<string>, kalshi: seq<MarketQuote>,
                              polymarket: seq<MarketQuote>, s: Settings)
    requires e in order
    requires e in IndexByEvent(kalshi, Verbatim) && e in IndexByEvent(polymarket, Verbatim)
    ensures forall a :: a in Filter(EventTwoBuys(e, IndexByEvent(kalshi, Verbatim)[e],
                                                 IndexByEvent(polymarket, Verbatim)[e], s), MeetsMinProfit(s)) ==>
              IsSoundTwoBuy(a, kalshi, polymarket, s) && a.eventKey in order
  {
    var kb := IndexByEvent(kalshi, Verbatim);
    var pb := IndexByEvent(polymarket, Verbatim);
    EventTwoBuysSound(e, kalshi, polymarket, s);
    forall a | a in Filter(EventTwoBuys(e, kb[e], pb[e], s), MeetsMinProfit(s)) ensures a.eventKey in order {
      FilterMembership(EventTwoBuys(e, kb[e], pb[e], s), MeetsMinProfit(s), a);
    }
  }

  /** With non-negative fees, legs that already cost a dollar or more leave no edge. */
  lemma NoTwoBuyAtOrAboveParity(e: string, yes: MarketQuote, no: MarketQuote, s: Settings)
    requires s.takerBps >= 0.0 && s.slippageBps >= 0.0
    requires yes.price + no.price >= 1.0
    ensures TwoBuyDirection(e, yes, no, s) == None
  {
    var f := s.takerBps / 10000.0 + s.slippageBps / 10000.0;
    assert f * (yes.price + no.price) >= 0.0;
  }

  /** A single quote is indexed under the key of its event. */
  lemma SingleQuoteKeys(q: MarketQuote, key: string -> string)
    ensures IndexByEvent([q], key).Keys == {key(q.event)}
  {
    assert [q][..0] == [];
  }

  /** The two detectors key events differently: "Fed" on Kalshi and "fed" on Polymarket
      share a key under `lower().strip()` but not verbatim. */
  lemma KeyingDiffersBetweenDetectors(a: MarketQuote, b: MarketQuote)
    requires a.event == "Fed" && b.event == "fed"
    ensures IndexByEvent([a], EventKey).Keys == IndexByEvent([b], EventKey).Keys
    ensures IndexByEvent([a], Verbatim).Keys !! IndexByEvent([b], Verbatim).Keys
  {
    SingleQuoteKeys(a, EventKey);
    SingleQuoteKeys(b, EventKey);
    SingleQuoteKeys(a, Verbatim);
    SingleQuoteKeys(b, Verbatim);
    assert Lower("Fed") == "fed" == Lower("fed") by {
      var l, m := Lower("Fed"), Lower("fed");
      assert l[0] == 'f' && l[1] == 'e' && l[2] == 'd';
      assert m[0] == 'f' && m[1] == 'e' && m[2] == 'd';
    }
    assert "Fed" != "fed" by {
      assert "Fed"[0] != "fed"[0];
    }
  }
}
