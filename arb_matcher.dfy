/** `detect_arbs_with_matcher` of app/core/arb.py: an explicit alias map plus a local
    fuzzy pass pair Kalshi events with Polymarket events, then the cross-exchange pricing
    runs on each pair. */
module ArbMatcher {
  import opened Wrappers
  import opened Models
  import opened Seqs
  import opened Text
  import opened Selection
  import opened Arb

  /** A Python dict of strings: the values and the keys in first-insertion order. */
  datatype OrderedMap = OrderedMap(keys: seq<string>, values: map<string, string>)

  ghost predicate Valid(om: OrderedMap)
  {
    Distinct(om.keys) && forall k :: k in om.keys <==> k in om.values
  }

  const EmptyMap := OrderedMap([], map[])

  /** `d[k] = v`: a new key goes to the end, an existing key keeps its place. */
  function Put(om: OrderedMap, k: string, v: string): (r: OrderedMap)
    requires Valid(om)
    ensures Valid(r) && r.values == om.values[k := v]
    ensures k in om.values ==> r.keys == om.keys
    ensures k !in om.values ==> r.keys == om.keys + [k]
  {
    if k in om.values then OrderedMap(om.keys, om.values[k := v])
    else OrderedMap(om.keys + [k], om.values[k := v])
  }

  /** `mapping[key_event(k)] = key_event(v)` for each explicit alias, in order. */
  function ExplicitMapping(explicit: seq<(string, string)>, key: string -> string): (r: OrderedMap)
    ensures Valid(r)
  {
    if explicit == [] then EmptyMap
    else
      var n := |explicit| - 1;
      Put(ExplicitMapping(explicit[..n], key), key(explicit[n].0), key(explicit[n].1))
  }

  /** The explicit keys are exactly the keyed alias sources. */
  lemma {:induction false} ExplicitMappingKeys(explicit: seq<(string, string)>, key: string -> string, k: string)
    ensures k in ExplicitMapping(explicit, key).values <==>
              exists i :: 0 <= i < |explicit| && key(explicit[i].0) == k
  {
    if explicit != [] {
      var n := |explicit| - 1;
      var init := explicit[..n];
      ExplicitMappingKeys(init, key, k);
      if exists i :: 0 <= i < |init| && key(init[i].0) == k {
        var i :| 0 <= i < |init| && key(init[i].0) == k;
        assert explicit[i] == init[i];
      }
      if exists i :: 0 <= i < |explicit| && key(explicit[i].0) == k {
        var i :| 0 <= i < |explicit| && key(explicit[i].0) == k;
        if i < n {
          assert explicit[i] == init[i];
        }
      }
    }
  }

  /** A key maps to the keyed target of the last alias with that keyed source. */
  lemma {:induction false} ExplicitMappingLast(explicit: seq<(string, string)>, key: string -> string, k: string)
    returns (i: nat)
    requires k in ExplicitMapping(explicit, key).values
    ensures i < |explicit| && key(explicit[i].0) == k
    ensures ExplicitMapping(explicit, key).values[k] == key(explicit[i].1)
    ensures forall j :: i < j < |explicit| ==> key(explicit[j].0) != k
  {
    var n := |explicit| - 1;
    var init := explicit[..n];
    ExplicitMappingSnoc(explicit, key);
    if key(explicit[n].0) == k {
      i := n;
    } else {
      i := ExplicitMappingLast(init, key, k);
      assert forall j :: 0 <= j < n ==> explicit[j] == init[j];
    }
  }

  /** The last alias is written over the mapping of the ones before it. */
  lemma ExplicitMappingSnoc(explicit: seq<(string, string)>, key: string -> string)
    requires explicit != []
    ensures ExplicitMapping(explicit, key).values
         == ExplicitMapping(explicit[..|explicit| - 1], key).values[key(explicit[|explicit| - 1].0)
                                                                     := key(explicit[|explicit| - 1].1)]
  {
  }

  /** The similarity of the fuzzy pass, as a score of `ep` for `ek`. */
  function ScoreFor(ratio: (string, string) -> real): string -> string -> real
  {
    (ek: string) => (ep: string) => Similarity(ratio, ek, ep)
  }

  /** The fuzzy pass over the Kalshi events in `ks`, starting from `om`: an event whose key
      is already mapped is skipped. */
  function FuzzyMapping(ks: seq<string>, ps: seq<string>, guard: string -> string -> bool,
                        score: string -> string -> real, threshold: real,
                        key: string -> string, om: OrderedMap): (r: OrderedMap)
    requires Valid(om)
    ensures Valid(r)
  {
    if ks == [] then om
    else
      var n := |ks| - 1;
      var m := FuzzyMapping(ks[..n], ps, guard, score, threshold, key, om);
      var ek := ks[n];
      if key(ek) in m.values then m
      else
        var pick := AcceptedBest(ps, guard(ek), score(ek), threshold);
        if pick.Some? then Put(m, key(ek), key(pick.value)) else m
  }

  /** The pricing loop over the mapping: both directions per mapped pair, each labelled
      "<YES event> <-> <NO event>". */
  function MappedArbs(keys: seq<string>, m: map<string, string>, kb: Book, pb: Book, s: Settings)
    : (r: seq<CrossExchangeArb>)
    requires forall i :: 0 <= i < |keys| ==> keys[i] in m
    ensures |r| <= 2 * |keys|
  {
    if keys == [] then []
    else
      var n := |keys| - 1;
      var prev := MappedArbs(keys[..n], m, kb, pb, s);
      var ekKey := keys[n];
      var epKey := m[ekKey];
      if ekKey !in kb || epKey !in pb || kb[ekKey] == map[] || pb[epKey] == map[] then prev
      else prev + PairArbs(kb[ekKey], pb[epKey], s)
  }

  /** Both directions for one mapped pair of outcome books. */
  function PairArbs(k: Outcomes, p: Outcomes, s: Settings): (r: seq<CrossExchangeArb>)
    ensures |r| <= 2
  {
    (if FirstDirection(k, p)
     then OptionToSeq(DirectionArb(k[Yes].event + " <-> " + p[No].event, k[Yes], p[No], s, TotalBps(s)))
     else [])
    + (if SecondDirection(k, p)
       then OptionToSeq(DirectionArb(p[Yes].event + " <-> " + k[No].event, p[Yes], k[No], s, TotalBps(s)))
       else [])
  }

  /** The distinct event texts of a quote list. */
  function EventsOf(qs: seq<MarketQuote>): set<string>
  {
    set q | q in qs :: q.event
  }

  /** `order` lists the members of `s` once each. */
  ghost predicate Enumerates(order: seq<string>, s: set<string>)
  {
    Distinct(order) && forall x :: x in order <==> x in s
  }

  /** The mapping `detect_arbs_with_matcher` builds when it visits the Kalshi events in
      `ks` and the Polymarket events in `ps`. */
  function MatcherMapping(explicit: seq<(string, string)>, ks: seq<string>, ps: seq<string>,
                          ratio: (string, string) -> real, threshold: real): (r: OrderedMap)
    ensures Valid(r)
  {
    FuzzyMapping(ks, ps, NumericGuard, ScoreFor(ratio), threshold, EventKey, ExplicitMapping(explicit, EventKey))
  }

  /** `detect_arbs_with_matcher`. The unused `build_candidates` call is not modelled. */
  method DetectArbsWithMatcher(kalshi: seq<MarketQuote>, polymarket: seq<MarketQuote>, threshold: real,
                               explicit: seq<(string, string)>, ratio: (string, string) -> real, s: Settings)
    returns (arbs: seq<CrossExchangeArb>, ghost ks: seq<string>, ghost ps: seq<string>)
    requires IsRatio(ratio)
    ensures Enumerates(ks, EventsOf(kalshi)) && Enumerates(ps, EventsOf(polymarket))
    ensures arbs == MappedArbs(MatcherMapping(explicit, ks, ps, ratio, threshold).keys,
                               MatcherMapping(explicit, ks, ps, ratio, threshold).values,
                               IndexByEvent(kalshi, EventKey), IndexByEvent(polymarket, EventKey), s)
    ensures forall a :: a in arbs ==>
              IsSoundCrossArb(a, kalshi, polymarket, s) && a.eventKey == a.long.event + " <-> " + a.short.event
  {
    var kb := IndexQuotes(kalshi, EventKey);
    var pb := IndexQuotes(polymarket, EventKey);
    var kEvents := CollectEvents(kalshi);
    var pEvents := CollectEvents(polymarket);
    var kOrder := Enumerate(kEvents);
    var pOrder := Enumerate(pEvents);
    ks, ps := kOrder, pOrder;
    var mapping := BuildExplicit(explicit);
    assert forall ek, ep :: ScoreFor(ratio)(ek)(ep) >= 0.0;
    mapping := FuzzyPass(kOrder, pOrder, NumericGuard, ScoreFor(ratio), threshold, EventKey, mapping);
    arbs := PriceMapping(mapping, kb, pb, s);
    MappedArbsSound(mapping.keys, mapping.values, kalshi, polymarket, EventKey, s);
  }

  /** `unique_*_events.add(q.event)` over the quotes. */
  method CollectEvents(qs: seq<MarketQuote>) returns (events: set<string>)
    ensures events == EventsOf(qs)
  {
    events := {};
    for i := 0 to |qs|
      invariant events == EventsOf(qs[..i])
    {
      assert qs[..i + 1] == qs[..i] + [qs[i]];
      events := events + {qs[i].event};
    }
    assert qs[..|qs|] == qs;
  }

  /** The explicit phase of the mapping. */
  method BuildExplicit(explicit: seq<(string, string)>) returns (mapping: OrderedMap)
    ensures mapping == ExplicitMapping(explicit, EventKey)
  {
    mapping := EmptyMap;
    for i := 0 to |explicit|
      invariant mapping == ExplicitMapping(explicit[..i], EventKey)
    {
      assert explicit[..i + 1][..i] == explicit[..i];
      var k := EventKey(explicit[i].0);
      var v := EventKey(explicit[i].1);
      mapping := Put(mapping, k, v);
    }
    assert explicit[..|explicit|] == explicit;
  }

  /** The outer loop of the fuzzy pass. */
  method FuzzyPass(ks: seq<string>, ps: seq<string>, guard: string -> string -> bool,
                   score: string -> string -> real, threshold: real,
                   key: string -> string, start: OrderedMap) returns (mapping: OrderedMap)
    requires Valid(start)
    requires forall ek, ep :: score(ek)(ep) >= 0.0
    ensures mapping == FuzzyMapping(ks, ps, guard, score, threshold, key, start)
  {
    mapping := start;
    for i := 0 to |ks|
      invariant mapping == FuzzyMapping(ks[..i], ps, guard, score, threshold, key, start)
    {
      assert ks[..i + 1][..i] == ks[..i];
      var ek := ks[i];
      if key(ek) in mapping.values {
        continue;
      }
      var bestSim, bestEp := ScanFirstBest(ps, guard(ek), score(ek));
      assert AcceptedBest(ps, guard(ek), score(ek), threshold)
          == if bestEp.Some? && bestEp.value != "" && bestSim >= threshold then bestEp else None;
      if bestEp.Some? && bestEp.value != "" && bestSim >= threshold {
        mapping := Put(mapping, key(ek), key(bestEp.value));
      }
    }
    assert ks[..|ks|] == ks;
  }

  /** The pricing loop over `mapping.items()`. */
  method PriceMapping(mapping: OrderedMap, kb: Book, pb: Book, s: Settings) returns (arbs: seq<CrossExchangeArb>)
    requires Valid(mapping)
    ensures arbs == MappedArbs(mapping.keys, mapping.values, kb, pb, s)
  {
    arbs := [];
    var totalBps := TotalBps(s);
    for i := 0 to |mapping.keys|
      invariant arbs == MappedArbs(mapping.keys[..i], mapping.values, kb, pb, s)
    {
      MappedArbsSnoc(mapping.keys, i, mapping.values, kb, pb, s);
      var ekKey := mapping.keys[i];
      var epKey := mapping.values[ekKey];
      if ekKey !in kb || epKey !in pb || kb[ekKey] == map[] || pb[epKey] == map[] {
        continue;
      }
      var k := kb[ekKey];
      var p := pb[epKey];
      var first: seq<CrossExchangeArb> := [];
      if Yes in k && No in p {
        var a := DirectionArb(k[Yes].event + " <-> " + p[No].event, k[Yes], p[No], s, totalBps);
        if a.Some? { first := [a.value]; }
      }
      var second: seq<CrossExchangeArb> := [];
      if Yes in p && No in k {
        var a := DirectionArb(p[Yes].event + " <-> " + k[No].event, p[Yes], k[No], s, totalBps);
        if a.Some? { second := [a.value]; }
      }
      assert first + second == PairArbs(k, p, s);
      arbs := arbs + (first + second);
    }
    assert mapping.keys[..|mapping.keys|] == mapping.keys;
  }

  /** Extending the priced prefix of the keys by one entry prices that entry's pair, unless
      either side has no quotes. */
  lemma MappedArbsSnoc(keys: seq<string>, i: nat, m: map<string, string>, kb: Book, pb: Book, s: Settings)
    requires forall j :: 0 <= j < |keys| ==> keys[j] in m
    requires i < |keys|
    ensures var ekKey, epKey := keys[i], m[keys[i]];
            MappedArbs(keys[..i + 1], m, kb, pb, s)
              == if ekKey !in kb || epKey !in pb || kb[ekKey] == map[] || pb[epKey] == map[]
                 then MappedArbs(keys[..i], m, kb, pb, s)
                 else MappedArbs(keys[..i], m, kb, pb, s) + PairArbs(kb[ekKey], pb[epKey], s)
  {
    assert keys[..i + 1][..i] == keys[..i];
    assert keys[..i + 1][i] == keys[i];
  }

  // ---------------------------------------------------------------------------
  // Properties of the mapping and of the priced pairs

  /** The fuzzy pass never changes an entry that was already there: explicit aliases are
      used as given, without the numeric guard or the threshold. */
  lemma {:induction false} FuzzyMappingKeepsStart(ks: seq<string>, ps: seq<string>, guard: string -> string -> bool,
                                                  score: string -> string -> real, threshold: real,
                                                  key: string -> string, om: OrderedMap, k: string)
    requires Valid(om) && k in om.values
    ensures k in FuzzyMapping(ks, ps, guard, score, threshold, key, om).values
    ensures FuzzyMapping(ks, ps, guard, score, threshold, key, om).values[k] == om.values[k]
  {
    if ks != [] {
      FuzzyMappingKeepsStart(ks[..|ks| - 1], ps, guard, score, threshold, key, om, k);
    }
  }

  /** Every entry the fuzzy pass adds comes from a Kalshi event `ks[i]` whose key was not
      yet mapped, paired with the first best guarded Polymarket event, which is non-empty
      and scores at least `threshold`. */
  lemma {:induction false} FuzzyMappingAdded(ks: seq<string>, ps: seq<string>, guard: string -> string -> bool,
                                             score: string -> string -> real, threshold: real,
                                             key: string -> string, om: OrderedMap, k: string)
    returns (i: nat, j: nat)
    requires Valid(om) && k !in om.values
    requires k in FuzzyMapping(ks, ps, guard, score, threshold, key, om).values
    ensures i < |ks| && key(ks[i]) == k && j < |ps| && ps[j] != ""
    ensures FuzzyMapping(ks, ps, guard, score, threshold, key, om).values[k] == key(ps[j])
    ensures IsFirstBest(ps, guard(ks[i]), score(ks[i]), j)
    ensures guard(ks[i])(ps[j]) && score(ks[i])(ps[j]) >= threshold
  {
    var n := |ks| - 1;
    var init := ks[..n];
    var m := FuzzyMapping(init, ps, guard, score, threshold, key, om);
    if k in m.values {
      i, j := FuzzyMappingAdded(init, ps, guard, score, threshold, key, om, k);
      assert ks[i] == init[i];
    } else {
      i := n;
      var b := FirstBest(ps, guard(ks[n]), score(ks[n]));
      FirstBestSpec(ps, guard(ks[n]), score(ks[n]));
      j := b.value;
    }
  }

  /** One mapped pair's opportunities: priced like `detect_arbs`, labelled by the two
      event texts, long YES on one venue's book and short NO on the other's. */
  lemma PairArbsSound(k: Outcomes, p: Outcomes, s: Settings)
    ensures |PairArbs(k, p, s)| <= 2
    ensures forall a :: a in PairArbs(k, p, s) ==>
              && a.eventKey == a.long.event + " <-> " + a.short.event
              && IsDirectionArb(a, a.eventKey, a.long, a.short, s, TotalBps(s))
              && ((Yes in k && No in p && a.long == k[Yes] && a.short == p[No])
                  || (Yes in p && No in k && a.long == p[Yes] && a.short == k[No]))
  {
  }

  /** Every opportunity of the matcher-backed detector prices a YES quote and a NO quote
      whose keyed events the mapping pairs, the Kalshi event on the left. */
  lemma {:induction false} MappedArbsSound(keys: seq<string>, m: map<string, string>,
                                           kalshi: seq<MarketQuote>, polymarket: seq<MarketQuote>,
                                           key: string -> string, s: Settings)
    requires forall i :: 0 <= i < |keys| ==> keys[i] in m
    ensures forall a :: a in MappedArbs(keys, m, IndexByEvent(kalshi, key), IndexByEvent(polymarket, key), s) ==>
              && a.eventKey == a.long.event + " <-> " + a.short.event
              && IsDirectionArb(a, a.eventKey, a.long, a.short, s, TotalBps(s))
              && a.long.outcome == Yes && a.short.outcome == No
              && ((a.long in kalshi && a.short in polymarket
                   && key(a.long.event) in keys && m[key(a.long.event)] == key(a.short.event))
                  || (a.long in polymarket && a.short in kalshi
                      && key(a.short.event) in keys && m[key(a.short.event)] == key(a.long.event)))
  {
    if keys != [] {
      var n := |keys| - 1;
      var kb := IndexByEvent(kalshi, key);
      var pb := IndexByEvent(polymarket, key);
      MappedArbsSound(keys[..n], m, kalshi, polymarket, key, s);
      var ek := keys[n];
      var ep := m[ek];
      if ek in kb && ep in pb && kb[ek] != map[] && pb[ep] != map[] {
        PairArbsSound(kb[ek], pb[ep], s);
        if FirstDirection(kb[ek], pb[ep]) {
          IndexByEventSound(kalshi, key, ek, Yes);
          IndexByEventSound(polymarket, key, ep, No);
        }
        if SecondDirection(kb[ek], pb[ep]) {
          IndexByEventSound(polymarket, key, ep, Yes);
          IndexByEventSound(kalshi, key, ek, No);
        }
      }
    }
  }
}
