/** app/core/matching.py: the lexical event matcher. It pairs each Kalshi event with the
    best-scoring Polymarket event under a numeric guard, preferring an explicit alias, and
    groups quotes of both venues by normalised event text. */
module Matching {
  import opened Wrappers
  import opened Models
  import opened Seqs
  import opened Text
  import opened Selection

  /** The default similarity threshold of the matcher. */
  const DefaultThreshold: real := 0.72

  /** `{k.lower(): v for k, v in explicit_map.items()}`: a later alias overwrites an
      earlier one whose key lowers to the same text. */
  function LowerKeys(explicit: seq<(string, string)>): map<string, string>
  {
    if explicit == [] then map[]
    else
      var n := |explicit| - 1;
      LowerKeys(explicit[..n])[Lower(explicit[n].0) := explicit[n].1]
  }

  /** The alias keys are exactly the lowered alias sources, so none has an upper-case letter. */
  lemma {:induction false} LowerKeysSpec(explicit: seq<(string, string)>, k: string)
    ensures k in LowerKeys(explicit) <==> exists i :: 0 <= i < |explicit| && Lower(explicit[i].0) == k
    ensures k in LowerKeys(explicit) ==> forall c :: 0 <= c < |k| ==> !('A' <= k[c] <= 'Z')
  {
    if explicit != [] {
      var n := |explicit| - 1;
      var init := explicit[..n];
      LowerKeysSpec(init, k);
      if exists i :: 0 <= i < |init| && Lower(init[i].0) == k {
        var i :| 0 <= i < |init| && Lower(init[i].0) == k;
        assert explicit[i] == init[i];
      }
      if exists i :: 0 <= i < |explicit| && Lower(explicit[i].0) == k {
        var i :| 0 <= i < |explicit| && Lower(explicit[i].0) == k;
        if i < n {
          assert explicit[i] == init[i];
        }
      }
    }
  }

  /** The score of `ep` for `ek`: 1.0 when `ep` equals the alias target of `ek` up to case,
      otherwise the similarity ratio. */
  function AliasScore(explicitMap: map<string, string>, ratio: (string, string) -> real)
    : string -> string -> real
  {
    (ek: string) => (ep: string) =>
      var target := if Lower(ek) in explicitMap then explicitMap[Lower(ek)] else "";
      if target != "" && Lower(ep) == Lower(target) then 1.0 else Similarity(ratio, ek, ep)
  }

  /** Scores are ratios or 1.0, hence in [0, 1]. */
  lemma AliasScoreBounds(explicitMap: map<string, string>, ratio: (string, string) -> real)
    requires IsRatio(ratio)
    ensures forall ek, ep :: 0.0 <= AliasScore(explicitMap, ratio)(ek)(ep) <= 1.0
  {
    forall ek, ep ensures 0.0 <= AliasScore(explicitMap, ratio)(ek)(ep) <= 1.0 {
      var r := Similarity(ratio, ek, ep);
    }
  }

  /** The alias target of a Kalshi event scores exactly 1.0, whatever the ratio says. */
  lemma AliasTargetScoresOne(explicitMap: map<string, string>, ratio: (string, string) -> real, ek: string, ep: string)
    requires Lower(ek) in explicitMap && explicitMap[Lower(ek)] != ""
    requires Lower(ep) == Lower(explicitMap[Lower(ek)])
    ensures AliasScore(explicitMap, ratio)(ek)(ep) == 1.0
  {
  }

  /** The candidate for Kalshi event `ek`: the accepted best Polymarket event, labelled
      "ek <-> ep", without market ids. */
  function CandidateFor(ek: string, ps: seq<string>, guard: string -> string -> bool,
                        score: string -> string -> real, threshold: real): Option<MatchCandidate>
  {
    var best := AcceptedBest(ps, guard(ek), score(ek), threshold);
    if best.Some? then Some(MatchCandidate(ek + " <-> " + best.value, None, None, score(ek)(best.value)))
    else None
  }

  /** The candidates of `build_candidates` for the Kalshi events `ks`, in order. */
  function CandidatesFor(ks: seq<string>, ps: seq<string>, guard: string -> string -> bool,
                         score: string -> string -> real, threshold: real): seq<MatchCandidate>
  {
    if ks == [] then []
    else
      var n := |ks| - 1;
      var c := CandidateFor(ks[n], ps, guard, score, threshold);
      CandidatesFor(ks[..n], ps, guard, score, threshold) + (if c.Some? then [c.value] else [])
  }

  /** `c` is the candidate of Kalshi event `ek`: its first best guarded Polymarket event,
      non-empty and scoring at least the threshold, with no market ids. */
  ghost predicate IsCandidateOf(c: MatchCandidate, ek: string, ps: seq<string>, guard: string -> string -> bool,
                                score: string -> string -> real, threshold: real)
  {
    exists j :: IsFirstBest(ps, guard(ek), score(ek), j) && ps[j] != ""
                && c == MatchCandidate(ek + " <-> " + ps[j], None, None, score(ek)(ps[j]))
                && c.similarity >= threshold && guard(ek)(ps[j])
  }

  /** Each candidate belongs to a distinct Kalshi event, in the order of `ks`: the witness
      `idx` gives strictly increasing positions. */
  lemma {:induction false} CandidatesSound(ks: seq<string>, ps: seq<string>, guard: string -> string -> bool,
                                           score: string -> string -> real, threshold: real)
    returns (idx: seq<nat>)
    ensures |idx| == |CandidatesFor(ks, ps, guard, score, threshold)| <= |ks|
    ensures forall j :: 0 <= j < |idx| ==>
              (idx[j] < |ks| &&
               IsCandidateOf(CandidatesFor(ks, ps, guard, score, threshold)[j], ks[idx[j]], ps, guard, score, threshold))
    ensures forall i, j :: 0 <= i < j < |idx| ==> idx[i] < idx[j]
  {
    if ks == [] {
      idx := [];
    } else {
      var n := |ks| - 1;
      var init := ks[..n];
      var prev := CandidatesSound(init, ps, guard, score, threshold);
      var cs := CandidatesFor(init, ps, guard, score, threshold);
      var all := CandidatesFor(ks, ps, guard, score, threshold);
      var c := CandidateFor(ks[n], ps, guard, score, threshold);
      if c.Some? {
        CandidateForSound(ks[n], ps, guard, score, threshold);
        assert all == cs + [c.value];
        idx := prev + [n];
        forall j | 0 <= j < |idx|
          ensures idx[j] < |ks| && IsCandidateOf(all[j], ks[idx[j]], ps, guard, score, threshold)
        {
          if j < |prev| {
            assert all[j] == cs[j] && ks[prev[j]] == init[prev[j]];
          }
        }
      } else {
        assert all == cs;
        idx := prev;
        forall j | 0 <= j < |idx|
          ensures idx[j] < |ks| && IsCandidateOf(all[j], ks[idx[j]], ps, guard, score, threshold)
        {
          assert ks[prev[j]] == init[prev[j]];
        }
      }
    }
  }

  /** A candidate that exists is the candidate of its Kalshi event. */
  lemma CandidateForSound(ek: string, ps: seq<string>, guard: string -> string -> bool,
                          score: string -> string -> real, threshold: real)
    requires CandidateFor(ek, ps, guard, score, threshold).Some?
    ensures IsCandidateOf(CandidateFor(ek, ps, guard, score, threshold).value, ek, ps, guard, score, threshold)
  {
    var best := AcceptedBest(ps, guard(ek), score(ek), threshold);
    var j :| IsFirstBest(ps, guard(ek), score(ek), j) && ps[j] == best.value;
  }

  /** The texts of the events of a quote list, in order. */
  function Events(qs: seq<MarketQuote>): (r: seq<string>)
    ensures |r| == |qs| && forall i :: 0 <= i < |qs| ==> r[i] == qs[i].event
  {
    seq(|qs|, i requires 0 <= i < |qs| => qs[i].event)
  }

  /** The keys of `by_event[q.event]` in insertion order. */
  method EventKeysInOrder(qs: seq<MarketQuote>) returns (keys: seq<string>)
    ensures keys == Dedup(Events(qs))
  {
    keys := [];
    for i := 0 to |qs|
      invariant keys == Dedup(Events(qs[..i]))
    {
      assert Events(qs[..i + 1])[..i] == Events(qs[..i]);
      if qs[i].event !in keys {
        keys := keys + [qs[i].event];
      }
    }
    assert qs[..|qs|] == qs;
  }

  /** The quotes of a list whose keyed event is `k`, in input order. */
  function QuotesWithKey(qs: seq<MarketQuote>, key: string -> string, k: string): seq<MarketQuote>
  {
    Filter(qs, (q: MarketQuote) => key(q.event) == k)
  }

  /** The keyed events of a list. */
  function KeysOf(qs: seq<MarketQuote>, key: string -> string): set<string>
  {
    set q | q in qs :: key(q.event)
  }

  /** `keys` and `groups` hold the quotes of `qs` grouped by keyed event: the keys are the
      distinct keyed events in first-seen order and each group holds that key's quotes. */
  ghost predicate Grouped(keys: seq<string>, groups: map<string, seq<MarketQuote>>,
                          qs: seq<MarketQuote>, key: string -> string)
  {
    KeysListed(keys, groups) && GroupsHold(groups, qs, key)
  }

  /** `keys` lists the keys of `groups` once each. */
  ghost predicate KeysListed(keys: seq<string>, groups: map<string, seq<MarketQuote>>)
  {
    Distinct(keys) && forall k :: k in keys <==> k in groups
  }

  /** `groups` holds, under each keyed event of `qs`, the quotes with that key. */
  ghost predicate GroupsHold(groups: map<string, seq<MarketQuote>>, qs: seq<MarketQuote>, key: string -> string)
  {
    && groups.Keys == KeysOf(qs, key)
    && (forall k :: k in groups ==> groups[k] == QuotesWithKey(qs, key, k))
    && (forall k :: k !in groups ==> QuotesWithKey(qs, key, k) == [])
  }

  lemma QuotesWithKeyAppend(qs: seq<MarketQuote>, key: string -> string, q: MarketQuote, k: string)
    ensures QuotesWithKey(qs + [q], key, k) == QuotesWithKey(qs, key, k) + (if key(q.event) == k then [q] else [])
  {
    assert (qs + [q])[..|qs|] == qs;
  }

  lemma KeysOfAppend(qs: seq<MarketQuote>, key: string -> string, q: MarketQuote)
    ensures KeysOf(qs + [q], key) == KeysOf(qs, key) + {key(q.event)}
  {
    assert forall x :: x in qs + [q] <==> x in qs || x == q;
  }

  /** A quote with a new key opens a group of its own at the end of the keys. */
  lemma GroupedNewKey(keys: seq<string>, groups: map<string, seq<MarketQuote>>,
                      qs: seq<MarketQuote>, key: string -> string, q: MarketQuote)
    requires Grouped(keys, groups, qs, key) && key(q.event) !in groups
    ensures Grouped(keys + [key(q.event)], groups[key(q.event) := [q]], qs + [q], key)
  {
    var k0 := key(q.event);
    var keys', groups' := keys + [k0], groups[k0 := [q]];
    assert KeysListed(keys', groups') by {
      DistinctSnoc(keys, k0);
      forall k ensures k in keys' <==> k in groups' {
        assert k in keys' <==> k in keys || k == k0;
      }
    }
    GroupsHoldStep(groups, qs, key, q);
  }

  /** A quote with a known key is appended to that key's group. */
  lemma GroupedOldKey(keys: seq<string>, groups: map<string, seq<MarketQuote>>,
                      qs: seq<MarketQuote>, key: string -> string, q: MarketQuote)
    requires Grouped(keys, groups, qs, key) && key(q.event) in groups
    ensures Grouped(keys, groups[key(q.event) := groups[key(q.event)] + [q]], qs + [q], key)
  {
    GroupsHoldStep(groups, qs, key, q);
  }

  /** Appending a quote to the group of its key, opening the group if needed, keeps the
      groups exact. */
  lemma GroupsHoldStep(groups: map<string, seq<MarketQuote>>, qs: seq<MarketQuote>,
                       key: string -> string, q: MarketQuote)
    requires GroupsHold(groups, qs, key)
    ensures GroupsHold(groups[key(q.event) := (if key(q.event) in groups then groups[key(q.event)] else []) + [q]],
                       qs + [q], key)
  {
    var k0 := key(q.event);
    var groups' := groups[k0 := (if k0 in groups then groups[k0] else []) + [q]];
    var qs' := qs + [q];
    assert groups'.Keys == KeysOf(qs', key) by {
      KeysOfAppend(qs, key, q);
    }
    forall k | k in groups' ensures groups'[k] == QuotesWithKey(qs', key, k) {
      QuotesWithKeyAppend(qs, key, q, k);
    }
    forall k | k !in groups' ensures QuotesWithKey(qs', key, k) == [] {
      QuotesWithKeyAppend(qs, key, q, k);
    }
  }

  /** `by[key(q.event)].append(q)` over a quote list: the keys in insertion order and the
      lists of quotes per key. */
  method GroupByKey(qs: seq<MarketQuote>, key: string -> string)
    returns (keys: seq<string>, groups: map<string, seq<MarketQuote>>)
    ensures Grouped(keys, groups, qs, key)
  {
    keys := [];
    groups := map[];
    for i := 0 to |qs|
      invariant Grouped(keys, groups, qs[..i], key)
    {
      var q := qs[i];
      var k := key(q.event);
      assert qs[..i + 1] == qs[..i] + [q];
      if k !in groups {
        GroupedNewKey(keys, groups, qs[..i], key, q);
        keys := keys + [k];
        groups := groups[k := [q]];
      } else {
        GroupedOldKey(keys, groups, qs[..i], key, q);
        groups := groups[k := groups[k] + [q]];
      }
    }
    assert qs[..|qs|] == qs;
  }

  /** An event matcher: an alias map with lower-cased keys and a similarity threshold. */
  class EventMatcher {
    const explicitMap: map<string, string>
    const threshold: real

    constructor(explicit: seq<(string, string)>, threshold: real)
      ensures explicitMap == LowerKeys(explicit) && this.threshold == threshold
    {
      explicitMap := LowerKeys(explicit);
      this.threshold := threshold;
    }

    /** The matcher with the default threshold. */
    constructor WithDefaultThreshold(explicit: seq<(string, string)>)
      ensures explicitMap == LowerKeys(explicit) && threshold == DefaultThreshold
    {
      explicitMap := LowerKeys(explicit);
      threshold := DefaultThreshold;
    }

    /** `build_candidates`: at most one candidate per distinct Kalshi event, in
        first-occurrence order (see CandidatesSound). The per-event quote lists the source
        builds are never read, so only their key order is kept. */
    method BuildCandidates(kalshi: seq<MarketQuote>, polymarket: seq<MarketQuote>, ratio: (string, string) -> real)
      returns (candidates: seq<MatchCandidate>)
      requires IsRatio(ratio)
      ensures candidates == CandidatesFor(Dedup(Events(kalshi)), Dedup(Events(polymarket)),
                                          NumericGuard, AliasScore(explicitMap, ratio), threshold)
    {
      var ks := EventKeysInOrder(kalshi);
      var ps := EventKeysInOrder(polymarket);
      AliasScoreBounds(explicitMap, ratio);
      candidates := ScanCandidates(ks, ps, NumericGuard, AliasScore(explicitMap, ratio), threshold);
    }

    /** `pair_by_outcome`: for every normalised event text on both venues, the quotes of
        each venue with that text, in input order. */
    method PairByOutcome(kalshi: seq<MarketQuote>, polymarket: seq<MarketQuote>)
      returns (pairs: map<string, (seq<MarketQuote>, seq<MarketQuote>)>)
      ensures pairs.Keys == KeysOf(kalshi, EventKey) * KeysOf(polymarket, EventKey)
      ensures forall k :: k in pairs ==>
                pairs[k] == (QuotesWithKey(kalshi, EventKey, k), QuotesWithKey(polymarket, EventKey, k))
    {
      var kKeys, kBy := GroupByKey(kalshi, EventKey);
      var pKeys, pBy := GroupByKey(polymarket, EventKey);
      pairs := PairGroups(kKeys, kBy, pBy);
    }
  }

  /** The loop of `build_candidates` over the Kalshi events. */
  method ScanCandidates(ks: seq<string>, ps: seq<string>, guard: string -> string -> bool,
                        score: string -> string -> real, threshold: real)
    returns (candidates: seq<MatchCandidate>)
    requires forall ek, ep :: score(ek)(ep) >= 0.0
    ensures candidates == CandidatesFor(ks, ps, guard, score, threshold)
  {
    candidates := [];
    for i := 0 to |ks|
      invariant candidates == CandidatesFor(ks[..i], ps, guard, score, threshold)
    {
      assert ks[..i + 1][..i] == ks[..i];
      var ek := ks[i];
      var bestSim, bestEventPm := ScanFirstBest(ps, guard(ek), score(ek));
      assert CandidateFor(ek, ps, guard, score, threshold)
          == if bestEventPm.Some? && bestEventPm.value != "" && bestSim >= threshold
             then Some(MatchCandidate(ek + " <-> " + bestEventPm.value, None, None, bestSim)) else None;
      if bestEventPm.Some? && bestEventPm.value != "" && bestSim >= threshold {
        candidates := candidates + [MatchCandidate(ek + " <-> " + bestEventPm.value, None, None, bestSim)];
      }
    }
    assert ks[..|ks|] == ks;
  }

  /** The loop of `pair_by_outcome` over the Kalshi groups. */
  method PairGroups(kKeys: seq<string>, kBy: map<string, seq<MarketQuote>>, pBy: map<string, seq<MarketQuote>>)
    returns (pairs: map<string, (seq<MarketQuote>, seq<MarketQuote>)>)
    requires forall k :: k in kKeys <==> k in kBy
    ensures pairs.Keys == kBy.Keys * pBy.Keys
    ensures forall k :: k in pairs ==> pairs[k] == (kBy[k], pBy[k])
  {
    pairs := map[];
    for i := 0 to |kKeys|
      invariant pairs.Keys == (set j | 0 <= j < i :: kKeys[j]) * pBy.Keys
      invariant forall k :: k in pairs ==> k in kBy && pairs[k] == (kBy[k], pBy[k])
    {
      var ek := kKeys[i];
      if ek in pBy {
        pairs := pairs[ek := (kBy[ek], pBy[ek])];
      }
      assert (set j | 0 <= j < i + 1 :: kKeys[j]) == (set j | 0 <= j < i :: kKeys[j]) + {ek};
    }
    assert forall k :: k in kBy ==> k in (set j | 0 <= j < |kKeys| :: kKeys[j]) by {
      forall k | k in kBy ensures k in (set j | 0 <= j < |kKeys| :: kKeys[j]) {
        var j :| 0 <= j < |kKeys| && kKeys[j] == k;
      }
    }
  }
}
