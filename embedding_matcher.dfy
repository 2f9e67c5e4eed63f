/** app/core/embedding_matcher.py: candidate pairing of Kalshi and Polymarket events by
    embedding similarity, narrowed by a token index and a number index and checked by
    numeric, subject and entity guards. The embeddings, the entity-token extractor and
    the subject extractor are abstract parameters. */
module EmbeddingMatcher {
  import opened Wrappers
  import opened Models
  import opened Seqs
  import opened Text
  import opened Selection
  import opened ArbMatcher

  /** Length of the run of `[a-z0-9]` characters at the start of `s`. */
  function RunLength(s: string): (n: nat)
    ensures n <= |s|
    ensures forall i :: 0 <= i < n ==> IsLowerAlnum(s[i])
    ensures n < |s| ==> !IsLowerAlnum(s[n])
  {
    if s == [] || !IsLowerAlnum(s[0]) then 0 else 1 + RunLength(s[1..])
  }

  /** `re.findall(r"[a-z0-9]{3,}", s)`: the maximal runs of at least three characters. */
  function Runs(s: string): (r: seq<string>)
    ensures forall k :: 0 <= k < |r| ==> |r[k]| >= 3 && forall i :: 0 <= i < |r[k]| ==> IsLowerAlnum(r[k][i])
    decreases |s|
  {
    if s == [] then []
    else if !IsLowerAlnum(s[0]) then Runs(s[1..])
    else
      var n := RunLength(s);
      (if n >= 3 then [s[..n]] else []) + Runs(s[n..])
  }

  /** `s[i..j]` is a maximal `[a-z0-9]` run of at least three characters. */
  ghost predicate IsLongRun(s: string, i: int, j: int)
  {
    && 0 <= i && i + 3 <= j <= |s|
    && (forall k :: i <= k < j ==> IsLowerAlnum(s[k]))
    && (i == 0 || !IsLowerAlnum(s[i - 1]))
    && (j == |s| || !IsLowerAlnum(s[j]))
  }

  /** `_tokens(text)`: every token is an `[a-z0-9]` run of at least three characters. */
  function Tokens(text: string): (r: set<string>)
    ensures forall t :: t in r ==> |t| >= 3 && forall i :: 0 <= i < |t| ==> IsLowerAlnum(t[i])
  {
    var r := Runs(Lower(text));
    set k | 0 <= k < |r| :: r[k]
  }

  /** A run that starts at 0 ends where RunLength says. */
  lemma RunEndsAtRunLength(s: string, j: int)
    requires 0 < j <= |s| && (forall k :: 0 <= k < j ==> IsLowerAlnum(s[k])) && (j == |s| || !IsLowerAlnum(s[j]))
    ensures j == RunLength(s)
  {
  }

  /** A long run of a suffix is a long run of the whole string. */
  lemma ShiftUp(s: string, d: nat, i: int, j: int)
    requires 0 < d <= |s| && IsLongRun(s[d..], i, j)
    requires i > 0 || !IsLowerAlnum(s[d - 1])
    ensures IsLongRun(s, i + d, j + d) && s[i + d..j + d] == s[d..][i..j]
  {
    var t := s[d..];
    forall k | i + d <= k < j + d
      ensures IsLowerAlnum(s[k])
    {
      assert s[k] == t[k - d];
    }
    if i > 0 {
      assert s[i + d - 1] == t[i - 1];
    }
    if j < |t| {
      assert s[j + d] == t[j];
    }
  }

  /** A long run that starts at or after `d` is a long run of the suffix from `d`. */
  lemma ShiftDown(s: string, d: nat, i: int, j: int)
    requires 0 < d <= i && IsLongRun(s, i, j)
    ensures IsLongRun(s[d..], i - d, j - d) && s[d..][i - d..j - d] == s[i..j]
  {
    var t := s[d..];
    forall k | i - d <= k < j - d
      ensures IsLowerAlnum(t[k])
    {
      assert t[k] == s[k + d];
    }
    if i - d > 0 {
      assert t[i - d - 1] == s[i - 1];
    }
    if j - d < |t| {
      assert t[j - d] == s[j];
    }
  }

  /** No long run starts strictly inside the leading run. */
  lemma NoRunStartsInsideLeading(s: string, i: int, j: int)
    requires IsLongRun(s, i, j) && 0 < i
    ensures i >= RunLength(s)
  {
  }

  /** The tokens are exactly the maximal `[a-z0-9]` runs of length three or more. */
  lemma {:induction false} RunsAreLongRuns(s: string, x: string)
    ensures x in Runs(s) <==> exists i, j :: IsLongRun(s, i, j) && s[i..j] == x
    decreases |s|
  {
    if s == [] {
    } else if !IsLowerAlnum(s[0]) {
      SkipSeparator(s, x);
    } else {
      TakeLeadingRun(s, x);
    }
  }

  lemma {:induction false} SkipSeparator(s: string, x: string)
    requires s != [] && !IsLowerAlnum(s[0])
    ensures x in Runs(s) <==> exists i, j :: IsLongRun(s, i, j) && s[i..j] == x
    decreases |s|, 0
  {
    var t := s[1..];
    assert Runs(s) == Runs(t);
    RunsAreLongRuns(t, x);
    if exists i, j :: IsLongRun(t, i, j) && t[i..j] == x {
      var i, j :| IsLongRun(t, i, j) && t[i..j] == x;
      ShiftUp(s, 1, i, j);
    }
    if exists i, j :: IsLongRun(s, i, j) && s[i..j] == x {
      var i, j :| IsLongRun(s, i, j) && s[i..j] == x;
      ShiftDown(s, 1, i, j);
    }
  }

  lemma {:induction false} TakeLeadingRun(s: string, x: string)
    requires s != [] && IsLowerAlnum(s[0])
    ensures x in Runs(s) <==> exists i, j :: IsLongRun(s, i, j) && s[i..j] == x
    decreases |s|, 0
  {
    var n := RunLength(s);
    var t := s[n..];
    assert Runs(s) == (if n >= 3 then [s[..n]] else []) + Runs(t);
    RunsAreLongRuns(t, x);
    if exists i, j :: IsLongRun(t, i, j) && t[i..j] == x {
      var i, j :| IsLongRun(t, i, j) && t[i..j] == x;
      ShiftUp(s, n, i, j);
    }
    if n >= 3 && x == s[..n] {
      assert IsLongRun(s, 0, n) && s[0..n] == x;
    }
    if exists i, j :: IsLongRun(s, i, j) && s[i..j] == x {
      var i, j :| IsLongRun(s, i, j) && s[i..j] == x;
      if i == 0 {
        RunEndsAtRunLength(s, j);
        assert x == s[..n];
      } else {
        NoRunStartsInsideLeading(s, i, j);
        ShiftDown(s, n, i, j);
      }
    }
  }

  /** `_tokens(text)` is exactly the set of maximal `[a-z0-9]` runs of length at least
      three in the lower-cased text. */
  lemma TokensSpec(text: string, x: string)
    ensures x in Tokens(text) <==> exists i, j :: IsLongRun(Lower(text), i, j) && Lower(text)[i..j] == x
  {
    RunsAreLongRuns(Lower(text), x);
  }

  // ---------------------------------------------------------------------------
  // The inverted indexes over the Kalshi events

  /** `token_to_k` holds exactly the pairs (token, event) with the token among the
      event's tokens, and no empty entry. */
  ghost predicate TokenIndexed(idx: map<string, set<string>>, events: seq<string>, tokens: string -> set<string>)
  {
    && (forall tk :: tk in idx ==> idx[tk] != {})
    && (forall tk, ek :: tk in idx && ek in idx[tk] ==> ek in events && tk in tokens(ek))
    && (forall tk, ek :: ek in events && tk in tokens(ek) ==> tk in idx && ek in idx[tk])
  }

  /** `nums_to_k` is keyed by non-empty windows only and holds each event under its own
      window. */
  ghost predicate NumsIndexed(idx: map<seq<nat>, set<string>>, events: seq<string>, nums: string -> seq<nat>)
  {
    && (forall w :: w in idx ==> w != [] && idx[w] != {})
    && (forall w, ek :: w in idx && ek in idx[w] ==> ek in events && nums(ek) == w)
    && (forall ek :: ek in events && nums(ek) != [] ==> nums(ek) in idx && ek in idx[nums(ek)])
  }

  /** `for tk in toks: token_to_k.setdefault(tk, set()).add(ek)`. */
  method AddTokens(idx: map<string, set<string>>, ek: string, toks: seq<string>)
    returns (idx': map<string, set<string>>)
    ensures forall tk :: tk in idx' <==> tk in idx || tk in toks
    ensures forall tk :: tk in idx' ==>
      idx'[tk] == (if tk in idx then idx[tk] else {}) + (if tk in toks then {ek} else {})
  {
    idx' := idx;
    for j := 0 to |toks|
      invariant forall tk :: tk in idx' <==> tk in idx || tk in toks[..j]
      invariant forall tk :: tk in idx' ==>
        idx'[tk] == (if tk in idx then idx[tk] else {}) + (if tk in toks[..j] then {ek} else {})
    {
      var tk := toks[j];
      assert toks[..j + 1] == toks[..j] + [tk];
      var entry := if tk in idx' then idx'[tk] else {};
      idx' := idx'[tk := entry + {ek}];
    }
    assert toks[..|toks|] == toks;
  }

  /** Adding one event's tokens keeps the token index exact. */
  lemma TokenIndexedStep(idx: map<string, set<string>>, idx': map<string, set<string>>, events: seq<string>,
                         ek: string, toks: seq<string>, tokens: string -> set<string>)
    requires TokenIndexed(idx, events, tokens)
    requires forall tk :: tk in toks <==> tk in tokens(ek)
    requires forall tk :: tk in idx' <==> tk in idx || tk in toks
    requires forall tk :: tk in idx' ==>
      idx'[tk] == (if tk in idx then idx[tk] else {}) + (if tk in toks then {ek} else {})
    ensures TokenIndexed(idx', events + [ek], tokens)
  {
    forall tk | tk in idx' ensures idx'[tk] != {} {
      if tk !in idx {
        assert ek in idx'[tk];
      }
    }
    forall tk, e | tk in idx' && e in idx'[tk] ensures e in events + [ek] && tk in tokens(e) {
      if e != ek || tk !in toks {
        assert tk in idx && e in idx[tk];
      }
    }
    forall tk, e | e in events + [ek] && tk in tokens(e)
      ensures tk in idx' && e in idx'[tk]
    {
      if e != ek {
        assert e in events;
      }
    }
  }

  /** Adding one event under its window keeps the number index exact. */
  lemma NumsIndexedStep(idx: map<seq<nat>, set<string>>, events: seq<string>, ek: string, nums: string -> seq<nat>)
    requires NumsIndexed(idx, events, nums) && nums(ek) != []
    ensures NumsIndexed(idx[nums(ek) := (if nums(ek) in idx then idx[nums(ek)] else {}) + {ek}], events + [ek], nums)
  {
    var idx' := idx[nums(ek) := (if nums(ek) in idx then idx[nums(ek)] else {}) + {ek}];
    forall e | e in events + [ek] && nums(e) != []
      ensures nums(e) in idx' && e in idx'[nums(e)]
    {
      if e != ek {
        assert e in events;
      }
    }
  }

  /** An event without a window leaves the number index exact. */
  lemma NumsIndexedSkip(idx: map<seq<nat>, set<string>>, events: seq<string>, ek: string, nums: string -> seq<nat>)
    requires NumsIndexed(idx, events, nums) && nums(ek) == []
    ensures NumsIndexed(idx, events + [ek], nums)
  {
    forall e | e in events + [ek] && nums(e) != []
      ensures nums(e) in idx && e in idx[nums(e)]
    {
      assert e in events;
    }
  }

  /** The index-building loop of both embedding matchers. */
  method BuildIndex(kEvents: seq<string>, tokens: string -> set<string>, nums: string -> seq<nat>)
    returns (tokenIdx: map<string, set<string>>, numsIdx: map<seq<nat>, set<string>>)
    ensures TokenIndexed(tokenIdx, kEvents, tokens)
    ensures NumsIndexed(numsIdx, kEvents, nums)
  {
    tokenIdx, numsIdx := map[], map[];
    for i := 0 to |kEvents|
      invariant TokenIndexed(tokenIdx, kEvents[..i], tokens)
      invariant NumsIndexed(numsIdx, kEvents[..i], nums)
    {
      var ek := kEvents[i];
      assert kEvents[..i + 1] == kEvents[..i] + [ek];
      var toks := Enumerate(tokens(ek));
      var tokenIdx' := AddTokens(tokenIdx, ek, toks);
      TokenIndexedStep(tokenIdx, tokenIdx', kEvents[..i], ek, toks, tokens);
      tokenIdx := tokenIdx';
      var w := nums(ek);
      if w != [] {
        NumsIndexedStep(numsIdx, kEvents[..i], ek, nums);
        var entry := if w in numsIdx then numsIdx[w] else {};
        numsIdx := numsIdx[w := entry + {ek}];
      } else {
        NumsIndexedSkip(numsIdx, kEvents[..i], ek, nums);
      }
    }
    assert kEvents[..|kEvents|] == kEvents;
  }

  // ---------------------------------------------------------------------------
  // The candidate Kalshi events of one Polymarket event

  /** The Kalshi events sharing a token with `ep`, or all of them when none does, narrowed
      to those with the same number window when `ep` has a window some event shares. */
  function Preselected(ep: string, events: set<string>, tokens: string -> set<string>, nums: string -> seq<nat>)
    : (r: set<string>)
    ensures r <= events
  {
    var overlap := set ek | ek in events && tokens(ep) * tokens(ek) != {};
    var base := if overlap == {} then events else overlap;
    var w := nums(ep);
    var sameWindow := set ek | ek in events && nums(ek) == w;
    if w != [] && sameWindow != {} then base * sameWindow else base
  }

  /** Without a shared token and without a usable window, every Kalshi event is a
      candidate. */
  lemma PreselectedFallsBackToAll(ep: string, events: set<string>, tokens: string -> set<string>, nums: string -> seq<nat>)
    requires forall ek :: ek in events ==> tokens(ep) * tokens(ek) == {}
    requires nums(ep) == [] || forall ek :: ek in events ==> nums(ek) != nums(ep)
    ensures Preselected(ep, events, tokens, nums) == events
  {
    assert (set ek | ek in events && tokens(ep) * tokens(ek) != {}) == {};
    if nums(ep) != [] {
      assert (set ek | ek in events && nums(ek) == nums(ep)) == {};
    }
  }

  /** When some Kalshi event shares `ep`'s non-empty window, every candidate has it. */
  lemma PreselectedSharesWindow(ep: string, events: set<string>, tokens: string -> set<string>, nums: string -> seq<nat>,
                                e0: string)
    requires e0 in events && nums(e0) == nums(ep) != []
    ensures forall ek :: ek in Preselected(ep, events, tokens, nums) ==> nums(ek) == nums(ep)
  {
    var overlap := set ek | ek in events && tokens(ep) * tokens(ek) != {};
    var base := if overlap == {} then events else overlap;
    var sameWindow := set ek | ek in events && nums(ek) == nums(ep);
    assert e0 in sameWindow;
    assert Preselected(ep, events, tokens, nums) == base * sameWindow;
  }

  /** When some Kalshi event shares a token with `ep`, every candidate shares one. */
  lemma PreselectedSharesToken(ep: string, events: set<string>, tokens: string -> set<string>, nums: string -> seq<nat>,
                               e0: string)
    requires e0 in events && tokens(ep) * tokens(e0) != {}
    ensures forall ek :: ek in Preselected(ep, events, tokens, nums) ==> tokens(ep) * tokens(ek) != {}
  {
    var overlap := set ek | ek in events && tokens(ep) * tokens(ek) != {};
    assert e0 in overlap;
    assert Preselected(ep, events, tokens, nums) <= overlap;
  }

  /** Lines 87-97 of the matcher: the union of the index entries of `ep`'s tokens, the
      fallback to all events, and the intersection with the number-index entry. */
  method SelectCandidates(ep: string, kEvents: seq<string>, tokenIdx: map<string, set<string>>,
                          numsIdx: map<seq<nat>, set<string>>, tokens: string -> set<string>, nums: string -> seq<nat>)
    returns (cand: set<string>)
    requires TokenIndexed(tokenIdx, kEvents, tokens) && NumsIndexed(numsIdx, kEvents, nums)
    ensures cand == Preselected(ep, (set e | e in kEvents), tokens, nums)
  {
    ghost var events := set e | e in kEvents;
    var toks := Enumerate(tokens(ep));
    cand := {};
    for j := 0 to |toks|
      invariant forall ek :: ek in cand <==> ek in kEvents && exists tk :: tk in toks[..j] && tk in tokens(ek)
    {
      var tk := toks[j];
      assert toks[..j + 1] == toks[..j] + [tk];
      if tk in tokenIdx {
        cand := cand + tokenIdx[tk];
      }
      forall ek
        ensures ek in cand <==> ek in kEvents && exists t :: t in toks[..j + 1] && t in tokens(ek)
      {
        if ek in kEvents && tk in tokens(ek) {
          assert tk in tokenIdx && ek in tokenIdx[tk];
        }
      }
    }
    assert toks[..|toks|] == toks;
    ghost var overlap := set ek | ek in events && tokens(ep) * tokens(ek) != {};
    forall ek
      ensures ek in cand <==> ek in overlap
    {
      if ek in overlap {
        var tk :| tk in tokens(ep) * tokens(ek);
        assert tk in toks;
      }
      if ek in cand {
        var tk :| tk in toks && tk in tokens(ek);
        assert tk in tokens(ep) * tokens(ek);
      }
    }
    assert cand == overlap;
    if cand == {} {
      cand := set e | e in kEvents;
    }
    var w := nums(ep);
    ghost var sameWindow := set ek | ek in events && nums(ek) == w;
    if w != [] && w in numsIdx {
      assert numsIdx[w] == sameWindow;
      cand := cand * numsIdx[w];
    } else if w != [] {
      forall ek | ek in events
        ensures nums(ek) != w
      {
      }
      assert sameWindow == {};
    }
  }

  /** The entity-overlap score used by the cap (`len(ents_p & ents(ek))`, or 0 when `ep`
      has no entity tokens). */
  function EntityScore(ents: string -> set<string>, ep: string): string -> real
  {
    (ek: string) => (if ents(ep) != {} then |ents(ep) * ents(ek)| else 0) as real
  }

  /** Lines 100-104: keep the `maxK` candidates with the highest score when there are more. */
  method CapCandidates(cand: set<string>, maxK: nat, score: string -> real) returns (capped: set<string>)
    ensures capped <= cand
    ensures |cand| <= maxK ==> capped == cand
    ensures |cand| > maxK ==> |capped| == maxK
    ensures forall x, y :: x in capped && y in cand && y !in capped ==> score(y) <= score(x)
  {
    capped := cand;
    if |cand| > maxK {
      var top := TopByScore(cand, score, maxK);
      capped := set x | x in top;
      DistinctElements(top);
    }
  }

  /** `capped` is one of the sets CapCandidates(cand, maxK, score) may return. */
  ghost predicate IsCap(capped: set<string>, cand: set<string>, maxK: nat, score: string -> real)
  {
    && capped <= cand
    && (|cand| <= maxK ==> capped == cand)
    && (|cand| > maxK ==> |capped| == maxK)
    && (forall x, y :: x in capped && y in cand && y !in capped ==> score(y) <= score(x))
  }

  // ---------------------------------------------------------------------------
  // Guards and the emitted candidates

  /** `extract_yis_actor_subject`: when either side has a subject, both must have a
      non-empty one and the two must be equal. */
  predicate SubjectGuard(sk: Option<string>, sp: Option<string>)
  {
    (sk.Some? || sp.Some?) ==> (sk.Some? && sp.Some? && sk.value != "" && sp.value != "" && sk.value == sp.value)
  }

  /** At least one shared entity token whenever both sides have entity tokens. */
  predicate EntityGuard(ek: set<string>, ep: set<string>)
  {
    ek != {} && ep != {} ==> ek * ep != {}
  }

  /** The numeric, subject and entity guards of lines 122-135. */
  predicate PassesGuards(ek: string, ep: string, nums: string -> seq<nat>, ents: string -> set<string>,
                         subj: string -> Option<string>)
  {
    WindowsAgree(nums(ek), nums(ep)) && SubjectGuard(subj(ek), subj(ep)) && EntityGuard(ents(ek), ents(ep))
  }

  /** `c` is the candidate pairing `ek` with `ep` at their cosine similarity, which reaches
      `minCos`, and the pair passes the guards. */
  ghost predicate IsEmbeddingPair(c: MatchCandidate, ek: string, ep: string, minCos: real, cos: string -> string -> real,
                                  nums: string -> seq<nat>, ents: string -> set<string>, subj: string -> Option<string>)
  {
    && c == MatchCandidate(ek + " <-> " + ep, None, None, cos(ep)(ek))
    && cos(ep)(ek) >= minCos
    && PassesGuards(ek, ep, nums, ents, subj)
  }

  /** Lines 116-136 over a ranked list `ts`: in order, the candidate for every `ek` whose
      cosine reaches `minCos` and that passes the guards. */
  function Emitted(ts: seq<string>, ep: string, minCos: real, cos: string -> string -> real,
                   nums: string -> seq<nat>, ents: string -> set<string>, subj: string -> Option<string>)
    : (r: seq<MatchCandidate>)
    ensures |r| <= |ts|
  {
    if ts == [] then []
    else
      var ek := ts[|ts| - 1];
      Emitted(ts[..|ts| - 1], ep, minCos, cos, nums, ents, subj)
      + (if cos(ep)(ek) >= minCos && PassesGuards(ek, ep, nums, ents, subj)
         then [MatchCandidate(ek + " <-> " + ep, None, None, cos(ep)(ek))] else [])
  }

  /** A candidate is emitted exactly when it pairs a listed Kalshi event with `ep` at or
      above the floor and through all the guards. */
  lemma {:induction false} EmittedMembership(ts: seq<string>, ep: string, minCos: real, cos: string -> string -> real,
                                             nums: string -> seq<nat>, ents: string -> set<string>,
                                             subj: string -> Option<string>, c: MatchCandidate)
    ensures c in Emitted(ts, ep, minCos, cos, nums, ents, subj) <==>
            exists ek :: ek in ts && IsEmbeddingPair(c, ek, ep, minCos, cos, nums, ents, subj)
  {
    if ts != [] {
      var init := ts[..|ts| - 1];
      var last := ts[|ts| - 1];
      EmittedMembership(init, ep, minCos, cos, nums, ents, subj, c);
      assert ts == init + [last];
      if c in Emitted(ts, ep, minCos, cos, nums, ents, subj) && c !in Emitted(init, ep, minCos, cos, nums, ents, subj) {
        assert IsEmbeddingPair(c, last, ep, minCos, cos, nums, ents, subj);
      }
      if exists ek :: ek in ts && IsEmbeddingPair(c, ek, ep, minCos, cos, nums, ents, subj) {
        var ek :| ek in ts && IsEmbeddingPair(c, ek, ep, minCos, cos, nums, ents, subj);
        if ek != last {
          assert ek in init;
        }
      }
    }
  }

  /** Dropping the members below the floor first (`best_pairs`) emits the same candidates. */
  lemma {:induction false} EmittedFilterReach(ts: seq<string>, reach: string -> bool, ep: string, minCos: real,
                                              cos: string -> string -> real, nums: string -> seq<nat>,
                                              ents: string -> set<string>, subj: string -> Option<string>)
    requires forall x :: reach(x) == (cos(ep)(x) >= minCos)
    ensures Emitted(Filter(ts, reach), ep, minCos, cos, nums, ents, subj) == Emitted(ts, ep, minCos, cos, nums, ents, subj)
  {
    if ts != [] {
      var init := ts[..|ts| - 1];
      var last := ts[|ts| - 1];
      EmittedFilterReach(init, reach, ep, minCos, cos, nums, ents, subj);
      var f := Filter(init, reach);
      if reach(last) {
        assert Filter(ts, reach) == f + [last];
        assert (f + [last])[..|f|] == f;
      } else {
        assert Filter(ts, reach) == f;
      }
    }
  }

  /** Emitting over a list ranked by non-increasing cosine keeps that order. */
  lemma {:induction false} EmittedDescending(ts: seq<string>, ep: string, minCos: real, cos: string -> string -> real,
                                             nums: string -> seq<nat>, ents: string -> set<string>,
                                             subj: string -> Option<string>)
    requires forall i, j :: 0 <= i < j < |ts| ==> cos(ep)(ts[i]) >= cos(ep)(ts[j])
    ensures var r := Emitted(ts, ep, minCos, cos, nums, ents, subj);
            forall a, b :: 0 <= a < b < |r| ==> r[a].similarity >= r[b].similarity
  {
    if ts != [] {
      var init := ts[..|ts| - 1];
      var last := ts[|ts| - 1];
      EmittedDescending(init, ep, minCos, cos, nums, ents, subj);
      var r0 := Emitted(init, ep, minCos, cos, nums, ents, subj);
      forall a | 0 <= a < |r0|
        ensures r0[a].similarity >= cos(ep)(last)
      {
        EmittedMembership(init, ep, minCos, cos, nums, ents, subj, r0[a]);
        var ek :| ek in init && IsEmbeddingPair(r0[a], ek, ep, minCos, cos, nums, ents, subj);
        var k :| 0 <= k < |init| && init[k] == ek;
        assert ts[k] == ek;
      }
    }
  }

  /** What one Polymarket event's block holds when `top` is a top-k list of `cand`: at most
      `topK` candidates, highest similarity first, each pairing a member of `cand` with `ep`
      through the floor and the guards, and one for every member of `top` that passes them. */
  lemma EmittedBlock(top: seq<string>, cand: set<string>, ep: string, minCos: real, topK: nat,
                     cos: string -> string -> real, nums: string -> seq<nat>, ents: string -> set<string>,
                     subj: string -> Option<string>)
    requires IsTopK(top, cand, topK, cos(ep))
    ensures var block := Emitted(top, ep, minCos, cos, nums, ents, subj);
            && |block| <= topK
            && (forall a, b :: 0 <= a < b < |block| ==> block[a].similarity >= block[b].similarity)
            && (forall c :: c in block ==> exists ek :: ek in cand && IsEmbeddingPair(c, ek, ep, minCos, cos, nums, ents, subj))
            && (forall ek :: ek in top && cos(ep)(ek) >= minCos && PassesGuards(ek, ep, nums, ents, subj) ==>
                  MatchCandidate(ek + " <-> " + ep, None, None, cos(ep)(ek)) in block)
  {
    var block := Emitted(top, ep, minCos, cos, nums, ents, subj);
    EmittedDescending(top, ep, minCos, cos, nums, ents, subj);
    forall c | c in block
      ensures exists ek :: ek in cand && IsEmbeddingPair(c, ek, ep, minCos, cos, nums, ents, subj)
    {
      EmittedMembership(top, ep, minCos, cos, nums, ents, subj, c);
    }
    forall ek | ek in top && cos(ep)(ek) >= minCos && PassesGuards(ek, ep, nums, ents, subj)
      ensures MatchCandidate(ek + " <-> " + ep, None, None, cos(ep)(ek)) in block
    {
      var c := MatchCandidate(ek + " <-> " + ep, None, None, cos(ep)(ek));
      EmittedMembership(top, ep, minCos, cos, nums, ents, subj, c);
      assert IsEmbeddingPair(c, ek, ep, minCos, cos, nums, ents, subj);
    }
  }

  /** Lines 107-136 for one Polymarket event: `top` is the `topK` most similar candidates,
      highest first, and the block emits, in that order, every one of them that reaches
      `minCos` and passes the guards. */
  method CandidatesForPoly(ep: string, cand: set<string>, minCos: real, topK: nat, cos: string -> string -> real,
                           nums: string -> seq<nat>, ents: string -> set<string>, subj: string -> Option<string>)
    returns (block: seq<MatchCandidate>, ghost top: seq<string>)
    ensures IsTopK(top, cand, topK, cos(ep))
    ensures block == Emitted(top, ep, minCos, cos, nums, ents, subj)
    ensures |block| <= topK
    ensures forall a, b :: 0 <= a < b < |block| ==> block[a].similarity >= block[b].similarity
    ensures forall c :: c in block ==> exists ek :: ek in cand && IsEmbeddingPair(c, ek, ep, minCos, cos, nums, ents, subj)
    ensures forall ek :: ek in top && cos(ep)(ek) >= minCos && PassesGuards(ek, ep, nums, ents, subj) ==>
              MatchCandidate(ek + " <-> " + ep, None, None, cos(ep)(ek)) in block
  {
    block, top := [], [];
    if cand != {} {
      var ranked := TopByScore(cand, cos(ep), topK);
      top := ranked;
      var reach := (ek: string) => cos(ep)(ek) >= minCos;
      var best := Filter(ranked, reach);
      FilterAllSatisfy(ranked, reach);
      block := EmitBlock(best, ep, minCos, cos, nums, ents, subj);
      EmittedFilterReach(ranked, reach, ep, minCos, cos, nums, ents, subj);
    }
    EmittedBlock(top, cand, ep, minCos, topK, cos, nums, ents, subj);
  }

  /** Lines 116-136: the loop over `best_pairs`, keeping the pairs that pass the guards.
      Every member of `best` is already at or above the floor. */
  method EmitBlock(best: seq<string>, ep: string, minCos: real, cos: string -> string -> real,
                   nums: string -> seq<nat>, ents: string -> set<string>, subj: string -> Option<string>)
    returns (block: seq<MatchCandidate>)
    requires forall j :: 0 <= j < |best| ==> cos(ep)(best[j]) >= minCos
    ensures block == Emitted(best, ep, minCos, cos, nums, ents, subj)
  {
    block := [];
    for j := 0 to |best|
      invariant block == Emitted(best[..j], ep, minCos, cos, nums, ents, subj)
    {
      var ek := best[j];
      assert best[..j + 1][..j] == best[..j];
      if PassesGuards(ek, ep, nums, ents, subj) {
        block := block + [MatchCandidate(ek + " <-> " + ep, None, None, cos(ep)(ek))];
      }
    }
    assert best[..|best|] == best;
  }

  /** What the candidate builder promises per Polymarket event `ps[i]`: at most `topK`
      candidates, in non-increasing similarity, each pairing a preselected Kalshi event
      with `ps[i]` as IsEmbeddingPair says. */
  ghost predicate BlocksSound(blocks: seq<seq<MatchCandidate>>, ps: seq<string>, events: set<string>,
                              tokens: string -> set<string>, nums: string -> seq<nat>, minCos: real, topK: nat,
                              cos: string -> string -> real, ents: string -> set<string>,
                              subj: string -> Option<string>)
  {
    && |blocks| == |ps|
    && (forall i :: 0 <= i < |blocks| ==> |blocks[i]| <= topK)
    && (forall i, a, b :: 0 <= i < |blocks| && 0 <= a < b < |blocks[i]| ==>
          blocks[i][a].similarity >= blocks[i][b].similarity)
    && (forall i, c :: 0 <= i < |blocks| && c in blocks[i] ==>
          exists ek :: ek in Preselected(ps[i], events, tokens, nums) &&
                       IsEmbeddingPair(c, ek, ps[i], minCos, cos, nums, ents, subj))
  }

  /** `block` is exactly what lines 100-136 emit for the Polymarket event `ep`: `capped` is
      its preselection capped at `maxK` by entity score, `top` the `topK` members of
      `capped` most similar to it, highest first, and the block is Emitted over `top`. */
  ghost predicate IsExactBlock(block: seq<MatchCandidate>, ep: string, capped: set<string>, top: seq<string>,
                               events: set<string>, tokens: string -> set<string>, nums: string -> seq<nat>,
                               minCos: real, maxK: nat, topK: nat, cos: string -> string -> real,
                               ents: string -> set<string>, subj: string -> Option<string>)
  {
    && IsCap(capped, Preselected(ep, events, tokens, nums), maxK, EntityScore(ents, ep))
    && IsTopK(top, capped, topK, cos(ep))
    && block == Emitted(top, ep, minCos, cos, nums, ents, subj)
  }

  /** The blocks, one per Polymarket event `ps[i]`, are exactly what lines 100-136 emit,
      with `caps[i]` its capped preselection and `tops[i]` its top list. */
  ghost predicate BlocksExact(blocks: seq<seq<MatchCandidate>>, ps: seq<string>, caps: seq<set<string>>,
                              tops: seq<seq<string>>, events: set<string>, tokens: string -> set<string>,
                              nums: string -> seq<nat>, minCos: real, maxK: nat, topK: nat,
                              cos: string -> string -> real, ents: string -> set<string>,
                              subj: string -> Option<string>)
  {
    && |blocks| == |ps| && |caps| == |ps| && |tops| == |ps|
    && forall i :: 0 <= i < |ps| ==>
         IsExactBlock(blocks[i], ps[i], caps[i], tops[i], events, tokens, nums, minCos, maxK, topK, cos, ents, subj)
  }

  /** Adding the block of the next Polymarket event `ps[i]` keeps BlocksExact. */
  lemma BlocksExactAppend(blocks: seq<seq<MatchCandidate>>, ps: seq<string>, i: nat, caps: seq<set<string>>,
                          tops: seq<seq<string>>, block: seq<MatchCandidate>, capped: set<string>,
                          top: seq<string>, events: set<string>, tokens: string -> set<string>,
                          nums: string -> seq<nat>, minCos: real, maxK: nat, topK: nat,
                          cos: string -> string -> real, ents: string -> set<string>, subj: string -> Option<string>)
    requires i < |ps|
    requires BlocksExact(blocks, ps[..i], caps, tops, events, tokens, nums, minCos, maxK, topK, cos, ents, subj)
    requires IsExactBlock(block, ps[i], capped, top, events, tokens, nums, minCos, maxK, topK, cos, ents, subj)
    ensures BlocksExact(blocks + [block], ps[..i + 1], caps + [capped], tops + [top], events, tokens, nums,
                        minCos, maxK, topK, cos, ents, subj)
  {
    forall j | 0 <= j < i + 1
      ensures IsExactBlock((blocks + [block])[j], ps[..i + 1][j], (caps + [capped])[j], (tops + [top])[j],
                           events, tokens, nums, minCos, maxK, topK, cos, ents, subj)
    {
      if j < i {
        assert (caps + [capped])[j] == caps[j] && ps[..i + 1][j] == ps[..i][j];
        assert (tops + [top])[j] == tops[j] && (blocks + [block])[j] == blocks[j];
      }
    }
  }

  /** Exact blocks are sound: each holds at most `topK` candidates, highest similarity
      first, each pairing a preselected Kalshi event with its Polymarket event. */
  lemma BlocksExactSound(blocks: seq<seq<MatchCandidate>>, ps: seq<string>, caps: seq<set<string>>,
                         tops: seq<seq<string>>, events: set<string>, tokens: string -> set<string>,
                         nums: string -> seq<nat>, minCos: real, maxK: nat, topK: nat,
                         cos: string -> string -> real, ents: string -> set<string>, subj: string -> Option<string>)
    requires BlocksExact(blocks, ps, caps, tops, events, tokens, nums, minCos, maxK, topK, cos, ents, subj)
    ensures BlocksSound(blocks, ps, events, tokens, nums, minCos, topK, cos, ents, subj)
  {
    forall i | 0 <= i < |blocks|
      ensures |blocks[i]| <= topK
      ensures forall a, b :: 0 <= a < b < |blocks[i]| ==> blocks[i][a].similarity >= blocks[i][b].similarity
      ensures forall c :: c in blocks[i] ==>
                exists ek :: ek in Preselected(ps[i], events, tokens, nums) &&
                             IsEmbeddingPair(c, ek, ps[i], minCos, cos, nums, ents, subj)
    {
      EmittedBlock(tops[i], caps[i], ps[i], minCos, topK, cos, nums, ents, subj);
    }
  }

  /** Lines 87-136 for one Polymarket event `ep`: preselect, cap at `maxK` by entity
      score, rank the `topK` most similar and emit those through the floor and the guards. */
  method BlockFor(ep: string, kEvents: seq<string>, events: set<string>, tokenIdx: map<string, set<string>>,
                  numsIdx: map<seq<nat>, set<string>>, tokens: string -> set<string>, nums: string -> seq<nat>,
                  minCos: real, maxK: nat, topK: nat, cos: string -> string -> real, ents: string -> set<string>,
                  subj: string -> Option<string>)
    returns (block: seq<MatchCandidate>, ghost capped: set<string>, ghost top: seq<string>)
    requires TokenIndexed(tokenIdx, kEvents, tokens) && NumsIndexed(numsIdx, kEvents, nums)
    requires events == set e | e in kEvents
    ensures IsExactBlock(block, ep, capped, top, events, tokens, nums, minCos, maxK, topK, cos, ents, subj)
  {
    var cand := SelectCandidates(ep, kEvents, tokenIdx, numsIdx, tokens, nums);
    var c := CapCandidates(cand, maxK, EntityScore(ents, ep));
    capped := c;
    block, top := CandidatesForPoly(ep, c, minCos, topK, cos, nums, ents, subj);
  }

  /** The per-event loop of `build_embedding_candidates_async`, over the Polymarket
      events in the order `ps`. */
  method ScanEmbeddingCandidates(kEvents: seq<string>, events: set<string>, ps: seq<string>, tokenIdx: map<string, set<string>>,
                                 numsIdx: map<seq<nat>, set<string>>, tokens: string -> set<string>,
                                 nums: string -> seq<nat>, minCos: real, maxK: nat, topK: nat,
                                 cos: string -> string -> real, ents: string -> set<string>,
                                 subj: string -> Option<string>)
    returns (candidates: seq<MatchCandidate>, ghost blocks: seq<seq<MatchCandidate>>,
             ghost caps: seq<set<string>>, ghost tops: seq<seq<string>>)
    requires TokenIndexed(tokenIdx, kEvents, tokens) && NumsIndexed(numsIdx, kEvents, nums)
    requires events == set e | e in kEvents
    ensures |blocks| == |ps| && candidates == Flatten(blocks)
    ensures BlocksSound(blocks, ps, events, tokens, nums, minCos, topK, cos, ents, subj)
    ensures BlocksExact(blocks, ps, caps, tops, events, tokens, nums, minCos, maxK, topK, cos, ents, subj)
  {
    candidates, blocks, caps, tops := [], [], [], [];
    for i := 0 to |ps|
      invariant |blocks| == i && candidates == Flatten(blocks)
      invariant BlocksExact(blocks, ps[..i], caps, tops, events, tokens, nums, minCos, maxK, topK, cos, ents, subj)
    {
      var ep := ps[i];
      var block, capped, top := BlockFor(ep, kEvents, events, tokenIdx, numsIdx, tokens, nums, minCos, maxK, topK,
                                         cos, ents, subj);
      FlattenSnoc(blocks, block);
      BlocksExactAppend(blocks, ps, i, caps, tops, block, capped, top, events, tokens, nums, minCos, maxK, topK,
                        cos, ents, subj);
      blocks := blocks + [block];
      caps := caps + [capped];
      tops := tops + [top];
      candidates := candidates + block;
    }
    assert ps[..|ps|] == ps;
    BlocksExactSound(blocks, ps, caps, tops, events, tokens, nums, minCos, maxK, topK, cos, ents, subj);
  }

  /** `build_embedding_candidates_async`. `cos(ep)(ek)` is the cosine similarity of the
      two events' embeddings, `ents` and `subj` are the entity-token and subject
      extractors, `ps` is the iteration order of the Polymarket events, `blocks` the
      candidates emitted for each of them, `caps` each event's capped preselection and
      `tops` its `topK` most similar members of it. */
  method BuildEmbeddingCandidates(kalshi: seq<MarketQuote>, polymarket: seq<MarketQuote>, minCos: real,
                                  maxK: nat, topK: nat, cos: string -> string -> real,
                                  ents: string -> set<string>, subj: string -> Option<string>)
    returns (candidates: seq<MatchCandidate>, ghost ps: seq<string>, ghost blocks: seq<seq<MatchCandidate>>,
             ghost caps: seq<set<string>>, ghost tops: seq<seq<string>>)
    ensures Enumerates(ps, EventsOf(polymarket))
    ensures |blocks| == |ps| && candidates == Flatten(blocks)
    ensures BlocksSound(blocks, ps, EventsOf(kalshi), Tokens, NumbersWindow, minCos, topK, cos, ents, subj)
    ensures BlocksExact(blocks, ps, caps, tops, EventsOf(kalshi), Tokens, NumbersWindow, minCos, maxK, topK, cos, ents, subj)
    ensures CoversTops(candidates, ps, tops, minCos, cos, NumbersWindow, ents, subj)
    ensures PairsEvents(candidates, EventsOf(kalshi), EventsOf(polymarket), minCos, cos, NumbersWindow, ents, subj)
  {
    var kSet := CollectEvents(kalshi);
    var pSet := CollectEvents(polymarket);
    var kEvents := Enumerate(kSet);
    var pEvents := Enumerate(pSet);
    ps := pEvents;
    var tokenIdx, numsIdx := BuildIndex(kEvents, Tokens, NumbersWindow);
    assert (set e | e in kEvents) == kSet;
    candidates, blocks, caps, tops := ScanEmbeddingCandidates(kEvents, kSet, pEvents, tokenIdx, numsIdx, Tokens,
                                                              NumbersWindow, minCos, maxK, topK, cos, ents, subj);
    CandidatesPairEvents(candidates, ps, blocks, EventsOf(kalshi), EventsOf(polymarket), Tokens, NumbersWindow, minCos,
                         topK, cos, ents, subj);
    CandidatesCoverTops(candidates, ps, blocks, caps, tops, EventsOf(kalshi), Tokens, NumbersWindow, minCos, maxK, topK,
                        cos, ents, subj);
  }

  /** Every candidate reaches the floor, carries no market ids, and pairs an event of
      `kEvents` with one of `pEvents` through all the guards. */
  ghost predicate PairsEvents(candidates: seq<MatchCandidate>, kEvents: set<string>, pEvents: set<string>,
                              minCos: real, cos: string -> string -> real, nums: string -> seq<nat>,
                              ents: string -> set<string>, subj: string -> Option<string>)
  {
    forall c :: c in candidates ==>
      && c.similarity >= minCos && c.kalshiMarketId.None? && c.polymarketMarketId.None?
      && exists ek, ep :: ek in kEvents && ep in pEvents && IsEmbeddingPair(c, ek, ep, minCos, cos, nums, ents, subj)
  }

  /** For every Polymarket event `ps[i]`, each member of its top list `tops[i]` that reaches
      the floor and passes the guards has its candidate among `candidates`. */
  ghost predicate CoversTops(candidates: seq<MatchCandidate>, ps: seq<string>, tops: seq<seq<string>>, minCos: real,
                             cos: string -> string -> real, nums: string -> seq<nat>, ents: string -> set<string>,
                             subj: string -> Option<string>)
  {
    && |tops| == |ps|
    && forall i, ek :: 0 <= i < |ps| && ek in tops[i] && cos(ps[i])(ek) >= minCos && PassesGuards(ek, ps[i], nums, ents, subj)
         ==> MatchCandidate(ek + " <-> " + ps[i], None, None, cos(ps[i])(ek)) in candidates
  }

  /** Every candidate of a sound block list pairs an event of each venue through all guards. */
  lemma CandidatesPairEvents(candidates: seq<MatchCandidate>, ps: seq<string>, blocks: seq<seq<MatchCandidate>>,
                             kEvents: set<string>, pEvents: set<string>, tokens: string -> set<string>,
                             nums: string -> seq<nat>, minCos: real, topK: nat, cos: string -> string -> real,
                             ents: string -> set<string>, subj: string -> Option<string>)
    requires Enumerates(ps, pEvents) && candidates == Flatten(blocks)
    requires BlocksSound(blocks, ps, kEvents, tokens, nums, minCos, topK, cos, ents, subj)
    ensures PairsEvents(candidates, kEvents, pEvents, minCos, cos, nums, ents, subj)
  {
    forall c | c in candidates
      ensures exists ek, ep :: ek in kEvents && ep in pEvents && IsEmbeddingPair(c, ek, ep, minCos, cos, nums, ents, subj)
    {
      EmbeddingCandidatesSound(candidates, ps, blocks, kEvents, tokens, nums, minCos, topK, cos, ents, subj, c);
      var i, ek :| 0 <= i < |ps| && ek in kEvents && IsEmbeddingPair(c, ek, ps[i], minCos, cos, nums, ents, subj);
      assert ps[i] in ps;
    }
    forall c | c in candidates ensures c.similarity >= minCos && c.kalshiMarketId.None? && c.polymarketMarketId.None? {
      EmbeddingCandidatesSound(candidates, ps, blocks, kEvents, tokens, nums, minCos, topK, cos, ents, subj, c);
    }
  }

  /** Every emitted candidate pairs a Kalshi event with a Polymarket event at a cosine of
      at least `minCos`, and the pair passes all three guards. */
  lemma EmbeddingCandidatesSound(candidates: seq<MatchCandidate>, ps: seq<string>, blocks: seq<seq<MatchCandidate>>,
                                 kEvents: set<string>, tokens: string -> set<string>, nums: string -> seq<nat>,
                                 minCos: real, topK: nat, cos: string -> string -> real,
                                 ents: string -> set<string>, subj: string -> Option<string>, c: MatchCandidate)
    requires candidates == Flatten(blocks)
    requires BlocksSound(blocks, ps, kEvents, tokens, nums, minCos, topK, cos, ents, subj)
    requires c in candidates
    ensures exists i, ek :: 0 <= i < |ps| && ek in kEvents && IsEmbeddingPair(c, ek, ps[i], minCos, cos, nums, ents, subj)
    ensures c.similarity >= minCos && c.kalshiMarketId.None? && c.polymarketMarketId.None?
  {
    FlattenMembership(blocks, c);
    var i :| 0 <= i < |blocks| && c in blocks[i];
    var ek :| ek in Preselected(ps[i], kEvents, tokens, nums) && IsEmbeddingPair(c, ek, ps[i], minCos, cos, nums, ents, subj);
  }

  /** Every member of a Polymarket event's top list that reaches the floor and passes the
      guards yields its candidate in the result. */
  lemma CandidatesCoverTops(candidates: seq<MatchCandidate>, ps: seq<string>, blocks: seq<seq<MatchCandidate>>,
                            caps: seq<set<string>>, tops: seq<seq<string>>, events: set<string>,
                            tokens: string -> set<string>, nums: string -> seq<nat>, minCos: real, maxK: nat,
                            topK: nat, cos: string -> string -> real, ents: string -> set<string>,
                            subj: string -> Option<string>)
    requires candidates == Flatten(blocks)
    requires BlocksExact(blocks, ps, caps, tops, events, tokens, nums, minCos, maxK, topK, cos, ents, subj)
    ensures CoversTops(candidates, ps, tops, minCos, cos, nums, ents, subj)
  {
    forall i, ek | 0 <= i < |ps| && ek in tops[i] && cos(ps[i])(ek) >= minCos && PassesGuards(ek, ps[i], nums, ents, subj)
      ensures MatchCandidate(ek + " <-> " + ps[i], None, None, cos(ps[i])(ek)) in candidates
    {
      var c := MatchCandidate(ek + " <-> " + ps[i], None, None, cos(ps[i])(ek));
      EmittedMembership(tops[i], ps[i], minCos, cos, nums, ents, subj, c);
      assert IsEmbeddingPair(c, ek, ps[i], minCos, cos, nums, ents, subj);
      FlattenMembership(blocks, c);
    }
  }

  /** A real match gets through: when a Polymarket event's preselection has no more members
      than either cap, each of them that reaches the floor and passes the guards yields its
      candidate. */
  lemma SmallPreselectionEmitsAll(candidates: seq<MatchCandidate>, ps: seq<string>, blocks: seq<seq<MatchCandidate>>,
                                  caps: seq<set<string>>, tops: seq<seq<string>>, events: set<string>,
                                  tokens: string -> set<string>, nums: string -> seq<nat>, minCos: real, maxK: nat,
                                  topK: nat, cos: string -> string -> real, ents: string -> set<string>,
                                  subj: string -> Option<string>, i: int, ek: string)
    requires candidates == Flatten(blocks)
    requires BlocksExact(blocks, ps, caps, tops, events, tokens, nums, minCos, maxK, topK, cos, ents, subj)
    requires 0 <= i < |ps| && ek in Preselected(ps[i], events, tokens, nums)
    requires |Preselected(ps[i], events, tokens, nums)| <= maxK && |Preselected(ps[i], events, tokens, nums)| <= topK
    requires cos(ps[i])(ek) >= minCos && PassesGuards(ek, ps[i], nums, ents, subj)
    ensures MatchCandidate(ek + " <-> " + ps[i], None, None, cos(ps[i])(ek)) in candidates
  {
    assert caps[i] == Preselected(ps[i], events, tokens, nums);
    TopKCoversSmallSet(tops[i], caps[i], topK, cos(ps[i]), ek);
    CandidatesCoverTops(candidates, ps, blocks, caps, tops, events, tokens, nums, minCos, maxK, topK, cos, ents, subj);
  }

  // ---------------------------------------------------------------------------
  // `build_event_mapping_by_embeddings`

  /** `ek` has the highest score in `cand`. */
  ghost predicate IsArgmax(ek: string, cand: set<string>, score: string -> real)
  {
    ek in cand && forall e :: e in cand ==> score(e) <= score(ek)
  }

  /** The final guards of the mapping builder: cosine threshold, numbers and entities
      (there is no subject guard here). */
  predicate Accepts(ek: string, ep: string, minCos: real, cos: string -> string -> real,
                    nums: string -> seq<nat>, ents: string -> set<string>)
  {
    cos(ep)(ek) >= minCos && WindowsAgree(nums(ek), nums(ep)) && EntityGuard(ents(ek), ents(ep))
  }

  /** The outcome for one Polymarket event: a pick `(ek, ep)` of a most similar candidate
      that passes the final guards, or nothing because there is no candidate or the most
      similar one (the first in iteration order among equals) fails them. */
  ghost predicate IsPick(p: Option<(string, string)>, ep: string, cand: set<string>, minCos: real,
                         cos: string -> string -> real, nums: string -> seq<nat>, ents: string -> set<string>)
  {
    match p
    case Some(pr) => pr.1 == ep && IsArgmax(pr.0, cand, cos(ep)) && Accepts(pr.0, ep, minCos, cos, nums, ents)
    case None => cand == {} || exists ek :: IsArgmax(ek, cand, cos(ep)) && !Accepts(ek, ep, minCos, cos, nums, ents)
  }

  /** Lines 185-207 for one Polymarket event: the first candidate with the highest score
      (`np.argmax`) over the candidates in iteration order, then the final guards. */
  method PickForPoly(ep: string, cand: set<string>, minCos: real, cos: string -> string -> real,
                     nums: string -> seq<nat>, ents: string -> set<string>)
    returns (p: Option<(string, string)>)
    ensures IsPick(p, ep, cand, minCos, cos, nums, ents)
  {
    if cand == {} {
      return None;
    }
    var order := Enumerate(cand);
    var any := (e: string) => true;
    var j := FirstBest(order, any, cos(ep));
    FirstBestSpec(order, any, cos(ep));
    assert order[0] in cand;
    var ek := order[j.value];
    forall e | e in cand
      ensures cos(ep)(e) <= cos(ep)(ek)
    {
      var k :| 0 <= k < |order| && order[k] == e;
    }
    assert IsArgmax(ek, cand, cos(ep));
    if Accepts(ek, ep, minCos, cos, nums, ents) {
      p := Some((ek, ep));
    } else {
      p := None;
    }
  }

  /** The mapping after applying the picks in order: a later pick overwrites an earlier
      one with the same Kalshi key. */
  function ApplyPicks(picks: seq<Option<(string, string)>>, key: string -> string): map<string, string>
  {
    if picks == [] then map[]
    else
      var m := ApplyPicks(picks[..|picks| - 1], key);
      var p := picks[|picks| - 1];
      if p.Some? then m[key(p.value.0) := key(p.value.1)] else m
  }

  /** Every key of the mapping comes from the last pick with that key. */
  lemma {:induction false} ApplyPicksLatest(picks: seq<Option<(string, string)>>, key: string -> string, k: string)
    returns (i: nat)
    requires k in ApplyPicks(picks, key)
    ensures i < |picks| && picks[i].Some? && key(picks[i].value.0) == k
    ensures ApplyPicks(picks, key)[k] == key(picks[i].value.1)
    ensures forall j :: i < j < |picks| && picks[j].Some? ==> key(picks[j].value.0) != k
  {
    var n := |picks| - 1;
    var p := picks[n];
    if p.Some? && key(p.value.0) == k {
      i := n;
    } else {
      i := ApplyPicksLatest(picks[..n], key, k);
    }
  }

  /** Every pick ends up in the mapping unless a later pick has the same key. */
  lemma {:induction false} ApplyPicksComplete(picks: seq<Option<(string, string)>>, key: string -> string, i: nat)
    requires i < |picks| && picks[i].Some?
    ensures key(picks[i].value.0) in ApplyPicks(picks, key)
    ensures (forall j :: i < j < |picks| && picks[j].Some? ==> key(picks[j].value.0) != key(picks[i].value.0))
            ==> ApplyPicks(picks, key)[key(picks[i].value.0)] == key(picks[i].value.1)
  {
    var n := |picks| - 1;
    if i < n {
      ApplyPicksComplete(picks[..n], key, i);
      assert forall j :: i < j < n ==> picks[..n][j] == picks[j];
    }
  }

  /** The per-event loop of `build_event_mapping_by_embeddings`. */
  method ScanMapping(kEvents: seq<string>, events: set<string>, ps: seq<string>, tokenIdx: map<string, set<string>>,
                     numsIdx: map<seq<nat>, set<string>>, tokens: string -> set<string>,
                     nums: string -> seq<nat>, minCos: real, cos: string -> string -> real,
                     ents: string -> set<string>, key: string -> string)
    returns (mapping: map<string, string>, ghost picks: seq<Option<(string, string)>>)
    requires TokenIndexed(tokenIdx, kEvents, tokens) && NumsIndexed(numsIdx, kEvents, nums)
    requires events == set e | e in kEvents
    ensures |picks| == |ps| && mapping == ApplyPicks(picks, key)
    ensures forall i :: 0 <= i < |ps| ==>
      IsPick(picks[i], ps[i], Preselected(ps[i], events, tokens, nums), minCos, cos, nums, ents)
  {
    mapping, picks := map[], [];
    for i := 0 to |ps|
      invariant |picks| == i && mapping == ApplyPicks(picks, key)
      invariant forall i' :: 0 <= i' < i ==>
        IsPick(picks[i'], ps[i'], Preselected(ps[i'], events, tokens, nums), minCos, cos, nums, ents)
    {
      var ep := ps[i];
      var cand := SelectCandidates(ep, kEvents, tokenIdx, numsIdx, tokens, nums);
      var p := PickForPoly(ep, cand, minCos, cos, nums, ents);
      assert (picks + [p])[..i] == picks;
      picks := picks + [p];
      if p.Some? {
        mapping := mapping[key(p.value.0) := key(p.value.1)];
      }
    }
  }

  /** `build_event_mapping_by_embeddings`: `ps` is the iteration order of the Polymarket
      events and `picks[i]` the outcome for `ps[i]`; the mapping is keyed by
      `lower().strip()` of the Kalshi event. */
  method BuildEventMappingByEmbeddings(kalshi: seq<MarketQuote>, polymarket: seq<MarketQuote>, minCos: real,
                                       cos: string -> string -> real, ents: string -> set<string>)
    returns (mapping: map<string, string>, ghost ps: seq<string>, ghost picks: seq<Option<(string, string)>>)
    ensures Enumerates(ps, EventsOf(polymarket)) && |picks| == |ps|
    ensures forall i :: 0 <= i < |ps| ==>
      IsPick(picks[i], ps[i], Preselected(ps[i], EventsOf(kalshi), Tokens, NumbersWindow), minCos, cos, NumbersWindow, ents)
    ensures mapping == ApplyPicks(picks, EventKey)
    ensures forall k :: k in mapping ==>
              exists ek, ep :: ek in EventsOf(kalshi) && ep in EventsOf(polymarket)
                               && k == EventKey(ek) && mapping[k] == EventKey(ep)
                               && Accepts(ek, ep, minCos, cos, NumbersWindow, ents)
  {
    var kSet := CollectEvents(kalshi);
    var pSet := CollectEvents(polymarket);
    var kEvents := Enumerate(kSet);
    var pEvents := Enumerate(pSet);
    ps := pEvents;
    var tokenIdx, numsIdx := BuildIndex(kEvents, Tokens, NumbersWindow);
    assert (set e | e in kEvents) == kSet;
    mapping, picks := ScanMapping(kEvents, kSet, pEvents, tokenIdx, numsIdx, Tokens, NumbersWindow, minCos, cos, ents, EventKey);
    PicksPairEvents(ps, picks, kSet, pSet, Tokens, NumbersWindow, minCos, cos, ents, EventKey);
  }

  /** Every entry of the mapping built from valid picks pairs an event of each venue that
      passes the final guards, keyed by the normalised texts. */
  lemma PicksPairEvents(ps: seq<string>, picks: seq<Option<(string, string)>>, kEvents: set<string>,
                        pEvents: set<string>, tokens: string -> set<string>, nums: string -> seq<nat>,
                        minCos: real, cos: string -> string -> real, ents: string -> set<string>,
                        key: string -> string)
    requires Enumerates(ps, pEvents) && |picks| == |ps|
    requires forall i :: 0 <= i < |ps| ==>
      IsPick(picks[i], ps[i], Preselected(ps[i], kEvents, tokens, nums), minCos, cos, nums, ents)
    ensures forall k :: k in ApplyPicks(picks, key) ==>
              exists ek, ep :: ek in kEvents && ep in pEvents
                               && k == key(ek) && ApplyPicks(picks, key)[k] == key(ep)
                               && Accepts(ek, ep, minCos, cos, nums, ents)
  {
    forall k | k in ApplyPicks(picks, key)
      ensures exists ek, ep :: ek in kEvents && ep in pEvents
                               && k == key(ek) && ApplyPicks(picks, key)[k] == key(ep)
                               && Accepts(ek, ep, minCos, cos, nums, ents)
    {
      var i := ApplyPicksLatest(picks, key, k);
      var pr := picks[i].value;
      assert IsPick(picks[i], ps[i], Preselected(ps[i], kEvents, tokens, nums), minCos, cos, nums, ents);
      assert pr.0 in Preselected(ps[i], kEvents, tokens, nums);
      assert ps[i] in ps;
      assert pr.0 in kEvents && pr.1 in pEvents && Accepts(pr.0, pr.1, minCos, cos, nums, ents);
    }
  }
}
