/** The two selection patterns the matchers share: keep the first candidate whose score
    beats the best so far (a strict `>`), and keep the `k` highest-scoring candidates. */
module Selection {
  import opened Wrappers
  import opened Seqs

  /** `ts[j]` is eligible, no eligible candidate scores higher, and every eligible
      candidate before it scores strictly lower: the pick of a `score > best` loop. */
  ghost predicate IsFirstBest<T>(ts: seq<T>, ok: T -> bool, score: T -> real, j: int)
  {
    && 0 <= j < |ts| && ok(ts[j])
    && (forall i :: 0 <= i < |ts| && ok(ts[i]) ==> score(ts[i]) <= score(ts[j]))
    && (forall i :: 0 <= i < j && ok(ts[i]) ==> score(ts[i]) < score(ts[j]))
  }

  /** At most one position is the first best. */
  lemma FirstBestIsUnique<T>(ts: seq<T>, ok: T -> bool, score: T -> real, j1: int, j2: int)
    requires IsFirstBest(ts, ok, score, j1) && IsFirstBest(ts, ok, score, j2)
    ensures j1 == j2
  {
  }

  lemma {:induction false} MaxExists<T>(s: set<T>, score: T -> real) returns (m: T)
    requires s != {}
    ensures m in s && forall y :: y in s ==> score(y) <= score(m)
    decreases |s|
  {
    var x :| x in s;
    if s == {x} {
      m := x;
    } else {
      var m' := MaxExists(s - {x}, score);
      m := if score(x) >= score(m') then x else m';
    }
  }

  /** The `k` members of `s` with the highest scores, highest first (`sorted(s, key=score,
      reverse=True)[:k]`); the order among equal scores is unspecified. */
  method TopByScore<T>(s: set<T>, score: T -> real, k: nat) returns (top: seq<T>)
    ensures Distinct(top)
    ensures forall x :: x in top ==> x in s
    ensures |top| == if k <= |s| then k else |s|
    ensures forall i, j :: 0 <= i < j < |top| ==> score(top[i]) >= score(top[j])
    ensures forall x, y :: x in top && y in s && y !in top ==> score(y) <= score(x)
  {
    top := [];
    var rest := s;
    while |top| < k && rest != {}
      invariant Distinct(top)
      invariant forall x :: x in s <==> x in rest || x in top
      invariant forall x :: x in top ==> x !in rest
      invariant |top| + |rest| == |s|
      invariant |top| <= k
      invariant forall i, j :: 0 <= i < j < |top| ==> score(top[i]) >= score(top[j])
      invariant forall x, y :: x in top && y in rest ==> score(y) <= score(x)
      decreases |rest|
    {
      ghost var w := MaxExists(rest, score);
      var m :| m in rest && forall y :: y in rest ==> score(y) <= score(m);
      top := top + [m];
      rest := rest - {m};
    }
  }

  /** `top` is one of the lists TopByScore(s, score, k) may return. */
  ghost predicate IsTopK<T>(top: seq<T>, s: set<T>, k: nat, score: T -> real)
  {
    && Distinct(top)
    && (forall x :: x in top ==> x in s)
    && |top| == (if k <= |s| then k else |s|)
    && (forall i, j :: 0 <= i < j < |top| ==> score(top[i]) >= score(top[j]))
    && (forall x, y :: x in top && y in s && y !in top ==> score(y) <= score(x))
  }

  /** A subset is no larger than its superset. */
  lemma {:induction false} SubsetCardinality<T>(a: set<T>, b: set<T>)
    requires a <= b
    ensures |a| <= |b|
    decreases |a|
  {
    if a != {} {
      var x :| x in a;
      SubsetCardinality(a - {x}, b - {x});
    }
  }

  /** When `s` has at most `k` members, a top-k list of it holds every one of them. */
  lemma TopKCoversSmallSet<T>(top: seq<T>, s: set<T>, k: nat, score: T -> real, x: T)
    requires IsTopK(top, s, k, score) && |s| <= k && x in s
    ensures x in top
  {
    DistinctElements(top);
    var listed := set y | y in top;
    if x !in top {
      assert listed <= s - {x};
      SubsetCardinality(listed, s - {x});
    }
  }

  /** The position a `score > best` loop started from minus infinity ends on: the first
      eligible candidate with the highest score, or None when nothing is eligible. */
  function FirstBest<T>(ts: seq<T>, ok: T -> bool, score: T -> real): (r: Option<nat>)
    ensures r.Some? ==> r.value < |ts|
  {
    if ts == [] then None
    else
      var n := |ts| - 1;
      var b := FirstBest(ts[..n], ok, score);
      if !ok(ts[n]) then b
      else if b.None? || score(ts[n]) > score(ts[b.value]) then Some(n)
      else b
  }

  /** FirstBest finds exactly the first best eligible candidate, and finds one whenever
      some candidate is eligible. */
  lemma {:induction false} FirstBestSpec<T>(ts: seq<T>, ok: T -> bool, score: T -> real)
    ensures FirstBest(ts, ok, score).None? <==> forall i :: 0 <= i < |ts| ==> !ok(ts[i])
    ensures FirstBest(ts, ok, score).Some? ==> IsFirstBest(ts, ok, score, FirstBest(ts, ok, score).value)
  {
    if ts != [] {
      var n := |ts| - 1;
      var init := ts[..n];
      FirstBestSpec(init, ok, score);
      assert forall i :: 0 <= i < n ==> ts[i] == init[i];
    }
  }

  /** A `best = -1.0` / `if score > best` loop over candidates whose scores are never
      negative, so that the start value is beaten by the first eligible candidate. */
  method ScanFirstBest<T>(ts: seq<T>, ok: T -> bool, score: T -> real) returns (bestScore: real, best: Option<T>)
    requires forall x :: score(x) >= 0.0
    ensures best.None? <==> FirstBest(ts, ok, score).None?
    ensures best.Some? ==> best.value == ts[FirstBest(ts, ok, score).value] && bestScore == score(best.value)
    ensures best.None? ==> bestScore == -1.0
  {
    bestScore := -1.0;
    best := None;
    ghost var bestJ: Option<nat> := None;
    for j := 0 to |ts|
      invariant bestJ == FirstBest(ts[..j], ok, score)
      invariant bestJ.None? ==> best.None? && bestScore == -1.0
      invariant bestJ.Some? ==> bestJ.value < j && best == Some(ts[bestJ.value]) && bestScore == score(ts[bestJ.value])
    {
      assert ts[..j + 1][..j] == ts[..j];
      var t := ts[j];
      var sc := score(t);
      if !ok(t) {
        continue;
      }
      if sc > bestScore {
        bestScore := sc;
        best := Some(t);
        bestJ := Some(j);
      }
    }
    assert ts[..|ts|] == ts;
  }

  /** What a lexical matcher accepts after that loop: the first best eligible text, when
      it is non-empty (Python truthiness) and scores at least `threshold`. */
  function AcceptedBest(ps: seq<string>, ok: string -> bool, score: string -> real, threshold: real)
    : (r: Option<string>)
    ensures r.Some? ==> exists j :: IsFirstBest(ps, ok, score, j) && ps[j] == r.value
    ensures r.Some? ==> r.value != "" && score(r.value) >= threshold && ok(r.value) && r.value in ps
  {
    var b := FirstBest(ps, ok, score);
    FirstBestSpec(ps, ok, score);
    if b.Some? && ps[b.value] != "" && score(ps[b.value]) >= threshold
    then Some(ps[b.value]) else None
  }

  /** Among candidates scoring at most `top`, an eligible candidate reaching `top` stops
      any later candidate from being picked: ties go to the earlier one. */
  lemma FirstBestPrefersEarlierMaximum<T>(ts: seq<T>, ok: T -> bool, score: T -> real, top: real, i: int, j: int)
    requires forall x :: score(x) <= top
    requires 0 <= i < |ts| && ok(ts[i]) && score(ts[i]) == top
    requires IsFirstBest(ts, ok, score, j)
    ensures j <= i && score(ts[j]) == top
  {
  }

  /** A `best = -math.inf` / `best_j = -1` / `if score > best` loop; `bestJ` is None while
      `best_j` is -1. */
  method ScanFromMinusInfinity<T>(ts: seq<T>, ok: T -> bool, score: T -> real) returns (bestJ: Option<nat>, best: real)
    ensures bestJ == FirstBest(ts, ok, score)
    ensures bestJ.Some? ==> best == score(ts[bestJ.value])
  {
    bestJ, best := None, 0.0;
    for j := 0 to |ts|
      invariant bestJ == FirstBest(ts[..j], ok, score)
      invariant bestJ.Some? ==> bestJ.value < j && best == score(ts[bestJ.value])
    {
      assert ts[..j + 1][..j] == ts[..j];
      if !ok(ts[j]) {
        continue;
      }
      var sc := score(ts[j]);
      if bestJ.None? || sc > best {
        best := sc;
        bestJ := Some(j);
      }
    }
    assert ts[..|ts|] == ts;
  }

  /** The target a source is mapped to: the first best eligible target with its score,
      when that score reaches `minSim`. */
  function ChoiceFor(tgts: seq<string>, ok: string -> bool, score: string -> real, minSim: real)
    : (r: Option<(string, real)>)
    ensures r.Some? ==> r.value.0 in tgts && ok(r.value.0) && r.value.1 == score(r.value.0) && r.value.1 >= minSim
    ensures r.Some? ==> exists j :: IsFirstBest(tgts, ok, score, j) && tgts[j] == r.value.0
    ensures r.None? ==> (forall j :: 0 <= j < |tgts| ==> !ok(tgts[j])) ||
                        (exists j :: IsFirstBest(tgts, ok, score, j) && score(tgts[j]) < minSim)
  {
    var b := FirstBest(tgts, ok, score);
    FirstBestSpec(tgts, ok, score);
    if b.Some? && score(tgts[b.value]) >= minSim then Some((tgts[b.value], score(tgts[b.value]))) else None
  }

  /** The mapping source -> (best target, score) built over the sources in order. */
  function BestMap(srcs: seq<string>, tgts: seq<string>, ok: string -> string -> bool,
                   score: string -> string -> real, minSim: real): map<string, (string, real)>
  {
    if srcs == [] then map[]
    else
      var s := srcs[|srcs| - 1];
      var m := BestMap(srcs[..|srcs| - 1], tgts, ok, score, minSim);
      var c := ChoiceFor(tgts, ok(s), score(s), minSim);
      if c.Some? then m[s := c.value] else m
  }

  /** A source is a key exactly when it has a choice, and its value is that choice. */
  lemma {:induction false} BestMapSpec(srcs: seq<string>, tgts: seq<string>, ok: string -> string -> bool,
                                       score: string -> string -> real, minSim: real, s: string)
    ensures s in BestMap(srcs, tgts, ok, score, minSim) <==> s in srcs && ChoiceFor(tgts, ok(s), score(s), minSim).Some?
    ensures s in BestMap(srcs, tgts, ok, score, minSim) ==>
      BestMap(srcs, tgts, ok, score, minSim)[s] == ChoiceFor(tgts, ok(s), score(s), minSim).value
  {
    if srcs != [] {
      var init := srcs[..|srcs| - 1];
      BestMapSpec(init, tgts, ok, score, minSim, s);
      assert srcs == init + [srcs[|srcs| - 1]];
    }
  }

  /** Whether a source has a choice, as a filter on the sources. */
  function HasChoice(tgts: seq<string>, ok: string -> string -> bool, score: string -> string -> real, minSim: real)
    : string -> bool
  {
    (s: string) => ChoiceFor(tgts, ok(s), score(s), minSim).Some?
  }

  /** The insertion order of BestMap's keys: over a duplicate-free source list, the mapped
      sources filtered in list order are each listed once, and they are exactly the keys. */
  lemma BestKeysSpec(srcs: seq<string>, tgts: seq<string>, ok: string -> string -> bool,
                     score: string -> string -> real, minSim: real)
    requires Distinct(srcs)
    ensures var keys := Filter(srcs, HasChoice(tgts, ok, score, minSim));
      && Distinct(keys) && IsSubsequence(keys, srcs)
      && forall s :: s in keys <==> s in BestMap(srcs, tgts, ok, score, minSim)
  {
    var p := HasChoice(tgts, ok, score, minSim);
    var keys := Filter(srcs, p);
    var idx := FilterIsSubsequence(srcs, p);
    forall i, j | 0 <= i < j < |keys|
      ensures keys[i] != keys[j]
    {
      assert keys[i] == srcs[idx[i]] && keys[j] == srcs[idx[j]] && idx[i] < idx[j];
    }
    forall s
      ensures s in keys <==> s in BestMap(srcs, tgts, ok, score, minSim)
    {
      FilterMembership(srcs, p, s);
      BestMapSpec(srcs, tgts, ok, score, minSim, s);
    }
  }

  /** The nested selection loop shared by the embedding and TF-IDF maps; `keys` lists the
      mapping's keys in the order they were inserted. */
  method ScanBestTargets(srcs: seq<string>, tgts: seq<string>, ok: string -> string -> bool,
                         score: string -> string -> real, minSim: real)
    returns (mapping: map<string, (string, real)>, keys: seq<string>)
    ensures mapping == BestMap(srcs, tgts, ok, score, minSim)
    ensures keys == Filter(srcs, HasChoice(tgts, ok, score, minSim))
  {
    mapping, keys := map[], [];
    for i := 0 to |srcs|
      invariant mapping == BestMap(srcs[..i], tgts, ok, score, minSim)
      invariant keys == Filter(srcs[..i], HasChoice(tgts, ok, score, minSim))
    {
      var s := srcs[i];
      assert srcs[..i + 1][..i] == srcs[..i];
      var bestJ, best := ScanFromMinusInfinity(tgts, ok(s), score(s));
      if bestJ.Some? && best >= minSim {
        mapping := mapping[s := (tgts[bestJ.value], best)];
        keys := keys + [s];
      }
    }
    assert srcs[..|srcs|] == srcs;
  }
}
