/** app/utils/ml_match.py: map each source string to its best target by TF-IDF cosine.
    The TF-IDF vectoriser and its cosine matrix are outside the model: `tfidf(s)(t)` is the
    similarity the matrix holds for source `s` and target `t`. */
module MlMatch {
  import opened Wrappers
  import opened Seqs
  import opened Text
  import opened Selection
  import opened Embeddings

  /** `build_tfidf_map`. `available` says whether scikit-learn could be imported; `keys`
      is the returned dict's key order. */
  method BuildTfidfMap(sources: seq<string>, targets: seq<string>, minSim: real, strict: bool,
                       available: bool, tfidf: string -> string -> real)
    returns (mapping: map<string, (string, real)>, keys: seq<string>)
    ensures !available || sources == [] || targets == [] ==> mapping == map[] && keys == []
    ensures available && sources != [] && targets != [] ==>
      && mapping == BestMap(Dedup(sources), Dedup(targets), StrictGuard(strict), tfidf, minSim)
      && keys == Filter(Dedup(sources), HasChoice(Dedup(targets), StrictGuard(strict), tfidf, minSim))
  {
    if !available {
      return map[], [];
    }
    var srcList := Dedup(sources);
    var tgtList := Dedup(targets);
    DedupProperties(sources);
    DedupProperties(targets);
    if srcList == [] || tgtList == [] {
      if sources != [] {
        assert sources[0] in srcList;
      }
      if targets != [] {
        assert targets[0] in tgtList;
      }
      return map[], [];
    }
    mapping, keys := ScanBestTargets(srcList, tgtList, StrictGuard(strict), tfidf, minSim);
  }

  /** Each entry `s -> (t, score)`: `s` is one of the sources, `t` one of the targets, the
      score is their similarity and reaches `minSim`; `t` is the first target with the
      highest score among those allowed, and with `strict_numbers` it is numerically
      consistent with `s`. */
  lemma TfidfMapSound(sources: seq<string>, targets: seq<string>, minSim: real, strict: bool,
                      tfidf: string -> string -> real, s: string)
    requires s in BestMap(Dedup(sources), Dedup(targets), StrictGuard(strict), tfidf, minSim)
    ensures s in sources
    ensures var (t, score) := BestMap(Dedup(sources), Dedup(targets), StrictGuard(strict), tfidf, minSim)[s];
      && t in targets && score >= minSim && score == tfidf(s)(t)
      && (strict ==> NumericConsistent(s, t))
      && exists j :: IsFirstBest(Dedup(targets), StrictGuard(strict)(s), tfidf(s), j) && Dedup(targets)[j] == t
  {
    BestMapSpec(Dedup(sources), Dedup(targets), StrictGuard(strict), tfidf, minSim, s);
    DedupProperties(sources);
    DedupProperties(targets);
  }

  /** Keys are the distinct sources in first-occurrence order: a source that has a
      choice is a key exactly once, whatever its repetitions, and the key order follows
      the sources' first occurrences. */
  lemma TfidfMapKeys(sources: seq<string>, targets: seq<string>, minSim: real, strict: bool,
                     tfidf: string -> string -> real, s: string)
    ensures s in BestMap(Dedup(sources), Dedup(targets), StrictGuard(strict), tfidf, minSim) <==>
      s in sources && ChoiceFor(Dedup(targets), StrictGuard(strict)(s), tfidf(s), minSim).Some?
    ensures var keys := Filter(Dedup(sources), HasChoice(Dedup(targets), StrictGuard(strict), tfidf, minSim));
      && Distinct(keys) && IsSubsequence(keys, Dedup(sources))
      && (s in keys <==> s in BestMap(Dedup(sources), Dedup(targets), StrictGuard(strict), tfidf, minSim))
  {
    BestMapSpec(Dedup(sources), Dedup(targets), StrictGuard(strict), tfidf, minSim, s);
    DedupProperties(sources);
    BestKeysSpec(Dedup(sources), Dedup(targets), StrictGuard(strict), tfidf, minSim);
  }
}
