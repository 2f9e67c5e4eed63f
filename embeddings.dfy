/** app/utils/embeddings.py: cosine similarity of two vectors, batching, the alignment of
    cached and freshly fetched vectors with the input texts, and the best-target map over
    embedding cosines. The embedding service and its file cache are outside the model:
    the vectors they produce are parameters. */
module Embeddings {
  import opened Wrappers
  import opened Seqs
  import opened Text
  import opened Selection

  /** The square root `x ** 0.5` as far as `_cosine` relies on it: positive on positive
      inputs, so the denominator never vanishes. */
  type Root = f: real -> real | forall x :: x > 0.0 ==> f(x) > 0.0
    witness (x: real) => x

  /** `sum(x * y for x, y in zip(a, b))`. */
  function Dot(a: seq<real>, b: seq<real>): real
    requires |a| == |b|
  {
    if a == [] then 0.0 else Dot(a[..|a| - 1], b[..|b| - 1]) + a[|a| - 1] * b[|b| - 1]
  }

  lemma {:induction false} DotSymmetric(a: seq<real>, b: seq<real>)
    requires |a| == |b|
    ensures Dot(a, b) == Dot(b, a)
  {
    if a != [] {
      DotSymmetric(a[..|a| - 1], b[..|b| - 1]);
    }
  }

  lemma {:induction false} DotSelfNonnegative(a: seq<real>)
    ensures Dot(a, a) >= 0.0
  {
    if a != [] {
      DotSelfNonnegative(a[..|a| - 1]);
    }
  }

  /** `num / (da ** 0.5 * db ** 0.5)`. */
  function FromSums(num: real, da: real, db: real, root: Root): real
    requires da > 0.0 && db > 0.0
  {
    RootProductPositive(root, da, db);
    num / (root(da) * root(db))
  }

  /** The value `_cosine(a, b)` computes. */
  function CosineOf(a: seq<real>, b: seq<real>, root: Root): (r: real)
    ensures a == [] || b == [] || |a| != |b| ==> r == 0.0
    ensures |a| == |b| && (Dot(a, a) == 0.0 || Dot(b, b) == 0.0) ==> r == 0.0
  {
    if a == [] || b == [] || |a| != |b| then 0.0
    else
      var da := Dot(a, a);
      var db := Dot(b, b);
      if da == 0.0 || db == 0.0 then 0.0
      else
        DotSelfNonnegative(a);
        DotSelfNonnegative(b);
        FromSums(Dot(a, b), da, db, root)
  }

  /** `_cosine(a, b) == _cosine(b, a)`. */
  lemma CosineSymmetric(a: seq<real>, b: seq<real>, root: Root)
    ensures CosineOf(a, b, root) == CosineOf(b, a, root)
  {
    if a != [] && b != [] && |a| == |b| {
      DotSymmetric(a, b);
      var da := Dot(a, a);
      var db := Dot(b, b);
      assert root(da) * root(db) == root(db) * root(da);
    }
  }

  /** One more pair of components adds their product. */
  lemma DotStep(a: seq<real>, b: seq<real>, i: nat)
    requires |a| == |b| && i < |a|
    ensures Dot(a[..i + 1], b[..i + 1]) == Dot(a[..i], b[..i]) + a[i] * b[i]
  {
    assert a[..i + 1][..i] == a[..i] && b[..i + 1][..i] == b[..i];
  }

  /** The three sums `_cosine` accumulates over `zip(a, b)`. */
  method Accumulate(a: seq<real>, b: seq<real>) returns (num: real, da: real, db: real)
    requires |a| == |b|
    ensures num == Dot(a, b) && da == Dot(a, a) && db == Dot(b, b)
  {
    num, da, db := 0.0, 0.0, 0.0;
    for i := 0 to |a|
      invariant num == Dot(a[..i], b[..i])
      invariant da == Dot(a[..i], a[..i])
      invariant db == Dot(b[..i], b[..i])
    {
      DotStep(a, b, i);
      DotStep(a, a, i);
      DotStep(b, b, i);
      num := num + a[i] * b[i];
      da := da + a[i] * a[i];
      db := db + b[i] * b[i];
    }
    assert a[..|a|] == a && b[..|b|] == b;
  }

  /** The denominator of a cosine of two non-zero vectors is positive. */
  lemma RootProductPositive(root: Root, x: real, y: real)
    requires x > 0.0 && y > 0.0
    ensures root(x) * root(y) > 0.0
  {
    var rx, ry := root(x), root(y);
    assert rx > 0.0 && ry > 0.0;
  }

  /** `_cosine`. */
  method Cosine(a: seq<real>, b: seq<real>, root: Root) returns (r: real)
    ensures r == CosineOf(a, b, root)
  {
    if a == [] || b == [] || |a| != |b| {
      return 0.0;
    }
    var num, da, db := Accumulate(a, b);
    if da == 0.0 || db == 0.0 {
      return 0.0;
    }
    DotSelfNonnegative(a);
    DotSelfNonnegative(b);
    r := FromSums(num, da, db, root);
  }

  /** `_chunk(seq, n)`: consecutive slices of length `n`, the last one possibly shorter. */
  function Chunk<T>(s: seq<T>, n: nat): seq<seq<T>>
    requires n >= 1
    decreases |s|
  {
    if s == [] then []
    else if |s| <= n then [s]
    else [s[..n]] + Chunk(s[n..], n)
  }

  /** The chunks put back together give the input. */
  lemma {:induction false} ChunkConcat<T>(s: seq<T>, n: nat)
    requires n >= 1
    ensures Flatten(Chunk(s, n)) == s
    decreases |s|
  {
    if s == [] {
    } else if |s| <= n {
      FlattenCons(s, []);
    } else {
      ChunkConcat(s[n..], n);
      FlattenCons(s[..n], Chunk(s[n..], n));
      assert s[..n] + s[n..] == s;
    }
  }

  /** Every chunk is non-empty and at most `n` long, and all but the last are exactly
      `n` long. */
  lemma {:induction false} ChunkSizes<T>(s: seq<T>, n: nat)
    requires n >= 1
    ensures forall i :: 0 <= i < |Chunk(s, n)| ==> 0 < |Chunk(s, n)[i]| <= n
    ensures forall i :: 0 <= i < |Chunk(s, n)| - 1 ==> |Chunk(s, n)[i]| == n
    decreases |s|
  {
    if s != [] && |s| > n {
      var rest := Chunk(s[n..], n);
      ChunkSizes(s[n..], n);
      assert Chunk(s, n) == [s[..n]] + rest;
      forall i | 1 <= i < |Chunk(s, n)|
        ensures Chunk(s, n)[i] == rest[i - 1]
      {
      }
    }
  }

  /** `seen.get(k) or miss_vectors.get(k)`, with `[]` when neither has a vector: an empty
      cached vector is falsy and gives way to a fetched one. */
  function VectorFor(seen: map<string, seq<real>>, fetched: map<string, seq<real>>, k: string): (v: seq<real>)
    ensures k in seen && seen[k] != [] ==> v == seen[k]
    ensures (k !in seen || seen[k] == []) && k in fetched ==> v == fetched[k]
    ensures (k !in seen || seen[k] == []) && k !in fetched ==> v == []
  {
    if k in seen && seen[k] != [] then seen[k]
    else if k in fetched then fetched[k]
    else []
  }

  /** The stripped texts, the keys of the cache. */
  function StrippedKeys(texts: seq<string>): (keys: seq<string>)
    ensures |keys| == |texts| && forall i :: 0 <= i < |texts| ==> keys[i] == Strip(texts[i])
  {
    seq(|texts|, i requires 0 <= i < |texts| => Strip(texts[i]))
  }

  /** The cache lookup loop of `embed_openai` (lines 77-83): stripped texts found in the
      cache are `seen`, the others are `misses`, in order. */
  method PartitionByCache(keys: seq<string>, cache: map<string, seq<real>>, useCache: bool)
    returns (seen: map<string, seq<real>>, misses: seq<string>, hits: nat)
    ensures forall k :: k in seen <==> useCache && k in cache && k in keys
    ensures forall k :: k in seen ==> seen[k] == cache[k]
    ensures misses == Filter(keys, (k: string) => !(useCache && k in cache))
    ensures hits + |misses| == |keys|
  {
    seen, misses, hits := map[], [], 0;
    var isMiss := (k: string) => !(useCache && k in cache);
    for i := 0 to |keys|
      invariant forall k :: k in seen <==> useCache && k in cache && k in keys[..i]
      invariant forall k :: k in seen ==> seen[k] == cache[k]
      invariant misses == Filter(keys[..i], isMiss)
      invariant hits + |misses| == i
    {
      var k := keys[i];
      assert keys[..i + 1][..i] == keys[..i];
      assert keys[..i + 1] == keys[..i] + [k];
      if useCache && k in cache {
        seen := seen[k := cache[k]];
        hits := hits + 1;
      } else {
        misses := misses + [k];
      }
    }
    assert keys[..|keys|] == keys;
  }

  /** The final loop of `embed_openai` (lines 109-116): one vector per input text, in
      input order, looked up under the stripped text. */
  method AlignVectors(texts: seq<string>, seen: map<string, seq<real>>, fetched: map<string, seq<real>>)
    returns (vectors: seq<seq<real>>)
    ensures |vectors| == |texts|
    ensures forall i :: 0 <= i < |texts| ==> vectors[i] == VectorFor(seen, fetched, Strip(texts[i]))
  {
    vectors := [];
    for i := 0 to |texts|
      invariant |vectors| == i
      invariant forall j :: 0 <= j < i ==> vectors[j] == VectorFor(seen, fetched, Strip(texts[j]))
    {
      vectors := vectors + [VectorFor(seen, fetched, Strip(texts[i]))];
    }
  }

  /** `embed_openai` without the service and the cache file: `cache` is the loaded cache
      and `fetched` the vectors the service returned for the misses. */
  method EmbedTexts(texts: seq<string>, cache: map<string, seq<real>>, useCache: bool, fetched: map<string, seq<real>>)
    returns (vectors: seq<seq<real>>, ghost seen: map<string, seq<real>>, ghost misses: seq<string>)
    ensures |vectors| == |texts|
    ensures forall k :: k in seen <==> useCache && k in cache && k in StrippedKeys(texts)
    ensures forall k :: k in seen ==> seen[k] == cache[k]
    ensures forall i :: 0 <= i < |texts| ==> vectors[i] == VectorFor(seen, fetched, Strip(texts[i]))
  {
    var keys := StrippedKeys(texts);
    var seenMap, missList, hits := PartitionByCache(keys, cache, useCache);
    seen, misses := seenMap, missList;
    vectors := AlignVectors(texts, seenMap, fetched);
  }

  /** A non-empty cached vector is returned as is; a text that got no vector at all gets
      `[]`. */
  lemma EmbedTextsUsesCache(texts: seq<string>, cache: map<string, seq<real>>, useCache: bool,
                            fetched: map<string, seq<real>>, vectors: seq<seq<real>>,
                            seen: map<string, seq<real>>, i: int)
    requires |vectors| == |texts| && 0 <= i < |texts|
    requires forall k :: k in seen <==> useCache && k in cache && k in StrippedKeys(texts)
    requires forall k :: k in seen ==> seen[k] == cache[k]
    requires forall i :: 0 <= i < |texts| ==> vectors[i] == VectorFor(seen, fetched, Strip(texts[i]))
    ensures useCache && Strip(texts[i]) in cache && cache[Strip(texts[i])] != [] ==> vectors[i] == cache[Strip(texts[i])]
    ensures !(useCache && Strip(texts[i]) in cache) && Strip(texts[i]) !in fetched ==> vectors[i] == []
  {
  }

  /** The target filter of `build_embedding_map_openai`: with `strict_numbers`, only
      numerically consistent targets compete. */
  function StrictGuard(strict: bool): string -> string -> bool
  {
    (s: string) => (t: string) => !strict || NumericConsistent(s, t)
  }

  /** The score of a target for a source: the cosine of their embeddings. */
  function EmbeddingScore(vec: string -> seq<real>, root: Root): string -> string -> real
  {
    (s: string) => (t: string) => CosineOf(vec(s), vec(t), root)
  }

  /** `build_embedding_map_openai`: `vec` gives the embedding `embed_openai` returned for
      each text; `keys` is the returned dict's key order. */
  method BuildEmbeddingMap(sources: seq<string>, targets: seq<string>, minSim: real, strict: bool,
                           vec: string -> seq<real>, root: Root)
    returns (mapping: map<string, (string, real)>, keys: seq<string>)
    ensures sources == [] || targets == [] ==> mapping == map[] && keys == []
    ensures sources != [] && targets != [] ==>
      && mapping == BestMap(Dedup(sources), Dedup(targets), StrictGuard(strict), EmbeddingScore(vec, root), minSim)
      && keys == Filter(Dedup(sources), HasChoice(Dedup(targets), StrictGuard(strict), EmbeddingScore(vec, root), minSim))
  {
    var srcList := Dedup(sources);
    var tgtList := Dedup(targets);
    DedupProperties(sources);
    DedupProperties(targets);
    if srcList == [] || tgtList == [] {
      if sources != [] {
        assert sources[0] in srcList;
      }
      if targets != [] {
        assert targets[0] in tgtList;
      }
      return map[], [];
    }
    mapping, keys := ScanBestTargets(srcList, tgtList, StrictGuard(strict), EmbeddingScore(vec, root), minSim);
  }

  /** Each entry `s -> (t, score)` of the embedding map: `s` is a source, `t` a target, the
      score is their cosine and reaches `minSim`, `t` is the first best-scoring target
      allowed, and with `strict_numbers` it is numerically consistent with `s`. */
  lemma EmbeddingMapSound(sources: seq<string>, targets: seq<string>, minSim: real, strict: bool,
                          vec: string -> seq<real>, root: Root, s: string)
    requires s in BestMap(Dedup(sources), Dedup(targets), StrictGuard(strict), EmbeddingScore(vec, root), minSim)
    ensures s in sources
    ensures var (t, score) := BestMap(Dedup(sources), Dedup(targets), StrictGuard(strict), EmbeddingScore(vec, root), minSim)[s];
      && t in targets && score >= minSim && score == CosineOf(vec(s), vec(t), root)
      && (strict ==> NumericConsistent(s, t))
      && exists j :: IsFirstBest(Dedup(targets), StrictGuard(strict)(s), EmbeddingScore(vec, root)(s), j) && Dedup(targets)[j] == t
  {
    BestMapSpec(Dedup(sources), Dedup(targets), StrictGuard(strict), EmbeddingScore(vec, root), minSim, s);
    DedupProperties(sources);
    DedupProperties(targets);
  }

  /** The embedding map's keys are the mapped sources, each once, in the order of their
      first occurrence among the sources. */
  lemma EmbeddingMapKeys(sources: seq<string>, targets: seq<string>, minSim: real, strict: bool,
                         vec: string -> seq<real>, root: Root, s: string)
    ensures var keys := Filter(Dedup(sources), HasChoice(Dedup(targets), StrictGuard(strict), EmbeddingScore(vec, root), minSim));
      && Distinct(keys) && IsSubsequence(keys, Dedup(sources))
      && (s in keys <==> s in sources && s in BestMap(Dedup(sources), Dedup(targets), StrictGuard(strict), EmbeddingScore(vec, root), minSim))
  {
    DedupProperties(sources);
    BestKeysSpec(Dedup(sources), Dedup(targets), StrictGuard(strict), EmbeddingScore(vec, root), minSim);
  }
}
