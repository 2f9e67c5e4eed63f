/** Sequence helpers shared by the filters and matchers: order-preserving filtering,
    first-occurrence de-duplication and enumeration of a set in an unspecified order. */
module Seqs {

  /** No element occurs twice. */
  ghost predicate Distinct<T>(s: seq<T>)
  {
    forall i, j :: 0 <= i < j < |s| ==> s[i] != s[j]
  }

  /** Appending an element not yet present keeps a sequence duplicate-free. */
  lemma DistinctSnoc<T>(s: seq<T>, x: T)
    requires Distinct(s) && x !in s
    ensures Distinct(s + [x])
  {
    var t := s + [x];
    forall i, j | 0 <= i < j < |t| ensures t[i] != t[j] {
      if j == |s| {
        assert t[i] == s[i];
      } else {
        assert t[i] == s[i] && t[j] == s[j];
      }
    }
  }

  /** `idx` embeds `a` into `b`: strictly increasing positions of `b` holding `a`'s elements. */
  ghost predicate Embeds<T>(idx: seq<int>, a: seq<T>, b: seq<T>)
  {
    && |idx| == |a|
    && (forall i :: 0 <= i < |idx| ==> 0 <= idx[i] < |b| && a[i] == b[idx[i]])
    && (forall i, j :: 0 <= i < j < |idx| ==> idx[i] < idx[j])
  }

  /** `a` is an order-preserving subsequence of `b`. */
  ghost predicate IsSubsequence<T>(a: seq<T>, b: seq<T>)
  {
    exists idx :: Embeds(idx, a, b)
  }

  /** The elements of `s` satisfying `p`, in order (a list comprehension with a condition). */
  function Filter<T>(s: seq<T>, p: T -> bool): seq<T>
  {
    if s == [] then []
    else Filter(s[..|s| - 1], p) + (if p(s[|s| - 1]) then [s[|s| - 1]] else [])
  }

  lemma {:induction false} FilterMembership<T>(s: seq<T>, p: T -> bool, x: T)
    ensures x in Filter(s, p) <==> x in s && p(x)
  {
    if s != [] {
      FilterMembership(s[..|s| - 1], p, x);
      assert s == s[..|s| - 1] + [s[|s| - 1]];
    }
  }

  lemma {:induction false} FilterAllSatisfy<T>(s: seq<T>, p: T -> bool)
    ensures forall i :: 0 <= i < |Filter(s, p)| ==> p(Filter(s, p)[i])
  {
    if s != [] {
      FilterAllSatisfy(s[..|s| - 1], p);
    }
  }

  /** Filtering keeps the order of the input: the witness is the list of kept positions. */
  lemma {:induction false} FilterIsSubsequence<T>(s: seq<T>, p: T -> bool) returns (idx: seq<int>)
    ensures Embeds(idx, Filter(s, p), s)
    ensures IsSubsequence(Filter(s, p), s)
  {
    if s == [] {
      idx := [];
    } else {
      var init := s[..|s| - 1];
      var prev := FilterIsSubsequence(init, p);
      var fi := Filter(init, p);
      assert forall i :: 0 <= i < |prev| ==> prev[i] < |init| && fi[i] == init[prev[i]] == s[prev[i]];
      if p(s[|s| - 1]) {
        idx := prev + [|s| - 1];
        assert Filter(s, p) == fi + [s[|s| - 1]];
      } else {
        idx := prev;
      }
    }
    assert Embeds(idx, Filter(s, p), s);
  }

  lemma {:induction false} FilterAppend<T>(a: seq<T>, b: seq<T>, p: T -> bool)
    ensures Filter(a + b, p) == Filter(a, p) + Filter(b, p)
    decreases |b|
  {
    if b == [] {
      assert a + b == a;
    } else {
      var b' := b[..|b| - 1];
      FilterAppend(a, b', p);
      assert (a + b)[..|a + b| - 1] == a + b';
      assert (a + b)[|a + b| - 1] == b[|b| - 1];
    }
  }

  lemma {:induction false} FilterLength<T>(s: seq<T>, p: T -> bool)
    ensures |Filter(s, p)| <= |s|
  {
    if s != [] { FilterLength(s[..|s| - 1], p); }
  }

  /** Nothing passes the filter when no element satisfies the predicate. */
  lemma {:induction false} FilterNone<T>(s: seq<T>, p: T -> bool)
    requires forall x :: x in s ==> !p(x)
    ensures Filter(s, p) == []
  {
    if s != [] { FilterNone(s[..|s| - 1], p); }
  }

  /** Two predicates that agree on the elements of `s` filter it alike. */
  lemma {:induction false} FilterCongruent<T>(s: seq<T>, p: T -> bool, q: T -> bool)
    requires forall x :: x in s ==> (p(x) <==> q(x))
    ensures Filter(s, p) == Filter(s, q)
  {
    if s != [] {
      FilterCongruent(s[..|s| - 1], p, q);
    }
  }

  /** A filter of a list sorted by non-increasing score is still sorted that way. */
  lemma FilterKeepsDescending<T>(s: seq<T>, p: T -> bool, score: T -> real)
    requires forall i, j :: 0 <= i < j < |s| ==> score(s[i]) >= score(s[j])
    ensures forall i, j :: 0 <= i < j < |Filter(s, p)| ==> score(Filter(s, p)[i]) >= score(Filter(s, p)[j])
  {
    var idx := FilterIsSubsequence(s, p);
    var f := Filter(s, p);
    forall i, j | 0 <= i < j < |f|
      ensures score(f[i]) >= score(f[j])
    {
      assert f[i] == s[idx[i]] && f[j] == s[idx[j]] && idx[i] < idx[j];
    }
  }

  /** A list without repetitions has as many distinct elements as it is long. */
  lemma {:induction false} DistinctElements<T>(s: seq<T>)
    requires Distinct(s)
    ensures |set x | x in s| == |s|
  {
    if s != [] {
      var init := s[..|s| - 1];
      DistinctElements(init);
      var last := s[|s| - 1];
      assert last !in init;
      assert (set x | x in s) == (set x | x in init) + {last};
    }
  }

  /** The concatenation of a list of lists. */
  function Flatten<T>(bs: seq<seq<T>>): (r: seq<T>)
    ensures bs == [] ==> r == []
  {
    if bs == [] then [] else Flatten(bs[..|bs| - 1]) + bs[|bs| - 1]
  }

  /** Appending one more list at the end. */
  lemma FlattenSnoc<T>(bs: seq<seq<T>>, b: seq<T>)
    ensures Flatten(bs + [b]) == Flatten(bs) + b
  {
    assert (bs + [b])[..|bs|] == bs;
  }

  /** Concatenating a list in front of the others. */
  lemma {:induction false} FlattenCons<T>(b: seq<T>, bs: seq<seq<T>>)
    ensures Flatten([b] + bs) == b + Flatten(bs)
    decreases |bs|
  {
    if bs != [] {
      var init := bs[..|bs| - 1];
      FlattenCons(b, init);
      assert ([b] + bs)[..|bs|] == [b] + init;
    }
  }

  /** An element of a concatenation comes from one of the lists. */
  lemma {:induction false} FlattenMembership<T>(bs: seq<seq<T>>, x: T)
    ensures x in Flatten(bs) <==> exists i :: 0 <= i < |bs| && x in bs[i]
  {
    if bs != [] {
      var init := bs[..|bs| - 1];
      FlattenMembership(init, x);
      if x in bs[|bs| - 1] {
        assert x in Flatten(bs);
      }
      if exists i :: 0 <= i < |bs| && x in bs[i] {
        var i :| 0 <= i < |bs| && x in bs[i];
        if i < |bs| - 1 {
          assert x in init[i];
        }
      }
    }
  }

  /** `list(dict.fromkeys(s))`: the distinct elements of `s` in first-occurrence order. */
  function Dedup<T(==)>(s: seq<T>): seq<T>
  {
    if s == [] then []
    else
      var d := Dedup(s[..|s| - 1]);
      if s[|s| - 1] in d then d else d + [s[|s| - 1]]
  }

  lemma {:induction false} DedupProperties<T>(s: seq<T>)
    ensures Distinct(Dedup(s))
    ensures forall x :: x in Dedup(s) <==> x in s
    ensures |Dedup(s)| <= |s|
  {
    if s != [] {
      var init := s[..|s| - 1];
      DedupProperties(init);
      assert s == init + [s[|s| - 1]];
    }
  }

  /** Iterate over a set: Python's iteration order of a `set` is unspecified, so any
      enumeration may be chosen. */
  method Enumerate<T>(s: set<T>) returns (xs: seq<T>)
    ensures Distinct(xs)
    ensures forall x :: x in xs <==> x in s
    ensures |xs| == |s|
  {
    xs := [];
    var rest := s;
    while rest != {}
      invariant Distinct(xs)
      invariant rest !! set x | x in xs
      invariant forall x :: x in s <==> x in rest || x in xs
      invariant |xs| + |rest| == |s|
      decreases |rest|
    {
      var x :| x in rest;
      xs := xs + [x];
      rest := rest - {x};
    }
  }
}
