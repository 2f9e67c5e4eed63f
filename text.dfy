/** app/utils/text.py: text normalisation, similarity over normalised text and
    numeric windows, restricted to ASCII (NFKC and Unicode case mapping are the identity there). */
module Text {

  /** Python's `str.isspace` on ASCII: space, \t \n \v \f \r and the separators \x1c-\x1f. */
  predicate IsSpace(c: char)
  {
    c == ' ' || c == '\t' || c == '\n' || c == '\r' || c == '\U{0B}' || c == '\U{0C}'
    || ('\U{1C}' <= c <= '\U{1F}')
  }

  predicate IsDigit(c: char) { '0' <= c <= '9' }

  /** The class `[a-z0-9]`. */
  predicate IsLowerAlnum(c: char) { ('a' <= c <= 'z') || IsDigit(c) }

  function LowerChar(c: char): char
  {
    if 'A' <= c <= 'Z' then (c as int + 32) as char else c
  }

  function UpperChar(c: char): char
  {
    if 'a' <= c <= 'z' then (c as int - 32) as char else c
  }

  /** `str.lower()`. */
  function Lower(s: string): (r: string)
    ensures |r| == |s|
    ensures forall i :: 0 <= i < |s| ==> !('A' <= r[i] <= 'Z')
  {
    seq(|s|, i requires 0 <= i < |s| => LowerChar(s[i]))
  }

  /** `str.upper()`. */
  function Upper(s: string): (r: string)
    ensures |r| == |s|
    ensures forall i :: 0 <= i < |s| ==> !('a' <= r[i] <= 'z')
  {
    seq(|s|, i requires 0 <= i < |s| => UpperChar(s[i]))
  }

  /** Leading whitespace removed: the longest whitespace prefix is dropped. */
  function StripLeft(s: string): (r: string)
    ensures |r| <= |s| && r == s[|s| - |r|..]
    ensures r != [] ==> !IsSpace(r[0])
  {
    if s != [] && IsSpace(s[0]) then StripLeft(s[1..]) else s
  }

  /** Trailing whitespace removed: the longest whitespace suffix is dropped. */
  function StripRight(s: string): (r: string)
    ensures |r| <= |s| && r == s[..|r|]
    ensures r != [] ==> !IsSpace(r[|r| - 1])
  {
    if s != [] && IsSpace(s[|s| - 1]) then StripRight(s[..|s| - 1]) else s
  }

  /** `str.strip()`: no whitespace at either end (see StripIsSlice for where it sits and
      what it drops). */
  function Strip(s: string): (r: string)
    ensures |r| <= |s|
    ensures r != [] ==> !IsSpace(r[0]) && !IsSpace(r[|r| - 1])
  {
    StripRight(StripLeft(s))
  }

  /** Only whitespace is dropped from the front. */
  lemma {:induction false} StripLeftDropsSpaces(s: string)
    ensures forall i :: 0 <= i < |s| - |StripLeft(s)| ==> IsSpace(s[i])
    decreases |s|
  {
    if s != [] && IsSpace(s[0]) {
      StripLeftDropsSpaces(s[1..]);
    }
  }

  /** Only whitespace is dropped from the back. */
  lemma {:induction false} StripRightDropsSpaces(s: string)
    ensures forall i :: |StripRight(s)| <= i < |s| ==> IsSpace(s[i])
    decreases |s|
  {
    if s != [] && IsSpace(s[|s| - 1]) {
      StripRightDropsSpaces(s[..|s| - 1]);
    }
  }

  /** The stripped text is a contiguous slice of the original, what lies before and after
      it is whitespace, and it is empty exactly when the original is all whitespace. */
  lemma StripIsSlice(s: string) returns (k: nat)
    ensures k + |Strip(s)| <= |s| && Strip(s) == s[k..k + |Strip(s)|]
    ensures forall i :: 0 <= i < k ==> IsSpace(s[i])
    ensures forall i :: k + |Strip(s)| <= i < |s| ==> IsSpace(s[i])
    ensures Strip(s) == [] <==> forall i :: 0 <= i < |s| ==> IsSpace(s[i])
  {
    var l := StripLeft(s);
    var r := StripRight(l);
    k := |s| - |l|;
    assert l == s[k..];
    assert r == s[k..][..|r|] == s[k..k + |r|];
    StripLeftDropsSpaces(s);
    StripRightDropsSpaces(l);
    forall i | k + |r| <= i < |s|
      ensures IsSpace(s[i])
    {
      assert s[i] == l[i - k];
    }
    if r != [] {
      assert s[k] == r[0];
    }
  }

  /** The key both detectors use to index events: `e.lower().strip()`. */
  function EventKey(e: string): string
  {
    Strip(Lower(e))
  }

  /** An event key has no upper-case letter and no whitespace at either end. */
  lemma EventKeyShape(e: string)
    ensures forall i :: 0 <= i < |EventKey(e)| ==> !('A' <= EventKey(e)[i] <= 'Z')
    ensures EventKey(e) != [] ==> !IsSpace(EventKey(e)[0]) && !IsSpace(EventKey(e)[|EventKey(e)| - 1])
  {
    StripKeepsLowerCase(Lower(e));
  }

  /** Stripping text with no upper-case letter leaves none. */
  lemma StripKeepsLowerCase(s: string)
    requires forall i :: 0 <= i < |s| ==> !('A' <= s[i] <= 'Z')
    ensures forall i :: 0 <= i < |Strip(s)| ==> !('A' <= Strip(s)[i] <= 'Z')
  {
    var k := StripIsSlice(s);
    forall i | 0 <= i < |Strip(s)|
      ensures !('A' <= Strip(s)[i] <= 'Z')
    {
      assert Strip(s)[i] == s[k + i];
    }
  }

  /** An event key is empty exactly when the event is all whitespace. */
  lemma EventKeyEmptyIffBlank(e: string)
    ensures EventKey(e) == [] <==> forall i :: 0 <= i < |e| ==> IsSpace(e[i])
  {
    var l := Lower(e);
    var k := StripIsSlice(l);
    LowerKeepsSpaces(e);
    if Strip(l) != [] {
      assert !IsSpace(l[k]) && !IsSpace(e[k]);
    }
  }

  /** Lower-casing neither adds nor removes whitespace. */
  lemma LowerKeepsSpaces(e: string)
    ensures forall i :: 0 <= i < |e| ==> (IsSpace(Lower(e)[i]) <==> IsSpace(e[i]))
  {
    forall i | 0 <= i < |e|
      ensures IsSpace(Lower(e)[i]) <==> IsSpace(e[i])
    {
      assert Lower(e)[i] == LowerChar(e[i]);
    }
  }

  /** Curly single and double quotes folded to straight ones. */
  function FoldQuoteChar(c: char): char
  {
    if c == '‘' || c == '’' then '\''
    else if c == '“' || c == '”' then '"'
    else c
  }

  function FoldQuotes(s: string): string
  {
    seq(|s|, i requires 0 <= i < |s| => FoldQuoteChar(s[i]))
  }

  /** A character that `[^a-z0-9\s]` matches. */
  predicate IsOther(c: char) { !IsLowerAlnum(c) && !IsSpace(c) }

  /** The maximal run of `IsOther` characters at the front of `s` removed. */
  function SkipOther(s: string): (r: string)
    ensures |r| <= |s|
    ensures s != [] && IsOther(s[0]) ==> |r| < |s|
    ensures r != [] ==> !IsOther(r[0])
  {
    if s != [] && IsOther(s[0]) then SkipOther(s[1..]) else s
  }

  /** `re.sub(r"[^a-z0-9\s]+", " ", s)`: each maximal run of other characters becomes one space. */
  function ReplaceOther(s: string): string
    decreases |s|
  {
    if s == [] then []
    else if IsOther(s[0]) then " " + ReplaceOther(SkipOther(s))
    else [s[0]] + ReplaceOther(s[1..])
  }

  /** The maximal whitespace run at the front of `s` removed. */
  function SkipSpaces(s: string): (r: string)
    ensures |r| <= |s| && r == s[|s| - |r|..]
    ensures s != [] && IsSpace(s[0]) ==> |r| < |s|
    ensures r != [] ==> !IsSpace(r[0])
  {
    if s != [] && IsSpace(s[0]) then SkipSpaces(s[1..]) else s
  }

  /** `re.sub(r"\s+", " ", s)`: each maximal whitespace run becomes one space. */
  function CollapseSpaces(s: string): string
    decreases |s|
  {
    if s == [] then []
    else if IsSpace(s[0]) then " " + CollapseSpaces(SkipSpaces(s))
    else [s[0]] + CollapseSpaces(s[1..])
  }

  /** `normalize_text`: lower-case, fold curly quotes, replace every run of other
      characters by a space, collapse whitespace and strip. The result is always
      normalised. */
  function NormalizeText(s: string): (r: string)
    ensures IsNormalized(r)
  {
    var t := ReplaceOther(FoldQuotes(Lower(s)));
    ReplaceOtherLeavesWordsAndSpaces(FoldQuotes(Lower(s)));
    CollapseSpacesShape(t);
    StripSingleSpaced(CollapseSpaces(t));
    Strip(CollapseSpaces(t))
  }

  /** Only `a-z`, `0-9` and single spaces, none at either end. */
  ghost predicate IsNormalized(s: string)
  {
    && (forall i :: 0 <= i < |s| ==> IsLowerAlnum(s[i]) || s[i] == ' ')
    && (forall i :: 0 <= i < |s| - 1 ==> s[i] != ' ' || s[i + 1] != ' ')
    && (s != [] ==> s[0] != ' ' && s[|s| - 1] != ' ')
  }

  /** Only `a-z`, `0-9` and single spaces. */
  ghost predicate SingleSpaced(s: string)
  {
    && (forall i :: 0 <= i < |s| ==> IsLowerAlnum(s[i]) || s[i] == ' ')
    && (forall i :: 0 <= i < |s| - 1 ==> s[i] != ' ' || s[i + 1] != ' ')
  }

  lemma {:induction false} ReplaceOtherLeavesWordsAndSpaces(s: string)
    ensures forall i :: 0 <= i < |ReplaceOther(s)| ==> !IsOther(ReplaceOther(s)[i])
    decreases |s|
  {
    if s != [] {
      if IsOther(s[0]) {
        ReplaceOtherLeavesWordsAndSpaces(SkipOther(s));
      } else {
        ReplaceOtherLeavesWordsAndSpaces(s[1..]);
      }
    }
  }

  lemma {:induction false} CollapseSpacesShape(s: string)
    requires forall i :: 0 <= i < |s| ==> !IsOther(s[i])
    ensures SingleSpaced(CollapseSpaces(s))
    ensures CollapseSpaces(s) != [] <==> s != []
    ensures s != [] ==> (CollapseSpaces(s)[0] == ' ' <==> IsSpace(s[0]))
    decreases |s|
  {
    if s != [] {
      var c := CollapseSpaces(s);
      if IsSpace(s[0]) {
        var t := SkipSpaces(s);
        CollapseSpacesShape(t);
        assert c == " " + CollapseSpaces(t);
      } else {
        CollapseSpacesShape(s[1..]);
        assert c == [s[0]] + CollapseSpaces(s[1..]);
      }
    }
  }

  lemma StripSingleSpaced(s: string)
    requires SingleSpaced(s)
    ensures IsNormalized(Strip(s))
  {
    var r := Strip(s);
    var i := StripIsSlice(s);
    SingleSpacedSlice(s, i, i + |r|);
  }

  lemma SingleSpacedSlice(s: string, i: nat, j: nat)
    requires SingleSpaced(s) && i <= j <= |s|
    ensures SingleSpaced(s[i..j])
  {
    assert forall k :: 0 <= k < j - i ==> s[i..j][k] == s[i + k];
  }

  /** Every output of `normalize_text` holds only `a-z`, `0-9` and single inner spaces. */
  lemma {:induction false} ReplaceOtherFixes(s: string)
    requires forall i :: 0 <= i < |s| ==> !IsOther(s[i])
    ensures ReplaceOther(s) == s
    decreases |s|
  {
    if s != [] {
      ReplaceOtherFixes(s[1..]);
    }
  }

  lemma {:induction false} CollapseSpacesFixes(s: string)
    requires SingleSpaced(s)
    requires s != [] ==> s[0] != ' '
    ensures CollapseSpaces(s) == s
    decreases |s|
  {
    if s != [] {
      var t := s[1..];
      assert CollapseSpaces(s) == [s[0]] + CollapseSpaces(t) by {
        NotSpaceIfWordOrBlank(s[0]);
      }
      assert SingleSpaced(t) by {
        SingleSpacedTail(s, 1);
      }
      if t != [] && t[0] == ' ' {
        var u := t[1..];
        assert SingleSpaced(u) && (u != [] ==> u[0] != ' ') by {
          SingleSpacedTail(t, 1);
          if u != [] {
            assert s[1] == ' ' && u[0] == s[2];
          }
        }
        CollapseSpacesFixes(u);
        assert CollapseSpaces(t) == " " + u by {
          CollapseAtBlank(t, u);
        }
        assert s == [s[0]] + (" " + u);
      } else {
        CollapseSpacesFixes(t);
        assert s == [s[0]] + t;
      }
    }
  }

  /** A lone blank before a word is kept as it is. */
  lemma CollapseAtBlank(t: string, u: string)
    requires t != [] && t[0] == ' ' && u == t[1..]
    requires SingleSpaced(u) && (u != [] ==> u[0] != ' ')
    requires CollapseSpaces(u) == u
    ensures CollapseSpaces(t) == " " + u
  {
    assert u != [] ==> !IsSpace(u[0]) by {
      if u != [] {
        NotSpaceIfWordOrBlank(u[0]);
      }
    }
    assert SkipSpaces(t) == SkipSpaces(u);
    assert SkipSpaces(u) == u;
  }

  lemma SingleSpacedTail(s: string, k: nat)
    requires SingleSpaced(s) && k <= |s|
    ensures SingleSpaced(s[k..])
  {
    assert forall i :: 0 <= i < |s| - k ==> s[k..][i] == s[k + i];
  }

  /** Normalised text is a fixed point of `normalize_text`. */
  lemma NormalizeTextFixes(s: string)
    requires IsNormalized(s)
    ensures NormalizeText(s) == s
  {
    LowerAndFoldFix(s);
    ReplaceOtherFixes(s);
    CollapseSpacesFixes(s);
    StripFixesUnpadded(s);
  }

  lemma StripFixesUnpadded(s: string)
    requires IsNormalized(s)
    ensures Strip(s) == s
  {
    if s != [] {
      NotSpaceIfWordOrBlank(s[0]);
      StripLeftFixes(s);
      NotSpaceIfWordOrBlank(s[|s| - 1]);
      StripRightFixes(s);
    }
  }

  lemma NotSpaceIfWordOrBlank(c: char)
    requires IsLowerAlnum(c) || c == ' '
    ensures c != ' ' ==> !IsSpace(c)
  {
  }

  lemma StripLeftFixes(s: string)
    requires s != [] ==> !IsSpace(s[0])
    ensures StripLeft(s) == s
  {
  }

  lemma StripRightFixes(s: string)
    requires s != [] ==> !IsSpace(s[|s| - 1])
    ensures StripRight(s) == s
  {
  }

  lemma LowerAndFoldFix(s: string)
    requires forall i :: 0 <= i < |s| ==> IsLowerAlnum(s[i]) || s[i] == ' '
    ensures Lower(s) == s && FoldQuotes(s) == s
  {
    assert forall i :: 0 <= i < |s| ==> LowerChar(s[i]) == s[i] && FoldQuoteChar(s[i]) == s[i];
  }

  /** `normalize_text` is idempotent. */
  lemma NormalizeTextIdempotent(s: string)
    ensures NormalizeText(NormalizeText(s)) == NormalizeText(s)
  {
    NormalizeTextFixes(NormalizeText(s));
  }

  /** A string-similarity ratio such as `SequenceMatcher(None, a, b).ratio()`: any function
      into [0, 1]. Its internals are not modelled. */
  ghost predicate IsRatio(ratio: (string, string) -> real)
  {
    forall x, y :: 0.0 <= ratio(x, y) <= 1.0
  }

  /** `similarity(a, b)`: the ratio of the two normalised texts. */
  function Similarity(ratio: (string, string) -> real, a: string, b: string): (r: real)
    ensures IsRatio(ratio) ==> 0.0 <= r <= 1.0
  {
    ratio(NormalizeText(a), NormalizeText(b))
  }

  /** Similarity depends on the texts only through their normal forms. */
  lemma SimilarityOfNormalized(ratio: (string, string) -> real, a: string, b: string)
    ensures Similarity(ratio, NormalizeText(a), NormalizeText(b)) == Similarity(ratio, a, b)
  {
    NormalizeTextIdempotent(a);
    NormalizeTextIdempotent(b);
  }

  /** Number of leading digits of `s`, at most `limit` (the `\d{1,4}` match length). */
  function LeadingDigits(s: string, limit: nat): (n: nat)
    ensures n <= |s| && n <= limit
    ensures forall i :: 0 <= i < n ==> IsDigit(s[i])
    ensures n < limit && n < |s| ==> !IsDigit(s[n])
  {
    if s == [] || limit == 0 || !IsDigit(s[0]) then 0 else 1 + LeadingDigits(s[1..], limit - 1)
  }

  function Pow10(n: nat): nat
  {
    if n == 0 then 1 else 10 * Pow10(n - 1)
  }

  /** `int(d)` for a string of decimal digits; leading zeros vanish. */
  function DigitsValue(d: string): (v: nat)
    requires forall i :: 0 <= i < |d| ==> IsDigit(d[i])
    ensures v < Pow10(|d|)
  {
    if d == [] then 0
    else
      var init := d[..|d| - 1];
      var digit := d[|d| - 1] as int - '0' as int;
      assert IsDigit(d[|d| - 1]);
      var prev := DigitsValue(init);
      assert prev * 10 + digit <= (Pow10(|init|) - 1) * 10 + 9;
      prev * 10 + digit
  }

  /** `extract_numbers_window`: `re.findall(r"\d{1,4}", s)` converted by `int`, scanning
      left to right and taking at most four digits at a time. */
  function NumbersWindow(s: string): (r: seq<nat>)
    ensures |r| <= |s|
    decreases |s|
  {
    if s == [] then []
    else if !IsDigit(s[0]) then NumbersWindow(s[1..])
    else
      var n := LeadingDigits(s, 4);
      [DigitsValue(s[..n])] + NumbersWindow(s[n..])
  }

  /** Every value lies in 0..9999, and the window is empty exactly when there is no digit. */
  lemma {:induction false} NumbersWindowShape(s: string)
    ensures forall k :: 0 <= k < |NumbersWindow(s)| ==> NumbersWindow(s)[k] <= 9999
    ensures NumbersWindow(s) == [] <==> forall i :: 0 <= i < |s| ==> !IsDigit(s[i])
    decreases |s|
  {
    if s != [] {
      if !IsDigit(s[0]) {
        NumbersWindowShape(s[1..]);
        assert forall i :: 1 <= i < |s| ==> s[i] == s[1..][i - 1];
      } else {
        var n := LeadingDigits(s, 4);
        NumbersWindowShape(s[n..]);
        assert Pow10(4) == 10000;
        assert Pow10(n) <= Pow10(4) by { Pow10Monotone(n, 4); }
      }
    }
  }

  lemma {:induction false} Pow10Monotone(m: nat, n: nat)
    requires m <= n
    ensures Pow10(m) <= Pow10(n)
    decreases n
  {
    if m < n {
      Pow10Monotone(m, n - 1);
    }
  }

  /** Digit runs are cut greedily into chunks of at most four: "12345" gives (1234, 5). */
  lemma NumbersWindowSplitsLongRuns()
    ensures NumbersWindow("12345") == [1234, 5]
  {
    var s := "12345";
    assert LeadingDigits(s, 4) == 4;
    assert DigitsValue(s[..4]) == 1234 by {
      assert s[..4] == "1234" && "1234"[..3] == "123" && "123"[..2] == "12" && "12"[..1] == "1";
    }
    assert s[4..] == "5";
    assert LeadingDigits("5", 4) == 1;
    assert "5"[..1] == "5" && "5"[1..] == [];
  }

  /** Leading zeros vanish: "07" gives (7,). */
  lemma NumbersWindowDropsLeadingZeros()
    ensures NumbersWindow("07") == [7]
  {
    var s := "07";
    assert LeadingDigits(s, 4) == 2;
    assert s[..2] == s && s[..1] == "0";
    assert s[2..] == [];
  }

  /** Two number windows agree unless both are non-empty and they differ. */
  predicate WindowsAgree(na: seq<nat>, nb: seq<nat>)
  {
    !(na != [] && nb != [] && na != nb)
  }

  /** Two texts are numerically consistent unless both have a window and the windows differ. */
  predicate NumericConsistent(a: string, b: string)
  {
    WindowsAgree(NumbersWindow(a), NumbersWindow(b))
  }

  /** The numeric guard of the matchers as a test on the second text. */
  function NumericGuard(a: string): string -> bool
  {
    (b: string) => NumericConsistent(a, b)
  }
}
