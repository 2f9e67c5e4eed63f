/** app/utils/links.py: market page URLs for each exchange, markdown links, and a parser
    that maps a pasted market URL back to (exchange, market id). */
module Links {
  import opened Wrappers
  import opened Seqs
  import opened Text

  predicate IsHexDigit(c: char)
  {
    ('0' <= c <= '9') || ('a' <= c <= 'f') || ('A' <= c <= 'F')
  }

  /** A Polymarket token id: longer than ten characters, all hexadecimal digits. Such an id
      holds no `/`, so it is a single URL path segment. */
  predicate IsTokenId(id: string)
    ensures IsTokenId(id) ==> forall i :: 0 <= i < |id| ==> id[i] != '/'
  {
    |id| > 10 && forall i :: 0 <= i < |id| ==> IsHexDigit(id[i])
  }

  const PolymarketEventBase := "https://polymarket.com/event/"
  const PolymarketMarketBase := "https://polymarket.com/market/"
  const KalshiMarketsBase := "https://kalshi.com/markets/"

  /** `polymarket_market_url`: token ids go under /event/, anything else under /market/;
      either way the URL ends with the id. */
  function PolymarketMarketUrl(id: string): (r: string)
    ensures |r| >= |PolymarketEventBase| + |id| && r[|r| - |id|..] == id
    ensures r[..|PolymarketEventBase|] == PolymarketEventBase <==> IsTokenId(id)
  {
    if IsTokenId(id) then PolymarketEventBase + id
    else
      var r := PolymarketMarketBase + id;
      assert r[23] != PolymarketEventBase[23];
      r
  }

  /** `pat` occurs in `s` at position `i`. */
  predicate OccursAt(s: string, pat: string, i: nat)
  {
    i + |pat| <= |s| && s[i..i + |pat|] == pat
  }

  /** `s.replace(pat, "")`: occurrences removed left to right, without overlap. */
  function RemoveAll(s: string, pat: string): (r: string)
    requires pat != []
    ensures |r| <= |s|
    decreases |s|
  {
    if |s| < |pat| then s
    else if s[..|pat|] == pat then RemoveAll(s[|pat|..], pat)
    else [s[0]] + RemoveAll(s[1..], pat)
  }

  /** Where `pat` does not occur, removal changes nothing. */
  lemma {:induction false} RemoveAllAbsent(s: string, pat: string)
    requires pat != []
    requires forall i: nat :: !OccursAt(s, pat, i)
    ensures RemoveAll(s, pat) == s
    decreases |s|
  {
    if |s| >= |pat| {
      assert !OccursAt(s, pat, 0);
      forall i: nat
        ensures !OccursAt(s[1..], pat, i)
      {
        assert !OccursAt(s, pat, i + 1);
        if i + |pat| <= |s[1..]| {
          assert s[1..][i..i + |pat|] == s[i + 1..i + 1 + |pat|];
        }
      }
      RemoveAllAbsent(s[1..], pat);
    }
  }

  /** Removal never adds `pat` at the front of a string that already lacks it there, and a
      leading occurrence is dropped. */
  lemma RemoveAllLeading(pat: string, rest: string)
    requires pat != []
    ensures RemoveAll(pat + rest, pat) == RemoveAll(rest, pat)
  {
    assert (pat + rest)[..|pat|] == pat;
    assert (pat + rest)[|pat|..] == rest;
  }

  /** The ticker part of a Kalshi id: every "kalshi-" removed, then every "KALSHI-". */
  function KalshiCleanId(id: string): (r: string)
    ensures |r| <= |id|
  {
    RemoveAll(RemoveAll(id, "kalshi-"), "KALSHI-")
  }

  /** `kalshi_market_url`: the cleaned id under the markets base, no longer than the id. */
  function KalshiMarketUrl(id: string): (r: string)
    ensures |KalshiMarketsBase| <= |r| <= |KalshiMarketsBase| + |id|
    ensures r[..|KalshiMarketsBase|] == KalshiMarketsBase
  {
    KalshiMarketsBase + KalshiCleanId(id)
  }

  /** A "kalshi-" prefix is dropped. */
  lemma KalshiCleanIdDropsPrefix(ticker: string)
    requires forall i: nat :: !OccursAt(ticker, "kalshi-", i) && !OccursAt(ticker, "KALSHI-", i)
    ensures KalshiCleanId("kalshi-" + ticker) == ticker
  {
    RemoveAllLeading("kalshi-", ticker);
    RemoveAllAbsent(ticker, "kalshi-");
    RemoveAllAbsent(ticker, "KALSHI-");
  }

  /** `create_market_link`: a markdown link. */
  function CreateMarketLink(text: string, url: string): (r: string)
    ensures |r| == |text| + |url| + 4
    ensures r[0] == '[' && r[|text| + 1..|text| + 3] == "](" && r[|r| - 1] == ')'
    ensures r[1..|text| + 1] == text && r[|text| + 3..|r| - 1] == url
  {
    "[" + text + "](" + url + ")"
  }

  /** The display text of `get_event_link`: names over 60 characters are cut to 57 plus "...". */
  function DisplayText(event: string): (r: string)
    ensures |r| <= 60
    ensures |event| <= 60 ==> r == event
    ensures |event| > 60 ==> r == event[..57] + "..."
  {
    if |event| <= 60 then event else event[..57] + "..."
  }

  /** `get_event_link`. */
  function GetEventLink(event: string, exchange: string, id: string): (r: string)
    ensures id == "" || id == "None" ==> r == event
    ensures (id != "" && id != "None" && Lower(exchange) == "polymarket") ==>
      r == CreateMarketLink(DisplayText(event), PolymarketMarketUrl(id))
    ensures (id != "" && id != "None" && Lower(exchange) == "kalshi") ==>
      r == CreateMarketLink(DisplayText(event), KalshiMarketUrl(id))
    ensures Lower(exchange) != "polymarket" && Lower(exchange) != "kalshi" ==> r == event
  {
    if id == "" || id == "None" then event
    else
      var url :=
        if Lower(exchange) == "polymarket" then Some(PolymarketMarketUrl(id))
        else if Lower(exchange) == "kalshi" then Some(KalshiMarketUrl(id))
        else None;
      if url.None? then event else CreateMarketLink(DisplayText(event), url.value)
  }

  // ---------------------------------------------------------------------------------------
  // URL parsing

  /** The first position of a character of `cs`, or |s| when there is none. */
  function IndexOfAny(s: string, cs: set<char>): (r: nat)
    ensures r <= |s|
    ensures forall j :: 0 <= j < r ==> s[j] !in cs
    ensures r < |s| ==> s[r] in cs
  {
    if s == [] then 0
    else if s[0] in cs then 0
    else 1 + IndexOfAny(s[1..], cs)
  }

  /** `str.split(c)`: the pieces between occurrences of `c`, empty pieces included. */
  function Split(s: string, c: char): (r: seq<string>)
    ensures r != []
    ensures forall k :: 0 <= k < |r| ==> c !in r[k]
    decreases |s|
  {
    var i := IndexOfAny(s, {c});
    if i == |s| then [s] else [s[..i]] + Split(s[i + 1..], c)
  }

  lemma SplitWithout(s: string, c: char)
    requires c !in s
    ensures Split(s, c) == [s]
  {
    assert IndexOfAny(s, {c}) == |s|;
  }

  lemma SplitAfter(a: string, c: char, b: string)
    requires c !in a
    ensures Split(a + [c] + b, c) == [a] + Split(b, c)
  {
    var s := a + [c] + b;
    assert s[|a|] == c;
    assert forall j :: 0 <= j < |a| ==> s[j] == a[j];
    assert IndexOfAny(s, {c}) == |a|;
    assert s[..|a|] == a && s[|a| + 1..] == b;
  }

  predicate NonEmpty(p: string) { p != "" }

  /** The non-empty pieces of a path split on '/'. */
  function PathParts(path: string): (r: seq<string>)
    ensures forall k :: 0 <= k < |r| ==> r[k] != "" && '/' !in r[k]
  {
    var pieces := Split(path, '/');
    FilterAllSatisfy(pieces, NonEmpty);
    FilterMembershipAll(pieces);
    Filter(pieces, NonEmpty)
  }

  lemma FilterMembershipAll(pieces: seq<string>)
    ensures forall k :: 0 <= k < |Filter(pieces, NonEmpty)| ==> Filter(pieces, NonEmpty)[k] in pieces
  {
    forall k | 0 <= k < |Filter(pieces, NonEmpty)|
      ensures Filter(pieces, NonEmpty)[k] in pieces
    {
      FilterMembership(pieces, NonEmpty, Filter(pieces, NonEmpty)[k]);
    }
  }

  predicate IsSchemeChar(c: char)
  {
    ('a' <= c <= 'z') || ('A' <= c <= 'Z') || ('0' <= c <= '9') || c == '+' || c == '-' || c == '.'
  }

  /** The length of the scheme `urlparse` recognises: the text before the first ':' when it
      is non-empty, starts with a letter and holds only scheme characters. */
  function SchemeLength(url: string): (r: Option<nat>)
    ensures r.Some? ==> 0 < r.value < |url| && url[r.value] == ':'
  {
    var i := IndexOfAny(url, {':'});
    if 0 < i < |url| && (('a' <= url[0] <= 'z') || ('A' <= url[0] <= 'Z'))
       && forall j :: 0 <= j < i ==> IsSchemeChar(url[j])
    then Some(i) else None
  }

  /** What follows the scheme and its ':' (the whole URL when there is no scheme). */
  function AfterScheme(url: string): (r: string)
    ensures |r| <= |url| && r == url[|url| - |r|..]
  {
    match SchemeLength(url)
    case Some(i) => url[i + 1..]
    case None => url
  }

  /** A leading "//" introduces a netloc running to the first '/', '?' or '#'. */
  function SplitNetloc(rest: string): (r: (string, string))
    ensures r.0 + r.1 == rest || "//" + r.0 + r.1 == rest
    ensures '/' !in r.0 && '?' !in r.0 && '#' !in r.0
  {
    if |rest| >= 2 && rest[..2] == "//" then
      var k := 2 + IndexOfAny(rest[2..], {'/', '?', '#'});
      assert rest == "//" + rest[2..k] + rest[k..];
      (rest[2..k], rest[k..])
    else ("", rest)
  }

  /** The path: the text before the first '?' or '#'. */
  function PathOf(tail: string): (r: string)
    ensures |r| <= |tail| && r == tail[..|r|] && '?' !in r && '#' !in r
  {
    tail[..IndexOfAny(tail, {'?', '#'})]
  }

  /** The network location and path `urlparse` finds. */
  function SplitUrl(url: string): (r: (string, string))
    ensures '/' !in r.0 && '?' !in r.0 && '#' !in r.0
    ensures '?' !in r.1 && '#' !in r.1
  {
    var (netloc, tail) := SplitNetloc(AfterScheme(url));
    (netloc, PathOf(tail))
  }

  /** `t` occurs somewhere in `s` (Python's `t in s`). */
  predicate Contains(s: string, t: string)
  {
    exists i: nat | i <= |s| :: OccursAt(s, t, i)
  }

  /** The decision of `parse_market_url` once the URL is split: a host naming Polymarket is
      tried first, then one naming Kalshi; an explicit prefix segment selects the second
      segment, otherwise the last segment is taken. */
  function ParseParts(host: string, parts: seq<string>): (r: Option<(string, string)>)
    ensures r.Some? ==> r.value.0 == "polymarket" || r.value.0 == "kalshi"
    ensures r.Some? ==> r.value.1 in parts
    ensures r.None? <==> parts == [] || (!Contains(host, "polymarket") && !Contains(host, "kalshi"))
    ensures r.Some? && r.value.0 == "kalshi" ==> !Contains(host, "polymarket")
  {
    if Contains(host, "polymarket") && parts != [] then
      if |parts| >= 2 && parts[0] in {"event", "market"} then Some(("polymarket", parts[1]))
      else Some(("polymarket", parts[|parts| - 1]))
    else if Contains(host, "kalshi") && parts != [] then
      if |parts| >= 2 && parts[0] in {"markets", "market"} then Some(("kalshi", parts[1]))
      else Some(("kalshi", parts[|parts| - 1]))
    else None
  }

  /** `parse_market_url`: the id is a non-empty path segment of the URL. */
  function ParseMarketUrl(url: string): (r: Option<(string, string)>)
    ensures r.Some? ==> r.value.1 != "" && '/' !in r.value.1
    ensures r.Some? ==> r.value.1 in PathParts(SplitUrl(url).1)
    ensures r.None? <==> ParseParts(Lower(SplitUrl(url).0), PathParts(SplitUrl(url).1)).None?
  {
    var sp := SplitUrl(url);
    ParseParts(Lower(sp.0), PathParts(sp.1))
  }

  // ---------------------------------------------------------------------------------------
  // Round trips: the parser recovers the id from the URLs this module generates

  /** None of the URL delimiters '/', '?' and '#'. */
  predicate PlainSegment(x: string)
  {
    '/' !in x && '?' !in x && '#' !in x
  }

  /** An https URL whose path has two segments. */
  function HttpsUrl(host: string, a: string, b: string): string
  {
    HttpsPrefix(host, a) + b
  }

  function HttpsPrefix(host: string, a: string): string
  {
    "https://" + host + "/" + a + "/"
  }

  lemma PolymarketBasesAreHttpsPrefixes()
    ensures PolymarketEventBase == HttpsPrefix("polymarket.com", "event")
    ensures PolymarketMarketBase == HttpsPrefix("polymarket.com", "market")
  {
  }

  lemma KalshiBaseIsHttpsPrefix()
    ensures KalshiMarketsBase == HttpsPrefix("kalshi.com", "markets")
  {
  }

  lemma {:induction false} IndexOfAnyAfter(a: string, b: string, cs: set<char>)
    requires forall j :: 0 <= j < |a| ==> a[j] !in cs
    ensures IndexOfAny(a + b, cs) == |a| + IndexOfAny(b, cs)
    decreases |a|
  {
    if a == [] {
      assert a + b == b;
    } else {
      assert (a + b)[0] == a[0] && a[0] !in cs;
      assert (a + b)[1..] == a[1..] + b;
      assert forall j :: 0 <= j < |a[1..]| ==> a[1..][j] == a[j + 1];
      assert IndexOfAny(a + b, cs) == 1 + IndexOfAny((a + b)[1..], cs);
      IndexOfAnyAfter(a[1..], b, cs);
    }
  }

  lemma HttpsScheme(rest: string)
    ensures AfterScheme("https:" + rest) == rest
  {
    var url := "https:" + rest;
    var afterScheme := ":" + rest;
    assert url == "https" + afterScheme;
    assert afterScheme[0] == ':' && IndexOfAny(afterScheme, {':'}) == 0;
    IndexOfAnyAfter("https", afterScheme, {':'});
    assert url[..5] == "https";
    assert forall j :: 0 <= j < 5 ==> IsSchemeChar(url[j]);
    assert SchemeLength(url) == Some(5);
    assert url[6..] == rest;
  }

  lemma NetlocThenPath(host: string, tail: string)
    requires PlainSegment(host) && tail != [] && tail[0] == '/'
    ensures SplitNetloc("//" + host + tail) == (host, tail)
  {
    var rest := "//" + host + tail;
    assert rest[..2] == "//";
    assert rest[2..] == host + tail;
    IndexOfAnyAfter(host, tail, {'/', '?', '#'});
    assert IndexOfAny(tail, {'/', '?', '#'}) == 0;
    assert rest[2..2 + |host|] == host && rest[2 + |host|..] == tail;
  }

  lemma PathOfPlain(tail: string)
    requires '?' !in tail && '#' !in tail
    ensures PathOf(tail) == tail
  {
    assert IndexOfAny(tail, {'?', '#'}) == |tail|;
  }

  lemma SplitHttpsUrl(host: string, a: string, b: string)
    requires PlainSegment(host) && PlainSegment(a) && PlainSegment(b)
    ensures SplitUrl(HttpsUrl(host, a, b)) == (host, "/" + a + "/" + b)
  {
    var tail := "/" + a + "/" + b;
    var rest := "//" + host + tail;
    HttpsUrlShape(host, a, b);
    HttpsScheme(rest);
    NetlocThenPath(host, tail);
    PlainTail(a, b);
    PathOfPlain(tail);
  }

  lemma HttpsUrlShape(host: string, a: string, b: string)
    ensures HttpsUrl(host, a, b) == "https:" + ("//" + host + ("/" + a + "/" + b))
  {
  }

  lemma PlainTail(a: string, b: string)
    requires PlainSegment(a) && PlainSegment(b)
    ensures '?' !in "/" + a + "/" + b && '#' !in "/" + a + "/" + b
  {
  }

  lemma PathPartsTwo(a: string, b: string)
    requires a != "" && b != "" && '/' !in a && '/' !in b
    ensures PathParts("/" + a + "/" + b) == [a, b]
  {
    SplitAfter("", '/', a + "/" + b);
    assert "" + ['/'] + (a + "/" + b) == "/" + a + "/" + b;
    SplitAfter(a, '/', b);
    assert a + ['/'] + b == a + "/" + b;
    SplitWithout(b, '/');
    var pieces := ["", a, b];
    assert Split("/" + a + "/" + b, '/') == pieces;
    assert pieces[..2] == ["", a] && ["", a][..1] == [""] && [""][..0] == [];
    assert Filter([""], NonEmpty) == [];
    assert Filter(["", a], NonEmpty) == [a];
    assert Filter(pieces, NonEmpty) == [a, b];
  }

  lemma LowerOfLower(s: string)
    requires forall j :: 0 <= j < |s| ==> !('A' <= s[j] <= 'Z')
    ensures Lower(s) == s
  {
  }

  lemma PolymarketHost()
    ensures Lower("polymarket.com") == "polymarket.com"
    ensures Contains("polymarket.com", "polymarket")
  {
    LowerOfLower("polymarket.com");
    assert OccursAt("polymarket.com", "polymarket", 0);
  }

  lemma KalshiHost()
    ensures Lower("kalshi.com") == "kalshi.com"
    ensures Contains("kalshi.com", "kalshi")
    ensures !Contains("kalshi.com", "polymarket")
  {
    LowerOfLower("kalshi.com");
    assert OccursAt("kalshi.com", "kalshi", 0);
    assert "kalshi.com"[0..10][0] == 'k';
    assert !OccursAt("kalshi.com", "polymarket", 0);
  }

  /** A URL whose path has two segments is decided on its host and those segments. */
  lemma ParseTwoSegments(url: string, host: string, a: string, b: string)
    requires a != "" && b != "" && '/' !in a && '/' !in b
    requires SplitUrl(url) == (host, "/" + a + "/" + b)
    ensures ParseMarketUrl(url) == ParseParts(Lower(host), [a, b])
  {
    PathPartsTwo(a, b);
  }

  lemma ParsePartsPolymarket(host: string, seg: string, id: string)
    requires Contains(host, "polymarket")
    requires seg == "event" || seg == "market"
    ensures ParseParts(host, [seg, id]) == Some(("polymarket", id))
  {
  }

  lemma ParsePartsKalshi(host: string, t: string)
    requires Contains(host, "kalshi") && !Contains(host, "polymarket")
    ensures ParseParts(host, ["markets", t]) == Some(("kalshi", t))
  {
  }

  lemma SegmentNames()
    ensures PlainSegment("event") && PlainSegment("market") && PlainSegment("markets")
    ensures PlainSegment("polymarket.com") && PlainSegment("kalshi.com")
  {
  }

  /** The id of a generated Polymarket URL is recovered, whichever of /event/ and /market/
      it went under, when it holds no URL delimiter. */
  lemma ParsePolymarketUrlRoundTrip(id: string)
    requires id != "" && PlainSegment(id)
    ensures ParseMarketUrl(PolymarketMarketUrl(id)) == Some(("polymarket", id))
  {
    var seg := if IsTokenId(id) then "event" else "market";
    var host := "polymarket.com";
    var url := PolymarketMarketUrl(id);
    SegmentNames();
    assert SplitUrl(url) == (host, "/" + seg + "/" + id) by {
      PolymarketBasesAreHttpsPrefixes();
      assert url == HttpsUrl(host, seg, id);
      SplitHttpsUrl(host, seg, id);
    }
    ParseTwoSegments(url, host, seg, id);
    PolymarketHost();
    ParsePartsPolymarket(host, seg, id);
  }

  /** The cleaned ticker of a generated Kalshi URL is recovered when it is non-empty and holds
      no URL delimiter. */
  lemma ParseKalshiUrlRoundTrip(id: string)
    requires KalshiCleanId(id) != "" && PlainSegment(KalshiCleanId(id))
    ensures ParseMarketUrl(KalshiMarketUrl(id)) == Some(("kalshi", KalshiCleanId(id)))
  {
    var t := KalshiCleanId(id);
    var host := "kalshi.com";
    var seg := "markets";
    var url := KalshiMarketUrl(id);
    SegmentNames();
    assert SplitUrl(url) == (host, "/" + seg + "/" + t) by {
      KalshiBaseIsHttpsPrefix();
      assert url == HttpsUrl(host, seg, t);
      SplitHttpsUrl(host, seg, t);
    }
    ParseTwoSegments(url, host, seg, t);
    KalshiHost();
    ParsePartsKalshi(host, t);
  }

  /** Hosts naming neither exchange are rejected, whatever the path. */
  lemma ParseRejectsOtherHosts(url: string)
    requires !Contains(Lower(SplitUrl(url).0), "polymarket") && !Contains(Lower(SplitUrl(url).0), "kalshi")
    ensures ParseMarketUrl(url) == None
  {
  }

  /** Without a recognised prefix segment the last path segment is taken as the id. */
  lemma ParsePartsFallsBackToLastSegment(host: string, parts: seq<string>)
    requires parts != []
    requires !(|parts| >= 2 && parts[0] in {"event", "market", "markets"})
    requires Contains(host, "polymarket") || Contains(host, "kalshi")
    ensures ParseParts(host, parts).Some?
    ensures ParseParts(host, parts).value.1 == parts[|parts| - 1]
    ensures ParseParts(host, parts).value.0 == (if Contains(host, "polymarket") then "polymarket" else "kalshi")
  {
  }
}
