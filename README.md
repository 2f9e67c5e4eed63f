# Polymarket–Kalshi arbitrage core, modelled in Dafny

This project models the decision-making core of a scanner for cross-exchange arbitrage
between two prediction-market venues, Kalshi and Polymarket. Each venue publishes
`MarketQuote`s: the price and size of a YES or NO contract on a free-text event. The
core:

- normalises event titles and pulls numeric windows out of them;
- matches Kalshi events to Polymarket events in three ways: exact keys, fuzzy string
  similarity with explicit aliases, and cosine of embeddings or TF-IDF vectors, each
  behind a numeric guard and an entity guard;
- prices two kinds of opportunity, net of taker fee and slippage:
  - cross-exchange: long YES on one venue, short NO on the other;
  - two-buy: buy YES and NO on different venues for less than a dollar;
- sizes orders against order-book depth and filters quotes by liquidity, resolution
  date and validity;
- builds market links and parses them back;
- records paper fills for the opportunities found.

The model has one Dafny module per source file, plus four shared modules:

- `Wrappers`: `Option` and `Result`;
- `Models`: the dataclasses, the default settings, and `OrderLevel`, which the source imports but never defines (see below);
- `Seqs`: filter, subsequence and de-duplication helpers;
- `Selection`: the two selection loops the matchers share.
  - "Keep the first candidate whose score strictly beats the best so far". The
    specification is `FirstBest` and `IsFirstBest`.
  - "Keep the k highest-scoring candidates".

Code written as loops over mutable locals is modelled as methods with loop invariants.
Each method is proved equal to a specification function. The properties are proved about
those functions as lemmas.

Python's set and dict-key iteration order is unspecified. Wherever the source iterates a
set, the model chooses an arbitrary enumeration and returns it as a ghost `order`; the
results are stated for every such order.

The external scorers are parameters of the model, with only the properties the code
relies on assumed of them:

- `difflib` similarity ratio;
- embedding cosine;
- TF-IDF cosine;
- entity-token extraction;
- the "Year in Search" subject extractor;
- square root.

Dates are whole seconds since the epoch, and "now" is a parameter.

Where the system's design notes and its code differ, the model follows the code:

- When no token overlaps, the embedding preselection falls back to **all** Kalshi events
  (`app/core/embedding_matcher.py:92-94`), not to a capped slice.
- `detect_two_buy_arbs` keys events **verbatim**, while `detect_arbs` keys them
  lower-cased and stripped. The same events can therefore match in one detector and not
  the other: see `Arb.KeyingDiffersBetweenDetectors`.
- The string matcher's default threshold is 0.72 (`app/core/matching.py:11`). The
  matcher-backed detector passes its own 0.78 (`app/core/arb.py:151`).
- `detect_arbs` raises instead of evaluating both directions when, in iteration order, an
  event offering the second direction is reached before any event (itself included)
  offering the first. A first event with neither direction, followed by a second-direction
  event, also raises. This is listed under Findings.
- `order_depth` is read by `app/utils/slippage_protection.py:96` and `:114` but is not declared
  on `MarketQuote` in `app/core/models.py:16-24`. The model gives `MarketQuote` an
  optional `orderDepth`.
- `app/utils/slippage_protection.py:9` imports `OrderLevel` from `app.core.models`, which
  defines only `MarketQuote`, `CrossExchangeArb`, `MatchCandidate` and `TwoBuyArb`
  (`app/core/models.py:17`, `:28`, `:38`, `:46`). As written, the module fails on import.
  The model's `Models.OrderLevel(price, size)` is inferred from its uses: the constructor
  calls in the docstring (`app/utils/slippage_protection.py:24-26`) and the `.price` and
  `.size` reads (`:44`, `:47`, `:74`, `:79`).
- `app/core/embedding_matcher.py:8` imports `extract_entity_tokens` and
  `extract_yis_actor_subject` from `app.utils.text`, which defines only `normalize_text`,
  `similarity` and `extract_numbers_window` (`app/utils/text.py:7`, `:17`, `:23`). As
  written, the module fails on import. The model takes both extractors as parameters.

## Model

| member | source | states |
|---|---|---|
| Text.Lower | app/utils/text.py:9 | lower-casing keeps the length and leaves no upper-case ASCII letter |
| Text.Upper | app/utils/validation.py:131 | upper-casing keeps the length and leaves no lower-case ASCII letter |
| Text.Strip | app/utils/text.py:13 | the result is no longer than the input and neither begins nor ends with whitespace |
| Text.StripLeftDropsSpaces | app/utils/text.py:13 | everything the left strip drops is whitespace |
| Text.StripRightDropsSpaces | app/utils/text.py:13 | everything the right strip drops is whitespace |
| Text.StripIsSlice | app/utils/text.py:13 | the stripped string is a contiguous slice of the input, everything before and after that slice is whitespace, and it is empty exactly when the input is all whitespace |
| Text.EventKey | app/core/arb.py:32-33 | a definition, with no contract of its own: EventKeyShape and EventKeyEmptyIffBlank state what it yields |
| Text.EventKeyShape | app/core/arb.py:32-33 | the event key (`lower().strip()`) has no upper-case letter and no whitespace at either end |
| Text.EventKeyEmptyIffBlank | app/core/arb.py:32-33 | the event key is empty exactly when the event is all whitespace |
| Text.ReplaceOtherLeavesWordsAndSpaces | app/utils/text.py:12 | after replacing every run of characters that are not letters, digits or spaces, only lower-case letters, digits and whitespace remain |
| Text.CollapseSpacesShape | app/utils/text.py:13 | collapsing whitespace runs leaves no two adjacent blanks and no other whitespace; the result is empty exactly when the input is, and it starts with a blank exactly when the input starts with whitespace |
| Text.StripSingleSpaced | app/utils/text.py:13 | stripping a single-spaced string yields a normalised string: words separated by single blanks, none at either end |
| Text.NormalizeText | app/utils/text.py:7-14 | `normalize_text` always produces a normalised string: only a-z, 0-9 and single inner spaces |
| Text.ReplaceOtherFixes | app/utils/text.py:12 | the replacement step leaves a string of letters, digits and whitespace unchanged |
| Text.CollapseSpacesFixes | app/utils/text.py:13 | collapsing leaves a single-spaced string that does not start with a blank unchanged |
| Text.NormalizeTextFixes | app/utils/text.py:7-14 | a normalised string is a fixed point of `normalize_text` |
| Text.NormalizeTextIdempotent | app/utils/text.py:7-14 | normalising twice equals normalising once |
| Text.Similarity | app/utils/text.py:17-20 | for any ratio function bounded in [0, 1], the similarity lies in [0, 1] |
| Text.SimilarityOfNormalized | app/utils/text.py:17-20 | normalising the inputs first does not change the similarity |
| Text.LeadingDigits | app/utils/text.py:24 | the length of the leading digit run, capped at the limit: every counted character is a digit, and the run stops at a non-digit unless the cap or the end is reached |
| Text.DigitsValue | app/utils/text.py:24 | the integer value of a digit string of length n is below 10^n |
| Text.NumbersWindow | app/utils/text.py:23-24 | the window has at most one number per character of the text |
| Text.NumbersWindowShape | app/utils/text.py:23-24 | every extracted number is at most 9999, and the tuple is empty exactly when the text has no digit |
| Text.NumbersWindowSplitsLongRuns | app/utils/text.py:24 | a five-digit run `12345` yields `(1234, 5)` |
| Text.NumbersWindowDropsLeadingZeros | app/utils/text.py:24 | `07` yields `(7,)` |
| Selection.FirstBestIsUnique | app/core/matching.py:38-40 | at most one position is the first eligible maximum picked by a strict `>` scan |
| Selection.MaxExists | app/core/embedding_matcher.py:104 | every non-empty finite set has an element of greatest score |
| Selection.TopByScore | app/core/embedding_matcher.py:100-118 | the result is min(k, size) distinct members of the set in non-increasing score order, and no member left out scores above any member kept |
| Selection.TopKCoversSmallSet | app/core/embedding_matcher.py:114-115 | when the set has at most k members, every top-k list holds all of them |
| Selection.FirstBest | app/core/matching.py:26-41 | the chosen index, if any, is within the candidate list |
| Selection.FirstBestSpec | app/core/matching.py:26-41 | there is no pick exactly when no candidate passes the guard; otherwise the pick is eligible, scores at least as high as every eligible candidate, and strictly higher than every eligible candidate before it |
| Selection.ScanFirstBest | app/core/matching.py:28-40 | for non-negative scores, a scan starting from best = -1 picks exactly the first best candidate and returns its score, or -1 when no candidate is eligible |
| Selection.AcceptedBest | app/core/matching.py:41 | an accepted pick is the first best, a non-empty event, eligible, at or above the threshold, and one of the candidates |
| Selection.FirstBestPrefersEarlierMaximum | app/core/matching.py:38-40 | when the top score is reached at position i, the first best lies at or before i and also reaches the top score |
| Selection.ScanFromMinusInfinity | app/utils/ml_match.py:45-56 | a scan starting from best = -inf returns exactly the first best index, with that candidate's score |
| Selection.ChoiceFor | app/utils/ml_match.py:45-58 | a choice is an eligible target whose reported score is its own score, at or above the floor, and the first best; no choice means that nothing was eligible or that the first best falls below the floor |
| Selection.BestMapSpec | app/utils/ml_match.py:44-58 | a source is mapped exactly when it is listed and has a choice, and it is mapped to that choice |
| Selection.BestKeysSpec | app/utils/ml_match.py:44-58 | over a duplicate-free source list, the mapped sources in list order are listed once each, keep the list's order, and are exactly the map's keys |
| Selection.ScanBestTargets | app/utils/ml_match.py:43-59 | the nested loop builds exactly the best-target map, and its keys in insertion order are the sources that have a choice, in list order |
| Arb.ComputeEdgeBps | app/core/arb.py:18-21 | the edge is (short - long) x 10000 basis points, and zero at equal prices |
| Arb.IndexByEvent | app/core/arb.py:35-38 | the index built by `by_event[key(q.event)][q.outcome] = q`; its meaning is stated by the four lemmas below |
| Arb.IndexByEventKeys | app/core/arb.py:35-38 | an event key is in the index exactly when some quote's event maps to it |
| Arb.IndexByEventEntries | app/core/arb.py:35-38 | the (key, outcome) slot is filled exactly when some quote has that key and outcome |
| Arb.IndexByEventLatest | app/core/arb.py:35-38 | a filled slot holds the last quote in input order with that key and outcome |
| Arb.IndexByEventSound | app/core/arb.py:35-38 | an indexed quote is an input quote with the slot's outcome whose event maps to the slot's key |
| Arb.IndexQuotes | app/core/arb.py:35-38 | the indexing loop builds the index specification |
| Arb.Min3 | app/core/arb.py:49 | the result is the minimum of three values and is one of them |
| Arb.LegNotional | app/core/arb.py:49 | max_notional is the least of long size x price, short size x (1 - price) and the per-leg cap |
| Arb.TotalBps | app/core/arb.py:46 | the taker fee plus the slippage buffer, in basis points (a definition, with no contract of its own) |
| Arb.NetEdgeBps | app/core/arb.py:47 | the edge net of the fee and slippage buffer (a definition, with no contract of its own) |
| Arb.FirstDirection | app/core/arb.py:44 | Kalshi has a YES quote and Polymarket a NO quote for the event (a definition, with no contract of its own) |
| Arb.SecondDirection | app/core/arb.py:62 | Polymarket has a YES quote and Kalshi a NO quote for the event (a definition, with no contract of its own) |
| Arb.DirectionArb | app/core/arb.py:44-61 | an opportunity is emitted exactly when the net edge is positive and gross profit reaches the minimum, and it carries that edge, the notional and the profit |
| Arb.DetectArbs | app/core/arb.py:24-79 | corrected `detect_arbs`: for some enumeration of the common event keys, the result is the concatenation of both directions for each key; every returned opportunity is sound, and both legs' events normalise to its key |
| Arb.ScanCommon | app/core/arb.py:40-79 | the loop over the common keys produces the per-event opportunities in enumeration order |
| Arb.SoundCrossArbBounds | app/core/arb.py:46-51 | every emitted opportunity has a positive net edge, a profit of at least the minimum, and a notional within the per-leg cap and both legs' dollar depth |
| Arb.EventArbsSound | app/core/arb.py:44-77 | every opportunity for an event is sound, buys input quotes under that key, and carries the key |
| Arb.DetectArbsSound | app/core/arb.py:41-79 | every opportunity produced over any enumeration is sound, and its key is a common key of both legs' events |
| Arb.EventArbsShape | app/core/arb.py:44-77 | an event yields at most two opportunities, all under its key |
| Arb.AtMostTwoPerEvent | app/core/arb.py:41-77 | over a duplicate-free enumeration, each key has at most two opportunities, and none if it is not enumerated |
| Arb.DetectArbsAsWritten | app/core/arb.py:24-79 | `detect_arbs` as written, with `total_bps` bound only inside the first direction: for some enumeration, the result is that of the as-written run, an error when the variable is read unbound; a successful result contains only sound opportunities |
| Arb.ScanCommonAsWritten | app/core/arb.py:40-79 | the as-written loop matches the as-written run over its enumeration |
| Arb.RunAsWrittenErrSticks | app/core/arb.py:46-63 | once the as-written run has raised, later events do not change the outcome |
| Arb.AsWrittenAgreesUnlessUnbound | app/core/arb.py:41-77 | the as-written run raises exactly when some event has the second direction and no event so far (itself included) had the first; otherwise it equals the corrected result |
| Arb.DetectArbsWorkedExample | app/core/arb.py:44-61 | Kalshi YES 0.40 and Polymarket NO 0.55, both of size 100, under default settings yield one opportunity: edge 1470 bps, profit 5.88, notional 40 |
| Arb.DetectArbsNoEdgeExample | app/core/arb.py:44-48 | Kalshi YES 0.60 and Polymarket NO 0.35 yield nothing |
| Arb.UnboundTotalBpsCounterexample | app/core/arb.py:44-77 | Kalshi NO 0.55 and Polymarket YES 0.40 make the as-written run raise, while the corrected detector finds the 1470 bps opportunity |
| Arb.Min4 | app/core/arb.py:109 | the result is the minimum of four values and is one of them |
| Arb.TwoBuyDirection | app/core/arb.py:101-121 | a two-buy is emitted exactly when the fee-adjusted edge is positive; contracts are the least of both sizes and both dollar caps, with prices floored at 1e-9, and profit is edge x contracts |
| Arb.DetectTwoBuyArbs | app/core/arb.py:82-145 | for some enumeration of the verbatim common events, the result is both cases per event, kept when profit reaches the minimum; every returned two-buy is sound |
| Arb.ScanTwoBuys | app/core/arb.py:97-141 | the loop yields the per-event two-buys in enumeration order |
| Arb.EventTwoBuysSound | app/core/arb.py:101-144 | every kept two-buy for an event buys input YES and NO quotes of that event, has a positive edge and reaches the minimum profit |
| Arb.DetectTwoBuyArbsSound | app/core/arb.py:97-144 | every kept two-buy over any enumeration is sound and keyed by an enumerated event |
| Arb.NoTwoBuyAtOrAboveParity | app/core/arb.py:104-105 | with non-negative fees, no two-buy exists when YES + NO costs at least a dollar |
| Arb.KeyingDiffersBetweenDetectors | app/core/arb.py:30-92 | "Fed" and "fed" share a key in `detect_arbs` but not in `detect_two_buy_arbs` |
| ArbMatcher.Put | app/core/arb.py:189-213 | an insertion-ordered dict write updates the value and appends the key only when it is new |
| ArbMatcher.ExplicitMapping | app/core/arb.py:189-193 | the explicit mapping is a valid insertion-ordered dict: its key list is duplicate-free and lists exactly its keys |
| ArbMatcher.FuzzyMapping | app/core/arb.py:196-213 | the fuzzy pass keeps the mapping a valid insertion-ordered dict |
| ArbMatcher.MappedArbs | app/core/arb.py:218-266 | the pricing pass yields at most two opportunities per mapped key |
| ArbMatcher.PairArbs | app/core/arb.py:220-266 | one mapped pair yields at most two opportunities |
| ArbMatcher.ExplicitMappingKeys | app/core/arb.py:191-193 | the explicit mapping has a key exactly when some alias source normalises to it |
| ArbMatcher.ExplicitMappingLast | app/core/arb.py:191-193 | a mapped key holds the normalised target of the last alias with that source |
| ArbMatcher.DetectArbsWithMatcher | app/core/arb.py:148-268 | for some enumeration of each venue's events, the result prices the explicit-then-fuzzy mapping in insertion order; every returned opportunity is sound and labelled "long event <-> short event" |
| ArbMatcher.CollectEvents | app/core/arb.py:168-175 | the loop collects the set of event titles |
| ArbMatcher.BuildExplicit | app/core/arb.py:189-193 | the loop builds the explicit mapping |
| ArbMatcher.FuzzyPass | app/core/arb.py:196-213 | for non-negative scores, the fuzzy loop builds the fuzzy-mapping specification on top of the explicit one |
| ArbMatcher.PriceMapping | app/core/arb.py:218-266 | the pricing loop yields the opportunities of every mapped pair, in key order |
| ArbMatcher.FuzzyMappingKeepsStart | app/core/arb.py:197-198 | the fuzzy pass never overrides an existing mapping |
| ArbMatcher.FuzzyMappingAdded | app/core/arb.py:196-213 | a key added by the fuzzy pass comes from a Kalshi event whose first best eligible Polymarket event is non-empty, passes the numeric guard and reaches the threshold |
| ArbMatcher.PairArbsSound | app/core/arb.py:220-266 | a mapped pair yields at most two opportunities, each sound and labelled "long event <-> short event", going long YES on one venue and short NO on the other |
| ArbMatcher.MappedArbsSound | app/core/arb.py:218-266 | every opportunity is sound, goes long YES and short NO, and its legs are an input quote of each venue whose events are paired in the mapping |
| Matching.LowerKeysSpec | app/core/matching.py:12 | the alias table has a key exactly when some alias source lower-cases to it, and no key contains an upper-case letter |
| Matching.AliasScoreBounds | app/core/matching.py:32 | with a ratio in [0, 1], every score is in [0, 1] |
| Matching.AliasTargetScoresOne | app/core/matching.py:27-32 | the alias target of an event, compared case-insensitively, scores exactly 1.0 |
| Matching.CandidatesSound | app/core/matching.py:25-50 | there is at most one candidate per Kalshi event, in Kalshi order, and each names the first best eligible Polymarket event at or above the threshold, with that score |
| Matching.CandidateForSound | app/core/matching.py:26-48 | an emitted candidate is labelled "ek <-> ep", has no market ids, and carries the first best score at or above the threshold |
| Matching.EventKeysInOrder | app/core/matching.py:18-23 | the loop yields the distinct event titles in first-appearance order |
| Matching.GroupByKey | app/core/matching.py:60-65 | the keys list each group's key once, in first-appearance order, and each group holds the quotes with that key in input order |
| Matching.EventMatcher.constructor | app/core/matching.py:11-13 | the alias table is the lower-cased one, and the threshold is stored |
| Matching.EventMatcher.WithDefaultThreshold | app/core/matching.py:11 | as the constructor, with threshold 0.72 |
| Matching.EventMatcher.BuildCandidates | app/core/matching.py:15-50 | the candidates are exactly the matcher's specification over the distinct titles, with the numeric guard and alias scoring |
| Matching.EventMatcher.PairByOutcome | app/core/matching.py:52-69 | the pairs are keyed by the keys common to both venues, each holding both venues' quotes for that key in input order |
| Matching.ScanCandidates | app/core/matching.py:25-50 | for non-negative scores, the loop yields exactly the candidate specification |
| Matching.PairGroups | app/core/matching.py:66-68 | the result pairs the groups of the common keys |
| EmbeddingMatcher.RunLength | app/core/embedding_matcher.py:15 | the length of the maximal leading run of lower-case letters and digits |
| EmbeddingMatcher.Runs | app/core/embedding_matcher.py:15 | every run found has at least three characters, all lower-case letters or digits |
| EmbeddingMatcher.RunsAreLongRuns | app/core/embedding_matcher.py:15 | a token is found exactly when it is a maximal alphanumeric run of length at least 3 |
| EmbeddingMatcher.TokensSpec | app/core/embedding_matcher.py:12-15 | `_tokens` returns exactly the maximal alphanumeric runs of length at least 3 in the lower-cased text |
| EmbeddingMatcher.Tokens | app/core/embedding_matcher.py:12-15 | every token is a run of at least three lower-case letters or digits |
| EmbeddingMatcher.AddTokens | app/core/embedding_matcher.py:72-73 | adding an event to the token index adds it under each of its tokens and changes nothing else |
| EmbeddingMatcher.TokenIndexedStep | app/core/embedding_matcher.py:71-73 | one more indexed event keeps the token index exact |
| EmbeddingMatcher.NumsIndexedStep | app/core/embedding_matcher.py:74-76 | an event with a numeric window joins that window's entry, and the index stays exact |
| EmbeddingMatcher.NumsIndexedSkip | app/core/embedding_matcher.py:75 | an event without numbers leaves the index exact |
| EmbeddingMatcher.BuildIndex | app/core/embedding_matcher.py:69-76 | each token maps to exactly the events containing it, and each non-empty window maps to exactly the events with that window |
| EmbeddingMatcher.Preselected | app/core/embedding_matcher.py:87-97 | the preselection is a subset of the Kalshi events |
| EmbeddingMatcher.PreselectedFallsBackToAll | app/core/embedding_matcher.py:92-97 | with no shared token and no matching window, every Kalshi event is a candidate |
| EmbeddingMatcher.PreselectedSharesWindow | app/core/embedding_matcher.py:95-97 | when some Kalshi event has the same numeric window, every candidate has that window |
| EmbeddingMatcher.PreselectedSharesToken | app/core/embedding_matcher.py:88-91 | when some Kalshi event shares a token, every candidate shares a token |
| EmbeddingMatcher.SelectCandidates | app/core/embedding_matcher.py:87-97 | the index lookups compute exactly the preselection |
| EmbeddingMatcher.CapCandidates | app/core/embedding_matcher.py:100-104 | the capped set is a subset; it is unchanged when within the cap and otherwise has exactly the cap many members, none outscored by a dropped one |
| EmbeddingMatcher.Emitted | app/core/embedding_matcher.py:116-136 | at most one candidate per member of the ranked list |
| EmbeddingMatcher.EmittedMembership | app/core/embedding_matcher.py:116-136 | a candidate is emitted exactly when it pairs a listed Kalshi event with the Polymarket event at or above the floor and through the numeric, subject and entity guards |
| EmbeddingMatcher.EmittedFilterReach | app/core/embedding_matcher.py:116-118 | dropping the members below the floor before the guard loop emits the same candidates |
| EmbeddingMatcher.EmittedDescending | app/core/embedding_matcher.py:116-136 | over a list ranked by non-increasing cosine, the candidates come out in non-increasing similarity |
| EmbeddingMatcher.EmittedBlock | app/core/embedding_matcher.py:114-136 | over a top-k list of the candidate set, the block has at most k candidates, highest first, each sound, and one for every top member that reaches the floor and passes the guards |
| EmbeddingMatcher.EmitBlock | app/core/embedding_matcher.py:116-136 | over a list already at or above the floor, the loop emits exactly Emitted: in order, the candidate of every member that passes the guards |
| EmbeddingMatcher.CandidatesForPoly | app/core/embedding_matcher.py:107-136 | the top-k list is the k candidates most similar to the Polymarket event, highest first; the block emits, in that order, a candidate for exactly those members that reach the floor and pass the numeric, subject and entity guards |
| EmbeddingMatcher.BlockFor | app/core/embedding_matcher.py:87-136 | for one Polymarket event, the block is exactly what the guard loop emits over the top-k of its capped preselection (the index lookup equals Preselected) |
| EmbeddingMatcher.BlocksExactAppend | app/core/embedding_matcher.py:85-136 | adding the exact block of the next Polymarket event keeps the block list exact |
| EmbeddingMatcher.BlocksExactSound | app/core/embedding_matcher.py:100-136 | exact blocks are sound: at most k candidates each, highest first, each pairing a preselected Kalshi event with its Polymarket event through the floor and the guards |
| EmbeddingMatcher.ScanEmbeddingCandidates | app/core/embedding_matcher.py:85-136 | the result concatenates one block per Polymarket event; each block is exactly what the guard loop emits over the top-k of that event's capped preselection |
| EmbeddingMatcher.BuildEmbeddingCandidates | app/core/embedding_matcher.py:47-143 | for some enumeration of the Polymarket events, the result concatenates one exact block per event; every candidate reaches the floor, has no market ids, and pairs a Kalshi event with a Polymarket event through all the guards; every top-k member that reaches the floor and passes the guards yields its candidate |
| EmbeddingMatcher.CandidatesCoverTops | app/core/embedding_matcher.py:114-136 | every top-k member of any Polymarket event that reaches the floor and passes the guards yields its candidate in the result |
| EmbeddingMatcher.SmallPreselectionEmitsAll | app/core/embedding_matcher.py:87-136 | when a Polymarket event's preselection fits both caps, every preselected Kalshi event that reaches the floor and passes the guards yields its candidate |
| EmbeddingMatcher.EmbeddingCandidatesSound | app/core/embedding_matcher.py:118-136 | every candidate pairs a Kalshi and a Polymarket event through all the guards, at or above the floor, with no market ids |
| EmbeddingMatcher.CandidatesPairEvents | app/core/embedding_matcher.py:118-136 | every candidate in sound blocks reaches the floor, has no market ids, and pairs an event of each venue through all the guards |
| EmbeddingMatcher.PickForPoly | app/core/embedding_matcher.py:185-207 | the pick is the argmax candidate when it reaches the floor and passes the guards, and nothing otherwise |
| EmbeddingMatcher.ApplyPicksLatest | app/core/embedding_matcher.py:207 | a mapped key holds the target of the last pick with that normalised source |
| EmbeddingMatcher.ApplyPicksComplete | app/core/embedding_matcher.py:207 | every pick is mapped, and to its own target unless a later pick reuses the key |
| EmbeddingMatcher.PicksPairEvents | app/core/embedding_matcher.py:194-207 | every entry of the mapping built from valid picks maps the key of a Kalshi event to the key of a Polymarket event, and that pair passes the cosine, numeric and entity guards |
| EmbeddingMatcher.ScanMapping | app/core/embedding_matcher.py:171-207 | the loop yields the map built from one valid pick per Polymarket event |
| EmbeddingMatcher.BuildEventMappingByEmbeddings | app/core/embedding_matcher.py:146-214 | for some enumeration of the Polymarket events, the mapping applies one valid pick per event, keyed lower-case and stripped; every entry maps a Kalshi event's key to a Polymarket event's key, and that pair passes the final guards |
| Embeddings.DotSymmetric | app/utils/embeddings.py:19-22 | the dot product is symmetric |
| Embeddings.DotSelfNonnegative | app/utils/embeddings.py:21-22 | a vector's dot product with itself is non-negative |
| Embeddings.CosineOf | app/utils/embeddings.py:13-25 | the cosine is 0 for empty or mismatched vectors and for a zero-norm vector |
| Embeddings.CosineSymmetric | app/utils/embeddings.py:13-25 | the cosine is symmetric |
| Embeddings.Accumulate | app/utils/embeddings.py:16-22 | the loop accumulates a·b, a·a and b·b |
| Embeddings.Cosine | app/utils/embeddings.py:13-25 | `_cosine` computes the cosine specification |
| Embeddings.ChunkConcat | app/utils/embeddings.py:28-29 | concatenating the chunks gives back the input |
| Embeddings.ChunkSizes | app/utils/embeddings.py:28-29 | every chunk is non-empty and at most n long, and every chunk but the last is exactly n long |
| Embeddings.VectorFor | app/utils/embeddings.py:112-114 | a non-empty cached vector wins; otherwise the fetched vector is used; otherwise the vector is empty |
| Embeddings.StrippedKeys | app/utils/embeddings.py:77-83 | each cache key is the stripped text |
| Embeddings.PartitionByCache | app/utils/embeddings.py:75-83 | hits are exactly the cached keys (when the cache is on), misses are the rest in order, and hits + misses = all texts |
| Embeddings.AlignVectors | app/utils/embeddings.py:109-116 | one vector per input text, in input order |
| Embeddings.EmbedTexts | app/utils/embeddings.py:38-116 | one vector per text, each taken from the cache or the fetched batch by its stripped key |
| Embeddings.EmbedTextsUsesCache | app/utils/embeddings.py:77-116 | a non-empty cached vector is returned as is, and a text neither cached nor fetched gets the empty vector |
| Embeddings.BuildEmbeddingMap | app/utils/embeddings.py:119-182 | empty input gives an empty map; otherwise the result is the best-target map over the de-duplicated lists, using cosine scores and the numeric guard, with its keys in first-occurrence order of the sources |
| Embeddings.EmbeddingMapKeys | app/utils/embeddings.py:135-181 | the key order lists each mapped source once, in order of first occurrence among the sources, and lists exactly the mapped sources |
| Embeddings.EmbeddingMapSound | app/utils/embeddings.py:165-181 | a mapped source is an input, and its target is an input, numerically consistent when strict, the first best by cosine, with that cosine at or above the floor |
| MlMatch.BuildTfidfMap | app/utils/ml_match.py:17-59 | empty when scikit-learn is missing or either list is empty; otherwise the best-target map over the de-duplicated lists, using TF-IDF scores, with its keys in first-occurrence order of the sources |
| MlMatch.TfidfMapSound | app/utils/ml_match.py:44-58 | a mapped source is an input, and its target is an input, numerically consistent when strict, the first best by TF-IDF, with that score at or above the floor |
| MlMatch.TfidfMapKeys | app/utils/ml_match.py:31-58 | a source is mapped exactly when it is an input with an accepted choice; the key order lists each mapped source once, in order of first occurrence among the sources |
| Slippage.FillFrom | app/utils/slippage_protection.py:39-47 | nothing is filled from an empty book or for a non-positive need |
| Slippage.FillPrice | app/utils/slippage_protection.py:33-52 | (0, 0) for an empty book, a non-positive target or a zero fill |
| Slippage.EstimateFillPrice | app/utils/slippage_protection.py:12-53 | the walking loop returns the fill specification |
| Slippage.FillFromBounded | app/utils/slippage_protection.py:41-44 | the filled size never exceeds the target |
| Slippage.FillFromFillsMinimum | app/utils/slippage_protection.py:39-47 | with non-negative sizes, the fill is min(target, book depth) |
| Slippage.FlatBookCost | app/utils/slippage_protection.py:43-45 | on a one-price book the cost is that price x the filled size |
| Slippage.FillPriceExample | app/utils/slippage_protection.py:22-31 | 250 contracts against 100@0.22, 200@0.23 and 500@0.24 average 0.226 and cost 56.5 |
| Slippage.MaxSizeForImpact | app/utils/slippage_protection.py:71-72 | an empty book allows size 0 |
| Slippage.PrefixDepthIsLongestPrefix | app/utils/slippage_protection.py:77-83 | the safe size is the depth of the longest leading run of levels priced at or below best + impact |
| Slippage.MaxSizeStopsAtFirstDearerLevel | app/utils/slippage_protection.py:80-81 | a cheap level after a dearer one is not counted |
| Slippage.MaxSizeForPriceImpact | app/utils/slippage_protection.py:56-83 | the loop returns the safe-size specification |
| Slippage.BookOf | app/utils/slippage_protection.py:96 | a book is present only when the quote carries a non-empty order depth, and it is that depth |
| Slippage.SafeOrderSize | app/utils/slippage_protection.py:86-100 | the quoted size without depth data, and the safe size of the book otherwise |
| Slippage.SafeOrderSizeWithinDepth | app/utils/slippage_protection.py:86-100 | with depth data and non-negative sizes, the safe size is between 0 and the book depth |
| Slippage.ExecutionCost | app/utils/slippage_protection.py:103-124 | the quoted price and 0 bps without depth; otherwise the fill average, with slippage 0 when either price is 0 and otherwise the relative price impact in basis points: slippage × price = (average − price) × 10000 |
| Slippage.FlatBookNoSlippage | app/utils/slippage_protection.py:118-124 | a book at the quoted price has zero slippage |
| Slippage.CapOrderByLiquidity | app/utils/slippage_protection.py:127-159 | the notional is the least of the desired amount and both legs' safe dollar depth, and each leg's size converts it back at its price, or is 0 at a boundary price |
| Liquidity.OutcomeQuotesMembership | app/utils/liquidity_filter.py:40-41 | the outcome list holds exactly the quotes of that event and outcome |
| Liquidity.HasBothOutcomes | app/utils/liquidity_filter.py:12-27 | `has_both_outcomes` as a predicate (no contract of its own; its meaning is HasBothOutcomesSpec) |
| Liquidity.HasValidPrices | app/utils/liquidity_filter.py:30-49 | `has_valid_prices` as a predicate (no contract of its own; its meaning is HasValidPricesSpec) |
| Liquidity.HasMinimumLiquidity | app/utils/liquidity_filter.py:52-72 | `has_minimum_liquidity` as a predicate (no contract of its own; its meaning is HasMinimumLiquiditySpec) |
| Liquidity.HasBothOutcomesSpec | app/utils/liquidity_filter.py:12-27 | true exactly when the event has both a YES and a NO quote |
| Liquidity.HasValidPricesSpec | app/utils/liquidity_filter.py:30-49 | true exactly when each outcome has a quote with a positive price |
| Liquidity.HasMinimumLiquiditySpec | app/utils/liquidity_filter.py:52-72 | true exactly when each outcome has a quote of at least the minimum size |
| Liquidity.FilterByLiquidity | app/utils/liquidity_filter.py:75-124 | empty input is returned as is; otherwise the result is the quotes of the events passing every check, in input order |
| Liquidity.KeptQuotesShape | app/utils/liquidity_filter.py:124 | the result is a subsequence of the input, and the filter keeps or drops whole events |
| Liquidity.KeptWithZeroMinPriceArePriced | app/utils/liquidity_filter.py:106-108 | with min price 0, every kept event has a positively priced YES and NO |
| Liquidity.KeptWithMinPriceAreAboveIt | app/utils/liquidity_filter.py:109-116 | with a positive min price, every quote of a kept event is priced at least that |
| Liquidity.LiquiditySummary | app/utils/liquidity_filter.py:151 | the summary's quote total is the number of quotes |
| Liquidity.SummaryCountsOrdered | app/utils/liquidity_filter.py:136-150 | events with valid prices ≤ events with both outcomes ≤ all events, and priced YES + priced NO quotes ≤ all quotes |
| Validation.ValidatePrice | app/utils/validation.py:29-37 | accepted exactly when numeric and within [0, 1], returning the value; non-numbers are rejected as such |
| Validation.ValidateSize | app/utils/validation.py:53-61 | accepted exactly when numeric and non-negative, returning the value |
| Validation.ValidateMarketId | app/utils/validation.py:77-85 | accepted exactly when the stripped id is non-empty, returning the stripped id |
| Validation.ValidateEventName | app/utils/validation.py:101-112 | accepted exactly when the stripped name is non-empty and at most 500 characters, returning it |
| Validation.ValidateOutcome | app/utils/validation.py:128-136 | accepted exactly when the stripped, upper-cased outcome is YES or NO, returning that word |
| Validation.ValidateOutcomeIgnoresCase | app/utils/validation.py:131 | lower-casing the input does not change the verdict |
| Validation.ValidateOutcomeAcceptsPaddedLowerCase | app/utils/validation.py:131-136 | " yes\n" is accepted as YES |
| Validation.ValidateOutcomeAcceptsMixedCase | app/utils/validation.py:131-136 | "No" is accepted as NO |
| Validation.ValidateOutcomeRejectsOthers | app/utils/validation.py:132-133 | "maybe" is rejected |
| Validation.ClipPrice | app/utils/validation.py:139-150 | the result is at least the lower bound, at most the upper bound when the bounds are ordered, and the price itself when already inside |
| Validation.ClipPriceIdempotent | app/utils/validation.py:150 | clipping twice equals clipping once |
| Validation.ClipPriceDefaults | app/utils/validation.py:139-150 | with the default bounds, the result lies in [0.01, 0.99] |
| Links.IsTokenId | app/utils/links.py:25 | a token id contains no '/', so it is a single path segment |
| Links.PolymarketMarketUrl | app/utils/links.py:11-29 | the URL ends with the id, and it is under /event/ exactly when the id is a token id (else under /market/) |
| Links.KalshiMarketUrl | app/utils/links.py:32-47 | the URL starts with the markets base and is no longer than the base plus the id, since cleaning never lengthens the id |
| Links.RemoveAll | app/utils/links.py:45 | removing a pattern never lengthens the string |
| Links.RemoveAllAbsent | app/utils/links.py:45 | removal leaves a string without the pattern unchanged |
| Links.KalshiCleanId | app/utils/links.py:45 | the cleaned id is no longer than the id |
| Links.KalshiCleanIdDropsPrefix | app/utils/links.py:45-47 | "kalshi-" + a ticker free of both prefixes cleans to the ticker |
| Links.CreateMarketLink | app/utils/links.py:60 | the link is "[" text "](" url ")", with text and url recoverable by position |
| Links.DisplayText | app/utils/links.py:85 | at most 60 characters: the event itself when short, else its first 57 characters and "..." |
| Links.GetEventLink | app/utils/links.py:63-87 | the bare event for a missing id, "None" or an unknown exchange; otherwise a markdown link to that exchange's URL with the display text |
| Links.Split | app/utils/links.py:106 | splitting gives at least one piece, and no piece contains the separator |
| Links.PathParts | app/utils/links.py:106 | the path parts are non-empty and free of '/' |
| Links.SplitUrl | app/utils/links.py:102-106 | the host is free of '/', '?' and '#', and the path is free of '?' and '#' |
| Links.ParseParts | app/utils/links.py:108-122 | a result names polymarket or kalshi and one of the parts; there is none exactly when there are no parts or the host names neither venue; kalshi is chosen only when the host does not name polymarket |
| Links.ParseMarketUrl | app/utils/links.py:91-122 | a parsed id is a non-empty path segment of the URL, and parsing fails exactly when the host and path fail |
| Links.ParsePolymarketUrlRoundTrip | app/utils/links.py:11-122 | parsing a generated Polymarket URL returns ("polymarket", id) for any plain id |
| Links.ParseKalshiUrlRoundTrip | app/utils/links.py:32-122 | parsing a generated Kalshi URL returns ("kalshi", cleaned id) |
| Links.ParseRejectsOtherHosts | app/utils/links.py:108-122 | a host naming neither venue parses to nothing |
| Links.ParsePartsFallsBackToLastSegment | app/utils/links.py:113-120 | without a recognised prefix, the last path segment is the id |
| DateFilter.DaysUntil | app/utils/date_filter.py:45 | whole days until the date, rounded toward minus infinity as `timedelta.days` does |
| DateFilter.DaysUntilRoundsDown | app/utils/date_filter.py:45 | one hour ago is day -1, and one hour ahead is day 0 |
| DateFilter.FilterByDaysUntilResolution | app/utils/date_filter.py:12-55 | the loop keeps exactly the dated quotes within the optional day bounds, in order |
| DateFilter.FilterByDaysKeeps | app/utils/date_filter.py:40-53 | the result is a subsequence, and a quote is kept exactly when it is dated and within both optional bounds |
| DateFilter.FilterByDateRange | app/utils/date_filter.py:58-89 | the loop keeps exactly the dated quotes within the optional absolute range |
| DateFilter.FilterByDateRangeKeeps | app/utils/date_filter.py:78-87 | the result is a subsequence, and a quote is kept exactly when it is dated and within both optional bounds |
| DateFilter.GetDaysUntilResolution | app/utils/date_filter.py:92-105 | none exactly when undated; otherwise the floored day count |
| DateFilter.HorizonOf | app/utils/date_filter.py:123-139 | each bucket (expired, today, tomorrow, days, weeks, months, years) holds exactly its day range, and the week, month and year counts are floor divisions |
| DateFilter.HorizonMonotone | app/utils/date_filter.py:123-139 | a later date never gets an earlier bucket or a smaller count |
| DateFilter.NatToString | app/utils/date_filter.py:124-139 | a non-empty decimal rendering with no leading zero |
| DateFilter.NatToStringRoundTrip | app/utils/date_filter.py:124-139 | the rendering parses back to the number |
| DateFilter.Render | app/utils/date_filter.py:117-139 | "No date" only for the undated bucket |
| DateFilter.FormatResolutionDate | app/utils/date_filter.py:108-139 | "No date" exactly when undated; otherwise the rendering of the bucket of the floored day count |
| DateFilter.FormatWeeksExamples | app/utils/date_filter.py:131-133 | 8 days render as "In 1 week", and 14 as "In 2 weeks" |
| Executor.BuySize | app/core/executor.py:26 | the YES size times the long price is the notional, or 0 when the price is not positive |
| Executor.SellSize | app/core/executor.py:27 | the NO size times (1 - short price) is the notional, or 0 when the price is at least 1 |
| Executor.FillsFor | app/core/executor.py:28-45 | the buy fill on the long leg, then the sell fill on the short leg (no contract of its own; FillsForLegs states it) |
| Executor.AllFills | app/core/executor.py:24-45 | two fills per opportunity |
| Executor.Execute | app/core/executor.py:23-45 | the loop returns the fills specification |
| Executor.AllFillsLayout | app/core/executor.py:24-45 | two fills per opportunity, the BUY at 2i and the SELL at 2i + 1 |
| Executor.FillsForLegs | app/core/executor.py:28-45 | the BUY fill is the long leg at its price and the SELL fill is the short leg at its price, each sized to the notional |

## Left out

- Unicode NFKC normalisation (`app/utils/text.py:8`) is the identity in the model. The four curly quotes are folded to `'` and `"` as `app/utils/text.py:10-11` does, before the symbol replacement. Any other non-ASCII character is left unchanged by `Lower` and then replaced by a space like any other symbol.
- `re` whitespace and `str.lower`/`str.upper`/`str.strip` are modelled for ASCII; Unicode case mappings and whitespace classes are not.
- `difflib.SequenceMatcher`, the OpenAI embedding vectors, the scikit-learn TF-IDF cosine, `extract_entity_tokens` and `extract_yis_actor_subject` are external scorers and extractors. The two extractors have no definition anywhere in the source text (see above). Each is a function parameter with only the properties the code relies on.
- `Text.Similarity`: the [0, 1] bound is proved only for ratio functions bounded in [0, 1], because the ratio itself is not modelled.
- The square root in `_cosine` is a parameter that is positive on positive arguments, the only arguments `_cosine` passes to it (`app/utils/embeddings.py:23-25`); floating-point rounding is not modelled, and reals are exact throughout.
- numpy normalisation, the float32 matrix product and `argpartition` are left out. The embedding matcher scores candidates with a cosine parameter and takes the top k by score.
- `Selection.TopByScore`: ties at the cut are resolved by an arbitrary choice, as `sorted` over a set is in Python.
- `EmbeddingMatcher.CapCandidates`: the ranking is by the entity-overlap score, which is a parameter.
- Python set and dict-key iteration order is an arbitrary enumeration, returned as a ghost; results are stated for every enumeration.
- `Matching.EventMatcher.PairByOutcome`: the result is a map, so the insertion order of the returned `pairs` dict (Kalshi first-occurrence order over the keys on both venues, `app/core/matching.py:66-68`) is not modelled; no caller in the core depends on it.
- `Selection.ScanFirstBest`, `Matching.ScanCandidates`, `ArbMatcher.FuzzyPass`: require non-negative scores, because the loops start from best = -1. The similarity ratio is never negative.
- `Embeddings.ChunkConcat`, `Embeddings.ChunkSizes`: require n >= 1, because `embed_openai` always passes `max(1, batch_size)` (`app/utils/embeddings.py:89`).
- The unused `build_candidates` call in `detect_arbs_with_matcher` (`app/core/arb.py:181-184`) is left out: its result is never read.
- Outcomes other than YES and NO are not modelled. `Side` has two values, as the `Literal` type in `app/core/models.py:13` declares.
- `str()` of non-string values, `bool` accepted as a number, NaN and infinity in the validators are left out. A validated value is either a number or not a number.
- Dates carry whole seconds; microseconds and time zones are left out, and "now" is a parameter instead of the clock.
- File and HTTP I/O are outside the model: the embedding cache file, the API clients, JSON persistence and logging. Cache contents and fetched vectors are parameters.
- Progress callbacks are left out: they do not affect results.
- `_embed_events` and its cached embedding variant are not part of this model; the embedding matcher receives the cosine as a parameter.
- `urlparse` is simplified to "scheme:", then "//netloc", then a path up to '?' or '#'. Parameters after ';', other schemes and the exception path are not modelled.
- The connectors, UI, demo scripts, LLM validation, retry and timing helpers are outside the core and are not part of this model.

## Findings

| source | as written | input that shows it | evidently intended | confidence | as-written member | corrected member |
|---|---|---|---|---|---|---|
| app/core/arb.py:46-63 | `total_bps` is assigned only inside the first direction's branch, but the second direction reads it; whenever an event offering the second direction is reached, in iteration order, before any event (itself included) offering the first, `detect_arbs` raises `UnboundLocalError` | Kalshi NO @ 0.55 (size 100) and Polymarket YES @ 0.40 (size 100) on event "fed", default settings: the corrected detector finds a 1470 bps opportunity, and the code as written raises | compute `total_bps` once before the loop, so that both directions are always evaluated | not executed | Arb.UnboundTotalBpsCounterexample | Arb.DetectArbs |
