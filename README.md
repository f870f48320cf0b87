# Privacy-policy report aggregation, in Dafny

This project models two parts of the privacy-policy analyzer:

- **The aggregation engine** (`src/analyzer/scoring.py`). It turns the per-chunk judgements of a language model into one report. Each judgement is a loosely typed record of `scores`, `rationales`, `red_flags` and `notes`. The report holds:
  - an overall score weighted by the ten-category `SCORING_WEIGHTS` table;
  - a confidence based on coverage;
  - a mean score, weight and first rationale for each category;
  - the top three strengths and the top three risks;
  - the sorted set of red flags;
  - the first ten recommendations.
- **The list and string logic of URL discovery** (`src/main.py`), taken over text that has already been fetched:
  - the privacy-cue test;
  - the de-duplication loop that keeps first occurrences;
  - the `Sitemap:` lines of robots.txt plus the default `/sitemap.xml`;
  - the scan of a leaf sitemap's `<loc>` entries;
  - the `--max-chunks` merge of surplus chunks.

Modules:

- `Json` (json.dfy) — a field value as Python sees it after `json.loads`, and `dict.get`.
- `Seqs` (seqs.dfy) — `Min`, `Distinct`, integer `Sum`.
- `Rounding` (rounding.dfy) — `round(x, 2)` on exact reals. It rounds half to even, as Python's `round` does on exact values.
- `Weights` (weights.dfy) — the weight table and `_REQUIRED_KEYS`.
- `Ranking` (ranking.dfy) — a stable insertion sort of table positions by a key, and its top-k prefix. This is what `sorted(..., key=...)[:3]` does.
- `LexOrder` (lexorder.dfy) — Python's code-point order on `str`, and `sorted(set(xs))`.
- `Scoring` (scoring.dfy) covers three things:
  - the specification functions of the report;
  - the imperative aggregation, split into `CollectChunk` and `CollectAll` (the collection loop), `WeighCategories` (the weighing loop) and `Aggregate` (the rest of the function);
  - the lemmas that connect the two.
- `ReportProperties` (properties.dfy) — properties of the whole report:
  - independence from chunk order;
  - confidence as coverage;
  - the cases pinned down by the repository's tests.
- `Text` (text.dfy) — `str.lower`, `str.strip`, `startswith`, `in`, `split(":", 1)[1]`, `splitlines` and `join`.
- `Discovery` (discovery.dfy) — the URL-discovery pieces of `src/main.py`.
- `ChunkCap` (chunkcap.dfy) — the `--max-chunks` merge in `main`.

Numbers are exact. Means and weighted sums are `real`, and the `/ 10.0` and `* 100.0` of the source are exact operations. Integer scores are unbounded `int`, as in Python.

Some definitions are plain accessors and have no row below: `Json.Get` is `dict.get` (src/analyzer/scoring.py:40-43), `Weights.Names`, `Weights.WeightList` and `Weights.RequiredKeys` read the table and `_REQUIRED_KEYS` (src/analyzer/scoring.py:5-18), and `Scoring.Labelled` pairs table positions with their names and scores (src/analyzer/scoring.py:75). What they mean is stated by `Weights.TableShape`, `Weights.RequiredKeysCount`, `ReportProperties.StrengthsOfReport` and `ReportProperties.RisksOfReport`.

## Model

| member | source | states |
|---|---|---|
| Weights.RequiredKeysCount | src/analyzer/scoring.py:5-18 | the ten names are distinct, so the required-key set has ten elements |
| Weights.WeightsPositive | src/analyzer/scoring.py:5-16 | every weight is positive |
| Weights.WeightsSumTo100 | src/analyzer/scoring.py:5-16 | the weights sum to 100 |
| Weights.TableShape | tests/test_scoring_weights.py:25-28 | ten rows, distinct names, positive weights summing to 100, ten required keys |
| Rounding.Round2 | src/analyzer/scoring.py:59 | the result is a multiple of 0.01 within 0.005 of the argument |
| Rounding.Round2Monotone | src/analyzer/scoring.py:59 | rounding preserves order |
| Rounding.Round2Exact | src/analyzer/scoring.py:72 | a value with two decimals is left unchanged |
| Rounding.Round2Between | src/analyzer/scoring.py:59 | rounding keeps a value inside any integer bounds that held before |
| Scoring.ValidScore | src/analyzer/scoring.py:43-45 | a value counts iff it is an int in 0..10 or a bool; an int counts as itself, True as 1 and False as 0; strings, floats and out-of-range ints are dropped, never coerced or clamped |
| Scoring.ValidScores | src/analyzer/scoring.py:39-45 | every collected score of a category lies in 0..10 |
| Scoring.UncoveredIffNoValidScore | src/analyzer/scoring.py:43-45 | a category collects nothing iff no chunk holds a valid score for it |
| Scoring.Rationales | src/analyzer/scoring.py:46-48 | only non-empty strings are collected as rationales |
| Scoring.StringsIn | src/analyzer/scoring.py:50-52 | exactly the string elements of a list are kept, never coerced |
| Scoring.StringsOfStrings | src/analyzer/scoring.py:50-52 | a list of strings only is kept whole, element for element, in order and with repeats |
| Scoring.StringsInConcat | src/analyzer/scoring.py:50-52 | filtering a concatenation filters each part, so `extend` keeps order and repeats across chunks |
| Scoring.AllRedFlags | src/analyzer/scoring.py:49-50 | definition: the string red flags of each chunk whose `red_flags` is a list, chunk after chunk; membership is characterised by `RedFlagCollected` |
| Scoring.RedFlagCollected | src/analyzer/scoring.py:49-50 | a string is collected as a red flag iff some chunk's `red_flags` is a list holding that string |
| Scoring.AllNotes | src/analyzer/scoring.py:51-52 | definition: the string notes of each chunk whose `notes` is a list, chunk after chunk; `NotesConcat` and `ChunkNotes` state its order |
| Scoring.Mean | src/analyzer/scoring.py:21-22 | definition: `sum / len`, or 0.0 for an empty list; `MeanBounds` bounds it and `CategoryScoreOrderFree` shows it ignores order |
| Scoring.MeanBounds | src/analyzer/scoring.py:21-22 | the mean of scores in 0..10 lies in [0, 10] |
| Scoring.CategoryScore | src/analyzer/scoring.py:59 | a category score lies in [0, 10] |
| Scoring.NoRationaleIffNone | src/analyzer/scoring.py:46-48 | no rationale is collected iff no chunk holds a non-empty string for the category |
| Scoring.EarliestRationale | src/analyzer/scoring.py:63 | the first collected rationale comes from the earliest chunk holding a rationale |
| Scoring.FirstRationaleIsEarliest | src/analyzer/scoring.py:63 | the representative rationale is "" iff no chunk has one, and otherwise is that of the first chunk that has one |
| Scoring.CategoryScores | src/analyzer/scoring.py:58-59 | one score per table row, each in [0, 10] |
| Scoring.CategoryDetails | src/analyzer/scoring.py:58-64 | definition: per table row, the name with its rounded mean, its weight and its first rationale (or ""); `WeighedTable` proves the loop builds it and `FirstRationaleIsEarliest` pins the rationale |
| Scoring.WeightedSumBounds | src/analyzer/scoring.py:65 | with scores in [0, 10] and non-negative weights, the weighted sum lies between 0 and the total weight |
| Scoring.WeightedSumUniform | src/analyzer/scoring.py:65-66 | when all scores are equal to u, the weighted sum is u/10 times the total weight |
| Scoring.OverallScore | src/analyzer/scoring.py:68-70 | definition: round(weighted sum / total weight · 100, 2), or 0.0 for zero total weight; `OverallScoreBounds` and `UniformOverall` state its range and the uniform case |
| Scoring.OverallScoreBounds | src/analyzer/scoring.py:68-70 | the overall score lies in [0, 100] |
| Scoring.UniformOverall | src/analyzer/scoring.py:68-70 | when all category scores are u, the overall score is round(10·u, 2) |
| Scoring.CountCovered | src/analyzer/scoring.py:71 | the number of covered categories is at most the number of categories |
| Scoring.PerCategoryCoversNames | src/analyzer/scoring.py:34-45 | `per_cat` has an entry for every category, and it holds that category's valid scores in chunk order |
| Scoring.CoveredAtMostKeys | src/analyzer/scoring.py:71 | the coverage count is at most `len(_REQUIRED_KEYS)` = 10 |
| Scoring.Confidence | src/analyzer/scoring.py:71-72 | the confidence lies in [0, 1] |
| Scoring.RankedByNegation | src/analyzer/scoring.py:74-77 | a stable ranking by `-score` orders by descending score, with ties in table order, and beats every category left out |
| Scoring.RankedAscending | src/analyzer/scoring.py:78-81 | a stable ranking by score orders by ascending score, with ties in table order, and beats every category left out |
| Scoring.StrengthPositions | src/analyzer/scoring.py:74-77 | three positions, by non-increasing score, with ties in table order; no position left out scores higher, or scores the same and comes earlier |
| Scoring.RiskPositions | src/analyzer/scoring.py:78-81 | three positions, by non-decreasing score, with ties in table order; no position left out scores lower, or scores the same and comes earlier |
| Scoring.ThreeHighestAreStrengths | src/analyzer/scoring.py:74-77 | when three categories score strictly above all others, they are exactly the strengths |
| Scoring.ThreeLowestAreRisks | src/analyzer/scoring.py:78-81 | when three categories score strictly below all others, they are exactly the risks |
| Scoring.RedFlags | src/analyzer/scoring.py:89 | the red flags are strictly sorted (hence duplicate-free); a string is among them iff some chunk's list-typed `red_flags` holds it |
| Scoring.Recommendations | src/analyzer/scoring.py:90 | the first min(10, n) collected notes, in chunk order, with no de-duplication |
| Scoring.CollectChunk | src/analyzer/scoring.py:40-48 | one chunk appends its valid score and its rationale to each named category's list; other entries and the key sets are unchanged |
| Scoring.CollectAll | src/analyzer/scoring.py:34-52 | after the loop, `per_cat` and `rationales` hold each category's valid scores and rationales in chunk order, and the red-flag and note lists are the string elements of all list-typed fields, in chunk order |
| Scoring.CollectedByName | src/analyzer/scoring.py:34-35 | dictionaries built over the required keys equal the per-category specification maps |
| Scoring.WeighCategories | src/analyzer/scoring.py:54-66 | the weighing loop gives each row the rounded mean, its weight and its first rationale (or ""); it accumulates the weighted sum of those scores and the sum of the weights |
| Scoring.WeighedTable | src/analyzer/scoring.py:58-64 | the loop's results over the weight table are the specified category scores and details |
| Scoring.OverallFromSums | src/analyzer/scoring.py:68-70 | the overall score is round(weighted_sum / total_weight · 100, 2), or 0.0 when the total weight is 0 |
| Scoring.AggregatedFrom | src/analyzer/scoring.py:83-91 | the report is assembled from the overall score, confidence, details, top lists, `sorted(set(red_flags))` and `notes[:10]` |
| Scoring.Aggregated | src/analyzer/scoring.py:83-91 | definition: the report field by field; `AggregatedBounds`, `StrengthsOfReport`, `RisksOfReport`, `ScoresOrderFree`, `RedFlagsOrderFree` and `ConfidenceIsCoverage` state what it holds |
| Scoring.AggregatedBounds | src/analyzer/scoring.py:68-91 | for every input: overall in [0, 100], confidence in [0, 1], exactly three strengths and three risks, at most ten recommendations, red flags strictly sorted |
| Scoring.Aggregate | src/analyzer/scoring.py:25-91 | the imperative aggregation returns exactly the specified report |
| Ranking.Insert | src/analyzer/scoring.py:74-81 | inserting into a ranked list adds exactly one position |
| Ranking.SortByKey | src/analyzer/scoring.py:74-81 | sorting by key is a permutation of the positions |
| Ranking.InsertRanked | src/analyzer/scoring.py:74-81 | inserting a position that precedes all others keeps the list ranked, with ties in original order (stability) |
| Ranking.SortByKeyRanked | src/analyzer/scoring.py:74-81 | sorting increasing positions by key yields a ranked list: key order, with ties by position |
| Ranking.Top | src/analyzer/scoring.py:74-81 | `sorted(...)[:k]`: min(k, n) distinct positions, ranked, each ranked before every position left out |
| Ranking.TopIsSeparatedSet | src/analyzer/scoring.py:74-81 | a set of k positions whose keys are strictly below all others is exactly the top k |
| LexOrder.LexIrreflexive | src/analyzer/scoring.py:89 | no string is below itself in Python's `str` order |
| LexOrder.LexTransitive | src/analyzer/scoring.py:89 | Python's `str` order is transitive |
| LexOrder.LexTotal | src/analyzer/scoring.py:89 | any two different strings are ordered one way or the other |
| LexOrder.LexAsymmetric | src/analyzer/scoring.py:89 | Python's `str` order is asymmetric |
| LexOrder.InsertUnique | src/analyzer/scoring.py:89 | adding a string to a strictly sorted list keeps it strictly sorted and adds exactly that string |
| LexOrder.SortedSet | src/analyzer/scoring.py:89 | `sorted(set(xs))` is strictly sorted and holds exactly the elements of xs |
| LexOrder.StrictlySortedUnique | src/analyzer/scoring.py:89 | two strictly sorted lists with the same elements are equal |
| LexOrder.SortedSetOfSameStrings | src/analyzer/scoring.py:89 | `sorted(set(...))` depends only on which strings occur |
| ReportProperties.ValidScoresConcat | src/analyzer/scoring.py:39-45 | collecting over two runs of chunks concatenates the two collections |
| ReportProperties.ValidScoresRemove | src/analyzer/scoring.py:39-45 | removing one chunk removes exactly its score from the multiset of collected scores |
| ReportProperties.ValidScoresPermutation | src/analyzer/scoring.py:39-45 | reordering the chunks permutes each category's collected scores |
| ReportProperties.CategoryScoreOrderFree | src/analyzer/scoring.py:59 | a category's mean does not depend on chunk order |
| ReportProperties.ScoresOrderFree | src/analyzer/scoring.py:58-70 | the category scores and the overall score do not depend on chunk order |
| ReportProperties.RedFlagsOrderFree | src/analyzer/scoring.py:89 | the red-flag list does not depend on chunk order |
| ReportProperties.NotesConcat | src/analyzer/scoring.py:51-52 | notes of two runs of chunks are the notes of the first run followed by those of the second |
| ReportProperties.CountCoveredIsCard | src/analyzer/scoring.py:71 | the coverage count is the size of the set of categories with a non-empty list |
| ReportProperties.CoveredSetIsCategories | src/analyzer/scoring.py:71 | the categories with a non-empty list are those scored validly by some chunk |
| ReportProperties.CoveredCount | src/analyzer/scoring.py:71 | the coverage count is the number of validly scored categories |
| ReportProperties.ConfidenceIsCoverage | src/analyzer/scoring.py:71-72 | confidence = round(number of validly scored categories / 10, 2) |
| ReportProperties.OneUncoveredConfidence | tests/test_scoring_weights.py:57-67 | with exactly one category never validly scored, the confidence is 0.9 |
| ReportProperties.FullCoverageConfidence | src/analyzer/scoring.py:71-72 | with every category validly scored, the confidence is 1.0 |
| ReportProperties.TwoChunkScores | tests/test_scoring_weights.py:30-39 | chunks scoring 6 then 8 collect [6, 8] |
| ReportProperties.SixAndEightCategory | tests/test_scoring_weights.py:51 | chunks scoring 6 and 8 give that category 7.0 |
| ReportProperties.SixAndEightAverageToSeven | tests/test_scoring_weights.py:51-52 | two chunks scoring 6 and 8 everywhere give every category 7.0 |
| ReportProperties.SixAndEightOverall | tests/test_scoring_weights.py:51-52 | two chunks scoring 6 and 8 everywhere give an overall score of 70.0, the weighted formula at 7 |
| ReportProperties.SixAndEightConfidence | tests/test_scoring_weights.py:45 | two chunks scoring every category give confidence 1.0 |
| ReportProperties.LabelsOfPositions | src/analyzer/scoring.py:74-81 | picked table positions become (name, score) pairs carrying each category's own score; a category whose name is absent was not picked |
| ReportProperties.StrengthsRanked | src/analyzer/scoring.py:74-77 | the labelled strengths are three pairs, each a category with its own score, from the highest score down |
| ReportProperties.StrengthsLeftOut | src/analyzer/scoring.py:74-77 | no category missing from the strengths scores more than any strength |
| ReportProperties.RisksRanked | src/analyzer/scoring.py:78-81 | the labelled risks are three pairs, each a category with its own score, from the lowest score up |
| ReportProperties.RisksLeftOut | src/analyzer/scoring.py:78-81 | no category missing from the risks scores less than any risk |
| ReportProperties.StrengthsOfReport | src/analyzer/scoring.py:74-77 | the report's `top_strengths` are three categories with their own scores, non-increasing, and no category left out scores higher |
| ReportProperties.RisksOfReport | src/analyzer/scoring.py:78-81 | the report's `top_risks` are three categories with their own scores, non-decreasing, and no category left out scores lower |
| ReportProperties.ChunkNotes | src/analyzer/scoring.py:51-52 | a chunk whose notes are the strings ns contributes exactly ns, in order and with repeats |
| ReportProperties.TwoChunkRecommendations | tests/test_scoring_weights.py:37-48 | two chunks' notes are recommended in chunk order, at most ten; notes ["n1"] then ["n2"] give ["n1", "n2"] |
| ReportProperties.TwelveNotesGiveFirstTen | tests/test_scoring_weights.py:62-69 | one chunk with twelve notes is recommended exactly its first ten |
| ReportProperties.RepeatedFlagReportedOnce | tests/test_scoring_weights.py:64-68 | red flags ["a", "a", "b"] are reported once each, as ["a", "b"] |
| Text.LowerChar | src/main.py:83 | the result is never a capital; a capital becomes a lower-case letter of its block (a-z, or U+00E0..U+00FE without U+00F7); every other character is kept |
| Text.Lower | src/main.py:83 | lower-casing keeps the length and maps each character on its own |
| Text.LowerIdempotent | src/main.py:83 | lower-casing twice is lower-casing once |
| Text.LowerKeepsNonLetters | src/main.py:207 | a character that is not a letter appears in the lowered string exactly where it appears in the original |
| Text.LeadingSpaces | src/main.py:206 | the leading white-space run fits in the string |
| Text.LeadingSpacesSpec | src/main.py:206 | the leading run is all white space and stops at a non-space or at the end |
| Text.ContentEnd | src/main.py:206 | the content end lies within the string |
| Text.ContentEndSpec | src/main.py:206 | everything after the content end is white space, and the content ends at a non-space |
| Text.StripSpec | src/main.py:206 | `strip()` removes white space, and only white space, from both ends; what it keeps neither starts nor ends with white space |
| Text.Strip | src/main.py:206 | definition: the text between the leading and the trailing white-space runs; `StripSpec`, `StripIsPiece` and `StripIdempotent` state what it keeps |
| Text.StripIsPiece | src/main.py:206 | what `strip()` keeps is a substring of the text |
| Text.StripIdempotent | src/main.py:208 | stripping a stripped string changes nothing |
| Text.EmptyContainsOnlyEmpty | src/main.py:84 | the empty string contains no non-empty cue |
| Text.Contains | src/main.py:84 | definition: Python's `sub in s`, some index where sub occurs; `ContainsInSuffix` and `ContainsTransitive` are its helpers |
| Text.AfterFirst | src/main.py:208 | `split(c, 1)[1]` is the text after the first c |
| Text.AfterFirstAt | src/main.py:208 | the text after the first c is the text after whichever index holds the first c |
| Text.LineEnd | src/main.py:205 | the first line runs up to the first line-break character |
| Text.SplitLinesUnfold | src/main.py:205 | `splitlines()` gives the first line, then the lines of the remainder |
| Text.SplitLinesHaveNoBreaks | src/main.py:205 | no line from `splitlines()` holds a line-break character |
| Text.SplitLinesArePieces | src/main.py:205 | every line from `splitlines()` is a substring of the text |
| Text.SplitLines | src/main.py:205 | definition: the first line up to the first break, then the lines after that break; `SplitAtBreak`, `SplitLinesHaveNoBreaks` and `SplitLinesArePieces` state what it yields |
| Text.SplitAtBreak | src/main.py:205 | a break-free line followed by one break ends there, and the next line starts after the break; `\r\n` is a single break, every other break one character |
| Text.CrLfExample | src/main.py:205 | "a\r\nb" splits into ["a", "b"], and so does "a\rb\n" |
| Text.OneLine | src/main.py:205 | a non-empty text without line breaks is one line |
| Text.JoinConcat | src/main.py:456 | joining two non-empty lists joins their joins with the separator |
| Text.Join | src/main.py:456 | definition: the strings with the separator between neighbours; `JoinConcat` states how it splits |
| Discovery.NothingIsNotPrivacyLike | src/main.py:81-84 | neither None nor "" is privacy-like |
| Discovery.PrivacyLikeIgnoresCase | src/main.py:83-84 | a string and its lower-cased form are equally privacy-like |
| Discovery.IsPrivacyLike | src/main.py:81-84 | definition: some cue occurs in the lower-cased text, None reading as ""; `NothingIsNotPrivacyLike` and `PrivacyLikeIgnoresCase` state its edge cases |
| Discovery.Unique | src/main.py:214-219 | the de-duplicated list has no duplicates, the same elements as the input, and is no longer than it |
| Discovery.FirstIndex | src/main.py:216 | the first occurrence of an element |
| Discovery.UniqueKeepsFirstOrder | src/main.py:214-219 | the kept elements are in the order of their first occurrences |
| Discovery.UniqueAppend | src/main.py:211-219 | appending a new element adds it last; appending one already there changes nothing |
| Discovery.UniqueOfDistinct | src/main.py:214-219 | a duplicate-free list is left unchanged |
| Discovery.Dedup | src/main.py:214-219 | the `seen`-set loop computes the de-duplication |
| Discovery.DirectiveColon | src/main.py:207-208 | in a line that starts with "sitemap:" in any case, the first colon is the one at index 7 |
| Discovery.DirectiveIsPieceOfLine | src/main.py:205-210 | a declared sitemap is non-empty, already stripped, part of its line, and is the stripped rest after the "sitemap:" prefix |
| Discovery.SitemapDirective | src/main.py:206-210 | definition: what one robots.txt line declares; `DirectiveIsPieceOfLine` states what a declared sitemap is |
| Discovery.DeclaredByLines | src/main.py:205-210 | every declared sitemap is declared by some line |
| Discovery.DeclaredSitemaps | src/main.py:205-210 | the line loop collects the lines' declarations in order |
| Discovery.SitemapsFromRobots | src/main.py:198-219 | the result is the de-duplicated list of declared sitemaps, with the default appended when it was not declared |
| Discovery.SitemapsShape | src/main.py:211-219 | the default sitemap is present exactly once; there are no duplicates; the declared sitemaps keep their first-declared order ahead of an added default |
| Discovery.CandidatesArePrivacyLike | src/main.py:249-251 | every kept URL is non-empty and privacy-like |
| Discovery.CandidatesPrefix | src/main.py:248-251 | the URLs kept from a prefix of the document begin the URLs kept from the whole |
| Discovery.Candidates | src/main.py:248-251 | definition: the stripped, non-empty, privacy-like `<loc>` texts in document order; `CandidatesArePrivacyLike` and `CandidatesPrefix` state its properties |
| Discovery.LeafScan | src/main.py:248-253 | definition: the first candidates up to max(1, max_urls); `ScanLocs` proves the loop computes it and `LeafScanProperties` states its properties |
| Discovery.LeafScanStops | src/main.py:252-253 | stopping at the cap, or at the end of the document, yields the capped prefix of the candidates |
| Discovery.ScanLocs | src/main.py:248-253 | the scan loop with its early stop yields the first candidates up to the cap |
| Discovery.LeafSitemapUrls | src/main.py:247-259 | the leaf branch returns the de-duplicated capped candidates |
| Discovery.LeafScanProperties | src/main.py:247-259 | at most max(1, max_urls) URLs, each non-empty and privacy-like, no duplicates, taken from the front of the document-order candidates |
| ChunkCap.SliceIndex | src/main.py:455-456 | for k ≥ 0, `xs[:k]` keeps the first min(k, n) elements; for k < 0, `xs[k:]` keeps the last min(−k, n) |
| ChunkCap.MergeTail | src/main.py:454-457 | ≤ max_chunks chunks are unchanged; for 1 ≤ max_chunks < n: exactly max_chunks chunks, the first max_chunks−1 unchanged, and the last the rest joined with " " |
| ChunkCap.MergeTailKeepsText | src/main.py:454-457 | the merged chunks joined with spaces read the same as the original chunks joined with spaces |
| ChunkCap.MergeTailNonPositiveCap | src/main.py:454-457 | a cap of 0 or below follows negative slicing: the result has max(1, n + max_chunks) chunks |

## Left out

- Network, browser and file I/O in `src/main.py` is not modelled: requests, Selenium, trafilatura, BeautifulSoup, the OpenAI calls and printing. The robots.txt body and the `<loc>` texts are parameters, and a failed fetch is `None`.
- `urlparse` is left out: `SitemapsFromRobots` takes the scheme and network location as strings.
- Gzip decompression and XML parsing in `_fetch_sitemap_urls` are left out. So is the recursive sitemap-index branch (src/main.py:239-246), which fetches child sitemaps over the network.
- Chunk splitting, `analyze_chunk_json`, argument parsing and report shaping in `main` are left out. Only the tail merge is modelled.
- `PrivacyPolicy.py` and `src/privacy_policy_analyzer/prompts.py` are not part of this model.
- Text.Lower: covers ASCII and the Latin-1 capitals only. Python's `str.lower` also maps other scripts, some of them to several characters. Those mappings are left out.
- Rounding.Round2: rounds the exact value half to even. IEEE double arithmetic and its representation error are not modelled.
- Scoring.Chunk: `scores` and `rationales` are maps by type. The source calls `.get` on them without a type check, so a non-dict there fails in Python and is a precondition here.
- The Python `_REQUIRED_KEYS` loop order is set iteration order. The model visits the table's names instead; the work per key does not depend on the order.
- `aggregate_chunk_results` is one function. It is modelled as the methods `CollectChunk`, `CollectAll`, `WeighCategories` and `Aggregate`, in the source's order of steps.
- `_fetch_sitemap_urls`'s leaf loop and its de-duplication are modelled as `ScanLocs` followed by `Dedup`. The `break` becomes a `return` from `ScanLocs`.
- The robots line loop is modelled as `DeclaredSitemaps`, called from `SitemapsFromRobots`.
- With no input chunks, `aggregate_chunk_results` still reports three strengths and three risks, all at score 0.0. `Scoring.AggregatedBounds` proves that there are always exactly three of each.
