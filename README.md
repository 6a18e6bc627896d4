# Ticker scoreboard bot — verified model of its core

The bot reads Reddit text and counts stock-ticker mentions. It publishes two rankings.

- **Scoreboard.** For one daily discussion thread, tickers are ranked by how many distinct authors mention them.
- **Radar.** Tickers are ranked across several configured subreddits by engagement-weighted post counts.

This project models the logic behind both rankings in Dafny, together with the helpers they rely on:

- the ticker recogniser, i.e. the regular expression `TICKER_RE`;
- the candidacy filter;
- the stopword-file normalisation;
- the recency window;
- the search for the daily thread.

It then proves what these pieces promise.

Files and modules:

| file | module | models |
|---|---|---|
| `wrappers.dfy` | `Wrappers` | `Option` |
| `text.dfy` | `Text` | ASCII `upper()`, `lower()`, `strip()` |
| `tickers.dfy` | `Tickers` | `TICKER_RE`, `is_candidate_ticker`, `extract_tickers` |
| `ticker_examples.dfy` | `TickerExamples` | the sentence `"NASA1 AAPL, $F said TSLA2day"` worked through |
| `stopwords.dfy` | `Stopwords` | the line loop of `load_stopwords` |
| `ranking.dfy` | `Ranking` | `sorted(..., key=(metric, ticker), reverse=True)[:n]` |
| `window.dfy` | `Window` | `_within_hours` |
| `scoreboard.dfy` | `Scoreboard` | `build_scoreboard` |
| `radar.dfy` | `Radar` | `build_cross_sub_radar` |
| `daily_thread.dfy` | `DailyThread` | `find_latest_daily_thread` |

How the model is built:

- **The regular expression.** It is modelled the way a backtracking engine runs it:
  - the lookbehind is checked first;
  - then an optional `$` and a greedy run of up to five letters, with backtracking until the lookahead holds;
  - `finditer` resumes at the end of each match.

  `MatchAtIff` and `ScanExact` prove that this engine finds exactly the declarative matches. A declarative match is a maximal run of 1 to 5 letters that is not touched by `[A-Z0-9$]` before or `[A-Z0-9]` after, or such a run preceded by a `$` that is itself not touched.
- **Imperative loops become methods.** The code that fills lists, sets and dicts in loops becomes methods with loop invariants:
  - `ExtractTickers`;
  - `LoadStopwords`;
  - the tally loops of both rankings;
  - `FindLatestDailyThread`.

  Each method is proved against a specification function.
- **Python semantics made explicit:**
  - A sequence beside each dict lists its keys once each. The model does not prove that this sequence is the insertion order. Within one comment or post the order depends on Python's set iteration anyway, and the rankings do not depend on it (`Ranking.RankIgnoresOrder`).
  - Iteration over a Python `set` takes its elements in an arbitrary order (`:|`).
  - Sorting is a pure function specified by order and permutation.
- **Specification functions work on plain records.** The scoreboard reads each comment into a `Reading` (its author, its distinct tickers and its evidence). The radar reads each post into a `Gain`. The specification functions (`Authors`, `Best`, `Total`, `BestGain`) are defined over sequences of those records.

Where the code's behaviour differs from what its names or comments suggest, the model follows the code:

- **Tie order.** Ties in both rankings come in *reverse* lexicographic ticker order, because `reverse=True` applies to the whole `(metric, ticker)` key (bot.py:93, 205). See `Ranking.TiesReverseLexicographic`.
- **Stopwords and `$X`.** A `$` followed by one letter is a ticker even when that letter is a stopword (bot.py:129-133), so "a stopword never appears in the output" holds only for tokens of two or more letters. See `Tickers.ExtractedAreTickers` and `TickerExamples.DollarLetterSkipsStopwords`.
- **Best evidence.** A ranked ticker always has a best comment or post: the `None` fallbacks at bot.py:99 and 211 are never taken.
- **Malformed settings.** Malformed numeric settings are not recovered: `float()`/`int()` raise. The model's settings are numbers, and only missing, null and zero values fall back to defaults.

## Model

| member | source | states |
|---|---|---|
| Text.Upper | bot.py:127 | `upper()` on ASCII: same length, each lower-case letter mapped to its capital and every other character kept |
| Text.Lower | bot.py:191 | `lower()` on ASCII: same length, each capital mapped to its lower-case letter and every other character kept |
| Text.Strip | bot.py:119 | `strip()` is no longer than its input and neither starts nor ends with whitespace |
| Text.StripExact | bot.py:119 | `strip()` removes exactly a whitespace prefix and a whitespace suffix, leaving a contiguous slice of the input |
| Tickers.Greedy | bot.py:11 | `[A-Z]{1,5}` taken greedily: all letters, at most five, and stopped only by a non-letter, the end of the text or the cap |
| Tickers.GreedyExact | bot.py:11 | the greedy count equals the length of any maximal letter run within the cap |
| Tickers.Backtrack | bot.py:11 | backtracking only ends a match where the lookahead `(?![A-Z0-9])` holds |
| Tickers.LettersFromIff | bot.py:11 | the letter part matches from p to q exactly when p..q is a maximal run of 1 to 5 letters with the lookahead after it |
| Tickers.MatchAtIff | bot.py:11 | the engine's match at p ends at q exactly when p..q is a bare or a `$` token under the lookbehind and lookahead |
| Tickers.NoMatchInside | bot.py:11 | no match starts strictly inside another match |
| Tickers.Scan | bot.py:150 | `finditer` yields valid matches at or after the start, in order and without overlap |
| Tickers.ScanExact | bot.py:150 | `finditer` yields every match of the text and nothing else |
| Tickers.CandidateRules | bot.py:126-144 | `$` plus one letter is accepted; a bare single letter is rejected; any other token is accepted exactly when, without its `$`, it is neither a stopword nor AAAA, BBBB or CCCC |
| Tickers.ExtractTickers | bot.py:146-154 | the loop returns the accepted matches of the upper-cased text, without `$`, in text order with repeats kept |
| Tickers.Tokens | bot.py:150-151 | the raw match `m.group(1)` of each span is the text between its two ends, one per span, in order |
| Tickers.FilterMembers | bot.py:150-153 | a ticker is kept from a list of matches exactly when one of those matches passes the filter and is that ticker without its `$` |
| Tickers.FilteredIsMatch | bot.py:150-153 | every ticker kept from the scan comes from a match of the pattern that passes the filter |
| Tickers.MatchIsFiltered | bot.py:150-153 | every match of the pattern that passes the filter is kept from the scan, without its `$` |
| Tickers.ScanMembers | bot.py:150-153 | the tickers kept from the scan are exactly the accepted matches of the pattern, without `$` |
| Tickers.ExtractMembers | bot.py:146-154 | t is extracted exactly when some match of the upper-cased text passes the filter and is t without its `$` |
| Tickers.ExtractedAreTickers | bot.py:146-154 | every extracted ticker is 1 to 5 capitals with no `$`; one of two or more letters is neither a stopword nor on the reject list |
| Tickers.AcceptedMatchIsTicker | bot.py:126-144 | an accepted match of the upper-cased text, without its `$`, is 1 to 5 capitals, and one of two or more letters passed the stopword and reject checks |
| Tickers.EmptyTextYieldsNothing | bot.py:147-148 | empty text yields `[]` |
| Tickers.NoMatchInLongRun | bot.py:11 | no match lies in or touches a run of more than five letters |
| Tickers.NoMatchTouchingDigit | bot.py:11 | no match uses a letter run that a digit touches on either side, as in "NASA1" or "TSLA2DAY" |
| Tickers.NoMatchAfterBlockedDollar | bot.py:11 | a `$` right after a letter, digit or `$` starts no match, and neither do the letters after it |
| Tickers.ScanSplit | bot.py:150 | around a separator, the matches of the joined text are those of each side, the right side's shifted |
| Tickers.FilterAppend | bot.py:150-153 | filtering two lists of matches gives the concatenation of filtering each |
| Tickers.TokensAppend | bot.py:150-151 | the raw matches of two span lists are the raw matches of each, one after the other |
| Tickers.SliceEmbedded | bot.py:150-151 | a slice of a text that occurs inside a larger one at offset d is the same slice of the larger one, shifted by d |
| Tickers.TokensEmbedded | bot.py:150-151 | the raw matches of a text's spans, shifted to where the text occurs inside a larger one, read the same there |
| Tickers.ExtractSplit | bot.py:146-154 | text joined at a separator yields the tickers of the left part followed by those of the right part: text order, repeats kept |
| TickerExamples.SaidIsStopword | bot.py:139-140 | "said" in any case, with stopword SAID, yields nothing |
| TickerExamples.TslaTouchesDigit | bot.py:11 | "TSLA2day" yields nothing |
| TickerExamples.NasaTouchesDigit | bot.py:11 | "NASA1" yields nothing |
| TickerExamples.DollarLetterSkipsStopwords | bot.py:129-133 | `$` followed by any one ASCII letter, in either case, yields that letter as a capital, even when the letter is a stopword |
| TickerExamples.DollarF | bot.py:129-133 | "$F" with stopword SAID yields F |
| TickerExamples.Aapl | bot.py:146-154 | "AAPL" yields AAPL |
| TickerExamples.FiveWords | bot.py:146-154 | five words joined by separators yield their tickers word by word |
| TickerExamples.SentenceByWords | bot.py:146-154 | the sentence yields the tickers of its five words, one word after the other |
| TickerExamples.Sentence | bot.py:146-154 | "NASA1 AAPL, $F said TSLA2day" with stopword SAID yields exactly AAPL then F |
| Stopwords.LoadStopwords | bot.py:118-121 | the set holds exactly the stripped, upper-cased lines that are non-empty and do not start with `#` |
| Stopwords.NormalizeShape | bot.py:119 | `line.strip().upper()` has no whitespace at either end and no lower-case letter |
| Stopwords.StopwordsNormalised | bot.py:119-121 | every stopword is non-empty, does not start with `#` or end in whitespace, and has no lower-case letter |
| Ranking.LexTransitive | bot.py:205 | Python's string order is transitive |
| Ranking.LexTotal | bot.py:205 | Python's string order is total |
| Ranking.KeyTransitive | bot.py:205 | the `(metric, ticker)` key order is transitive |
| Ranking.KeyTotal | bot.py:205 | the `(metric, ticker)` key order is total |
| Ranking.TiesReverseLexicographic | bot.py:205 | in a strictly descending ranking, equal metrics come in reverse lexicographic ticker order |
| Ranking.Insert | bot.py:205 | inserting into a descending list keeps it descending and adds exactly one element |
| Ranking.SortDesc | bot.py:205 | `sorted(..., reverse=True)`: a descending permutation of its input |
| Ranking.SliceLen | bot.py:206 | the length of `xs[:n]`: `min(n, len)` for `n >= 0`, and a negative n drops that many from the end |
| Ranking.Rank | bot.py:205-206 | the sorted, cut table is as long as the slice, descending, and drawn from the table; it is strictly descending for distinct tickers; everything left out ranks below everything kept |
| Ranking.DescendingUnique | bot.py:205 | two descending permutations of the same table with distinct tickers are equal |
| Ranking.RankIgnoresOrder | bot.py:205-206 | the ranking does not depend on the order in which the dict was filled |
| Ranking.DistinctCard | bot.py:205 | a dict's keys listed once each are as many as the dict has |
| Window.WithinHoursMeaning | bot.py:26-28 | a time is within the window exactly when it is at most `hours * 3600` seconds before now; a longer window keeps it |
| Scoreboard.ReadAll | bot.py:186-194 | each comment is read on its own, in order |
| Scoreboard.AuthorsExact | bot.py:186-197 | a ticker's author set holds exactly the lower-cased authors of the counted comments that mention it |
| Scoreboard.MentionedExact | bot.py:186-197 | a ticker is a key exactly when some counted comment mentions it, exactly when its author set is non-empty, and exactly when it has a best comment |
| Scoreboard.BestExact | bot.py:199-203 | a ticker's best comment is the earliest of its highest-scoring mentioning comments |
| Scoreboard.SilentCommentChangesNothing | bot.py:187-194 | a comment without body, without author or without tickers changes no author set, best comment or key |
| Scoreboard.RepeatAuthorCountsOnce | bot.py:196-197 | another mention by an author already counted leaves the author set unchanged |
| Scoreboard.TallyTicker | bot.py:196-203 | adding one more ticker of a comment to the dicts keeps them equal to the specification functions, that ticker now counted |
| Scoreboard.CountTicker | bot.py:196-203 | one ticker of a comment gains the author, and the comment becomes its best when it has none or scores strictly higher |
| Scoreboard.CountTickers | bot.py:196-203 | after the ticker loop the dicts hold the tally of all comments so far, this one included |
| Scoreboard.CountComment | bot.py:187-203 | one comment updates the dicts by exactly what its reading contributes; one without body, author or ticker changes nothing |
| Scoreboard.TallyComments | bot.py:183-203 | the comment loop leaves each ticker's author set and best comment as their specification functions state, and the key sequence lists each key once |
| Scoreboard.Tabulate | bot.py:205 | `ticker_authors.items()` as `(ticker, author count)` pairs, in the order of the key sequence |
| Scoreboard.TableEntryReports | bot.py:205-216 | every pair of the table becomes an item that reports its ticker's author count and best comment link |
| Scoreboard.ReportRanked | bot.py:207-216 | one item per ranked pair, in order, each reporting its ticker |
| Scoreboard.OmittedRanksBelow | bot.py:205-206 | a ticker cut by the slice ranks below every item kept |
| Scoreboard.RankTally | bot.py:205-217 | as many items as the slice keeps, each reporting its ticker's distinct-author count and best comment link (never absent), strictly descending by (count, ticker), every omitted ticker ranking below every item |
| Scoreboard.BuildScoreboard | bot.py:177-217 | `build_scoreboard` over a thread's top-level comments, with the ranking guarantees of `RankTally` |
| Radar.FalsyFallsBack | bot.py:37-50 | a missing or zero weight, lookback, post limit or output cap takes its default (0.35, 24, 40, 8); any other value is used as given |
| Radar.ListingChoice | bot.py:53-62 | `new` and `top` are chosen exactly for those modes, ignoring case and padding, `top` only where supported; `hot` is chosen otherwise |
| Radar.Engagement | bot.py:79-82 | `min(1 + log1p(score) + 0.5 * log1p(comments), 12)` lies between 1 and 12 |
| Radar.PostGainExact | bot.py:64-84 | a post contributes exactly when its timestamp is readable, within the window, and its text names a ticker; then each distinct ticker gains `weight * engagement`, with the post's link and `"r/" + name` as source |
| Radar.GainBounds | bot.py:79-86 | for a non-negative weight a post adds between `weight` and `12 * weight` |
| Radar.WeightOrdersGain | bot.py:86 | a larger source weight makes the same post contribute strictly more |
| Radar.ConcatAppend | bot.py:43 | the contributions of concatenated source lists are concatenated |
| Radar.BlankSourceIgnored | bot.py:44-46 | a source whose name is blank contributes nothing wherever it stands |
| Radar.RadarTickersExact | bot.py:85-91 | a ticker is a key exactly when some contribution names it, exactly when it has a best contribution |
| Radar.TotalAppend | bot.py:87 | a ticker's total over two runs of contributions is the sum of the two totals |
| Radar.TotalIgnoresOthers | bot.py:87 | contributions that do not name a ticker leave its total at zero |
| Radar.BestGainExact | bot.py:88-91 | a ticker's best link and source come from one post, the earliest of its largest contributions |
| Radar.CreditTicker | bot.py:86-91 | one ticker of a post gains `inc` and takes the post as best when it has none or is strictly beaten |
| Radar.CreditTickers | bot.py:85-91 | after the ticker loop the dicts hold the totals and best contributions of all posts so far, this one included |
| Radar.CreditPost | bot.py:64-91 | one post updates the dicts by exactly its contribution, if it has one |
| Radar.AccumulatePosts | bot.py:64-91 | after the post loop the dicts hold the totals and best contributions including this source's posts |
| Radar.CreditSource | bot.py:44-91 | one source, with its defaults and listing applied, adds exactly its contributions |
| Radar.AccumulateSources | bot.py:43-91 | after the source loop `agg_score` holds every ticker's total, `best_link` and `best_src` its earliest largest contribution, and the key order lists each key once |
| Radar.TableEntryReports | bot.py:93-101 | every row of `agg_score.items()` becomes an item that reports its ticker's total, best post and best source |
| Radar.OmittedRanksBelow | bot.py:93 | a ticker cut by the slice ranks below every item kept |
| Radar.Tabulate | bot.py:93 | `agg_score.items()` as `(ticker, total)` pairs, in the order of the key sequence |
| Radar.ReportRanked | bot.py:94-101 | one item per ranked pair, in order, each reporting its ticker |
| Radar.RankRadar | bot.py:93-102 | as many items as `[:max_out]` keeps, each with its ticker's total and its best post and source (never absent), strictly descending by (score, ticker), every omitted ticker ranking below every item |
| Radar.BuildCrossSubRadar | bot.py:30-102 | disabled yields `[]`; enabled yields the ranking of the totals of every configured source's contributions, as `RankRadar` states |
| DailyThread.FindLatestDailyThread | bot.py:165-175 | returns the first of the 50 newest posts whose stripped title starts with the prefix, provided it and every post before it are within the window; otherwise None |
| DailyThread.FirstDailyUnique | bot.py:168-174 | at most one post satisfies the stopping condition, so the result is determined |

## Left out

- Reddit I/O is not modelled: `praw_client`, `main`, `thread.reply`, `thread.comments.replace_more`, `r.subreddit` and the listings `new`/`hot`/`top`. Comments, posts and listings are inputs: a sequence of comments, a sequence of thread posts, and a function `fetch(name, listing, limit)`.
- The `try/except` around `sub.top` is not modelled as an exception: whether a subreddit supports `top` is an input `topOk`.
- File and environment I/O is not modelled: `load_config`, opening the stopword file (the model takes its lines), `_env_int` and `_env_str`.
- `format_comment` is not modelled: it is presentation text and reads the wall clock.
- Radar.Engagement: `math.log1p` is floating point, so a post carries the two `log1p` terms as non-negative reals. The formula `1 + a + 0.5 * b` and the cap at 12 are modelled.
- Radar.RankRadar: `round(sc, 2)` is not applied; the reported score is the unrounded total.
- Floating-point sums are modelled as exact reals.
- Radar.FalsyFallsBack: the settings are already numbers. A value that `float()`/`int()` would reject (which raises), or a string such as "0", is not modelled.
- Radar.FalsyFallsBack: the integer settings are whole numbers. `int(x or d)` truncates a fractional value after the `or` test (bot.py:37, 49-50), so `lookback_hours: 0.5` gives a 0-hour window rather than the default 24, and `cross_max_tickers: 2.9` gives 2. The model cannot express a fractional integer setting.
- Radar.Fetched: how many posts a listing returns for a given `limit_posts` is left to the input `fetch`.
- Text defaults: the `or ""` defaults of title, body and permalink are folded into the inputs, which are strings. A missing `mode` is written as `"hot"`.
- Time: the clock is one input `now`, in whole seconds, read once. The code reads it per post, in `_within_hours`, and once per search.
- Window.WithinHoursMeaning: Python's `datetime` range (years 1 to 9999) is not modelled; times and cutoffs are unbounded integers. `now - timedelta(hours=hours)` raises OverflowError once the cutoff falls before year 1 (a lookback of about 17.7 million hours or more), and so does an out-of-range `created_utc`. In the radar that raise is caught by the `try` (bot.py:65-69), so every post of such a source is skipped, while the model counts the recent posts. In `find_latest_daily_thread` (bot.py:168-170) it escapes the function, while the model returns a post.
- Radar.PostGainExact: a timestamp that cannot be read, which raises inside the `try`, is written as `created == None`. In `find_latest_daily_thread` there is no `try`, and the timestamp is always present.
- Unicode: `upper()`, `lower()` and `strip()` are modelled on ASCII only. Unicode case mapping and Unicode whitespace are not modelled.
