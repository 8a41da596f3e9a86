# Football odds consensus and Polymarket matching — a Dafny model

This project models the core of a football betting-odds bot. The bot reads head-to-head
(h2h) bookmaker prices for league fixtures, turns each price into an implied probability,
and normalizes each bookmaker's three-way market (home, draw, away) so that it sums to one.
It averages the normalized probabilities across bookmakers into a consensus and recommends
the outcome with the highest consensus. The confidence of that recommendation is the gap to
the runner-up. For presentation the reports are grouped into ascending match days and indexed
by match id. Team names are abbreviated to short codes. Each report is also matched to a
Polymarket market whose normalized question names both teams.

The modules follow the program's structure:

- `Wrappers`: `Option` and `Result`.
- `Sorting`: a stable insertion sort by a real-valued key. It models Python's `sorted` and `list.sort`, with `reverse=True` modelled as the ascending sort on the negated key.
- `Probability`: implied probability and normalization of a (home, draw, away) triple.
- `Consensus`: per-outcome averages over the bookmakers that quote the outcome, and the recommendation.
- `Timestamps`: timezone-aware instants, their local calendar date and their UTC sort key.
- `Batches`: running a builder over a batch, where one failing item aborts the whole batch.
- `Reports`: building reports from typed raw events.
- `TextUtils`: `normalize_text` and `short_team_code`.
- `Schedule`: match-day grouping and the match index.
- `Polymarket`: the market listing filter, de-duplication by normalized question, and report-to-market matching.

Probabilities are exact `real` numbers, so "sums to one" is stated exactly. An ISO 8601
parser is a parameter (`Reports.Parser`). It returns `None` where the real parser raises.

A complete event whose kickoff or `last_update` does not parse is not skipped: `isoparse`
raises out of `_build_reports` (src/odds_api.py:218, 245-248) and aborts the whole batch.
`Reports.BuildReports` therefore returns a `Result`, and `Reports.UnparsableKickoffAborts`
and `Reports.UnparsableLastUpdateAborts` state the abort.

## Model

| member | source | states |
|---|---|---|
| Probability.ImpliedProbability | src/odds_api.py:63-68 | a probability exists exactly for a present, positive price; it is then positive and its product with the price is one |
| Probability.Normalize | src/odds_api.py:71-85 | presence of each outcome is preserved; with nothing present or a non-positive total the triple is returned unchanged; otherwise the present values sum to exactly one and each is its input divided by the common total |
| Probability.Rescale | src/odds_api.py:80-85 | dividing by a positive total keeps each outcome's presence, divides the present sum by the total, and each present value times the total gives back its input |
| Probability.NormalizeIdempotent | src/odds_api.py:71-85 | normalizing an already normalized triple changes nothing |
| Probability.NormalizePositiveIsUnit | src/odds_api.py:71-85 | positive inputs normalize to values in (0, 1] that sum to one whenever any is present |
| Probability.NormalizeExample | src/odds_api.py:63-85 | prices 2.0, 3.0, 4.0 give the margin-free probabilities 6/13, 4/13, 3/13 |
| Consensus.Mean | src/odds_api.py:286-287 | the mean is absent exactly for an empty list; otherwise the mean times the count is the sum |
| Consensus.SumOfPresent | src/odds_api.py:289-291 | the values collected for an outcome sum to the total quoted for it over all sources |
| Consensus.ReportingNone | src/odds_api.py:289-291 | no value is collected for an outcome exactly when every source lacks it |
| Consensus.MeanOf | src/odds_api.py:286-291 | an outcome's mean is absent exactly when no source quotes it, otherwise it is the mean over the quoting sources |
| Consensus.Averages | src/odds_api.py:279-293 | no sources give no averages; each average is absent exactly when no source quotes that outcome, and otherwise it is the mean over the quoting sources only |
| Consensus.AveragesInUnit | src/odds_api.py:279-293 | sources with probabilities in (0, 1] give averages in (0, 1] |
| Consensus.MeanBounds | src/odds_api.py:286-287 | a mean lies between any lower and upper bound of its values |
| Consensus.AveragesOverReportingSubset | src/odds_api.py:289-293 | quotes 0.5 and 0.7 and a silent source average to 0.6: silent sources do not dilute the mean |
| Consensus.Recommend | src/odds_api.py:295-315 | an outcome is recommended exactly when some average is present, and it has the largest average; a margin exists exactly when at least two averages are present, and it is non-negative |
| Consensus.RecommendTieBreak | src/odds_api.py:301-313 | every present outcome earlier than the recommendation in home, draw, away order has a strictly smaller average, so ties go to the earliest outcome |
| Consensus.RecommendGap | src/odds_api.py:312-315 | the margin is the recommended average minus the largest average among the other present outcomes |
| Consensus.RecommendExample | src/odds_api.py:295-315 | averages 0.5, 0.3, 0.2 recommend home with margin 0.2 |
| Sorting.Sort | src/odds_api.py:312 | the result is a permutation of the input, sorted by the key, and stable: the elements sharing any key keep their relative order |
| Sorting.SortStrict | src/services.py:198 | elements with pairwise distinct keys come out in strictly increasing key order |
| Reports.Kept | src/odds_api.py:211-217 | an event is kept exactly when it is in the input and has an id, both team names and a kickoff time |
| Reports.KeptAppend | src/odds_api.py:211-217 | keeping distributes over concatenation, so the kept events stay in input order |
| Batches.FilterAppend | src/odds_api.py:211-217 | filtering distributes over concatenation, so the filtered items stay in input order |
| Reports.FirstH2h | src/odds_api.py:221-227 | no market is found exactly when none is keyed "h2h"; otherwise the first market keyed "h2h" is found |
| Reports.Classify | src/odds_api.py:234-239 | an outcome name fills the home slot when it equals the home team, the away slot when it equals the away team but not the home team, and the draw slot when it is neither team and reads "draw" or "tie" in any letter case; any other name fills no slot |
| Reports.Fill | src/odds_api.py:230-239 | one outcome updates exactly the slot its name selects, to the implied probability of its price, and keeps every other slot |
| Reports.ReadOutcomesLastWins | src/odds_api.py:229-239 | a slot holds the implied probability of the last outcome that selects it, and stays empty when no outcome selects it |
| Reports.ParseOptional | src/odds_api.py:245-248 | a missing or empty timestamp gives none; a present one gives the parsed instant, or a failure when the parser rejects it |
| Reports.BuildSource | src/odds_api.py:222-257 | a bookmaker without an h2h market gives no source; the build fails, naming the timestamp, exactly when its first h2h market has a last-update timestamp the parser rejects; otherwise its source carries its key, or "unknown", the normalized probabilities read from that market, and the market's parsed last update, absent when missing or empty |
| Batches.CollectShape | src/odds_api.py:210-276 | a batch that does not fail holds one result per item the builder keeps, in item order, each related to its item as the builder promises |
| Batches.CollectAppend | src/odds_api.py:210-277 | a batch over a concatenation fails with the first part's failure, else the second part's, else concatenates the two results |
| Batches.CollectTotal | src/odds_api.py:210-277 | a builder that never fails never makes the batch fail |
| Batches.CollectSkip | src/odds_api.py:216-217 | an item for which the builder yields nothing can be removed without changing the batch |
| Batches.CollectAbort | src/odds_api.py:218 | an item whose builder fails makes the batch fail, with that item's failure unless an earlier item already failed |
| Reports.BuildSourcesShape | src/odds_api.py:220-257 | there is one source per bookmaker that quotes an h2h market, in bookmaker order, each carrying that bookmaker's key, normalized probabilities and parsed last update |
| Reports.BuildSourcesNormalized | src/odds_api.py:241-243 | every source's present probabilities lie in (0, 1] and sum to one when any is present |
| Reports.BuildReport | src/odds_api.py:211-276 | an incomplete event gives no report, and a complete one that builds gives a report |
| Reports.BuildReportsShape | src/odds_api.py:204-277 | there is exactly one report per complete event, in input order, carrying the event's identity and parsed kickoff, its sources, and the consensus and recommendation computed from them |
| Reports.BuildReportsAppend | src/odds_api.py:210-277 | building a concatenation fails with the first part's failure, else the second part's, else concatenates the reports |
| Reports.SkipIncomplete | src/odds_api.py:216-217 | inserting an incomplete event anywhere changes nothing |
| Reports.UnparsableKickoffAborts | src/odds_api.py:218 | a complete event whose kickoff the parser rejects makes the whole batch fail with that timestamp, unless an earlier event already failed |
| Reports.UnparsableLastUpdateAborts | src/odds_api.py:245-248 | a complete event with a parsable kickoff and a bookmaker whose h2h last-update timestamp the parser rejects makes the whole batch fail, naming that timestamp unless an earlier event or bookmaker already failed |
| Batches.CollectFails | src/odds_api.py:210-277 | a batch fails exactly when the builder fails on one of its items |
| Reports.BuildReportsFails | src/odds_api.py:216-248 | the build fails exactly when some complete event has a kickoff, or a bookmaker whose first h2h market has a last-update timestamp, that the parser rejects |
| Reports.BuildReportsTotal | src/odds_api.py:204-277 | with a parser that accepts every string the build never fails |
| Reports.ReportsInUnit | src/odds_api.py:259-260 | every report has its averages in (0, 1] and its confidence in [0, 1) |
| Reports.SingleBookmakerExample | src/odds_api.py:204-277 | one bookmaker quoting Arsenal 2.0, Draw 3.0, Chelsea 4.0 yields averages 6/13, 4/13, 3/13, a home recommendation and confidence 2/13 |
| TextUtils.SplitOnJoin | src/text_utils.py:20 | joining the pieces of a split on a character with that character gives back the string |
| TextUtils.NormalizeText | src/text_utils.py:33-48 | the result holds only lower-case letters, digits and single inner spaces, with no leading or trailing space |
| TextUtils.NormalizeTextTokens | src/text_utils.py:33-48 | the output is the input's ASCII letter-and-digit runs, each lower-cased, in input order, joined by single spaces; every other character only separates runs |
| TextUtils.NormalizeTextExample | src/text_utils.py:33-48 | "A-b" normalizes to "a b" |
| TextUtils.AsciiOnlyKeeps | src/text_utils.py:45-46 | dropping non-ASCII characters leaves an ASCII string unchanged |
| TextUtils.WordsJoin | src/text_utils.py:48 | splitting a normalized string on whitespace and joining with single spaces gives it back |
| TextUtils.CanonicalFixed | src/text_utils.py:33-48 | a normalized string is its own normalization |
| TextUtils.NormalizeTextIdempotent | src/text_utils.py:33-48 | normalizing twice equals normalizing once |
| TextUtils.ShortTeamCode | src/text_utils.py:10-30 | the code has one to four characters, is "?" for an empty name, and a four-character code has no lower-case letter |
| TextUtils.NoWordsWhenBlank | src/text_utils.py:15-23 | a name that normalizes to nothing has no words left to abbreviate |
| TextUtils.ShortTeamCodeInitials | src/text_utils.py:20-27 | with two or more words other than "and", the code is their upper-cased initials, at most four |
| TextUtils.ShortTeamCodeOneWord | src/text_utils.py:20-30 | with a single word other than "and", the code is its first three characters, upper-cased |
| Schedule.OutcomeLabelDistinguishesDraw | src/services.py:99-104 | the label of an outcome is "Draw" exactly for the draw, and the home or away team code otherwise |
| Schedule.SummariesMembers | src/services.py:184-188 | a summary is scheduled exactly when its report is in the input and has both team names |
| Schedule.SummariesAppend | src/services.py:184-188 | summarizing distributes over concatenation, so the summaries keep the reports' input order |
| Schedule.AddToDay | src/services.py:189-192 | adding a summary never makes two buckets share a date |
| Schedule.AddToDaySpec | src/services.py:189-192 | a summary joins the end of the bucket of its date and every other bucket is unchanged; for a new date one bucket holding just the summary is opened at the end |
| Schedule.Group | src/services.py:181-192 | the buckets have distinct dates, one per date that occurs, each holding exactly that date's summaries in input order |
| Schedule.ScheduleBuckets | src/services.py:176-204 | each bucket is non-empty and holds its date's summaries sorted by kickoff |
| Schedule.ScheduleAscending | src/services.py:198 | bucket dates are strictly increasing |
| Schedule.ScheduleDates | src/services.py:189-198 | the bucket dates are exactly the kickoff dates of the schedulable reports |
| Schedule.ScheduleMembership | src/services.py:184-196 | a report's summary is in a bucket exactly when the report is in the input, has both team names, and kicks off on that bucket's date |
| Schedule.EveryReportScheduled | src/services.py:184-192 | every schedulable report appears in the bucket of its kickoff date |
| Schedule.ScheduleTotal | src/services.py:184-198 | the buckets hold as many matches as there are schedulable reports |
| Schedule.IndexKeys | src/services.py:193 | the index has a key exactly for each match id that occurs |
| Schedule.IndexLastWins | src/services.py:193 | the index maps an id to the last summary with that id |
| Schedule.ScheduleIndex | src/services.py:182-203 | the schedule's index holds exactly the ids of schedulable reports, each mapped to its last summary |
| Polymarket.ContainsAt | src/polymarket.py:114 | the substring test holds exactly when the needle occurs at some position |
| Polymarket.FilterMarkets | src/polymarket.py:84-87 | a market is listed exactly when it is in the input, has a question, and is active and not closed unless closed markets are asked for |
| Polymarket.FilterMarketsAppend | src/polymarket.py:69-88 | filtering distributes over concatenation, so the listing keeps input order |
| Polymarket.FilterModes | src/polymarket.py:84-87 | asking for closed markets lists every market with a question; otherwise only active, open ones are listed |
| Polymarket.Put | src/polymarket.py:96-98 | binding a question to a market never makes two entries share a question |
| Polymarket.PutAt | src/polymarket.py:96-98 | binding a question keeps the place of an existing key and replaces its market, adds a new key at the end, and leaves every other entry as it was |
| Polymarket.PutKeys | src/polymarket.py:96-98 | after binding, the keys are exactly the old keys plus the bound question |
| Polymarket.FirstIndexOfSpec | src/polymarket.py:96-98 | the first-position search finds the first market with a question, and -1 exactly when there is none |
| Polymarket.LastIndexOfSpec | src/polymarket.py:96-98 | the last-position search finds the last market with a question, and -1 exactly when there is none |
| Polymarket.TableKeyed | src/polymarket.py:96-98 | the question table has one key per question that occurs, in order of first occurrence, each bound to the last market with that question |
| Polymarket.EntriesFromMarkets | src/polymarket.py:38-40 | every table entry holds a listed market whose normalized question is the entry's key |
| Polymarket.EntriesCoverMarkets | src/polymarket.py:96-98 | every market's normalized question is a key of the table |
| Polymarket.FirstNaming | src/polymarket.py:112-119 | nothing is found exactly when no question contains both names; otherwise the first entry whose question contains both is found |
| Polymarket.MarketForIsFirstNaming | src/polymarket.py:103-119 | the four fixture phrasings have no effect: the match is the first table entry whose question contains both normalized team names |
| Polymarket.RecordKeys | src/polymarket.py:121-122 | an id is recorded exactly when some report with that id found a market |
| Polymarket.RecordLastWins | src/polymarket.py:121-122 | the recorded market is the one found by the last report with that id that found one; later misses keep it |
| Polymarket.MatchKeys | src/polymarket.py:91-124 | an id is mapped exactly when some report with that id was matched, and it is mapped to the last such match |
| Polymarket.MatchSound | src/polymarket.py:91-124 | a mapped market is one of the listing, and its normalized question contains both normalized team names of a report with that id |
| Polymarket.MatchComplete | src/polymarket.py:91-124 | a report is always mapped when some listed market's normalized question contains both of its normalized team names |
| Polymarket.BlankNamesMatchFirst | src/polymarket.py:103-116 | a report whose names both normalize to empty is matched to the table's first entry, the one for the first listed market's question |

## Left out

- HTTP clients, retry sessions, API keys, the Telegram bot, the CLI entry point, the schedule cache, its lock and clock: they are I/O and orchestration around the modelled core.
- Raw JSON handling: events, bookmakers, markets and outcomes are typed records with optional fields. The conversion of raw Polymarket payloads in `get_active_markets` (lines 69-83, falling back through several field names) is not modelled; the filter at lines 84-87 is.
- ISO 8601 parsing is a parameter, `Reports.Parser`; `None` stands for the parser raising.
- Floating point: probabilities, averages and margins are exact reals, so rounding in `1.0 / price` and in the sums is not modelled.
- Timestamps are UTC seconds with a UTC offset. Ordering is by the UTC moment and the calendar date is taken in the instant's own offset. Calendar arithmetic beyond the day number is not modelled.
- TextUtils.NormalizeText: Unicode NFKD decomposition is not modelled. Non-ASCII characters are dropped, which matches the ASCII-ignore encoding step for characters with no ASCII decomposition. An accented Latin letter loses its base letter here, while the source keeps it.
- Reports.Classify: the "draw"/"tie" test folds the case of ASCII letters only, where the source lower-cases any Unicode letter. Outcome names are strings or absent; a non-string name is not modelled.
- TextUtils.ShortTeamCode: upper-casing is ASCII only. This matters in the branch for names that normalize to nothing, where the source upper-cases the raw, possibly non-ASCII, name.
- Message formatting (`format_summary`, `format_sources`, percentages, HTML) is presentation; only the outcome label is modelled.
- A `MatchProbabilityReport` always has its kickoff instant, which is truthy in Python, so the schedule filter tests only the team names.
