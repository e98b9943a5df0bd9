# OddsOptimizer in Dafny

OddsOptimizer finds football bets with positive expected value and decides how much to stake on them. This project models the arithmetic and the selection rules behind those decisions:

- A match becomes three outcomes: win, draw and loss.
- A parlay's probability and odds are the products over its outcomes. Its expected value (EV) is P·O − 1 for a one-unit stake.
- The stake is the Kelly fraction.
- The parlay enumerator takes every k-combination of the outcome pool and keeps those with k distinct fixtures. It stable-sorts them by EV, descending, and keeps only those with EV > 0.
- Each pending fixture gets its first maximal-EV outcome and a Kelly-sized risk. Risks are then rescaled so that they sum to a ceiling.
- Bets are settled.
- Team names are translated between bookmaker and statistics spellings.
- The strata helpers sample the best parlay per size and matchday. They filter outliers, group records by parlay size and assign values to half-open bins.

Every probability, odds value, EV and stake is an exact `real`. A Python exception that the code can reach becomes a `Failure` of `Wrappers.Result`, and its `Error` names the exception, except the unguarded cases listed under "## Left out". Code that is foreign to the model becomes a function-typed parameter:

- `float()`;
- `ast.literal_eval`;
- the fuzzy matcher `process.extractOne`.

The model follows the source's own form:

- Pure Python functions are Dafny functions with lemmas.
- Loops that append to a list are methods with loop invariants. Each ensures its result equals a specification function, and the properties are proved about that function.
- The DataFrame updates of `calc_ev_risk`, `add_odds` and `normalize_risk` are methods over an `array` of pending-bet rows. Each ensures the new array equals a function of the old one.

Modules, one per source file:

| module | source |
|---|---|
| `Wrappers` | the shared `Option`/`Result` types |
| `Strings` | strip, the split on `},`, and character removal and replacement |
| `SingleEv` | utils/calc_ev_outcome.py and utils/kelly.py |
| `Loader` | utils/loader.py |
| `ParlayEv` | utils/calc_ev_from_prob.py |
| `Enumerator` | src/ev_calc.py, plus the dead ranking of utils/calc_ev_from_prob.py |
| `Update` | src/update.py |
| `Executor` | src/executor.py |
| `TeamMap` | utils/team_map.py |
| `Strata` | utils/get_strata.py |

## Model

| member | source | states |
|---|---|---|
| Loader.GenerateOutcomes | utils/loader.py:20-25 | exactly three outcomes, labelled Win, Draw, Loss in that order, each carrying the match's fixture |
| Loader.GenerateOutcomesRoundTrip | utils/loader.py:22-24 | the match can be rebuilt from its three outcomes, so every probability and odds value is copied unchanged |
| Loader.OutcomeProbabilitiesSum | utils/loader.py:22-24 | the outcomes' probabilities sum to the match's three probabilities |
| Strings.SplitEntries | utils/loader.py:12 | splitting on every `},` gives one more entry than there are separators, no entry contains a separator, and joining the entries back with `},` yields the file text |
| Loader.EvalTextEndsWithBrace | utils/loader.py:14-16 | the text handed to `literal_eval` always ends with `}`; the brace is appended exactly when the stripped entry does not already end with one |
| Loader.EvalText | utils/loader.py:14-16 | the text handed to `literal_eval` for an entry ends with `}` |
| Loader.ParseTexts | utils/loader.py:13-18 | a successful load yields one match per entry |
| Strings.StripAppend | utils/loader.py:14-16 | stripping an entry after appending a non-blank character keeps that character last |
| Loader.EvalTexts | utils/loader.py:13-16 | one prepared text per entry, in the same order |
| Loader.ParseTextsSuccess | utils/loader.py:13-18 | loading succeeds iff every entry parses; it then yields one match per entry, in file order |
| Loader.ParseTextsFailure | utils/loader.py:13-18 | a failed load reports the error of the first entry that does not parse |
| Loader.ParseTextsPrefixFailure | utils/loader.py:13-18 | once a prefix of the entries fails, later entries do not change the outcome |
| Loader.ParseEntryList | utils/loader.py:13-17 | the loop over entries (with its `+=` and append) computes the specification over the prepared texts |
| Loader.LoadMatchesFromText | utils/loader.py:8-18 | loading a file's text is the specification applied to its split entries |
| Loader.LoadMatchesMeaning | utils/loader.py:12-18 | for a whole file: success iff every entry parses, one match per separator plus one, in order; a failure names the first failing entry |
| ParlayEv.CalculateParlayEv | utils/calc_ev_from_prob.py:7-17 | the probability and odds are the products over the members, and EV = P·(O−1) − (1−P) = P·O − 1; an empty parlay is excluded, as `reduce` raises on it |
| ParlayEv.ReduceIsProduct | utils/calc_ev_from_prob.py:8-10 | the left fold of `reduce` equals the product |
| ParlayEv.ProdConcat | utils/calc_ev_from_prob.py:8-10 | the product of a concatenation is the product of the products |
| ParlayEv.ProductPermutation | utils/calc_ev_from_prob.py:8-10 | a product depends only on the multiset of members |
| ParlayEv.ParlayPermutation | utils/calc_ev_from_prob.py:8-10 | permuting a parlay leaves (ev, probability, odds) unchanged |
| ParlayEv.SingleOutcomeParlay | utils/calc_ev_from_prob.py:7-17 | a one-outcome parlay gives `calculate_ev(p, o)`, p and o |
| ParlayEv.ParlayBounds | utils/calc_ev_from_prob.py:8-16 | with probabilities in [0,1] and odds ≥ 0, P lies in [0,1] and EV ≥ −1 |
| ParlayEv.ProductBounds | utils/calc_ev_from_prob.py:8-10 | with probabilities in [0,1] and odds ≥ 0, the probability product lies in [0,1] and the odds product is ≥ 0 |
| ParlayEv.ParlayEvIncreasing | utils/calc_ev_from_prob.py:8-16 | raising one member's probability strictly raises the EV when all odds and the other probabilities are positive |
| ParlayEv.DoubleExample | utils/calc_ev_from_prob.py:7-17 | two outcomes at probability 0.9 and odds 1.5 give (0.8225, 0.81, 2.25) |
| SingleEv.CalculateEv | utils/calc_ev_outcome.py:1-6 | EV = prob·odds − 1; EV > 0 iff prob·odds > 1 and EV = 0 iff prob·odds = 1 |
| SingleEv.EvAtZeroOdds | utils/calc_ev_outcome.py:6 | odds 0 give EV −1 whatever the probability |
| SingleEv.EvIncreasingInProbability | utils/calc_ev_outcome.py:6 | EV is strictly increasing in the probability when the odds are positive |
| SingleEv.EvIncreasingInOdds | utils/calc_ev_outcome.py:6 | EV is strictly increasing in the odds when the probability is positive |
| Update.CalculateEv | src/update.py:22-23 | the copy in update.py is the same function as `calculate_ev` of utils/calc_ev_outcome.py |
| SingleEv.Kelly | utils/kelly.py:1-4 | a missing odds value gives exactly 0; otherwise stake·odds = multiplier·(p·odds − (1−p)); odds 0 is excluded, as the division is unguarded |
| SingleEv.KellyLinear | utils/kelly.py:4 | the stake is linear in the multiplier, and multiplier 0 gives 0 |
| SingleEv.KellyPositiveIff | utils/kelly.py:4 | for positive odds and multiplier, the stake is positive iff p·(odds+1) > 1, a different condition from EV > 0 |
| SingleEv.KellyPositiveWhenEvPositive | utils/kelly.py:4 | a positive EV at a non-negative probability implies positive odds and a positive stake |
| SingleEv.KellyStakesNegativeEv | utils/kelly.py:4 | p = 0.4 at odds 2.0 has EV −0.2 but stake 0.1 |
| SingleEv.KellyExample | utils/kelly.py:1-4 | kelly(0.5, 2.0, 1.0) = 0.25, and missing odds give 0 |
| Enumerator.Pool | src/ev_calc.py:19-22 | three outcomes per match |
| Enumerator.PoolAt | src/ev_calc.py:19-22 | pool position i holds outcome i mod 3 of match i div 3, so the pool keeps input order |
| Enumerator.Combinations | src/ev_calc.py:22 | every listed combination is a strictly increasing k-tuple of positions in range |
| Enumerator.CombinationsComplete | src/ev_calc.py:22 | every strictly increasing k-tuple of positions in range is listed |
| Enumerator.CombinationsOrdered | src/ev_calc.py:22 | combinations come in lexicographic order, as `itertools.combinations` yields them, so none is listed twice |
| Enumerator.Select | src/ev_calc.py:22-24 | a combination picks one outcome per position |
| Enumerator.ParlaysMembers | src/ev_calc.py:22-24 | a parlay is listed iff it is the selection of some increasing k-tuple of pool positions |
| Enumerator.ParlaysSize | src/ev_calc.py:22 | every listed parlay has k outcomes |
| Enumerator.FixtureSetMembers | src/ev_calc.py:23 | the fixture set holds exactly the fixtures of the parlay's outcomes |
| Enumerator.FixtureSetSize | src/ev_calc.py:23 | the fixture set is no larger than the parlay, and equal in size iff the fixtures are pairwise distinct |
| Enumerator.MakeEntry | src/ev_calc.py:24-26 | an entry holds its parlay, the ev, probability and odds of `calculate_parlay_ev` on it, and metric = 0.25·ev + 0.75·probability |
| Enumerator.CandidatesMembers | src/ev_calc.py:22-26 | an entry is collected iff it is the entry of a listed parlay with k distinct fixtures |
| Enumerator.CollectCandidates | src/ev_calc.py:17-26 | the loop over the combinations appends exactly the entries of the admissible parlays, in generation order |
| Enumerator.SortDescProperties | src/ev_calc.py:28 | the sort is non-increasing in the key, is a permutation, and keeps ties in input order (a stable sort) |
| Enumerator.InsertSorted | src/ev_calc.py:28 | inserting into a descending list keeps it descending |
| Enumerator.InsertMultiset | src/ev_calc.py:28 | inserting adds exactly that element |
| Enumerator.InsertWithKey | src/ev_calc.py:28 | an inserted element goes after the ones with an equal key already present |
| Enumerator.KeepAboveProperties | src/ev_calc.py:29 | an entry is kept iff it has ev strictly above the threshold, and the filter keeps the list sorted |
| Enumerator.RankSound | src/ev_calc.py:20-29 | every ranked entry has ev above the threshold, k outcomes with distinct fixtures, its own `calculate_parlay_ev` values and a pool combination behind it; the list is sorted descending |
| Enumerator.RankComplete | src/ev_calc.py:22-29 | every increasing k-tuple of pool positions with distinct fixtures and ev above the threshold is ranked |
| Enumerator.RankPermutation | src/ev_calc.py:22-29 | the ranking is a rearrangement of the admissible candidates above the threshold: each record appears as often as the generated parlays produce it |
| Enumerator.KeepAboveCount | src/ev_calc.py:29 | the filter keeps every copy of an entry above the threshold and no copy of any other |
| Enumerator.RankParlays | src/ev_calc.py:13-31 | the ranking fails exactly when the parlay size is not positive |
| Enumerator.CandidatesNone | src/ev_calc.py:23 | no admissible parlay means no entry |
| Enumerator.RankEmptyWhenTooFewFixtures | src/ev_calc.py:20-29 | k larger than the number of distinct fixtures gives an empty result |
| Enumerator.TestAllParlays | src/ev_calc.py:13-31 | the result is the ranking by ev with threshold 0 at size k (`max_matches` when given, else the number of matches); a negative k raises ValueError and k = 0 raises the error of `calculate_parlay_ev([])`; on success it is sorted by ev with every ev > 0 and k distinct fixtures per parlay |
| Enumerator.RankedByEv | src/ev_calc.py:13-31 | for k > 0 the ranking succeeds, is sorted by ev, and holds only positive-ev parlays of k distinct fixtures |
| Enumerator.LegacyTestAllParlays | utils/calc_ev_from_prob.py:19-37 | the variant in calc_ev_from_prob.py, whose imports (lines 1-5) lack `combinations` and `generate_outcomes`, fails with NameError on every call |
| Enumerator.LegacyAlwaysRaises | utils/calc_ev_from_prob.py:19-37 | the variant fails on every call, including every positive size at which the pipeline of src/ev_calc.py succeeds |
| Enumerator.LegacyRankingSound | utils/calc_ev_from_prob.py:19-37 | the variant's evident ranking: sorted by descending metric, ev > 0.3, metric = 0.25·ev + 0.75·probability, distinct fixtures |
| Update.Max3 | src/update.py:222 | the maximum is one of the three and no smaller than any |
| Update.DecideBet | src/update.py:222-240 | the stored ev is the largest outcome EV; the bet is the first of home, draw, away with that EV, and away is the fall-through |
| Update.DecideRisk | src/update.py:224-231 | the risk is balance·kelly(p, odds, 1) for the chosen outcome when its EV is positive, else 0; a positive EV never meets zero odds |
| Update.DecideRiskPositive | src/update.py:224-231 | with non-negative probabilities and a positive balance, the risk is positive iff the stored ev is positive |
| Update.DecideAllZeroOdds | src/update.py:208-240 | a row whose odds were all filled with 0 gets ev −1, bet home and risk 0 |
| Update.Decide | src/update.py:208-240 | a nonzero risk is only ever assigned to a positive EV |
| Update.EvRiskRow | src/update.py:199-240 | a row keeps its odds and probabilities when ev, bet and risk are written |
| Update.EvRiskRowRisk | src/update.py:224-240 | every row gets an ev, a bet and a risk, and its risk is positive iff its ev is |
| Update.CalcEvRisk | src/update.py:198-241 | the loop over the rows writes each row exactly as the per-row decision does |
| Update.SettlementProfit | src/update.py:62-64 | a lost bet records minus its normalized risk; a won bet at odds of at least 1 records at least its stake |
| Update.SettlementCountsStake | src/update.py:62-64 | the profit as written equals the net profit plus the stake on a win, and −stake on a loss |
| Update.SettlementExample | src/update.py:62-64 | a 10-unit home win at odds 2.0 books 20, and the net gain is 10 |
| Update.ExpectedProfit | src/update.py:62-64 | the expected net profit is stake·EV; the expected booked profit exceeds it by stake·p |
| Update.AliasBlocksWellFormed | src/update.py:73-126 | no alias key repeats, and no replacement name is itself a key, in the blocks as written and as intended |
| Update.AliasKeysDistinct | src/update.py:73-126 | the alias keys are pairwise distinct |
| Update.AliasSidesDiffer | src/update.py:118-121 | "Athletic Club" becomes "Athletic Bilbao" at home but "Atheltic Bilbao" away |
| Update.AliasSidesAgreeElsewhere | src/update.py:73-126 | every other name gets the same alias on both sides |
| Update.IntendedAliasSidesAgree | src/update.py:73-126 | with the typo corrected, both sides agree on every name |
| Update.LookupExtend | src/update.py:73-126 | alias lookup takes the first block whose key matches |
| Update.RunBlocksHome | src/update.py:73-126 | running the if/elif blocks in order leaves the home side at its alias |
| Update.RunBlocksAway | src/update.py:73-126 | the away side gets its alias unless it equals the home name, because the home test comes first |
| Update.NormaliseTeams | src/update.py:73-126 | the step-by-step reassignment yields the home alias and the away alias |
| Update.ParsePercent | src/update.py:133-135 | percent parsing fails iff `float` rejects the text without `%`; on success, value·100 is the parsed number |
| Update.ParsePercentIgnoresSigns | src/update.py:133-135 | only the text without `%` matters |
| Update.ParsePercentTrailingSign | src/update.py:133-135 | a trailing `%` changes nothing |
| Strings.RemoveAll | src/update.py:133-135 | the result holds no `%`; it keeps every other character with its multiplicity and drops every copy of `%` |
| Strings.RemoveAllSingle | src/update.py:133-135 | a single character is kept unless it is the removed one; with Strings.RemoveAllConcat this fixes the order of the kept characters |
| Strings.RemoveAllIdempotent | src/update.py:133-135 | removing twice equals removing once |
| Update.FutureRow | src/update.py:137-152 | a new row carries the match's date and league and has no odds, ev, bet or risk yet |
| Update.NewRow | src/update.py:128-152 | computing a new row step by step gives the specified row or its parse error |
| Update.FutureRowsSuccess | src/update.py:128-154 | all matches succeed iff each one does; the rows then come one per match, in order |
| Update.FutureRowsAllSucceed | src/update.py:128-154 | when every match parses, the rows are the per-match rows, in order |
| Update.FutureRowsSucceedOnlyIfAll | src/update.py:128-154 | a successful run parsed every match |
| Update.FutureRowsFailure | src/update.py:128-154 | the first failing match decides the error |
| Update.FutureRowsPrefixFailure | src/update.py:128-154 | once a prefix fails, later matches do not change the outcome |
| Update.AddFutureMatches | src/update.py:67-154 | the pending rows are kept and followed by one new row per match, in order, or the loop stops at the first error |
| Update.ParseOdds | src/update.py:165-167 | odds parsing fails iff `float` rejects the text with commas turned into points |
| Strings.ReplaceCharProperties | src/update.py:165-167 | every comma becomes a point and nothing else changes |
| Update.ParseOddsDecimalPoint | src/update.py:165-167 | the parsed text has no comma, and parsing it again gives the same odds |
| Update.GetBestMatch | src/update.py:25-27 | the matcher's choice is returned iff its score reaches 70, otherwise None |
| Update.FillOdds | src/update.py:169-171 | missing odds become 0, present odds and all other columns stay |
| Update.FillOddsColumns | src/update.py:169-171 | the fill is applied to every row in place |
| Update.TeamSetMembers | src/update.py:173-175 | the team set holds exactly the home and away names of the rows |
| Update.CollectTeams | src/update.py:173-175 | the loop collects that team set |
| Update.SetOdds | src/update.py:187-192 | a row matching both names gets the three odds; any other row is unchanged |
| Update.SetMatchedOdds | src/update.py:187-192 | the masked assignment applied to every row in place |
| Update.ApplyOddsRecord | src/update.py:157-194 | one odds record's effect on the rows in place, and the error if its odds or a name lookup fail |
| Update.AddOdds | src/update.py:156-196 | the loop over the records has the specified effect, stopping at the first error |
| Update.OddsStepRow | src/update.py:165-192 | after a record whose odds parse, every row is priced; other columns are untouched |
| Update.OddsStepMatched | src/update.py:177-192 | a row gets the record's odds exactly when both matched names are truthy and equal its teams; otherwise it only gets the 0 fill |
| Update.AddOddsStopsAtError | src/update.py:156-196 | the first error ends the loop |
| Update.AddOddsKeepsOtherColumns | src/update.py:156-196 | add_odds changes only the three odds columns and keeps the row count |
| Update.AddOddsPricesEveryRow | src/update.py:156-196 | after at least one record without error, every row has all three odds |
| Update.AddOddsNoRecords | src/update.py:156-196 | with no records nothing changes, not even the 0 fill |
| Executor.ScaledRow | src/executor.py:69-70 | scaling sets normalized_risk to de_normalized_risk·multiplier and changes nothing else |
| Executor.NormalizeRisk | src/executor.py:66-72 | each row becomes its scaled copy under multiplier max_risk / Σ de_normalized_risk, computed from the old values |
| Executor.SumScaled | src/executor.py:67-70 | scaling every value scales the sum |
| Executor.NormalizedSum | src/executor.py:67-70 | the normalized risks sum to max_risk |
| Executor.NormalizedProportions | src/executor.py:69-70 | ratios between rows are preserved, and zero-risk rows stay zero |
| Executor.NormalizedBounds | src/executor.py:67-70 | with non-negative risks and ceiling, every normalized risk lies between 0 and max_risk |
| Executor.Column | src/executor.py:146-151 | reading an absent column raises KeyError naming it |
| Executor.GetBetList | src/executor.py:142-153 | the loop builds the slips of the rows, or stops at the first KeyError |
| Executor.Slip | src/executor.py:144-151 | a row without a bet fails; a slip carries the row's teams, bet and de-normalized risk, and the cell of the probability column it read, `None` standing for a NaN cell |
| Executor.SlipsAllSucceed | src/executor.py:142-153 | when each row succeeds, there is one slip per row, in order |
| Executor.SlipsPrefixFailure | src/executor.py:142-153 | once a prefix fails, later rows do not change the outcome |
| Executor.DrawSlipFails | src/executor.py:148 | a draw bet reads `draw_win_%`, which the rows lack: KeyError |
| Executor.DrawBetListFails | src/executor.py:148 | any list whose first draw row comes after rows that all carry a bet fails |
| Executor.IntendedSlip | src/executor.py:142-153 | reading `draw_%` for draws, each slip holds the names, the bet's probability and odds, the risk and the bet |
| Executor.IntendedBetList | src/executor.py:142-153 | with that key, every row with a bet yields its slip, in order |
| TeamMap.Get | utils/team_map.py:51 | a lookup succeeds iff the key is present, and returns a value stored under it |
| TeamMap.Reverse | utils/team_map.py:53 | the reversed map swaps every pair |
| TeamMap.GetTranslation | utils/team_map.py:50-51 | the mapped name when the stripped input is a key; otherwise the input, untrimmed |
| TeamMap.GetReverseTranslation | utils/team_map.py:55-56 | the original name when the stripped input is a value; otherwise the input |
| TeamMap.TeamNamesWellFormed | utils/team_map.py:1-48 | keys and values are each pairwise distinct and trimmed, and any name that is both a key and a value maps to itself |
| TeamMap.WellFormedConcat | utils/team_map.py:1-48 | two well-formed, apart parts of the table join into a well-formed table |
| TeamMap.GetEntry | utils/team_map.py:1-51 | with distinct keys, each entry is found by its key |
| TeamMap.TranslationRoundTrip | utils/team_map.py:1-56 | reverse-translating the translation of a key gives the key back |
| TeamMap.ReverseTranslationRoundTrip | utils/team_map.py:1-56 | translating the reverse translation of a value gives the value back |
| TeamMap.TranslationIdempotent | utils/team_map.py:30-51 | translating twice equals translating once |
| TeamMap.PortugalFixed | utils/team_map.py:30 | "Portugal" maps to itself |
| TeamMap.KosovoFixed | utils/team_map.py:39 | "Kosovo" maps to itself |
| TeamMap.AliasesAgree | utils/team_map.py:2-12 | the first eleven entries are update.py's alias blocks, in order, and agree with their away side everywhere except at Athletic Club |
| Strata.Min | utils/get_strata.py:37 | the minimum is an element and no larger than any |
| Strata.Max | utils/get_strata.py:38 | the maximum is an element and no smaller than any |
| Strata.Retain | utils/get_strata.py:45-47 | the comprehension keeps exactly the records that pass the test |
| Strata.RetainSubsequence | utils/get_strata.py:45-47 | the kept records are an order-preserving subsequence |
| Strata.FilterDataWithDiscrepancy | utils/get_strata.py:35-48 | the filter fails iff the data is empty |
| Strata.FilterProperties | utils/get_strata.py:35-48 | the output is a subsequence; the data is returned unchanged when the normalized range is at most the threshold (0 when the mean is 0); otherwise it drops exactly the minimum for "probability" and the maximum for any other key |
| Strata.Sizes | utils/get_strata.py:52-54 | the listed sizes are exactly the sizes that occur |
| Strata.SizesDistinct | utils/get_strata.py:52-54 | each size is listed once |
| Strata.SizesFirstOccurrence | utils/get_strata.py:52-57 | the sizes are listed in order of first appearance, as the keys of the `defaultdict` are iterated: a size listed earlier occurs before every record of a size listed later |
| Strata.Group | utils/get_strata.py:52-54 | a group holds exactly the records of its size, in order |
| Strata.GroupsPartition | utils/get_strata.py:52-54 | each record lies in its size's group, and no group is empty |
| Strata.GroupBySize | utils/get_strata.py:52-54 | the loop builds a dictionary whose keys are the sizes that occur, each holding its group |
| Strata.Linspace | utils/get_strata.py:64-67 | num edges from start to stop, consecutive edges differing by (stop − start)/(num − 1), ascending when start ≤ stop |
| Strata.LinspaceExample | utils/get_strata.py:64-67 | 0 to 2 in three edges gives 0, 1, 2 |
| Strata.Edges | utils/get_strata.py:64-67 | num_bins + 1 edges starting at the minimum |
| Strata.FirstBin | utils/get_strata.py:72-75 | a value's bin i satisfies edge[i] ≤ v < edge[i+1] |
| Strata.FirstBinFirst | utils/get_strata.py:72-75 | no earlier bin fits, so the `break` picks the first; with no fitting bin the value is not placed |
| Strata.FirstBinExists | utils/get_strata.py:72-75 | on ascending edges every value in [first edge, last edge) is placed |
| Strata.BinnedContents | utils/get_strata.py:69-75 | a bin holds a value iff the value's first fitting bin is that bin |
| Strata.BinnedTotal | utils/get_strata.py:71-75 | the bins together hold exactly the placed values |
| Strata.PlacedSpan | utils/get_strata.py:71-75 | values within the edges are placed, except those equal to the last edge |
| Strata.BinValues | utils/get_strata.py:69-78 | the nested loops (and the extra append of the maximum) compute the specified bins, or the IndexError of `bins[-1]`/`bins[-2]` |
| Strata.BinValuesSpec | utils/get_strata.py:69-78 | binning fails exactly when there is no edge, or one edge equal to the maximum |
| Strata.BinValuesTotal | utils/get_strata.py:71-78 | when the maximum sits on the last edge, every copy of it but one is lost |
| Strata.BinValuesBelowTop | utils/get_strata.py:64-78 | when the maximum is below the last edge (the lifted linspace), every value is binned exactly once |
| Strata.BinValuesDropsRepeatedMax | utils/get_strata.py:71-78 | values 0, 2, 2 on edges 0, 1, 2 give the bins [0] and [2] |
| Strata.IntendedBinValues | utils/get_strata.py:69-78 | the corrected binning fails iff there are fewer than two edges |
| Strata.IntendedBinValuesTotal | utils/get_strata.py:69-78 | corrected, every value within the edges is binned exactly once |
| Strata.StrataOver | utils/get_strata.py:56-84 | the strata dictionary has exactly the listed sizes as keys |
| Strata.Stratum | utils/get_strata.py:59-82 | an empty group fails, since `min` of an empty list raises |
| Strata.CreateStrataSpec | utils/get_strata.py:50-84 | the strata dictionary has a key for each parlay size present in the data and no other |
| Strata.StrataOverValues | utils/get_strata.py:56-82 | each size's stratum is the binning of its own filtered group |
| Strata.StrataOverExtend | utils/get_strata.py:56-82 | one more size adds its stratum or stops at its error |
| Strata.StrataOverPrefixFailure | utils/get_strata.py:56-84 | the first failing group ends the computation |
| Strata.StratumOf | utils/get_strata.py:59-78 | filtering, the min/max, the edges and the binning of one group compute its stratum |
| Strata.StratumBins | utils/get_strata.py:64-69 | a stratum has num_bins bins |
| Strata.StratumTotal | utils/get_strata.py:59-78 | when the kept range is below num_bins, every kept value is binned exactly once |
| Strata.CreateStrata | utils/get_strata.py:50-84 | the whole function computes the specified strata or the first error |
| Strata.CreateStrataSound | utils/get_strata.py:50-84 | the strata's keys are the sizes present, and each holds the binning of its filtered group |
| Strata.TopChoiceBest | utils/get_strata.py:22-24 | the recorded choice has the highest ev of its ranking, a positive ev, nonzero odds and the right size |
| Strata.TopChoiceNone | utils/get_strata.py:22-23 | a size with no choice has no positive-ev parlay of distinct fixtures |
| Strata.TopChoice | utils/get_strata.py:22-24 | a recorded choice has a positive size, that many outcomes and a positive EV |
| Strata.BestParlay | utils/get_strata.py:22-24 | the loop's choice for one size is that size's top choice, and it always has nonzero odds |
| Strata.PicksFromMembers | utils/get_strata.py:21-24 | a pick of one matchday is recorded iff its size is in 1..10 and has that top choice |
| Strata.AllPicksMembers | utils/get_strata.py:20-24 | across matchdays, a pick is recorded iff some matchday has it as a top choice |
| Strata.PicksMembers | utils/get_strata.py:20-24 | a pick is recorded iff some matchday's top choice at a size of 1 to 10 is that pick |
| Strata.PicksPriced | utils/get_strata.py:25-30 | every recorded pick has nonzero odds, so its Kelly stake is defined |
| Strata.RecordPick | utils/get_strata.py:25-30 | recording a pick appends its probability and odds records, and its ev and Kelly stake (multiplier 0.15) under its size |
| Strata.RecordChoice | utils/get_strata.py:25-30 | recording a choice extends all four outputs to cover it |
| Strata.RecordMatchday | utils/get_strata.py:21-30 | one matchday's loop extends the four outputs by that matchday's picks, size 1 first |
| Strata.GetDataFromMatchdays | utils/get_strata.py:12-32 | the four outputs are exactly the records of the picks of all matchdays, in order |
| Strata.BySize | utils/get_strata.py:18-29 | the dictionary's keys are the sizes that were recorded |
| Strata.GetOtherMetrics | utils/get_strata.py:115-116 | the stored list for the size, or [] |
| Strata.GetOtherMetricsOfSize | utils/get_strata.py:115-116 | the stored list for a size holds exactly the values recorded for it, in order |

## Left out

- Scraping and browser automation are I/O and are not modelled. That covers utils/get_data.py and the cookie, login and bet-placing functions of src/executor.py (`save_cookies`, `load_cookies`, `initialise`, `login`, `record_bet`, `place_bet`, `place_all_pending_bets`, `initialize_placed_bets_file`). The glue in src/main.py is left out for the same reason.
- CSV reads and writes are file I/O: `save_updated_csvs`, `update_bets` and the `__main__` blocks. `load_matches_from_folder` only lists a directory.
- `check_pending_bets` (src/update.py:12-18) is console I/O: it asks for confirmation with `input` and may call `exit()`.
- Clock-dependent code is left out: `move_completed_bets` and the one-week window and date parsing of `calc_past_results`. Of `calc_past_results`, only the settlement rule at src/update.py:62-64 is modelled.
- Update.GetBestMatch: the fuzzy matcher `process.extractOne` is a foreign library. It is a parameter of the model, so only the score threshold of 70 is stated.
- Loader.LoadMatchesFromText: `ast.literal_eval` is a parameter. The model states which texts it receives and in what order, but not how it parses them.
- Update.ParsePercent: `float()` is a parameter. Update.ParseOdds: likewise.
- Floating point: every value is an exact `real`. IEEE rounding and the 2-decimal rounding of stakes at src/executor.py:183 are not modelled. Strata.Linspace computes exact evenly spaced edges, which numpy's floating-point `linspace` only approximates.
- The `:.2f` string keys of `create_strata` are not modelled; bins are kept by index. In the source, two bins whose rounded labels coincide share one list, and that merging is not captured.
- The `print` of the binned data in `create_strata` is I/O. The ValueError that `linspace` raises for a negative sample count is kept, but its message text is only approximate.
- `get_probability_strata`, `get_odds_strata` and `get_all_strata` (utils/get_strata.py:86-97) only fix the key argument of Strata.CreateStrata and are not modelled separately.
- `stratified_sampling` (utils/get_strata.py:99-113) draws random numbers and is not modelled. The visualisations and utils/sharpe_ratio.py (plotting, randomness, floating-point statistics) are left out too.
- The `__main__` block of utils/kelly.py raises TypeError, because it passes two arguments where three are required. It is part of a demo run and is not modelled.
- `league = odds["league"].lower()` in `add_odds` (src/update.py:158) is never used. It is not modelled.
- SingleEv.Kelly: requires odds ≠ 0, because the division by the odds is unguarded.
- ParlayEv.CalculateParlayEv: requires a non-empty parlay, because `reduce` without an initial value raises on an empty list. Enumerator.RankParlays turns that raise into a Failure for k = 0.
- Executor.NormalizeRisk: requires every row to carry a de_normalized_risk and the sum to be non-zero. The division by the sum is unguarded, and the source calls it only after `calc_ev_risk` has filled the column.
- Update.CalcEvRisk: requires every row to carry all three odds. `add_odds` fills the odds only after one record parses (Update.AddOddsPricesEveryRow). With no odds records the cells stay `None` (Update.AddOddsNoRecords), and `calc_ev_risk` then raises or computes on NaN (src/update.py:212, 23). The requires excludes that case, and the model does not follow pandas arithmetic on missing values.
- No multi-size portfolio combiner exists in the source, so none is modelled.

## Findings

| source | as written | input that shows it | evidently intended | confidence | as-written member | corrected member |
|---|---|---|---|---|---|---|
| src/executor.py:148 | the probability column is read as `<bet>_win_%` | any pending row whose bet is "draw": the column `draw_win_%` does not exist (the rows carry `draw_%`), so `get_bet_list` raises KeyError | read `draw_%` for draws, `home_win_%`/`away_win_%` otherwise | not executed | Executor.DrawBetListFails | Executor.IntendedBetList |
| src/update.py:118-121 | the away-side alias for "Athletic Club" is "Atheltic Bilbao" | a fixture with away_team "Athletic Club" gets the misspelt name, which matches no other table | "Athletic Bilbao" on both sides, as at home and in utils/team_map.py | not executed | Update.AliasSidesDiffer | Update.IntendedAliasSidesAgree |
| utils/calc_ev_from_prob.py:19-37 | `test_all_parlays` uses `combinations` and `generate_outcomes`, which the file never imports | any call, e.g. three matches with max_matches=3, raises NameError | rank by metric and keep ev > 0.3 | not executed | Enumerator.LegacyAlwaysRaises | Enumerator.LegacyRankingSound |
| src/update.py:62-64 | a won bet books normalized_risk · odds as profit | a 10-unit home win at odds 2.0 books 20, although the net gain is 10 | net profit normalized_risk · (odds − 1), whose expectation is stake · EV | not executed | Update.SettlementExample | Update.ExpectedProfit |
| utils/get_strata.py:71-78 | values equal to a maximum on the last edge are skipped by the loop, and the maximum is appended once | values 0, 2, 2 with two bins (edges 0, 1, 2) give bins [0] and [2]: one value is lost | every value is binned exactly once | not executed | Strata.BinValuesDropsRepeatedMax | Strata.IntendedBinValuesTotal |
