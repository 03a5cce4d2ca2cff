# Arbitrage bot core, modelled in Dafny

The bot polls several sportsbooks for moneyline quotes and looks for
arbitrage. An arbitrage is a pair of quotes on the same game where backing
one side at one book and the other side at another book pays the same amount
whatever the result, and more than the money staked. When it finds one, it
drives a browser at each of the two books through a fixed betting protocol.

This project models the three parts of the bot that have behaviour worth
stating:

- **Team-name normaliser** (`team_mapper.dfy`, module `TeamMapper`). It looks
  a name up in an alias table and falls back to the name itself. The table is
  a parameter. `DefaultMappings` is the built-in one-entry table.
- **Arbitrage detector**. It has four files:
  - `py_str.dfy` (`PyStr`): Python's `<` on `str`.
  - `pricing.dfy` (`Pricing`): implied probability, profit percentage,
    decimal odds and the equal-return stake split, over exact reals.
  - `detector.dfy` (`Detector`): grouping quotes under a canonical game key,
    enumerating every pair inside a group, building the two betting scenarios
    of a pair, and keeping the best one that clears the threshold.
  - The imperative operations (`GetAllGames`, `CheckArbitrage`,
    `DetectOpportunities`) keep the source's loops. Each is proved equal to a
    specification function (`Group`, `CheckSpec`, `DetectSpec`), and lemmas
    state what those functions guarantee.
- **Orchestrator** (`orchestrator.dfy`, module `Orchestrator`). It covers
  gathering the fetchers' results into one insertion-ordered dictionary, and
  the two-leg open / fill / verify / place / clear protocol. Browsers are
  abstract agents:
  - Every call the coordinator makes is recorded in a trace of `AgentCall`s.
  - What each call returns (truthy, falsy, or an exception) is an input
    (`LegScript`).
  - The order in which a phase's two futures complete is an input too
    (`Completion`). The proved trace does not depend on it.

`models.dfy` (`Models`) holds the shared record types: `GameOdds`,
`ArbitrageOpportunity` and `Sportsbook`. It also holds the `Result` wrapper,
which carries a Python exception out of an operation.
`arbitrage_bot/models/sportsbooks.py` is not part of this model. The two
members of the `Sportsbook` enumeration are taken from their uses.

Python dictionaries keep insertion order, and the detector's output order
depends on it. Two orders are modelled explicitly:

- The grouped games are a key sequence plus a map (`Detector.Games`).
- The gathered quotes are a sequence of (book, quotes) pairs in the order the
  fetch futures complete.

Two behaviours of the code are modelled as written:

- **Leg failures.** An exception from `fill_betslip` or `verify_odds` is only
  logged (`arbitrage_bot/orchestrator.py` lines 195-196 and 223-224). Only a
  falsy return value sets the failure flag and triggers the rollback
  (`Orchestrator.ExceptionsDoNotGate`).
- **Prices.** The record types declare prices as `float`. The fetchers fill
  them with American-odds integers: `arbitrage_bot/odds/draftkings.py` line 78
  converts with `int(...)`, and BetMGM supplies its `americanOdds` values. The
  model uses `int`.

## Model

| member | source | states |
|---|---|---|
| TeamMapper.StandardizeTeamName | arbitrage_bot/detection/team_mapper.py:28-30 | an aliased name maps to its table entry, any other name to itself; the result is the name or one of the table's targets |
| TeamMapper.AreSameTeams | arbitrage_bot/detection/team_mapper.py:32-34 | true exactly when the two standardised names are equal; every name is the same team as itself |
| TeamMapper.GetStandardizedName | arbitrage_bot/detection/team_mapper.py:36-38 | answers exactly as `StandardizeTeamName` for every input |
| TeamMapper.AreSameTeamsSymmetric | arbitrage_bot/detection/team_mapper.py:32-34 | team identity is symmetric |
| TeamMapper.AreSameTeamsTransitive | arbitrage_bot/detection/team_mapper.py:32-34 | team identity is transitive |
| TeamMapper.StandardizeIdempotent | arbitrage_bot/detection/team_mapper.py:28-30 | standardising twice equals standardising once when no alias target is itself re-aliased |
| TeamMapper.StandardizeNotIdempotentWithChain | arbitrage_bot/detection/team_mapper.py:28-30 | with a chained table (a to b, b to c), standardising twice differs from once, so the no-chain condition is needed |
| TeamMapper.DefaultMappingsFacts | arbitrage_bot/detection/team_mapper.py:15-17 | the default table has no chains, identifies "Kansas St" with "Kansas State", and leaves every other name unchanged |
| PyStr.Less | arbitrage_bot/detection/detector.py:63 | Python string order: a proper prefix is smaller than its extensions |
| PyStr.LessIrreflexive | arbitrage_bot/detection/detector.py:63 | no string is smaller than itself |
| PyStr.LessAsymmetric | arbitrage_bot/detection/detector.py:63 | two strings are never smaller than each other |
| PyStr.LessTotal | arbitrage_bot/detection/detector.py:63-66 | of two distinct strings one is smaller, so the game key orders any two distinct names |
| PyStr.LessTransitive | arbitrage_bot/detection/detector.py:63 | the order is transitive |
| Pricing.ImpliedProbability | arbitrage_bot/detection/detector.py:183-191 | the implied probability of any price lies in [0, 1), and is strictly positive for a non-zero price |
| Pricing.ArbitrageProfit | arbitrage_bot/detection/detector.py:180-197 | the profit percentage lies in (-100, 100] and is positive exactly when the two implied probabilities sum below one |
| Pricing.ArbitrageProfitSymmetric | arbitrage_bot/detection/detector.py:180-197 | the profit percentage does not depend on the order of the two prices |
| Pricing.DecimalOdds | arbitrage_bot/detection/detector.py:204-212 | the decimal odds of a non-zero price exceed 1; a positive price p gives 1 + p/100 |
| Pricing.DecimalIsReciprocal | arbitrage_bot/detection/detector.py:204-212 | the decimal odds are the reciprocal of the implied probability for every non-zero price |
| Pricing.BetAmounts | arbitrage_bot/detection/detector.py:199-224 | the two stakes sum to the total, both legs return the same amount, the reported profit equals each leg's profit, and a positive total gives two positive stakes |
| Pricing.SplitStakes | arbitrage_bot/detection/detector.py:214-224 | for positive decimal odds, the stakes weighted by the other leg's odds sum to the total, return the same amount on either leg, and report that leg's profit; a positive total gives two positive stakes |
| Pricing.TotalProfitMatchesPercentage | arbitrage_bot/detection/detector.py:215-222 | for equal-return stakes, the profit times the probability sum (in percent) equals the total times the profit percentage |
| Pricing.TotalProfitSign | arbitrage_bot/detection/detector.py:215-222 | for equal-return stakes on a positive total, the money profit is non-negative exactly when the profit percentage is |
| Detector.GameKeySymmetric | arbitrage_bot/detection/detector.py:62-66 | `GameKey` (the two standardised names, smaller first by code-point order, joined by `_vs_`) does not depend on which team is listed first |
| Detector.QuoteKeySymmetric | arbitrage_bot/detection/detector.py:59-66 | two quotes with their teams swapped get the same game key |
| Detector.GameKeyCollision | arbitrage_bot/detection/detector.py:64-66 | the key is not injective: the pairs ("A", "B_vs_C") and ("A_vs_B", "C") share one key |
| Detector.GroupKeys | arbitrage_bot/detection/detector.py:68-69 | the dictionary's keys are distinct, are exactly the keys of the quotes added so far, and are listed in first-insertion order (`KeysInFirstOrder`: every occurrence of a later-listed key comes after an occurrence of each earlier-listed one) |
| Detector.AddToGameFirstOrder | arbitrage_bot/detection/detector.py:68-69 | adding one quote keeps the keys in first-insertion order: a new key is listed last |
| Detector.GroupBuckets | arbitrage_bot/detection/detector.py:68-70 | each bucket is exactly the subsequence of added quotes carrying its key |
| Detector.GroupSize | arbitrage_bot/detection/detector.py:68-70 | the bucket sizes sum to the number of quotes added |
| Detector.GroupIsPartition | arbitrage_bot/detection/detector.py:54-72 | grouping is a partition: distinct keys listed in first-insertion order, exactly the quotes' keys, each quote in the bucket of its own key only, no empty bucket, sizes summing to the quote count |
| Detector.GroupKeepsOrder | arbitrage_bot/detection/detector.py:56-70 | each bucket keeps the quotes in encounter order, book by book |
| Detector.SwappedQuotesShareBucket | arbitrage_bot/detection/detector.py:59-70 | two quotes listing the same teams in opposite order land in the same bucket |
| Detector.AddQuote | arbitrage_bot/detection/detector.py:68-70 | opening a bucket if needed and appending one quote gives the grouping of one more quote |
| Detector.AddBook | arbitrage_bot/detection/detector.py:57-70 | the inner loop over one book's quotes extends the grouping by exactly that book's quotes |
| Detector.AddBooks | arbitrage_bot/detection/detector.py:56-70 | the loop over the books, each book's quotes added after the previous book's, builds exactly the grouping of the whole flattened input |
| Detector.AddNthBook | arbitrage_bot/detection/detector.py:56-70 | one round of the loop over books extends the grouping of the books before `b` to the grouping that also holds book `b`'s quotes |
| Detector.GetAllGames | arbitrage_bot/detection/detector.py:50-72 | the nested loop builds exactly the grouping of all quotes, books in dictionary order |
| Detector.RowPairsAt | arbitrage_bot/detection/detector.py:39-40 | the row of quote i pairs it with every later quote, in order |
| Detector.PairsUpToLength | arbitrage_bot/detection/detector.py:39-40 | a bucket of n quotes is examined in n(n-1)/2 pairs |
| Detector.PairsUpToSound | arbitrage_bot/detection/detector.py:39-40 | every examined pair is (b[x], b[y]) with x < y |
| Detector.PairsUpToComplete | arbitrage_bot/detection/detector.py:39-40 | every index pair x < y of a bucket is examined |
| Detector.GamePairsSound | arbitrage_bot/detection/detector.py:35-40 | every examined pair comes from inside a single bucket |
| Detector.GamePairsComplete | arbitrage_bot/detection/detector.py:35-40 | every pair x < y of every bucket is examined |
| Detector.AllPairsSameGame | arbitrage_bot/detection/detector.py:35-40 | both quotes of every examined pair are input quotes with the same game key |
| Detector.Scenarios | arbitrage_bot/detection/detector.py:84-136 | two scenarios with prices, urls and names taken from the sides they back; first book backs team1 then team2; the second book backs the opposite side when the standardised first teams agree, the same side otherwise |
| Detector.BestUpToIsFirstMaximum | arbitrage_bot/detection/detector.py:138-152 | the selection `BestUpTo` yields no scenario exactly when none clears both the threshold and the -10 floor; otherwise one that clears them, has maximal profit, and is strictly better than every earlier one (ties keep the first) |
| Detector.BestUpToNone | arbitrage_bot/detection/detector.py:138-152 | the selection keeps nothing exactly when no scenario clears both the threshold and the -10 floor |
| Detector.BestUpToMaximum | arbitrage_bot/detection/detector.py:138-152 | a kept scenario clears both bounds, has the greatest profit among those that do, and is strictly better than every earlier one that does |
| Detector.CheckSpecNone | arbitrage_bot/detection/detector.py:138-178 | a pair yields no opportunity exactly when neither scenario clears the threshold and the floor |
| Detector.CheckSpecRaised | arbitrage_bot/detection/detector.py:154-161 | ZeroDivisionError escapes exactly when the scenario the selection keeps (`FirstBest`: it qualifies, none has greater profit, every earlier qualifying one is strictly worse) carries a zero price; that scenario is then a qualifying one with a zero price |
| Detector.CheckSpecChoosesBest | arbitrage_bot/detection/detector.py:138-176 | an opportunity copies the books from the two quotes and prices, urls and names from the scenario the selection keeps (`FirstBest`: the first one of greatest profit among the qualifying ones, so a tie keeps the first); its profit clears the threshold and the floor, matches its prices, and is at least every qualifying scenario's |
| Detector.CheckSpecStakes | arbitrage_bot/detection/detector.py:154-176 | an opportunity has non-zero prices, stakes summing to 100 with equal returns, total profit equal to each leg's, and non-negative total profit exactly when its percentage is |
| Detector.TwoBookExample | arbitrage_bot/detection/detector.py:74-178 | a concrete pair (+150/-180 against -140/+160) yields the opportunity backing X at book 1 (+150, url u1) and Y at book 2 (+160, url v2), with stakes summing to 100 |
| Detector.CheckArbitrage | arbitrage_bot/detection/detector.py:74-178 | the scenario-building and best-profit loop computes exactly `CheckSpec` |
| Detector.AccumulateCorrect | arbitrage_bot/detection/detector.py:39-44 | `Accumulate`, collecting per-pair results, raises exactly when some pair raised, and then with the first such exception; otherwise it holds, in pair order, exactly one opportunity for each pair that yielded one (the positions `Found` lists) and nothing else |
| Detector.AccumulateRaises | arbitrage_bot/detection/detector.py:39-44 | collecting raises exactly when some pair raised, and then with the exception of the first pair that raised |
| Detector.AccumulateKeeps | arbitrage_bot/detection/detector.py:39-44 | when nothing is raised, the collection holds only the pairs' opportunities and every one of them; its j-th entry is the opportunity of the j-th pair `Found` lists, so one per pair, in pair order |
| Detector.AccumulateInOrder | arbitrage_bot/detection/detector.py:39-44 | when nothing is raised, the collection has one entry per position `Found` lists, each the opportunity of the pair at that position |
| Detector.Found | arbitrage_bot/detection/detector.py:42-44 | the positions of the pairs that yielded an opportunity, each once and in increasing order; every such position is listed |
| Detector.DetectSpecSound | arbitrage_bot/detection/detector.py:14-48 | every reported opportunity clears the threshold and the floor, has stakes summing to 100, and is the opportunity of some examined pair |
| Detector.DetectSpecComplete | arbitrage_bot/detection/detector.py:35-44 | every opportunity of every examined pair is reported |
| Detector.DetectSpecInPairOrder | arbitrage_bot/detection/detector.py:35-44 | when detection does not raise, its j-th opportunity is the one of the j-th examined pair that yields one: one per such pair, in examination order (bucket order, then (i, j) order), and nothing else |
| Detector.DetectSpecRaises | arbitrage_bot/detection/detector.py:35-44 | detection raises exactly when some examined pair raises, and the exception is ZeroDivisionError |
| Detector.GamePairsLength | arbitrage_bot/detection/detector.py:35-40 | the number of examined pairs is the sum over buckets of n(n-1)/2 |
| Detector.DetectSpecBound | arbitrage_bot/detection/detector.py:35-44 | the number of opportunities is at most the sum over buckets of n(n-1)/2 |
| Detector.CheckRow | arbitrage_bot/detection/detector.py:40-44 | the inner loop over later quotes extends the collected opportunities exactly as the reference collection does, or returns the exception it raises |
| Detector.CheckBucket | arbitrage_bot/detection/detector.py:39-44 | the loop over a bucket extends the collected opportunities exactly as the reference collection does, or returns the exception it raises |
| Detector.CheckGames | arbitrage_bot/detection/detector.py:35-44 | the loop over game keys, each bucket's pairs in turn, computes exactly the reference collection of the outcomes of every examined pair, stopping at the first exception |
| Detector.DetectOpportunities | arbitrage_bot/detection/detector.py:14-48 | the nested loops compute exactly `DetectSpec`: bucket order, then pairs (i, j) in index order, first exception propagated |
| Orchestrator.Entry | arbitrage_bot/orchestrator.py:120-126 | a completed fetch writes its list under its book; a fetch that raised writes an empty list |
| Orchestrator.FetchAllOdds | arbitrage_bot/orchestrator.py:106-128 | ValueError exactly when no fetcher is configured; otherwise one entry per configured book, books distinct, each holding its fetched list or `[]`, in completion order |
| Orchestrator.CollectFailures | arbitrage_bot/orchestrator.py:189-196 | the flag ends up set exactly when it was already set or some result is falsy; exceptions leave it unchanged |
| Orchestrator.InCompletionOrder | arbitrage_bot/orchestrator.py:190 | the completed results of a phase are the two legs' results in some order |
| Orchestrator.PhaseFails | arbitrage_bot/orchestrator.py:189-194 | a phase fails exactly when either leg's result is falsy, whichever future completes first |
| Orchestrator.ClearBetslips | arbitrage_bot/orchestrator.py:257-281 | exactly two calls, both clearing a betslip, book 1 first; outcomes ignored |
| Orchestrator.ExecuteBrowserActions | arbitrage_bot/orchestrator.py:146-255 | the calls made are exactly those of `Protocol`, for every completion order |
| Orchestrator.MissingBrowserCallsNothing | arbitrage_bot/orchestrator.py:148-150 | if either book has no browser, no agent call is made |
| Orchestrator.OpenNeverGates | arbitrage_bot/orchestrator.py:152-172 | both pages are opened and both betslips filled, and the open results never change the trace |
| Orchestrator.FillFailureRollsBack | arbitrage_bot/orchestrator.py:174-201 | a falsy fill on either leg clears both legs, and neither leg verifies or places |
| Orchestrator.VerifyFailureRollsBack | arbitrage_bot/orchestrator.py:203-229 | after non-falsy fills, a falsy verify on either leg clears both legs and neither places |
| Orchestrator.SuccessPlacesBoth | arbitrage_bot/orchestrator.py:231-252 | with no falsy fill or verify, both bets are placed whatever they return, then both legs are cleared |
| Orchestrator.PlaceOnlyAfterChecks | arbitrage_bot/orchestrator.py:189-241 | a bet is placed only if both books have browsers and no fill or verify was falsy |
| Orchestrator.ExceptionsDoNotGate | arbitrage_bot/orchestrator.py:190-224 | a fill or verify that raises leads to the same trace as one that returned a truthy value |
| Orchestrator.ExactlyTwoClears | arbitrage_bot/orchestrator.py:198-252 | once both browsers exist, every path makes exactly two clear calls, and they are the last two, book 1 then book 2 |
| Orchestrator.ShippedBrowsersNeverPlace | arbitrage_bot/browser/draftkings.py:16-47 | with the shipped browser behaviour (fill returns None or raises, verify and place return None) on either leg, no bet is placed |
| Orchestrator.ExecuteArbitrageActions | arbitrage_bot/orchestrator.py:130-144 | the calls are exactly those of `Dispatch`, and none at all when automation is disabled |
| Orchestrator.DispatchInListOrder | arbitrage_bot/orchestrator.py:134-138 | opportunities are handled one after another in list order: the calls for the first i come before those for the rest |
| Orchestrator.DispatchClears | arbitrage_bot/orchestrator.py:130-144 | every opportunity whose books both have browsers causes exactly two clear calls, and no other opportunity causes any |
| Orchestrator.DispatchNeverPlacesWithShippedBrowsers | arbitrage_bot/orchestrator.py:130-144 | with the shipped browser behaviour on every opportunity, no bet is ever placed |

## Left out

- Loading the alias table from its JSON file (`TeamMapper._load_mappings`) is file I/O. The table is a parameter, and `DefaultMappings` is the fallback.
- The fetchers in `arbitrage_bot/odds/` are HTTP clients over a vendor JSON schema. A fetch is an input (`Orchestrator.FetchOutcome`): either a list of quotes or an exception.
- The Selenium browsers in `arbitrage_bot/browser/` are replaced by abstract agents. The value each call returns is an input. `Orchestrator.ShippedLeg` records what the shipped classes return.
- Threads are not modelled. Completion order is an input. The trace lists each phase's calls in submission order (book 1, then book 2), although the two calls of a phase run concurrently.
- `run_continuous_loop` is left out: an endless loop with `time.sleep`, a KeyboardInterrupt handler, and re-raising of unexpected exceptions.
- Logging and `print` calls are left out. So is the text format of `ArbitrageOpportunity.__str__`.
- Python floats are modelled as exact reals. The stake and profit equalities proved here hold only up to rounding in the source.
- Prices are modelled as integers. A fractional American price, which the `float` fields would admit, is not modelled.
- Settings loading and saving are left out. The profit threshold, the fetchers and the browser agents are parameters of the model. The configured total bet amount is unused, because the detector fixes the stake total at 100.
- `_setup_odds_fetchers` and `_setup_browser_automations` construct real clients and Chrome drivers. The configured fetchers are a parameter, and so is the set of books with a browser.
- The fetchers dictionary is keyed by sportsbook. `FetchAllOdds` therefore requires the configured books to be distinct, and takes the completion order as a permutation of the fetchers.
