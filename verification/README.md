# Crypto arbitrage bot — Dafny model

This is a model of the decision logic of a Telegram bot that looks for crypto arbitrage between Binance, Bybit and OKX.

**`ArbitrageBot`** collects quotes from the configured exchange clients. It has three profit models:

- **cross-venue:** buy on one venue and sell on another, net of taker and USDT network fees. The result is ranked by profit percentage in descending order, and the sort is stable.
- **triangular:** the BTC → ETH → USDT → BTC loop on one venue.
- **peer-to-peer:** USDT/UAH.

**`ArbitragePredictor`** gates the spread regressor. It refuses a file that is too short or a poor fit, and approves only a forecast that widens the current spread by more than 10 %.

**The bot** has three parts:

- the `/monitor` toggle;
- the on-demand reply to a strategy button, which shows the three best cross-venue opportunities per pair, each tagged with the predictor's verdict;
- one pass of the periodic monitoring job. It is meant to alert on opportunities above 1 %. As written, with the bot's own exchange clients, it never sends anything (see Findings).

The job is modelled twice. The members without a prefix follow the code as written. The `Intended` members apply the two corrections listed under Findings.

The modules follow the program's structure:

| file | module | models |
|---|---|---|
| `market.dfy` | `Market` | quotes, snapshots (the price dictionary in insertion order), the fee table, opportunities, raised exceptions |
| `ranking.dfy` | `Ranking` | the stable descending sort |
| `arbitrage.dfy` | `Arbitrage` | `fetch_prices`, `fetch_p2p_prices` and the three strategies |
| `predictor.dfy` | `Predictor` | `load_data`, `train_model`, `predict_spread`, `is_profitable` |
| `bot.dfy` | `Bot` | `monitor`, `handle_arbitrage_type`, one pass of `monitor_arbitrage` |

The model replaces every network call, file read and model fit with an input:

- a `Reading` per venue, carrying the ticker and order book, or `None` for a call that raised;
- a ticker function for the triangular loop;
- the first advertised peer-to-peer price;
- the stored sample history per (venue, symbol);
- a `Regressor` holding the held-out score and the prediction as opaque functions. Either function may return a raised `ValueError`.

Python exceptions that escape an operation become `Outcome.Raised`:

- `KeyError` for a venue without a client;
- `TypeError` for a spread computed from a missing price;
- `NameError` for the unbound `symbol` of the triangular button;
- `ValueError` for a fit or prediction that the regressor library refuses.

Exceptions caught inside an operation become its documented fallback.

## Model

| member | source | states |
|---|---|---|
| `Market.Lookup` | main_bot.py:58-59 | `prices.get(venue)` is absent exactly when no entry has that venue, and otherwise returns the value of an entry with that venue |
| `Market.LookupEntry` | arbitrage.py:41 | in a dictionary, looking up an entry's venue finds that entry's quote |
| `Ranking.Insert` | arbitrage.py:82 | inserting into a descending list keeps it descending and adds exactly one copy of the element |
| `Ranking.Rank` | arbitrage.py:82 | the ranking is in non-increasing profit percentage and is a permutation of its input |
| `Ranking.RankStable` | arbitrage.py:82 | for every percentage, the opportunities tied at it keep their input order (stability of `sorted(..., reverse=True)`) |
| `Ranking.RankSortedIdentity` | arbitrage.py:82 | a list already in order is returned unchanged |
| `Ranking.RankIdempotent` | arbitrage.py:131 | ranking a ranking changes nothing |
| `Arbitrage.TopLevels` | arbitrage.py:40 | the first five bid levels, or all of them when the book is shallower |
| `Arbitrage.Liquidity` | arbitrage.py:40 | the liquidity figure is non-negative when sizes are |
| `Arbitrage.SumSizesNonNegative` | arbitrage.py:40 | a sum of non-negative sizes is non-negative |
| `Arbitrage.DeepLevelsIgnored` | arbitrage.py:39-40 | levels beyond the fifth do not change the liquidity |
| `Arbitrage.ShallowBookSummed` | arbitrage.py:40 | a book of at most five levels contributes all its sizes |
| `Arbitrage.FetchPrices` | arbitrage.py:34-44 | a venue has an entry exactly when it is configured and both of its calls succeeded, and then the entry holds its bid, ask and liquidity; the entries' venues appear in configuration order (a subsequence of the configured venues), and there are no duplicates |
| `Arbitrage.Without` | arbitrage.py:42-43 | removing a venue hides it from lookups and leaves every other lookup unchanged |
| `Arbitrage.FailingVenueOmitted` | arbitrage.py:36-43 | a venue whose call raises is simply missing from the result; the other entries are the same, in the same order |
| `Arbitrage.CrossProfit` | arbitrage.py:68-71 | with zero fees the net profit is the price difference times the amount |
| `Arbitrage.CrossProfitAtMostSpread` | arbitrage.py:68-71 | with non-negative fees and prices the net profit never exceeds the raw price difference |
| `Arbitrage.CrossOf` | arbitrage.py:65-81 | a produced cross-venue opportunity names the buy and sell venues, buys at the buy venue's ask and sells at the sell venue's bid, carries the fee-adjusted profit, and its percentage is that profit per 100 of the amount's cost |
| `Arbitrage.CrossFromMembers` | arbitrage.py:63-81 | the inner loop yields an opportunity exactly when some sell entry passes every guard and produces it |
| `Arbitrage.CrossCandidatesMembers` | arbitrage.py:62-81 | the nested loops yield an opportunity exactly when some (buy, sell) pair passes every guard and produces it |
| `Arbitrage.CrossCandidateSound` | arbitrage.py:62-81 | every produced opportunity can be checked by venue name against the snapshot: distinct venues, buy depth above the amount, truthy prices, the profit formula, and a positive percentage |
| `Arbitrage.CrossFromNone` | arbitrage.py:63-73 | a buy venue that passes no guard contributes nothing |
| `Arbitrage.CrossCandidatesNone` | arbitrage.py:62-73 | when no pair passes the guards, nothing is produced |
| `Arbitrage.CalculateCrossVenue` | arbitrage.py:59-82 | the result is sorted by profit percentage, highest first, and is a permutation of what the nested loops produce |
| `Arbitrage.CrossVenueSound` | arbitrage.py:62-82 | every reported opportunity can be checked by venue name against the snapshot: distinct venues, buy depth above the amount, truthy prices, the fee formula and a positive percentage |
| `Arbitrage.CrossVenueComplete` | arbitrage.py:62-82 | every (buy, sell) pair of the snapshot that passes all the guards is reported |
| `Arbitrage.NotCrossedNotEmitted` | arbitrage.py:64-73 | with non-negative fees, a pair whose bid does not exceed the ask is never reported |
| `Arbitrage.NoCrossedQuotesNoOpportunity` | arbitrage.py:59-82 | when every bid is at most every ask, nothing is reported |
| `Arbitrage.UniformQuotesNoOpportunity` | arbitrage.py:59-82 | identical quotes on every venue give no opportunity |
| `Arbitrage.TwoVenueExample` | arbitrage.py:59-82 | buying at 101 and selling at 103 without fees gives exactly one opportunity, with profit 2 and 200/101 % |
| `Arbitrage.ReadLegs` | arbitrage.py:87-90 | the five prices are read exactly when every ticker was fetched, the three pairs were requested and none of the five is `None`, and then they are the tickers' prices |
| `Arbitrage.EthAmount` | arbitrage.py:92 | the ETH amount times the BTC/ETH ask is one BTC |
| `Arbitrage.UsdtAmount` | arbitrage.py:93 | the USDT amount times the BTC/ETH ask is the ETH/USDT bid |
| `Arbitrage.FinalBtc` | arbitrage.py:94 | the BTC bought back, valued at the BTC/USDT bid, is the USDT amount |
| `Arbitrage.LoopFees` | arbitrage.py:96-98 | the fee term vanishes at a zero taker rate and is non-negative for non-negative rates and prices |
| `Arbitrage.LoopProfit` | arbitrage.py:95-99 | the net profit plus the fees plus the one BTC spent is the BTC bought back; with no fee it is the BTC gained |
| `Arbitrage.TriangularLoop` | arbitrage.py:86-109 | at most one opportunity. None when a fetch fails or a pair is missing. One exactly when the legs are present, neither divisor is zero, the venue has a fee row and the net profit is positive; it then has the fixed path, the net profit, and that profit times 100 as a positive percentage |
| `Arbitrage.CalculateTriangular` | arbitrage.py:84-109 | raises `KeyError` exactly when the venue has no exchange client (the lookup precedes the `try`), and otherwise returns the loop's result |
| `Arbitrage.ConsistentQuotesReturnInverseSquare` | arbitrage.py:91-94 | with consistent prices the loop returns 1/e² BTC per BTC, where e is the BTC/ETH ask |
| `Arbitrage.FetchP2P` | arbitrage.py:46-57 | at most the Binance entry exists, with the first advertised price as both its buy and sell price; it exists exactly when Binance is configured and the request succeeded |
| `Arbitrage.P2POf` | arbitrage.py:117-121 | a produced peer-to-peer opportunity names the two venues, buys at the buy entry's buy price and sells at the sell entry's sell price, earns the price difference times the amount, and its percentage is that profit per 100 of the cost |
| `Arbitrage.P2PFromMembers` | arbitrage.py:115-130 | the inner loop yields an opportunity exactly when some sell entry passes every guard and produces it |
| `Arbitrage.P2PCandidatesMembers` | arbitrage.py:114-130 | the nested loops yield an opportunity exactly when some (buy, sell) pair passes every guard and produces it |
| `Arbitrage.P2PFromNone` | arbitrage.py:115-122 | a buy entry that passes no guard contributes nothing |
| `Arbitrage.P2PCandidatesNone` | arbitrage.py:114-122 | when no pair passes the guards, nothing is produced |
| `Arbitrage.P2PCandidateSound` | arbitrage.py:114-130 | every produced peer-to-peer opportunity has distinct venues, truthy prices read from the book, the profit formula and a positive percentage |
| `Arbitrage.CalculateP2P` | arbitrage.py:111-131 | the result is sorted by profit percentage, highest first, and is a permutation of what the nested loops produce |
| `Arbitrage.P2PSound` | arbitrage.py:114-131 | every reported peer-to-peer opportunity has distinct venues, truthy prices read from the book, the profit formula and a positive percentage |
| `Arbitrage.P2PComplete` | arbitrage.py:114-131 | every (buy, sell) pair of the book that passes all the guards is reported |
| `Arbitrage.P2PSingleVenueNeverReports` | arbitrage.py:46-131 | with only the Binance feed implemented, peer-to-peer arbitrage never reports anything |
| `Arbitrage.P2PExample` | arbitrage.py:116-131 | buying at 40 and selling at 40.5 UAH for 10000 gives profit 5000 and 1.25 % |
| `Predictor.Change` | ml_model.py:21-22 | a percentage change exists exactly for a non-zero previous value, and it scales the previous value to the difference |
| `Predictor.DerivedRow` | ml_model.py:20-23 | a sample's row survives `dropna` exactly when the previous bid and spread are non-zero; it then holds the sample's bid, ask and spread, and the two changes scale the previous values to the differences |
| `Predictor.Derive` | ml_model.py:20-23 | the frame always loses at least the first sample, and every row's spread is its ask minus its bid |
| `Predictor.DeriveAligned` | ml_model.py:20-23 | with non-zero divisors exactly the first sample is dropped, and row i holds sample i+1 with its changes relative to sample i |
| `Predictor.LoadData` | ml_model.py:15-25 | there is no frame exactly when there is no file |
| `Predictor.TrainModel` | ml_model.py:27-40 | no file or fewer than 100 rows after `dropna` means false; success implies at least 100 rows (so more than 100 samples) and a score above 0.5; with at least 100 rows the call raises exactly when the fit raises, with the same error, and otherwise succeeds exactly when the score beats 0.5 |
| `Predictor.HundredSamplesTooFew` | ml_model.py:21-31 | a file of exactly 100 samples is always refused |
| `Predictor.HundredAndOneSamplesSuffice` | ml_model.py:21-40 | 101 samples with non-zero divisors leave the decision to the fit: it raises exactly when the fit raises, and succeeds exactly when the score beats 0.5 |
| `Predictor.CurrentFeatures` | ml_model.py:47-53 | the feature row carries the current bid, ask and spread; the two changes are relative to the last stored row, or 0 for a frame of at most one row |
| `Predictor.PredictSpread` | ml_model.py:42-57 | no prediction exactly when training returns false; a raise in training propagates unchanged; `TypeError` when training succeeds and a current price is missing; otherwise the regressor's prediction on the stored frame, raising exactly when the regressor does; a prediction implies a trained model and both prices |
| `Predictor.IsProfitable` | ml_model.py:59-64 | no prediction means false; a raise propagates; otherwise true exactly when the forecast strictly exceeds 1.1 times the current spread |
| `Predictor.ApprovalNeedsTrainedModel` | ml_model.py:27-64 | an approval implies a file of more than 100 samples leaving at least 100 rows, a fit that returned a score above 0.5, both current prices, and a forecast that returned a value beyond 1.1 times the spread |
| `Predictor.BoundaryForecastRejected` | ml_model.py:64 | a forecast of exactly 1.1 times the spread is not an approval |
| `Bot.Toggle` | main_bot.py:33-42 | `/monitor` flips the caller's membership, leaves everyone else alone, and confirms "on" exactly when the caller is now monitoring |
| `Bot.ToggleTwiceRestores` | main_bot.py:35-40 | toggling twice restores the registry |
| `Bot.Take` | main_bot.py:56 | a slice of at most n elements taken from the front |
| `Bot.RankedCross` | main_bot.py:55 | the cross-venue result the handlers use is sorted descending and holds only cross-venue opportunities |
| `Bot.VenueApproves` | main_bot.py:58-61 | a venue missing from the handler's prices is never approved and never reaches the predictor; otherwise the verdict is the predictor's |
| `Bot.Recommend` | main_bot.py:58-62 | with both venues missing the verdict is "no"; the check raises exactly when either venue's check raises; otherwise it is the disjunction of the two |
| `Bot.Plain` | main_bot.py:84-87 | peer-to-peer opportunities are listed one per item, untagged, in order |
| `Bot.Annotate` | main_bot.py:56-69 | each opportunity is listed once, in order, with its predictor verdict as the tag; the listing raises exactly when some verdict raises |
| `Bot.Shown` | main_bot.py:53-56 | the on-demand listing is the first pair's best three (or fewer) ranked cross-venue opportunities followed by the listing of the remaining pairs; at most three per pair, all cross-venue |
| `Bot.SymbolListing` | main_bot.py:55-69 | one pair's part of the reply lists exactly its best three opportunities in rank order, each tagged with the predictor's verdict on it; it raises exactly when the check on one of those three raises, and is empty when the pair has none |
| `Bot.InterListing` | main_bot.py:52-69 | the cross-venue reply lists exactly each pair's best three, whatever the predictor says; it is the first pair's listing followed by the others', so every tag is that pair's predictor verdict; it raises exactly when some pair's listing raises, and is empty when nothing is shown |
| `Bot.RequestBody` | main_bot.py:52-87 | what follows the title: the triangular branch raises `NameError`; the cross-venue branch is the cross-venue listing, raises exactly when some pair's predictor check raises, and otherwise lists exactly the shown opportunities; the peer-to-peer branch returns and lists exactly the best three peer-to-peer opportunities |
| `Bot.HandleRequest` | main_bot.py:44-95 | the triangular button always gives the error reply; the peer-to-peer button always gives "no opportunities"; the cross-venue button gives the error reply exactly when some pair's predictor check raises, and otherwise the tagged listing of exactly the shown opportunities, or "no opportunities" when there are none |
| `Bot.InterAlert` | main_bot.py:107-118 | as written: the alert exists exactly when the best opportunity beats 1 % and its predictor check returns; it raises exactly when that check raises; it is then the pair's header and one item, which shows the best opportunity when the predictor approves and shows nothing otherwise |
| `Bot.PrecedenceDropsDetails` | main_bot.py:113-118 | as written, a disapproved opportunity's alert is a header and a blank line that shows no opportunity; an approved one matches the intended alert |
| `Bot.IntendedInterAlert` | main_bot.py:107-118 | corrected (see Findings): the alert lists only opportunities above 1 % and is the pair's header and one entry |
| `Bot.InterAlertShowsBest` | main_bot.py:107-118 | corrected (see Findings): the alert is sent exactly when the best opportunity beats 1 %; it lists that opportunity, which no other one beats, tagged with the predictor's verdict |
| `Bot.TriangularAlertOf` | main_bot.py:122-126 | a venue's triangular alert exists exactly when its opportunity beats 1 %, and it lists only that opportunity |
| `Bot.TriangularAlerts` | main_bot.py:120-126 | as written: the walk over the five venues raises exactly when one of them has no exchange client, and then with `KeyError`; otherwise it is the intended walk, lists only opportunities above 1 %, and nothing for a pair other than BTC/USDT |
| `Bot.IntendedVenueAlert` | main_bot.py:120-126 | corrected (see Findings): a venue without a client lists nothing; a venue with one lists its loop's opportunity exactly when it beats 1 % |
| `Bot.IntendedTriangularAlerts` | main_bot.py:120-126 | corrected (see Findings): venues without a client are skipped; the alerts list exactly the opportunities of the walked venues that have a client and whose loop beats 1 %; a pair other than BTC/USDT never produces one |
| `Bot.P2PAlert` | main_bot.py:128-134 | a peer-to-peer alert lists only opportunities above 1 % |
| `Bot.P2PAlertNeverSent` | main_bot.py:128-134 | the monitoring job never sends a peer-to-peer alert |
| `Bot.CrossAlert` | main_bot.py:107-118 | as written: the cross-venue part of a pair's turn lists only opportunities above 1 %, at most the pair's best one, and raises only when that best one beats 1 % |
| `Bot.IntendedCrossAlert` | main_bot.py:107-118 | corrected (see Findings): the cross-venue part of a pair's turn lists only opportunities above 1 % |
| `Bot.RoundAlerts` | main_bot.py:105-134 | as written: one pair's turn raises exactly when the cross-venue alert raises or a monitored venue has no client; otherwise it is the cross-venue alert followed by the triangular alerts, all above 1 % |
| `Bot.IntendedRoundAlerts` | main_bot.py:105-134 | corrected (see Findings): one pair's turn raises exactly when the cross-venue alert raises; otherwise it lists the cross-venue opportunities and then the triangular ones, all above 1 % |
| `Bot.Sequence` | main_bot.py:104-143 | running the pairs' turns in order is abandoned exactly when one of them raises |
| `Bot.JoinedPart` | main_bot.py:104-135 | every turn's items appear whole, in turn order, in the concatenation of all turns |
| `Bot.SequenceHolds` | main_bot.py:104-135 | a run completes exactly when every turn returned, and then its items are all turns' items concatenated in turn order |
| `Bot.SequenceAbove` | main_bot.py:104-135 | when every turn lists only opportunities above 1 %, so does the completed run |
| `Bot.CycleBody` | main_bot.py:103-143 | as written: every opportunity in a completed pass beats 1 % |
| `Bot.CycleBodyRaises` | main_bot.py:104-143 | as written: a pass is abandoned exactly when there is a pair and either a monitored venue has no client or some cross-venue predictor check raised |
| `Bot.CycleBodyHolds` | main_bot.py:104-135 | as written: a completed pass had every turn return, and holds all turns' items concatenated in pair order |
| `Bot.IntendedCycleBody` | main_bot.py:103-143 | corrected (see Findings): every opportunity in a completed pass beats 1 % |
| `Bot.IntendedCycleBodyRaises` | main_bot.py:104-143 | corrected (see Findings): a pass is abandoned exactly when some cross-venue predictor check raised |
| `Bot.IntendedCycleBodyHolds` | main_bot.py:104-135 | corrected (see Findings): a completed pass holds all turns' items concatenated in pair order |
| `Bot.Deliver` | main_bot.py:136-143 | a message goes out exactly when something follows the title and someone is monitoring, and then to every monitoring user |
| `Bot.MonitorCycle` | main_bot.py:99-145 | as written: a pass sends only to the monitoring users, only a non-empty message, only opportunities above 1 %, and only when there is a pair and every monitored venue has a client |
| `Bot.MissingClientSilencesMonitor` | main_bot.py:120-143 | as written: if any monitored venue has no client, no pass notifies anyone |
| `Bot.SourceMonitorNeverNotifies` | main_bot.py:120-143 | as written, with the bot's three clients ("kraken" and "kucoin" have none), the monitoring job never notifies |
| `Bot.IntendedMonitorCycle` | main_bot.py:99-145 | corrected (see Findings): a pass sends only to the monitoring users, only a non-empty message, and only opportunities above 1 % |
| `Bot.CorrectedMonitorNotifies` | main_bot.py:120-141 | corrected (see Findings): once venues without a client are skipped, a monitored venue with a client whose loop beats 1 % makes the pass send to every monitoring user a message that lists that opportunity, provided no predictor check raised |

## Left out

- **Network, Telegram and files.** Exchange calls, the NBU rate request, `close_exchanges`, message sending, and the CSV reads are not modelled; their results are inputs. `fetch_uah_usd_rate` is not used by any modelled path.
- **Timing.** The `while True` loop, the 300-second sleep, and the job queue are left out. One monitoring pass is modelled.
- **Concurrency.** The async scheduling and the shared `monitoring_users` set across handlers are left out. The set is a value passed in and returned.
- **Reused clients.** Each monitoring pass closes the clients in its `finally`, and the next pass reuses them. The consequences for later passes depend on the exchange library and are not modelled.
- **Message text.** Text formatting is abstracted to items:
  - `:.2f` rounding, emoji and the Ukrainian text are left out;
  - the "[AI рекомендує]" marker is the `recommended` flag.
- **Floating point.** Prices and fees are reals, so IEEE rounding, NaN and infinity are not modelled.
- **Regressor.** `RandomForestRegressor`, `train_test_split` and the R² score are uninterpreted functions that return a value or raise. Whether the NaN target of the last row (`shift(-1)`) makes the fit raise `ValueError` is library behaviour. The model leaves it to those functions and does not decide it.
- Predictor.Derive: a zero divisor in `pct_change`. pandas gives NaN for 0/0, and `dropna` removes that row. For x/0 it gives ±inf, and `dropna` keeps that row. The model drops the row in both cases. `DeriveAligned` therefore assumes non-zero divisors.
- Predictor.CurrentFeatures: a zero divisor. numpy gives inf; the model marks the feature as absent (`None`) and still hands the row to the regressor.
- Arbitrage.CalculateCrossVenue: requires a positive amount and a duplicate-free snapshot, and so do `CrossVenueSound` and `CrossVenueComplete`. The bot always passes 1 and builds the snapshot as a dictionary. The `ZeroDivisionError` that an amount of 0 would raise is not modelled.
- Arbitrage.CalculateP2P: requires a positive amount. The bot always passes 10000.
- Arbitrage.CrossCandidatesMembers: a missing fee row skips the pair instead of raising `KeyError`. Every configured venue has a fee row (`WellFormed`), so this case does not arise in the bot.
- **Configuration.** `SUPPORTED_PAIRS` and the API keys live in `config.py`, which is not part of this model. The pairs of one pass are the rounds given to the bot functions.
- **Other handlers.** `start`, `arbitrage` (the keyboard) and `main` only reply with fixed text or register handlers.

Two consequences of the code as written:

- **Sample count.** `train_model` needs 100 rows after `dropna`. `pct_change` always leaves the first row empty, so 101 stored samples are needed (`HundredSamplesTooFew`, `HundredAndOneSamplesSuffice`).
- **Triangular loop.** It divides one BTC by the BTC/ETH ask, where the intended conversion multiplies. Under consistent prices it therefore returns 1/e² BTC (`ConsistentQuotesReturnInverseSquare`). This is modelled as written and not corrected, because the intended loop is not evident from the code.

## Findings

| source | as written | input that shows it | evidently intended | confidence | as-written member | corrected member |
|---|---|---|---|---|---|---|
| main_bot.py:120-143 | The job walks "binance", "bybit", "okx", "kraken" and "kucoin". `self.exchanges[ex_name]` (arbitrage.py:85) comes before the `try`, so "kraken" raises `KeyError`, and the `except` at line 142 abandons the whole pass. | Any non-empty pair list with the bot's three clients. Every pass is then silent, even with a 5 % cross-venue opportunity. | Venues without a client contribute nothing, and the other alerts are sent. | not executed | `Bot.SourceMonitorNeverNotifies` | `Bot.CorrectedMonitorNotifies` |
| main_bot.py:115-118 | The conditional expression binds looser than the implicit string concatenation. Without an AI recommendation, the three detail lines are replaced by `"\n\n"`. | Best opportunity 2 %, and the predictor approves neither venue. The alert is a header followed by a blank line. | The details are always shown, and only the "[AI рекомендує]" marker depends on the verdict. | not executed | `Bot.PrecedenceDropsDetails` | `Bot.InterAlertShowsBest` |
