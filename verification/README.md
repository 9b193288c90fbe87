# v5 Trader decision core in Dafny

This project models the deterministic core of the v5 Trader trading assistant: the
logic that decides and guards, with no transport around it.

- **Exit rules.** The exit-risk rule chain is stop loss, then take profit, then
  trailing stop, then hard stop. Around it sit the position-capacity gate and the
  200-character exit notification.
- **Scoring.** The v5 scoring strategy scores each symbol by daily change, momentum,
  20-bar volume rank and body/range intensity, then picks the stable top N.
- **Alerting.** The API layer refreshes held positions, evaluates them and notifies
  each exit only the first time its `symbol:type:date` key is remembered in the log
  table.
- **Storage.** The SQLite store becomes pure tables. Positions are an association list
  with one row per symbol. Trades and symbols are maps, and the log is an
  append-only sequence.
- **Brokers.** The mock broker keeps an order book and a weighted-average position. The
  KIS broker runs its pre-request gates, splits the account number, derives the
  payload and transaction id, classifies the reply and parses balance rows.
- **Token.** The KIS token lifecycle covers Bearer normalisation, expiry arithmetic, the
  need-new-token test and the line-based `[auth]` section rewriter.
- **Market data.** The KIS daily-candle parser covers its limit and sort. The mock
  market covers its universes, timeframe parsing and candle shape, with the random
  draws abstracted.
- **Symbol names.** This covers the default tables, name lookup and KRX cache loading.
- **Small calculators.**
  - the desktop trade form's quantity and submit gates and its limit-price stepper;
  - the chart's SMA and RSI;
  - the recommendation cards' sparkline geometry;
  - the statistics dashboard's metrics;
  - the upload extension filter.

The model works in Dafny's own terms:

- Everything is an immutable datatype and a pure function, or a method with loop
  invariants where the source loops.
- Prices are `real`, quantities `int`, strings `seq<char>`.
- Each side effect is a new state value. This covers the log line, the upserted row,
  the notifier call and the rewritten file.
- Whatever the core reads from outside is a parameter:
  - the clock (`Instant`, `Date`, `now`);
  - HTTP replies (`Option` of a reply datatype, `None` for a failed request);
  - random draws (`draw: nat -> Draw`);
  - float rendering (`NumberFormat`, `fmt`, `fixed2`);
  - the market's optional `get_name`/`get_universe` capabilities.

Modules follow the source files:

| Module | Models |
|---|---|
| `Risk` | `core/risk.py` |
| `Strategy` | `core/strategy_v5.py` |
| `Entities` | `core/entities.py` |
| `Symbols` | `core/symbols.py` |
| `Deps` | `api/deps.py` |
| `Storage` | `adapters/storage_sqlite.py` |
| `BrokerMock` | `adapters/broker_mock.py` |
| `BrokerKis` | `adapters/broker_kis.py` |
| `KisAuth` | `adapters/kis_auth.py` |
| `MarketKis` | `adapters/market_kis.py` |
| `MarketMock` | `adapters/market_mock.py` |
| `TradeForm` | `TradeForm.tsx` |
| `Chart` | `Chart.tsx` |
| `RecoCards` | `RecoCards.tsx` |
| `Dashboard` | `dashboard.py` |
| `Upload` | `app.py` |

Shared helpers live in their own modules:

- `Wrappers`: `Option`.
- `Text`: Python string semantics. `strip` uses the full `str.isspace` set; `split`,
  `replace`, `join` and slicing follow Python.
- `StableSort`: a stable insertion sort by a real key, standing in for Python's
  `sorted` and `list.sort`.
- `RealOrder`: order facts about real division.

## Model

| member | source | states |
|---|---|---|
| Risk.ResolvePct | core/risk.py:40-45 | A non-zero stored `pnl_pct` is used as is. Otherwise, with a cost basis, the ratio is the one whose growth takes `avg_price` to `last_price`. With neither, it is 0. |
| Risk.EvaluateExit | core/risk.py:48-88 | Each rule fires exactly when its own condition holds and every higher-priority condition fails (stop_loss > take_profit > trailing > hard_stop). The result is None exactly when no condition holds. A signal carries the position's symbol, the evaluation time and one of the four types. |
| Risk.StopLossPersistsAsPriceFalls | core/risk.py:51-60 | With a recomputed ratio, a position that signals stop_loss still signals stop_loss at any lower price. |
| Risk.DecisionIgnoresClockAndFormat | core/risk.py:48-88 | Whether a rule fires, and which, depends on neither the clock nor the number rendering. |
| Risk.StopLossExample | tests/test_risk.py:11-16 | Average 100 and last price 94 with a 5% stop give stop_loss. |
| Risk.TakeProfitExample | tests/test_risk.py:19-23 | Average 100 and last price 115 with a 10% take-profit give take_profit. |
| Risk.TrailingExampleYieldsTakeProfit | core/risk.py:62-68 | Average 100, last 110 and trail stop 120 with take-profit 0.1 give take_profit, because the recomputed ratio 0.1 reaches the take-profit rule before the trailing rule. |
| Risk.CanOpenPosition | core/risk.py:36-37 | A new position may be opened exactly when the current count is below `max_positions`. |
| Risk.CapacityMonotone | core/risk.py:36-37 | If the gate admits a count, it admits every smaller count. |
| Risk.CapacityExample | tests/test_risk.py:30-33 | With max 3, two open positions admit one more and three do not. |
| Risk.ExitLabel | core/risk.py:92-94 | The caption is the symbol alone when no name or an empty name is given. Otherwise it is the symbol, a space and the name. |
| Risk.FormatExitMessage | core/risk.py:91-95 | The message is a prefix of the full notification text and at most 200 characters long. It equals the full text when that fits, and is exactly 200 characters otherwise. |
| Risk.EmptyNameIsNoName | core/risk.py:93-94 | An empty display name gives the same message as no name. |
| Risk.NameShownWhenGiven | core/risk.py:91-95 | When the text fits, a non-empty name appears in the message right after the symbol. |
| Entities.ChangeRatio | core/entities.py:18-21 | The ratio is 0 for a zero open. Otherwise it is the growth that takes open to close, and for a positive open it is positive exactly when the candle closes up. |
| Entities.BodySize | core/entities.py:23-24 | The body is non-negative and is the close-open difference taken one way or the other. |
| Entities.BodyWithinRange | core/entities.py:23-27 | In a well-formed candle, where the low is at most open and close and the high at least, the body never exceeds the range. |
| Entities.Summary | core/entities.py:36-38 | The summary starts with the symbol and the rendered score. It ends with the comma-joined reasons, or with "N/A" when there are none. |
| Entities.MarketValue | core/entities.py:48-49 | A flat position or a zero price is worth nothing. A long position at a positive price is worth a positive amount, and a short one a negative amount. |
| Entities.UnrealizedPnl | core/entities.py:51-52 | A flat position, or a price equal to the average, carries no unrealized P&L. `Entities.PnlIsValueLessCost` ties it to the market value. |
| Entities.PnlIsValueLessCost | core/entities.py:48-52 | Unrealized P&L is market value minus cost. For a long position it is positive exactly when the price is above the average. |
| Entities.TopNSignals | core/entities.py:55-57 | For n ≥ 0 the result has min(n, len) elements in non-increasing score order. It is a sub-multiset of the input. |
| Entities.TopNFromInput | core/entities.py:55-57 | Every returned signal is one of the input signals. |
| Entities.TopNKeepsBest | core/entities.py:55-57 | No signal left out scores above a returned one. |
| Entities.TopNStable | core/entities.py:56 | Among signals of equal score, the returned ones are the first ones of the input, in input order. |
| Entities.IsoFormatInjective | adapters/storage_sqlite.py:198 | `date.isoformat` is a fixed-width `YYYY-MM-DD` text, and distinct valid dates give distinct texts. |
| Entities.PadValue | adapters/storage_sqlite.py:198 | A zero-padded field reads back as the number it encodes. |
| StableSort.SortBySorted | core/entities.py:56 | The sort orders its output by the key. |
| StableSort.SortByStable | core/entities.py:56 | For every key value, the sorted output lists the elements with that key in their input order. With the ordering above, this makes the sort Python's stable `sorted`. |
| StableSort.SortBy | core/entities.py:56 | The sort is a permutation of its input. |
| Strategy.ScoreSymbol | core/strategy_v5.py:15-46 | Fewer than two candles give exactly score 0 with the single "데이터 부족" reason. Otherwise the score is the weighted sum of change, momentum, volume rank and intensity. There are then four reasons, labelled in that order. |
| Strategy.MomentumPct | core/strategy_v5.py:23 | Momentum is 0 when the previous close is 0. Otherwise it is the percentage growth from the previous close to the latest. |
| Strategy.Intensity | core/strategy_v5.py:30-32 | Intensity is 0 for a bar with no range. For a well-formed bar it lies in [0, 1]. |
| Strategy.RecentVolumes | core/strategy_v5.py:24 | These are the volumes of the last min(20, n) candles, in order. |
| Strategy.VolumeRank | core/strategy_v5.py:24-28 | The rank lies in (0, 1]. |
| Strategy.VolumeRankCountsSmaller | core/strategy_v5.py:24-28 | The latest volume is among the recent ones. Its sorted index equals the number of recent volumes strictly below it, so the rank is (that count + 1) / window length. |
| Strategy.SortedIndexCountsSmaller | core/strategy_v5.py:27 | The first position of a value in the sorted list is the number of entries below it. |
| Strategy.ScoreBoundsWithoutPriceWeights | core/strategy_v5.py:34-39 | With the change and momentum weights at 0 and a well-formed latest bar, the score lies between 0 and `volume_rank·100 + 10`. |
| Strategy.ScoreAll | core/strategy_v5.py:49-54 | Each symbol is scored once, in input order, with its own candles. Each is named through the symbol table. |
| Strategy.PickTopSignals | core/strategy_v5.py:48-55 | The pick has min(top_n, #symbols) signals in non-increasing score order, drawn from the scored signals. |
| Strategy.PickedScoresAreOwnScores | core/strategy_v5.py:48-55 | Each picked signal is exactly the scored signal of one input symbol. |
| Symbols.DefaultTablesAgree | core/symbols.py:10-44 | There are 15 distinct default symbols, and each has a non-empty default name. |
| Symbols.IterDefaultSymbols | core/symbols.py:101-102 | The iteration yields the 15 default symbols, starting with 005930.KS. |
| Symbols.GetName | core/symbols.py:93-98 | The symbol is stripped. The result is its cached name, else its default name, else the stripped symbol, and an empty name counts as missing. |
| Symbols.DefaultSymbolsAreNamed | core/symbols.py:93-98 | A default symbol not overridden by the cache resolves to its non-empty default name. |
| Symbols.CodeStripsToItself | core/symbols.py:97 | A code made of code characters is unchanged by `strip`. |
| Symbols.LoadCache | core/symbols.py:50-85 | A missing or empty file gives the empty cache, because the cache is reset before each load. Otherwise a symbol is cached exactly when some row yields an entry for it. Its name is that of the last such row, and every entry has a non-empty stripped symbol and name. |
| Symbols.LayoutOf | core/symbols.py:58-71 | A first row without `symbol` or `code` cells is data. Otherwise the header keys rows by `symbol` when that column exists, else by `code`. It takes names from the `name` column when there is one, else from the second column, and a header of fewer than two cells without `name` is unusable. |
| Symbols.LoadEntriesKeepsLast | core/symbols.py:72-81 | Loading a prefix of the entries caches a symbol exactly when it has an entry in that prefix, with the name from its last one. |
| Symbols.UnusableHeaderLoadsNothing | core/symbols.py:64-71 | A header with `symbol` or `code`, no `name` and fewer than two cells loads nothing. |
| Symbols.LaterRowWins | core/symbols.py:72-81 | In a file without a header, a later row for a symbol overrides earlier ones. |
| Symbols.HeaderPrefersSymbol | core/symbols.py:64-71 | With both `symbol` and `code` columns, a row is keyed by its `symbol` cell. |
| Symbols.LastIndexOf | core/symbols.py:63-69 | A header cell is found at its last position. It is absent exactly when no cell has that name, which is how `DictReader` resolves duplicate column names. |
| Deps.ResolveSymbolName | api/deps.py:70-79 | The result is the market's name when it is non-empty, else the symbol table's name when that is non-empty, else the symbol. |
| Deps.DefaultNameResolves | api/deps.py:70-79 | Without a market name or cache, a default symbol resolves to its default name. |
| Deps.ResolveUniverse | api/deps.py:82-95 | The universe is never empty. It is the market's offer, or the default symbols when the market has none, and the defaults replace an empty offer. |
| Deps.CustomUniverseHonoured | api/deps.py:82-95 | For any name that upper-cases to CUSTOM, a non-empty custom list is used as given and an empty one falls back to the defaults. |
| Deps.CollectCandles | api/deps.py:98-106 | There is a key for exactly the requested symbols. A failed fetch maps to the empty list. |
| Deps.NameSignals | api/deps.py:120-125 | Signals keep their order, symbol, score and reasons. A signal without a name gets the resolved name, and a named one is unchanged. |
| Deps.HeldPositions | api/deps.py:136-138 | Exactly the positions with a positive quantity are kept. |
| Deps.HeldPositionsAppend | api/deps.py:136-138 | Filtering commutes with concatenation, so held positions keep their input order. |
| Deps.Refresh | api/deps.py:139-148 | With a series, the last price is the last close. The ratio changes only when there is a cost basis. A set trailing stop is kept and an unset one takes the last price. No other field changes. |
| Deps.RefreshedPnlMatchesPrice | api/deps.py:145-146 | With a cost basis, the refreshed ratio is the growth from average to last price, and it is the ratio the risk rules then use. |
| Deps.TrailStopFixedOnceSet | api/deps.py:147-148 | Once a trailing stop is set, later refreshes never move it. |
| Deps.RememberSeries | api/deps.py:139-142 | A fetched series is remembered for its symbol, and the other symbols' series are untouched. |
| Deps.RefreshAll | api/deps.py:136-148 | There is one output position per held position, in order. Each is that position refreshed from the series collected for its symbol, or from a fresh fetch when none was collected. The map then holds, for each held symbol, the series it was refreshed from. Every other entry is untouched. |
| Deps.EnrichPositions | api/deps.py:128-151 | The result is the held positions, in input order, each refreshed from its collected or fetched series. Each symbol's stored row is its last refreshed position, stamped with the call's time. Other symbols' rows and the log, trade and symbol tables are unchanged. |
| Deps.Signals | api/deps.py:163-166 | Results are sound: each is an input position paired with its own signal. They are complete: every position with a signal appears. |
| Deps.SignalsAppend | api/deps.py:163-179 | The results for a concatenation are the results for each part, concatenated, so pairs come out in input order. |
| Deps.Notify | api/deps.py:167-178 | At most one message is sent per result. The log only grows, and the other tables are unchanged. |
| Deps.NotifySendsFirstAlerts | api/deps.py:167-178 | The messages sent are exactly those of the results whose alert key was neither remembered beforehand nor the key of an earlier result, in result order. |
| Deps.NotifyRemembers | api/deps.py:167-171 | After notifying, every result's `symbol:type:date` key is in the log. |
| Deps.HandleExitSignals | api/deps.py:154-180 | The results are the positions that have an exit signal, in input order, each paired with its own signal. The messages sent are exactly those of the results whose key was neither remembered beforehand nor the key of an earlier result. Every result's key is remembered afterwards. The log only grows, and positions, trades and symbols are unchanged. |
| Deps.RememberedSendsNothing | api/deps.py:167-176 | When every key is already remembered, nothing is sent and the store is unchanged. |
| Deps.SecondPassSendsNothing | api/deps.py:154-180 | Running the handler again on the store it produced gives the same results and sends nothing. |
| Deps.NewSignalIsSent | api/deps.py:172-176 | A signal whose key is not yet remembered is sent once, with the resolved display name. |
| Storage.Lookup | adapters/storage_sqlite.py:145-168 | A row is found for a symbol exactly when one with that symbol exists. |
| Storage.UpsertRow | adapters/storage_sqlite.py:107-141 | After an upsert, the symbol maps to the new row with every field overwritten. Every other symbol's row is unchanged. A row is added only for a new symbol. |
| Storage.UpsertRowUnique | adapters/storage_sqlite.py:43-53 | Upserting keeps at most one row per symbol, which is the primary-key constraint. |
| Storage.UpsertPosition | adapters/storage_sqlite.py:107-141 | The stored row for the symbol is the position with its stamp. Other symbols and tables are unchanged. |
| Storage.UpsertPositions | adapters/storage_sqlite.py:107-141 | Upserting a list in order leaves each symbol holding the last position given for it, with the stamp. Symbols not given keep their rows, and the other tables are unchanged. |
| Storage.GetPositions | adapters/storage_sqlite.py:145-168 | There is one position per stored row, with the stored fields, in row order. |
| Storage.UpsertThenGet | adapters/storage_sqlite.py:107-168 | After an upsert, reading the positions returns the upserted position, and no other one for that symbol. |
| Storage.RecordTrade | adapters/storage_sqlite.py:94-103 | The trade id maps to the new trade, replacing any old one. Other trades and tables are unchanged. |
| Storage.LogEvent | adapters/storage_sqlite.py:173-179 | Exactly one entry is appended, and nothing else changes. |
| Storage.IsDailyLossLimitExceeded | adapters/storage_sqlite.py:183-195 | The limit is exceeded exactly when a "risk" entry dated today or later mentions `daily_loss`. The limit argument is ignored. |
| Storage.AlertsDoNotCountAsLoss | adapters/storage_sqlite.py:183-211 | Remembering an alert never changes the daily-loss answer. |
| Storage.RiskEntryTripsLimit | adapters/storage_sqlite.py:173-195 | Logging a "risk" entry that mentions `daily_loss` trips the limit for that day. |
| Storage.AlertKeyDistinguishesDates | adapters/storage_sqlite.py:198 | The same symbol and type on different dates give different alert keys. |
| Storage.RememberAlert | adapters/storage_sqlite.py:197-214 | The call returns true exactly when the key is not in the log yet, and then appends one "alert" entry with it. Otherwise nothing changes. Afterwards the key is remembered. |
| Storage.RememberKey | adapters/storage_sqlite.py:200-214 | The call returns true exactly when the key is not remembered yet, and then logs it as one "alert" entry. Otherwise nothing changes. Afterwards the key is remembered. |
| Storage.HasAlertAppend | adapters/storage_sqlite.py:200-205 | After one entry is appended, a key is remembered exactly when it was before or the new entry is an "alert" with that key. |
| Storage.RememberIsIdempotent | adapters/storage_sqlite.py:200-211 | A second call with the same key returns false and changes nothing. |
| Storage.RememberOtherDateUnaffected | adapters/storage_sqlite.py:198-205 | Remembering a key for one date leaves the answer for any other date as it was. |
| Storage.HasAlertExtends | adapters/storage_sqlite.py:200-205 | A remembered key stays remembered as the log grows. |
| Storage.GetSymbolName | adapters/storage_sqlite.py:216-227 | A name is returned exactly for a stored code, and it is the stored name. |
| Storage.UpsertSymbol | adapters/storage_sqlite.py:229-243 | Other codes and the other tables are unchanged. |
| Storage.UpsertThenGetSymbolName | adapters/storage_sqlite.py:216-241 | `upsert_symbol(c, n)` followed by `get_symbol_name(c)` gives n. |
| BrokerMock.SignedQty | adapters/broker_mock.py:75-76 | A buy adds the quantity and anything else subtracts it. |
| BrokerMock.UpdatedPosition | adapters/broker_mock.py:73-90 | The new quantity is the old one plus the signed quantity, with no inventory check. A flat position has average 0. Otherwise the average times the new quantity equals the old cost plus price times signed quantity. |
| BrokerMock.SellHalfAverage | adapters/broker_mock.py:82-86 | Ten bought at 100 and then five sold at 110 leave five at an average of 90. |
| BrokerMock.NewMockBroker | adapters/broker_mock.py:17-20 | A new broker has no orders and no positions, uses the given storage, and is in step with it. |
| BrokerMock.PlaceOrder | adapters/broker_mock.py:22-50 | The order succeeds exactly for side buy or sell and a positive quantity. A refusal changes nothing. A success adds one "filled" order and one trade, with a missing price stored as 0. Only that symbol's position is updated, and the store stays in step. |
| BrokerMock.PlaceAllNetsQuantities | adapters/broker_mock.py:22-90 | After a run of orders, a symbol's held quantity is its old quantity plus the net signed quantity of the valid orders for it. |
| BrokerMock.BuyThenSellExample | tests/test_adapters.py:42-56 | Buying 10 at 100 and then selling 5 at 110 leaves one stored position, AAA, with quantity 5 and average 90. The first order stays known. |
| BrokerMock.Amend | adapters/broker_mock.py:52-59 | The call succeeds exactly for a known order. The given fields then override that order's fields, and its other fields keep their values. Every other order is kept as it was, and one INFO line is logged. An unknown id changes nothing. |
| BrokerMock.Cancel | adapters/broker_mock.py:61-68 | The call succeeds exactly for a known order. It then sets that order's status to "cancelled", and the order's other fields keep their values. Every other order is kept as it was, and one INFO line is logged. An unknown id changes nothing. |
| BrokerMock.AmendThenCancel | tests/test_adapters.py:54-56 | For a known order, an amend succeeds and a following cancel succeeds too. |
| BrokerMock.BrokerPositions | adapters/broker_mock.py:70-71 | The broker's positions are the store's, and every position the broker tracks is among them. |
| BrokerKis.CleanAccount | adapters/broker_kis.py:76 | The cleaned account is the input with hyphens removed and then stripped, and it contains no hyphen. |
| BrokerKis.SplitAccount | adapters/broker_kis.py:75-81 | Ten or more cleaned characters give the first 8 and the next 2. Fewer give the clean text with "01", and an empty input gives ("", "01"). |
| BrokerKis.SplitAccountRoundTrip | adapters/broker_kis.py:75-81 | Splitting "CANO-PRD", for an 8-character CANO and a 2-character PRD without spaces or hyphens, gives back (CANO, PRD). |
| BrokerKis.OrderTrId | adapters/broker_kis.py:20-25 | A transaction id exists exactly for buy or sell. |
| BrokerKis.OrderTrIdInjective | adapters/broker_kis.py:20-25 | The four transaction ids are pairwise distinct. |
| BrokerKis.OrderGate | adapters/broker_kis.py:125-139 | The order passes exactly when the side is valid, the quantity positive, the keys loaded, the user confirmed and the account set. The first failing check names the refusal. |
| BrokerKis.OrderPayloadFor | adapters/broker_kis.py:141-150 | PDNO is the symbol up to its first dot and contains no dot. ORD_QTY is the decimal quantity, ORD_DVSN is "01". ORD_UNPR is "0" without a price, else the price rendered to two decimals. The account fields are the broker's. |
| BrokerKis.PlaceOrder | adapters/broker_kis.py:116-181 | A refused gate makes no request and changes nothing. Otherwise the request carries the table's transaction id and the payload. A missing reply logs one WARNING, a non-"0" code logs one WARNING with the reply's message, and code "0" succeeds with one INFO line. No trade or position is ever recorded. |
| BrokerKis.Amend | adapters/broker_kis.py:183-186 | Amending always fails and logs the request. |
| BrokerKis.Cancel | adapters/broker_kis.py:188-191 | Cancelling always fails and logs the request. |
| BrokerKis.NumberOrZero | adapters/broker_kis.py:245-251 | Reading a field fails exactly when it is not a number, and a numeric field reads as its value. |
| BrokerKis.ParseBalanceRow | adapters/broker_kis.py:240-268 | A row is skipped exactly when its quantity does not read as a positive whole number, a price or rate field is malformed, or the code is missing or empty. A parsed row has the stripped code plus ".KS", the held quantity, and the read average and last prices. It has the rate divided by 100 and a take-profit of 1.2 × average. Its trailing stop is the larger of the last price and the highest price, which is the last price when no highest price is given. Its hard stop is 0. |
| BrokerKis.ParsedRowIsHolding | adapters/broker_kis.py:240-268 | Every parsed position is a holding with a ".KS" symbol. |
| BrokerKis.Parsed | adapters/broker_kis.py:238-268 | Every position comes from some row, and every row that parses contributes its position. |
| BrokerKis.ParsedAppend | adapters/broker_kis.py:238-268 | Parsing a concatenation parses each part in turn, so positions come out in row order. |
| BrokerKis.ParseRows | adapters/broker_kis.py:238-270 | The positions are the parses of the rows that parse, in row order. The store is the old one with each of them upserted, stamped `now`. Logs and trades are untouched. |
| BrokerKis.FetchRemotePositions | adapters/broker_kis.py:203-272 | A disabled broker, a missing account, a failed request or a reply without a list gives nothing and changes nothing. A list reply gives its parsed rows, in order, each upserted with the stamp. Every position returned is a holding with a ".KS" symbol. |
| BrokerKis.GetPositions | adapters/broker_kis.py:193-201 | The result is the remote list when it is non-empty, else the stored positions. The broker comes out as the fetch leaves it. After a non-empty fetch, every returned position has been upserted into storage, stamped. |
| KisAuth.NormalizeBearer | adapters/kis_auth.py:56 | The token always starts with "Bearer ". A token that already does is kept, and any other gets the prefix. |
| KisAuth.NormalizeBearerIdempotent | adapters/kis_auth.py:56 | Normalising twice is the same as normalising once. |
| KisAuth.EscapeRoundTrip | adapters/kis_auth.py:57 | Escaping quotes is undone by unescaping, for text without backslashes. |
| KisAuth.Lifetime | adapters/kis_auth.py:59 | The lifetime is the reply's `expires_in`, or 3600 when that is missing or zero. |
| KisAuth.Expiry | adapters/kis_auth.py:59 | The expiry is 30 seconds before now plus the lifetime, so strictly before it. |
| KisAuth.NoAuthSectionUnchanged | adapters/kis_auth.py:71-110 | A file without an `[auth]` line keeps every line, in order. |
| KisAuth.KeysWritten | adapters/kis_auth.py:79-108 | When the file has an `[auth]` section, or one is open, each key line not yet written appears in the output. |
| KisAuth.Rewrite | adapters/kis_auth.py:79-108 | The rewrite adds no line of its own: every output line is an input line or one of the two new key lines. `KisAuth.RewriteKeepsOtherLines`, `KisAuth.RewriteKeepsOutside` and `KisAuth.RewriteLeavesOnlyNewKeys` say which. |
| KisAuth.RewriteKeepsOtherLines | adapters/kis_auth.py:79-101 | Apart from key lines, the output is the input line for line, in order. |
| KisAuth.RewriteKeepsOutside | adapters/kis_auth.py:79-101 | The lines outside `[auth]`, headers and key lines included, are the same before and after the rewrite, in the same order. |
| KisAuth.RewriteLeavesOnlyNewKeys | adapters/kis_auth.py:92-99 | Every key line inside `[auth]` after the rewrite is one of the two new key lines. |
| KisAuth.NewKeysWrittenOnce | adapters/kis_auth.py:79-108 | In a file with no key lines, each new key line is written exactly once when an `[auth]` section is open or opens while the key is still owed. Otherwise it is not written. |
| KisAuth.DuplicateKeysBothReplaced | adapters/kis_auth.py:92-95 | Two `access_token` lines in `[auth]` are both replaced, so the new token line appears twice. |
| KisAuth.OwedKeysPrecedeNextHeader | adapters/kis_auth.py:85-92 | Leaving the section at the next header writes the missing key lines just before that header. |
| KisAuth.SectionClosedBeforeNextHeader | adapters/kis_auth.py:79-101 | A section holding one ordinary line gains the token and expiry lines between that line and the next header. |
| KisAuth.StepLine | adapters/kis_auth.py:79-101 | One step writes only the line itself or the two key lines. The line is kept unless it is a key line inside the section. |
| KisAuth.SaveToken | adapters/kis_auth.py:55-112 | The keys get the normalised token and the computed expiry, with the other fields kept. With an `[auth]` section, both new key lines are in the file. Without one, the file keeps every line, in order. Every line outside `[auth]`, key lines included, is kept in order, and the only key lines left inside `[auth]` are the two new ones. |
| KisAuth.NeedNewToken | adapters/kis_auth.py:115-120 | No new token is needed exactly when the token starts with "Bearer ", the expiry is set and non-zero, and now is before it. |
| KisAuth.SavedTokenValidUntilExpiry | adapters/kis_auth.py:55-120 | Right after saving, a new token is needed exactly from the expiry on. |
| KisAuth.FirstTruthy | adapters/kis_auth.py:142 | The empty result means neither candidate was a non-empty string. |
| KisAuth.IssueToken | adapters/kis_auth.py:123-152 | Issuing succeeds exactly when the reply has a non-empty token. A failure changes neither the keys nor the file. A success stores the normalised token and now + lifetime − 30, and keeps the other key fields. The keys and the file are exactly what saving that token gives. |
| KisAuth.EnsureToken | adapters/kis_auth.py:155-162 | Missing keys give None, and a valid token is returned as is. Otherwise a token is returned exactly when issuing succeeds, and it is the newly issued token, normalised. Any token returned starts with "Bearer ". |
| MarketKis.FirstNumber | adapters/market_kis.py:78-82 | The first given field wins and a missing pair gives the default. A malformed winner fails the parse. |
| MarketKis.FirstText | adapters/market_kis.py:75 | The result is the first non-empty candidate, or none. |
| MarketKis.MarketSymbol | adapters/market_kis.py:93 | ".KS" is appended unless the code already has a dot. |
| MarketKis.ParseCandle | adapters/market_kis.py:73-100 | Parsing fails exactly when the code is missing, a winning number field is not a number, or a given date does not parse. For a parsed candle: the close is the first given close or 0. High, low and open are the first given value or the close. The volume is the first given value or 0. The timestamp is the parsed date, or now when there is no date. |
| MarketKis.GetCandles | adapters/market_kis.py:102-141 | A disabled adapter or a timeframe other than "D" sends no request and returns nothing. Otherwise the request has the paper or real id and the code before the dot. The candles are the parses of the first `limit` items, at most `limit` of them, sorted by timestamp. Candles with equal timestamps keep their reply order, as with Python's stable sort. |
| MarketKis.CandlesComeFromFirstItems | adapters/market_kis.py:136-139 | Each returned candle is the parse of one of the first `limit` items. |
| MarketMock.KosdaqTop150 | adapters/market_mock.py:24 | KOSDAQ_TOP150 is the ".KQ" symbols, or all symbols when there are none. |
| MarketMock.ThemesAreSymbols | adapters/market_mock.py:18-20 | There are six themes, all mock symbols. |
| MarketMock.GetThemes | adapters/market_mock.py:68-69 | The themes are the first six symbols. |
| MarketMock.GetUniverse | adapters/market_mock.py:71-75 | The name is upper-cased first. CUSTOM gives the custom list or nothing, KOSDAQ_TOP150 its list, and any other name all symbols. |
| MarketMock.UniverseCaseInsensitive | adapters/market_mock.py:72 | Lower- and upper-case spellings of a name give the same universe. |
| MarketMock.SameKeySameUniverse | adapters/market_mock.py:72-75 | Names equal up to ASCII case give the same universe. |
| MarketMock.ParseInt | adapters/market_mock.py:36 | Parsing succeeds exactly when the stripped text, after one optional sign, is a non-empty run of ASCII digits. The value is that number, negated after a minus sign. A plain digit string parses to its value. |
| MarketMock.ParseIntOfIntToString | adapters/market_mock.py:36 | Every integer's decimal rendering parses back to that integer. |
| MarketMock.TimeDelta | adapters/market_mock.py:32-38 | "D" and any timeframe not ending in "m" give one day. "<n>m" gives n minutes, or fails when n is not a number. |
| MarketMock.TimeDeltaExamples | adapters/market_mock.py:32-38 | "D" is a day, "5m" is 300 s, "1h" falls back to a day, and "m" fails. |
| MarketMock.NextCandle | adapters/market_mock.py:47-64 | Open and close are at least 1000. With draws in range, the high tops both, the low is under both, and the volume lies in [1,000,000, 1,500,000). |
| MarketMock.GetCandles | adapters/market_mock.py:40-66 | The call fails exactly when the timeframe does not parse. Otherwise it produces max(limit, 0) candles, the i-th stamped `limit − i` steps before now. Each opens from the previous close, starting from the seeded price. |
| MarketMock.Generate | adapters/market_mock.py:46-65 | The bars count down to now, one step apart. Each opens from the previous close, starting from the given price, and every bar drawn in range is well-shaped. |
| MarketMock.TimestampsIncrease | adapters/market_mock.py:46-47 | For a timeframe with a positive step, timestamps strictly increase. |
| MarketMock.CandlesWellShaped | adapters/market_mock.py:48-53 | With draws in range, every candle has open and close ≥ 1000, low ≤ min(open, close) ≤ max(open, close) ≤ high, and its volume in range. |
| MarketMock.PricesIgnoreClock | adapters/market_mock.py:41-65 | The prices depend only on the draws, so runs at different clock times differ only in timestamps. |
| TradeForm.InitialQty | app_desktop/src/components/TradeForm.tsx:35 | The initial quantity is the holding for a SELL with a holding, else 1. |
| TradeForm.EffectiveQty | app_desktop/src/components/TradeForm.tsx:43-45 | In amount mode with a positive amount, the quantity is the whole number of shares the amount buys at max(price, 1). Otherwise it is the entered quantity. |
| TradeForm.QuickQty | app_desktop/src/components/TradeForm.tsx:47-55 | A SELL quick pick with a holding is a whole number ≥ 1. For 0–100% of a holding of at least one share, it stays within the holding. A BUY pick with a price is a whole number ≥ 1. Otherwise the quantity is unchanged. |
| TradeForm.Submit | app_desktop/src/components/TradeForm.tsx:57-81 | The checks run in order: disabled, then unapproved, then quantity below 1, then a SELL over the holding. An order is posted exactly when all pass. It carries the effective quantity and a limit price only for limit orders. |
| TradeForm.AmountBelowPriceRefused | app_desktop/src/components/TradeForm.tsx:43-45 | An amount below one share's price is refused for quantity. |
| TradeForm.QuickSellWithinHolding | app_desktop/src/components/TradeForm.tsx:48-50 | On an approved, enabled SELL form in quantity mode with a holding of at least 1, a quick pick of 0–100% gives a quantity that posts. |
| TradeForm.StepUp | app_desktop/src/components/TradeForm.tsx:188 | The "+" button raises the price by exactly one tick. `TradeForm.StepperRoundTrip` shows "−" undoes it. |
| TradeForm.StepDown | app_desktop/src/components/TradeForm.tsx:180 | The "−" button never goes below 1. |
| TradeForm.StepperRoundTrip | app_desktop/src/components/TradeForm.tsx:180-188 | "+" then "−" restores any price ≥ 1. "−" then "+" restores a price at least a tick above 1. |
| Chart.Day | app_desktop/src/pages/Chart.tsx:68 | The day stamp is the first ten characters of the timestamp. |
| Chart.ComputeSMA | app_desktop/src/pages/Chart.tsx:62-71 | There is one point per index from len − 1 on. Each is the mean of the `len` closes ending there, stamped with that candle's day. |
| Chart.WindowMeanBounded | app_desktop/src/pages/Chart.tsx:66-67 | The mean lies between the window's lowest and highest close. |
| Chart.RsiRun | app_desktop/src/pages/Chart.tsx:107-122 | The running gains and losses stay non-negative. |
| Chart.Rsi | app_desktop/src/pages/Chart.tsx:123-124 | Every RSI value lies in [0, 100). Zero losses give rs = 100, hence 100 − 100/101. |
| Chart.RsiIsGainShare | app_desktop/src/pages/Chart.tsx:123-124 | With losses, the RSI is 100 times the gains' share of gains plus losses. |
| Chart.ComputeRSI | app_desktop/src/pages/Chart.tsx:105-127 | There is one value per index from 15 on. Each is the RSI of the running averages up to that index, stamped with that candle's day and lying in [0, 100). |
| Chart.NeverFallingHasNoLosses | app_desktop/src/pages/Chart.tsx:109-124 | A series that never falls has no losses, so its RSI is 100 − 100/101. |
| Chart.SeedSumsOverstateAverages | app_desktop/src/pages/Chart.tsx:111-122 | On 16 closes rising by 1, every change is within 1. Yet the running gain is 183/14, which exceeds 1, while the Wilder average stays ≤ 1. |
| Chart.SeedSumsShiftRsi | app_desktop/src/pages/Chart.tsx:109-124 | On the zigzag series, which has losses, the RSI plotted at index 15 is 9200/183, while Wilder's averaged seed gives 750/14, so the two differ. |
| Chart.WilderAveragesBounded | app_desktop/src/pages/Chart.tsx:109-122 | With Wilder's averaged seed, when every change is within a bound, both running averages stay within it. |
| RecoCards.X | app_desktop/src/components/RecoCards.tsx:58 | x lies in [0, 180]. The first point is at 0 and, with ≥ 2 points, the last is at 180. |
| RecoCards.XIncreasing | app_desktop/src/components/RecoCards.tsx:58 | Later points lie further right. |
| RecoCards.Y | app_desktop/src/components/RecoCards.tsx:59 | y lies in [0, 40]. The minimum maps to 40, the maximum to 0, and a flat series to 40. |
| RecoCards.YAntitone | app_desktop/src/components/RecoCards.tsx:59 | A higher value is drawn no lower. |
| RecoCards.Coords | app_desktop/src/components/RecoCards.tsx:53-59 | Each point is placed using the series' own minimum and maximum. |
| RecoCards.CoordsPreserveOrder | app_desktop/src/components/RecoCards.tsx:53-59 | Points run left to right, and a larger close is drawn no lower. |
| RecoCards.Segments | app_desktop/src/components/RecoCards.tsx:55-62 | There is one segment per point, in order. The first is a move ("M") and the rest are lines ("L"). Each letter is followed by the point's x and y, each to one decimal, separated by a comma. |
| RecoCards.SparkPath | app_desktop/src/components/RecoCards.tsx:55-63 | With no sparkline the path is empty. Otherwise it starts with the move to the first point. |
| RecoCards.SparkPathSegments | app_desktop/src/components/RecoCards.tsx:55-63 | Splitting the path at its spaces gives exactly the segments of the drawn points, in order. So the path is those segments joined by single spaces. |
| RecoCards.SinglePointPath | app_desktop/src/components/RecoCards.tsx:55-62 | A single point is the move to (0, 40). |
| RecoCards.ShownReasons | app_desktop/src/components/RecoCards.tsx:90 | At most three reasons are shown, taken from the front. |
| Dashboard.Metrics | v5_trader/plugins/statistics_dashboard/dashboard.py:22-31 | There are three metrics, in order: total holdings value, realized sales, and the number of holdings. |
| Dashboard.TotalValueAppend | v5_trader/plugins/statistics_dashboard/dashboard.py:25 | The holdings value is additive over concatenated holdings. |
| Dashboard.RealizedAppend | v5_trader/plugins/statistics_dashboard/dashboard.py:26 | Realized sales are additive over concatenated orders. |
| Dashboard.OtherSidesIgnored | v5_trader/plugins/statistics_dashboard/dashboard.py:26 | An order whose side is not exactly "SELL" adds nothing to realized sales. |
| Dashboard.MetricsNonNegative | v5_trader/plugins/statistics_dashboard/dashboard.py:25-26 | With non-negative quantities and prices, both sums are non-negative. |
| Upload.AfterLastDot | app.py:30 | There is an extension exactly when the name has a dot. It has no dot of its own and ends the name after a dot. |
| Upload.AllowedFile | app.py:28-30 | An accepted name contains a dot. |
| Upload.AllowedFileOfSplit | app.py:26-30 | "stem.ext" is accepted exactly when the lower-cased last extension is png, jpg, jpeg or gif. |
| Upload.UpperCaseAccepted | app.py:30 | "A.PNG" is accepted. |
| Upload.LastExtensionAccepted | app.py:30 | "x.exe.png" is accepted. |
| Upload.InnerExtensionIgnored | app.py:30 | "x.png.exe" is rejected. |
| Upload.NoDotRefused | app.py:30 | "png" is rejected. |
| Text.Strip | core/symbols.py:97 | The result of `str.strip` is a contiguous slice of the input that neither starts nor ends with whitespace. |
| Text.RemoveCharAppend | adapters/broker_kis.py:76 | Removing a character distributes over concatenation. |
| Text.PyTake | core/entities.py:57 | `xs[:n]` is the prefix of length min(n, len) for n ≥ 0, and drops −n elements from the end for n < 0. |
| Text.PyLast | core/strategy_v5.py:24 | `xs[-n:]` is a suffix of `xs`. For n > 0 its length is min(n, len), and `xs[-0:]` is all of `xs`. |

## Left out

- **Float formatting.** `:.2f`, `:,.2f`, `toFixed(1)` and `toFixed(2)` are parameters (`NumberFormat`, `fmt`, `fixed1`, `fixed2`). The fixed text around them is modelled.
- **Floating point.** Prices are exact `real`s, with no rounding, NaN or Infinity. JavaScript's `Math.min` of an empty list is never reached, because an empty sparkline yields the empty path.
- **Case folding.** `str.upper`/`lower` are ASCII-only. The names compared (`CUSTOM`, `KOSDAQ_TOP150`, the image extensions) are ASCII.
- MarketMock.ParseInt: models `int()` in `"<n>m"` timeframes with surrounding whitespace stripped and one optional sign. It does not accept underscores between digits or non-ASCII digits, so such timeframes fail where Python would parse them.
- **The clock.** `datetime.now`, `time.time`, `time.gmtime`, SQLite `date('now')`/`datetime('now')`, and `strptime` of `YYYYMMDD` dates are parameters.
- **Random numbers.** `random.Random` draws are the `draw` and `seedDraw` parameters. The string seed's hashing is not modelled.
- **HTTP.** Requests, status codes, the form-encoded retry of the token request and JSON decoding are out. A reply is an abstract `Option` input, with `None` standing for a failed request or decoding error.
- **SQLite.** The connection, the DDL, the column migration (adapters/storage_sqlite.py:18-92) and `DatabaseError` handling are out. The tables are in-memory values, and positions are listed in insertion order.
- **The TOML primary path.** The primary path of `_save_token` (adapters/kis_auth.py:60-69) and `_load_keys` file reading are out. Only the line-based fallback rewriter is modelled, over the file's lines.
- **JSON values.** Non-string JSON values are collapsed into `NumField`: absent, falsy, a number, or not a number.
- **Position.side.** The `side` field of `Position` (core/entities.py:46) is never read by the core, so it is not modelled.
- **Position's live fields.** The `Position` dataclass (core/entities.py:41-46) declares only `symbol`, `qty`, `avg_price` and `side`, yet the core reads and writes `last_price`, `pnl_pct`, `trail_stop`, `hard_stop` and `take_profit_price`. As written, `upsert_position` (adapters/storage_sqlite.py:134) raises AttributeError, because `slots=True` forbids the missing attribute. `get_positions` (adapters/storage_sqlite.py:156-166) and the balance parser (adapters/broker_kis.py:258-267) raise TypeError on the unknown keyword arguments; the parser's `except` then drops every row. The model gives `Position` all five fields and follows the code that uses them.
- **ExitSignal.** `ExitSignal` is imported from `core.entities` (core/risk.py:7, api/deps.py:17) but defined nowhere, so as written both modules fail to import. The model defines it with the four fields the risk rules fill in: symbol, signal type, message and trigger time.
- **Signal.name.** `Signal` (core/entities.py:31-34) has no `name` field, yet `run_cli` reads and assigns `signal.name` (api/deps.py:123-124), which as written raises AttributeError under `slots=True`. The model gives `Signal` an optional name.
- **Mutation and aliasing.** `enrich_positions` mutates the caller's positions and candle dict in place. The model returns new values instead.
- Chart.ComputeSMA: it requires `len ≥ 1`. The chart only calls it with 20 and 60.
- **Notifier errors.** Notifier failures, OS notification permissions, logging and toasts are out. A sent message is an element of the `sent` sequence.
- **UI rendering.** Chart drawing, React state and rendering, and the message shown after an order is posted are out.
- **screen_candidates.** `screen_candidates`, called by tests/test_strategy.py:33 and api/deps.py:116, is not part of this model, because its definition is not in the repository. `run_cli` is modelled over an already screened list (`Deps.NameSignals`).
- **Broken wiring.** The wiring at api/deps.py:49-55 passes keyword arguments `BrokerKIS.__init__` does not accept, so it is not modelled.
- **ML, CV and framework code.** The machine-learning, computer-vision, Streamlit, FastAPI and Tauri glue files are out.
- **The trailing stop.** `trail_stop` is only initialised to the last price when it is 0 (api/deps.py:147-148). It is not ratcheted to a running peak, as a prose description of a trailing stop would suggest. The model follows the code.
- **The conflicting risk test.** tests/test_risk.py:25-27 expects `trailing` for average 100, last 110 and trail 120 with take-profit 0.1. The code returns `take_profit` first, and `Risk.TrailingExampleYieldsTakeProfit` proves that instead.
- KisAuth.KeysWritten: it states that both key lines are present, not where. The placement before the next header is stated separately, for one step, by `KisAuth.OwedKeysPrecedeNextHeader` and `KisAuth.SectionClosedBeforeNextHeader`.
- KisAuth.SaveToken: the model works on the list of lines. The file is read with `splitlines()` and written with `"\n".join`, so a final newline is dropped and `\r\n` or other line breaks come back as `\n`. The line model does not represent either.
- KisAuth.SaveToken: it does not promise that each new key line appears exactly once, because the rewriter replaces every old key line inside `[auth]` with a new one, so duplicates stay duplicated (`KisAuth.DuplicateKeysBothReplaced`). `KisAuth.NewKeysWrittenOnce` proves exactly one of each for a file without key lines.
- Chart.Rsi: its own contract states only the range and the zero-loss case. The gain-share identity is proved separately by `Chart.RsiIsGainShare`.
- Text.Strip: its contract does not say that only whitespace is removed. `Text.StripNoSpace` proves that a string without whitespace is unchanged.

## Findings

| source | as written | input that shows it | evidently intended | confidence | as-written member | corrected member |
|---|---|---|---|---|---|---|
| app_desktop/src/pages/Chart.tsx:109-122 | For the first 14 changes, `gains` and `losses` add up the raw changes. Wilder smoothing `(x·13 + change)/14` then starts from those sums rather than from 14-bar averages, so every later RSI gives the newest change a fraction of its intended weight. | 16 closes 0, 1, …, 15 (`Chart.Ramp`): every change is 1. The running gain at index 15 is 183/14 ≈ 13.07, while Wilder's average gain is ≤ 1. With losses, 16 closes alternating 0, 1, 0, 1, … (`Chart.Zigzag`) give a plotted RSI of 9200/183 ≈ 50.3 at index 15, where Wilder's averages give 750/14 ≈ 53.6. | Seed the averages with the mean of the first 14 gains and losses, and then apply the smoothing, as in Wilder's RSI. | medium, not executed | Chart.SeedSumsOverstateAverages, Chart.SeedSumsShiftRsi | Chart.WilderAveragesBounded |

`Chart.RsiRun` and `Chart.ComputeRSI` model the loop as written. `Chart.WilderRun` is the corrected recurrence, and `Chart.WilderAveragesBounded` proves what the averaged seed guarantees: bounded changes give bounded averages.
