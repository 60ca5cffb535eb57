# capital_tracker / plutus_lens in Dafny

This project models the deterministic core of a personal-finance pipeline.
The pipeline reads the statements and ledgers of five platforms: the BCGE
bank, eToro, Interactive Brokers, Revolut and Kraken. It turns them into
four ledgers: cash flows, securities, cryptos and fixed income. It stamps
every row with an `_id` built from a running total and upserts the rows
into a MongoDB store. It keeps a daily price and FX matrix up to date
through a market-data provider. Finally it values every account in CHF,
day by day, and rolls the values up by currency, platform, asset and
asset class.

Everything is modelled with pure functions over immutable datatypes:

- amounts and prices are `real`;
- a date is a `real` number of epoch seconds, and a calendar day is an
  `int`;
- a pandas NaN is `None`, or an absent key of a `map<int, real>` series;
- a collection is a `map<Value, Doc>` from `_id` to document.

The market-data provider, the HTTP endpoint of the exchange, the clock and
Python's rendering of floats as text are all function parameters.

The modules follow the program:

| module | models |
|---|---|
| `DocumentStore` | `database_studio.py`: connecting, `collection_writer`'s insert-or-`$set`, `document_query` |
| `Identity` | `generate_id_col` and `balance_calc` |
| `DataFeed` | `CapitalVaultDataFeed`: `get_collections`, `write_collection`, `data_feed` |
| `Adapter` | `collection_config` and the cash-flow row shared by the adapters |
| `MarketData` | `market_data_extract.py`: the fetch window, the missing dates and instruments, the cleaning onto a daily calendar |
| `Balances` | `CollectionService`: the calendar, the account key, the per-account running balance |
| `Valuation`, `Services` | the four collection services: FX and price valuation, relabelling and grouping |
| `Portfolio` | `PortfolioService`: the roll-ups and their conservation |
| `Bcge`, `Etoro`, `Ibkr`, `Revolut`, `Kraken` | the five platform adapters |
| `Wrappers`, `Seqs`, `Sums`, `Sorting`, `Text`, `Calendar`, `Frames` | generic support: results, filtering, sums, stable sort, string functions, days, labelled columns |

## Model

| member | source | states |
|---|---|---|
| DocumentStore.CreationUserChoice | data/database_studio.py:61-63 | the run carries on exactly when the answer is the string `True`, and stops with an error otherwise |
| DocumentStore.Connect | data/database_studio.py:43-46 | an existing database or collection connects without asking; a new one connects only after a `True` answer, and the handle is the requested name |
| DocumentStore.Upsert | data/database_studio.py:122-125 | a new `_id` is inserted with the row as its document; an existing one keeps its stored fields and has the row's fields overwrite them, as a `$set` merge; every other document is unchanged |
| DocumentStore.Write | data/database_studio.py:118-125 | the batch is written iff every row has the id column; otherwise the error names that column |
| DocumentStore.WriteKeys | data/database_studio.py:118-125 | after a write the store holds exactly the old ids plus the batch's ids |
| DocumentStore.WriteDocument | data/database_studio.py:118-125 | each stored document is the old document merged with the fields the batch sets for its id, in batch order |
| DocumentStore.SetFieldsOfRow | data/database_studio.py:118-125 | a field of a batch row reaches the stored document, and keeps that row's value unless a later row with the same id sets the field again (later rows win) |
| DocumentStore.SetFieldsLacks | data/database_studio.py:118-125 | a field that no row with that id sets is not touched by the write |
| DocumentStore.WriteUntouched | data/database_studio.py:118-125 | a stored document whose id is not in the batch is left as it was |
| DocumentStore.WrittenIdField | data/database_studio.py:120-121 | every written document's `_id` field equals the value of the row's id column, which is also its key |
| DocumentStore.WriteIdempotent | data/database_studio.py:118-125 | writing the same batch twice leaves the store as writing it once |
| DocumentStore.WriteConcat | data/database_studio.py:118-125 | writing two batches one after the other is writing their concatenation |
| DocumentStore.Query | data/database_studio.py:144-148 | the query returns exactly the stored documents that match every equality of the filter, unchanged |
| DocumentStore.QueryEmptyFilter | data/database_studio.py:144-147 | an empty filter returns the whole collection |
| Identity.GenerateIdTimestamp | data/platform_data/platform_data_refresh.py:33-34 | `generate_id_col` (Identity.GenerateId): an id starts with the timestamp truncated to whole seconds, which reads back from the text before the first space; with no other arguments the id is `"<ts> - "` |
| Identity.IdEndsWithBalance | data/platform_data/platform_data_refresh.py:34 | the last word of a row's id is the rendering of its running balance, `nan` when the balance is NaN |
| Identity.EntryLeTotalPreorder | data/platform_data/platform_data_refresh.py:59 | the (date, amount) ascending sort key is a total preorder, so the sort is well defined |
| Identity.EntryTie | data/platform_data/platform_data_refresh.py:59 | two rows tie in the sort key iff they share date and amount, a NaN amount tying only with NaN |
| Identity.BalanceCalc | data/platform_data/platform_data_refresh.py:59-64 | fails exactly where `balance_calc` raises: a non-empty ledger lacking one of `date`, the amount, the currency, `platform`, `type` (the error names it), or a row whose date is not a timestamp, whose amount is neither a number nor NaN, or whose text field holds a timestamp (the error names the row); NaN text fields and NaN amounts are stamped. On success every input row comes out once, with an `_id`, and nothing else changes |
| Identity.StampedRearranges | data/platform_data/platform_data_refresh.py:59-63 | stamping the sorted rows only adds `_id`: the rows without it are the input rows rearranged |
| Identity.SortedEntriesSorted | data/platform_data/platform_data_refresh.py:59 | the rows come out ordered by (date, amount) |
| Identity.BalanceCalcRows | data/platform_data/platform_data_refresh.py:59-63 | each output row reads back its own sorted entry, and its `_id` is built from that entry and the running absolute-amount total of its (currency, platform, type) group up to and including that row, NaN for a row with a NaN key or amount |
| Identity.StampedRowRead | data/platform_data/platform_data_refresh.py:63 | adding `_id` does not change the fields the id is read from |
| Identity.BalanceMonotone | data/platform_data/platform_data_refresh.py:61-62 | within a group, of two rows that both have a balance, the later one's is not smaller, and strictly larger when its amount is non-zero |
| Identity.BalanceNan | data/platform_data/platform_data_refresh.py:61-62 | a row's balance is NaN iff its currency, platform or type is NaN (`groupby` drops the row) or its amount is NaN; otherwise it is at least the row's own absolute amount |
| Identity.BalanceByCat | data/platform_data/platform_data_refresh.py:61-62 | the grouped cumulative sum, computed row by row, gives every row its balance |
| Sums.CumSumByGroup | data/platform_data/platform_data_refresh.py:62 | `groupby(...).cumsum()`: each position holds the sum of the values of its group up to and including it |
| Identity.ReadEntry | data/platform_data/platform_data_refresh.py:59-63 | a row's identity fields can be read iff its date is a timestamp, its amount a number or NaN, and no text field holds a timestamp; an absent column reads NaN |
| Identity.IdsDistinctInGroup | data/platform_data/platform_data_refresh.py:62-63 | when floats render injectively, without spaces and never as `nan`, two rows of a group with no NaN key get different ids whenever the later amount is a non-zero number |
| Identity.BalanceIsTotal | data/platform_data/platform_data_refresh.py:62 | the last row of a group carries the group's whole absolute-amount total, or NaN when a key or its amount is NaN |
| Identity.IdsSplice | data/platform_data/platform_data_refresh.py:61-63 | removing the last row of a group leaves every other row's id unchanged |
| Identity.SortedIdsAgree | data/platform_data/platform_data_refresh.py:59-63 | two sorted orders of the same rows produce the same multiset of ids |
| Identity.BalanceCalcOrderFree | data/platform_data/platform_data_refresh.py:59-63 | the multiset of generated ids does not depend on the order of the input rows |
| Identity.ColumnsPermutation | data/platform_data/platform_data_refresh.py:59-63 | whether every identity column is present does not depend on the order of the rows |
| DataFeed.RowsFrom | data/platform_data/platform_data_refresh.py:108 | the kept rows are dated on or after the start, every such row is kept, and the order is kept |
| DataFeed.GetCollections | data/platform_data/platform_data_refresh.py:100-112 | no returned ledger is empty, and with a start date every returned row is dated on or after it |
| DataFeed.GetCollectionsOrder | data/platform_data/platform_data_refresh.py:101-111 | the result is the adapters' ledgers in platform order, then adapter order, filtered and without the empty ones |
| DataFeed.GetCollectionsUnfiltered | data/platform_data/platform_data_refresh.py:104 | without a start date no row is dropped; only empty ledgers are |
| DataFeed.Cutoff | data/platform_data/platform_data_refresh.py:144 | the cutoff is midnight of 1 January of the current year: not after now and less than a year before it |
| DataFeed.Put | data/platform_data/platform_data_refresh.py:126 | writing to one destination collection leaves the three others unchanged |
| DataFeed.WriteCollection | data/platform_data/platform_data_refresh.py:115-127 | a ledger is written iff `balance_calc` can stamp it and its destination names a collection; NaN text fields and amounts do not stop it; it is upserted into that collection by `_id` and no other collection changes |
| DataFeed.WriteCollectionStores | data/platform_data/platform_data_refresh.py:125-127 | every stamped row is stored under its own `_id` |
| DataFeed.FeedWrites | data/platform_data/platform_data_refresh.py:146-147 | the run completes iff `balance_calc` can stamp every ledger and each names a collection; the first that cannot stops the run |
| DataFeed.FeedPerDestination | data/platform_data/platform_data_refresh.py:145-147 | each collection ends up as its old contents with all the rows sent to it written in order |
| DataFeed.FeedIdempotent | data/platform_data/platform_data_refresh.py:145-147 | a second run over the same ledgers leaves the store as the first left it |
| DataFeed.DataFeedIdempotent | data/platform_data/platform_data_refresh.py:142-147 | re-running `data_feed` with the same inputs and clock changes nothing |
| DataFeed.DataFeedScope | data/platform_data/platform_data_refresh.py:142-145 | with `update` every processed row is dated on or after the cutoff; without it every non-empty ledger is processed whole |
| DataFeed.DataFeed | data/platform_data/platform_data_refresh.py:142-147 | the run completes iff every ledger it processes can be written; without `update` it writes every non-empty ledger whole |
| Adapter.CashFlowDoc | data/platform_data/_data_extract_util.py:3-9 | a cash-flow row becomes a document with exactly the eight cash-flow columns |
| Adapter.CashFlowIdentity | data/platform_data/platform_data_refresh.py:63 | the driver reads a cash-flow row's date, type, amount, currency and platform back unchanged, a missing currency as NaN; the row is in a balance group iff its currency is known |
| Adapter.CashFlowLedgerWritable | data/platform_data/platform_data_refresh.py:125-127 | a cash-flow ledger can always be written, a missing currency included, and each row reads back as its cash flow |
| MarketData.GetMetaData | data/market_data/market_data_extract.py:51-55 | fails on source ledgers with no row; otherwise the window runs from the earliest to the latest source date, every source date lies in it, and the needed instruments are the distinct tickers of the sources, each listed once, a NaN ticker included |
| Wrappers.Present | data/market_data/market_data_extract.py:54 | the tickers that are not NaN are exactly the ones listed, and with no NaN the list is unchanged |
| MarketData.DatesToFetch | data/market_data/market_data_extract.py:126-128 | the days to fetch are the window days strictly after the latest stored date, or the whole window when nothing is stored |
| MarketData.UpToDateFetchesNothing | data/market_data/market_data_extract.py:126-128 | a matrix that already holds the window's last day fetches no date |
| MarketData.FxNeeded | data/market_data/market_data_extract.py:74 | GBX is folded into GBP: no needed currency is GBX, GBP is needed when GBX was, and every other currency stays in place |
| MarketData.FxSymbols | data/market_data/market_data_extract.py:89 | each currency is requested as `<ccy>CHF=X` |
| MarketData.RemoveFirst | data/market_data/market_data_extract.py:88 | `list.remove` succeeds iff the element is present, and keeps every other element |
| MarketData.AddMissingDatesFx | data/market_data/market_data_extract.py:86-97 | no date to fetch leaves the matrix as it is; otherwise the update needs CHF among the currencies, which is never requested; the fetched dates are added with a `CHFCHF` column of 1, and stored dates the fetch does not return are untouched |
| MarketData.UpdateFx | data/market_data/market_data_extract.py:86-131 | a NaN among the needed currencies always fails the update; with dates to fetch, needed currencies without CHF fail as `list.remove('CHF')` does, and with CHF a NaN fails at `ccy + 'CHF=X'`; an empty matrix with nothing to fetch fails; a successful update keeps every stored date |
| MarketData.WriteRows | data/market_data/market_data_extract.py:97 | writing fetched rows by date keeps the stored dates, adds the fetched ones, sets the fetched columns and leaves the other stored columns unchanged |
| MarketData.HeldCurrencies | data/market_data/market_data_extract.py:104-105 | a currency counts as held iff some stored column becomes it after `CHF` is deleted from it |
| MarketData.MissingCurrencies | data/market_data/market_data_extract.py:108 | the missing currencies are the needed ones that are not held, in the needed order |
| MarketData.ChfColumnStripsToEmpty | data/market_data/market_data_extract.py:105 | the `CHFCHF` column strips to the empty text, so CHF never counts as held |
| MarketData.ChfAlwaysMissing | data/market_data/market_data_extract.py:104-108 | when every stored column is a currency code followed by `CHF`, a needed CHF is always missing |
| MarketData.ChfNeverBackfilled | data/market_data/market_data_extract.py:110-112 | CHF is never requested by the currency back-fill |
| MarketData.AddMissingCurrencies | data/market_data/market_data_extract.py:104-120 | an empty matrix fails; when only CHF is missing nothing changes; when CHF is not among the missing it fails as `list.remove` does; on success the stored dates and columns are kept and every requested currency gains a column on every stored date |
| MarketData.FxCompleteAfterUpdate | data/market_data/market_data_extract.py:123-131 | after a successful update every needed currency other than CHF is held |
| MarketData.StripUs | data/market_data/market_data_extract.py:212 | the `.US` suffix is deleted from the needed tickers and a ticker without it is unchanged |
| MarketData.AddMissingDatesSec | data/market_data/market_data_extract.py:172-180 | no date to fetch leaves the matrix as it is; otherwise every needed ticker is fetched from the first missing day, each fetched date gets the provider's values and stored dates it does not return are untouched |
| MarketData.WantedTickers | data/market_data/market_data_extract.py:186-190 | the tickers back-filled are the needed ones with no column that are not on the deny list `ATVI`, `RADCQ`, `TUI.L`, `EVVAQ` |
| MarketData.DenyListNeverBackfilled | data/market_data/market_data_extract.py:190 | a deny-listed ticker, or one with a column, is never back-filled |
| MarketData.AddMissingTickers | data/market_data/market_data_extract.py:186-202 | an empty matrix fails; otherwise the date axis and every stored cell are kept, nothing is written when no ticker is wanted, and each wanted ticker's cell holds the last fetched quote on or before that stored date |
| MarketData.Carried | data/market_data/market_data_extract.py:200 | a forward-filled cell has a value iff an earlier or same-day quote exists, and then it is the latest one |
| MarketData.SecuritiesCompleteAfterUpdate | data/market_data/market_data_extract.py:205-215 | after a successful update every needed ticker off the deny list has a column |
| MarketData.UpdateSecurities | data/market_data/market_data_extract.py:205-215 | a NaN ticker fails the update at `replace('.US', '')`; otherwise a matrix that holds a date never fails, and a successful update keeps every stored date |
| MarketData.CleanData | data/market_data/market_data_extract.py:222-224 | the cleaned matrix has the stored columns, covers only days from the window start to today, and each day holds the last stored value on or before it, or nothing when there is none |
| MarketData.Cut | data/market_data/market_data_extract.py:139 | a column name is cut to its first three characters |
| MarketData.CleanFxColumn | data/market_data/market_data_extract.py:138-141 | an FX column whose three-letter cut no other column shares becomes that cut's column, forward-filled onto the calendar |
| MarketData.CleanFx | data/market_data/market_data_extract.py:136-141 | the cleaned FX table has one column per three-letter cut of a stored column, and no other |
| Balances.CalendarOf | src/plutus_lens/services/collections/_collections_services_util.py:28-29 | an empty cash-flow ledger has no calendar; otherwise the calendar runs from the first to the last cash-flow day, both of which are days of some cash flow, and covers every cash-flow day |
| Balances.AccountDateLeTotalPreorder | src/plutus_lens/services/collections/_collections_services_util.py:60 | the (account, date) sort key is a total preorder |
| Balances.SortedLedger | src/plutus_lens/services/collections/_collections_services_util.py:60 | the sorted ledger is a permutation of the rows, ordered by account and then date |
| Balances.LastOfDay | src/plutus_lens/services/collections/_collections_services_util.py:62 | `aggfunc='last'` picks the last row of the account on that day, and there is none exactly when the account has no row that day |
| Balances.RunningSumHeld | src/plutus_lens/services/collections/_collections_services_util.py:61 | in the sorted ledger, the per-account cumulative sum at a row is what the account holds up to that row's day, counting the rows so far |
| Balances.PivotHeld | src/plutus_lens/services/collections/_collections_services_util.py:61-62 | the cumulative sum at the last row of a day is the account's whole holding at the end of that day |
| Balances.AccountColumn | src/plutus_lens/services/collections/_collections_services_util.py:62-63 | an account's column has a value on every calendar day and on no other day |
| Balances.AccountColumnCorrect | src/plutus_lens/services/collections/_collections_services_util.py:60-63 | on every calendar day an account's balance is the sum of its quantities dated that day or earlier, once it has a row inside the calendar, and 0 before |
| Balances.Accounts | src/plutus_lens/services/collections/_collections_services_util.py:59-62 | the columns are the distinct accounts `platform - ticker`: each account whose platform and ticker are both present appears exactly once, and no other; a row with a NaN platform or ticker gives no column |
| Balances.NanRowsIgnored | src/plutus_lens/services/collections/_collections_services_util.py:59-62 | rows with a NaN platform or ticker neither add an account nor change any account's balance, since the pivot drops their NaN key |
| Balances.BalanceUnits | src/plutus_lens/services/collections/_collections_services_util.py:58-63 | the unit frame has one column per account of a row without NaN platform or ticker, in account order, each being that account's balance column |
| Balances.BalanceUnitsValue | src/plutus_lens/services/collections/_collections_services_util.py:58-63 | every cell of the unit frame is the reference balance of its account on that day |
| Balances.ZeroBeforeFirstRow | src/plutus_lens/services/collections/_collections_services_util.py:63 | days before an account's first row read 0, not NaN |
| Balances.BalanceIsRunningSum | src/plutus_lens/services/collections/_collections_services_util.py:60-62 | for rows inside the calendar, the balance on a day equals the sum of the account's quantities up to that day |
| Balances.ConstantBetweenRows | src/plutus_lens/services/collections/_collections_services_util.py:62 | between two days with no row of the account in between, its balance is constant |
| Balances.AccountsIndependent | src/plutus_lens/services/collections/_collections_services_util.py:61-62 | rows of other accounts never change an account's column |
| Balances.HeldPermutation | src/plutus_lens/services/collections/_collections_services_util.py:60 | an account's holding does not depend on the order of the ledger rows |
| Frames.FFill | services/collections/cash_flows_service.py:39 | the forward fill stays on the calendar, keeps every present value, and leaves a day empty only when no earlier day of the calendar had a value |
| Frames.FFillIsLastValue | services/collections/cash_flows_service.py:39 | a filled day holds the value of the latest day up to it that had one |
| Frames.FillZero | services/collections/securities_service.py:81 | `fillna(0)`: every calendar day has a value, 0 where the series had none |
| Frames.GroupSum | services/collections/cash_flows_service.py:57-58 | grouping by label gives one column per distinct label, covering the calendar, each day holding the sum of the columns with that label |
| Frames.GroupSumConserves | services/collections/cash_flows_service.py:70 | grouping keeps every day's row sum |
| Frames.LabelSumAbsent | src/plutus_lens/services/portfolio_service.py:64-71 | a label that no column carries sums to 0 |
| Frames.LabelSumSingle | services/collections/cash_flows_service.py:58 | with distinct labels a label's sum is its one column's value |
| Frames.Relabel | services/collections/cash_flows_service.py:69 | relabelling renames every column and keeps its values, in order |
| Frames.RelabelConserves | services/collections/cash_flows_service.py:69 | relabelling keeps every day's row sum |
| Frames.RelabelPresent | services/collections/securities_service.py:73-74 | relabelling where a new label may be NaN keeps at most the input's columns, and when no new label is NaN renames every column in place, keeping its values |
| Frames.RelabelPresentMembers | services/collections/securities_service.py:73-74 | the kept columns are exactly the input columns whose new label is present, each under its new label with its values |
| Frames.RelabelPresentConcat | services/collections/securities_service.py:73-74 | relabelling a stacked frame is relabelling each part |
| Frames.RelabelPresentNone | services/collections/securities_service.py:74 | columns whose new label is NaN all vanish from the grouping |
| Frames.RelabelPresentConserves | services/collections/securities_service.py:73-74 | when no new label is NaN, every day's row sum is kept |
| Valuation.Aligned | services/collections/cash_flows_service.py:37 | a rate or price column aligned on the calendar has exactly the calendar days on which the matrix holds a value, and those values |
| Valuation.Times | services/collections/cash_flows_service.py:38 | the element-wise product has a value exactly where both factors have one |
| Valuation.ConvertPresent | services/collections/cash_flows_service.py:36-39 | a converted balance has a value on a day iff its rate had a value on that day or an earlier calendar day |
| Valuation.ConvertIsLastQuote | services/collections/cash_flows_service.py:36-39 | a converted balance on a day is the balance times the rate, both taken on the latest day that had a rate |
| Valuation.AccountHasAsset | services/collections/cash_flows_service.py:36 | an account label always has a part after ` - ` |
| Valuation.AccountLabels | services/collections/cash_flows_service.py:57 | splitting an account label gives back its platform and its ticker, when the platform holds no ` - ` |
| Valuation.ByPlatform | services/collections/cash_flows_service.py:68-71 | the platform view has one column per distinct platform, each day holding the sum of that platform's accounts |
| Valuation.ByAsset | services/collections/securities_service.py:96-101 | the asset view has one column per distinct ticker, each day holding the sum of that ticker's accounts across platforms |
| Valuation.Aggregated | services/collections/cash_flows_service.py:81-82 | the aggregate is defined on every calendar day and is the row sum of the accounts |
| Valuation.ViewsConserve | services/collections/cash_flows_service.py:57-82 | the platform view and the asset view keep each day's total of the accounts |
| Valuation.PairsToMap | services/collections/money_market_service.py:18 | `dict(pairs)` holds exactly the keys of the pairs, one entry each |
| Valuation.PairsToMapLast | services/collections/securities_service.py:46 | in `dict` and `to_dict` a key's value is the one of its last pair |
| Valuation.DedupedMap | services/collections/securities_service.py:45-46 | the dictionary built after `drop_duplicates()` holds exactly the keys of the pairs |
| Valuation.DedupedMapValue | services/collections/securities_service.py:45-46 | after `drop_duplicates()` a key's value is that of its distinct pair whose first occurrence comes last |
| Valuation.DedupedMapExample | services/collections/securities_service.py:45-46 | for the pairs `(T, USD), (T, EUR), (T, USD)` the de-duplicated dictionary gives EUR where a plain dictionary gives USD |
| Valuation.CurrencyOf | services/collections/securities_service.py:47 | a ticker missing from the dictionary is labelled `Unknown`, not dropped; a ticker present keeps its stored currency, NaN included |
| Valuation.RateOf | services/collections/securities_service.py:48 | the rate column of a currency label is the FX column of that name when it is listed, and empty for NaN or an unlisted label |
| Valuation.GbxRelabelled | services/collections/securities_service.py:75 | GBX is relabelled GBP after summing, other currencies keep their label |
| Valuation.CurrencyGroups | services/collections/securities_service.py:73-74 | the local values are summed per currency label; accounts whose currency is NaN are dropped by the grouping |
| Valuation.NanCurrencyIgnored | services/collections/securities_service.py:73-74 | adding accounts whose currency is NaN leaves the currency groups unchanged |
| Valuation.CurrencyGroupsConserve | services/collections/securities_service.py:73-74 | when no currency is NaN, the groups keep each day's total of the accounts |
| Valuation.PriceGroups | services/collections/securities_service.py:75-81 | each currency group is relabelled from GBX to GBP, then multiplied by the rate of the new label, with 0 where there is no rate |
| Valuation.PriceGroupsValue | services/collections/securities_service.py:79-81 | a group's CHF value is its local sum times the rate of its currency, or 0 without a rate |
| Valuation.CurrencyView | services/collections/securities_service.py:73-81 | with `units_output` the currency view is the relabelled local sums; without it, those sums priced in CHF |
| Services.CurrencyMapCovers | services/collections/securities_service.py:45-46 | every ticker of the ledger is a key of the ticker to currency dictionary |
| Services.Valued | services/collections/cash_flows_service.py:36-39 | every account column is converted by its own factor, and keeps its label and position |
| Services.ByAccount | src/plutus_lens/services/collections/_collections_services_util.py:58-63 | the per-account frame is the unit frame, or each account converted at its own factor |
| Services.PriceSeries | services/collections/securities_service.py:42 | a price column covers every calendar day, a missing price reading 0 |
| Services.CashByAccount | services/collections/cash_flows_service.py:32-39 | with `units_output` the raw unit balances; otherwise each account in CHF; one column per account |
| Services.CashValue | services/collections/cash_flows_service.py:36-39 | a cash account's CHF value is its native balance times the rate of its currency, both on the latest day that had a rate |
| Services.CashUnrated | services/collections/cash_flows_service.py:36-39 | before its currency's first rate a cash account has no CHF value |
| Services.CashViewsAgree | services/collections/cash_flows_service.py:53-82 | the currency view, the platform view and the aggregate of cash all have the accounts' day total |
| Services.SecuritiesByAccount | services/collections/securities_service.py:37-50 | with `units_output` the raw unit balances; otherwise units times price times the rate of the ticker's quote currency |
| Services.SecurityValue | services/collections/securities_service.py:41-50 | a security's CHF value is units times price (0 when missing) times the rate of its quote currency, on the latest day that had a rate |
| Services.SecuritiesByAsset | services/collections/securities_service.py:96-101 | the asset view has distinct labels and keeps each day's total of the accounts |
| Services.SecurityWithoutRate | services/collections/securities_service.py:47-49 | a security whose currency has no rate column, `Unknown` and NaN included, has no CHF value |
| Services.UnpricedColumn | services/collections/securities_service.py:43-50 | before its factor's first value an account has no CHF value |
| Services.SecuritiesLocal | services/collections/securities_service.py:64-68 | the local frame has one column per account, units times price, a missing price counting 0 |
| Services.QuoteCurrencies | services/collections/securities_service.py:72 | each account is labelled with its ticker's quote currency, NaN when the stored one is NaN, `Unknown` when the ticker has none |
| Services.CryptosByAccount | services/collections/cryptos_service.py:36-47 | with `units_output` the raw crypto units; otherwise units times price times the USD rate |
| Services.CryptoValue | services/collections/cryptos_service.py:40-47 | a crypto's CHF value is units times price (0 when missing) times the USD rate, on the latest day that had a USD rate |
| Services.FixedIncomeValued | services/collections/money_market_service.py:38-42 | the valued fixed-income frame has one column per account |
| Services.FixedIncomeColumns | services/collections/money_market_service.py:38-42 | each fixed-income column is the amount converted at the rate of its ISIN's currency, the price being 1 |
| Services.FixedIncomeByAccount | services/collections/money_market_service.py:34-42 | fails iff CHF values are asked for and some account ISIN is not a key of the ledger's ISIN to currency dictionary (the `KeyError`); with `units_output` it is the unit frame |
| Services.FixedIncomeKnownIsins | services/collections/money_market_service.py:18 | since the dictionary is built from the ledger's own pairs, the ISIN of every ledger row is a key of it |
| Services.FixedIncomeValue | services/collections/money_market_service.py:38-42 | an ISIN's CHF value is its amount times the rate of its currency on the latest day that had a rate |
| Balances.NoRowUpTo | src/plutus_lens/services/collections/_collections_services_util.py:62-63 | when the pivoted column has no value in the calendar up to a day, the account has no row in the calendar up to that day |
| Balances.HeldOnLastRowDay | src/plutus_lens/services/collections/_collections_services_util.py:60-62 | the pivot value on the last row day up to a day is the account's holding at that day |
| Frames.LastKey | services/collections/cash_flows_service.py:39 | the latest day in a window holding a value: every later day of the window is empty, and there is none only when the whole window is |
| Frames.FFillCarries | services/collections/cash_flows_service.py:39 | an empty day takes over the previous day's filled value, and is filled exactly when that day is |
| Frames.Labels | services/collections/cash_flows_service.py:58 | the group labels are distinct and are exactly the labels of the columns |
| Valuation.CalendarDays | src/plutus_lens/services/collections/_collections_services_util.py:29 | the calendar is every day from the first to the last, both included |
| Valuation.ConvertScaled | services/collections/cash_flows_service.py:38-39 | with units on every day, the converted value on a day is units times factor taken on the last day with a factor |
| Services.AccountValue | services/collections/cash_flows_service.py:38-39 | an account's converted value on a day is its reference balance at the last factor day times that factor |
| Services.PricedRate | services/collections/securities_service.py:48-49 | with a price on every day, the price-times-rate factor last exists on the rate's last day, with the product of both |
| Services.NoRateNoValue | services/collections/securities_service.py:48-49 | a factor whose rate column is empty is empty on every window |
| Services.FirstUnknown | services/collections/money_market_service.py:38-39 | finds an account ISIN that is not a key of the dictionary iff there is one, and it is the ISIN of some account |
| Services.KnownIsin | services/collections/money_market_service.py:18 | a ledger row with a platform and an ISIN, neither holding the separator, has its ISIN in the dictionary built from the ledger |
| Portfolio.ServiceHoldings | src/plutus_lens/services/portfolio_service.py:32-36 | the account frames are available iff every money-market account ISIN is a key of the ISIN to currency dictionary; the money-market frame is then its CHF account frame |
| Portfolio.ByAssetClass | src/plutus_lens/services/portfolio_service.py:47-54 | four columns `cash_flows`, `cryptos`, `securities`, `fixed_income`, each on the calendar the row sum of that service's accounts |
| Portfolio.AssetClassesAddUp | src/plutus_lens/services/portfolio_service.py:47-54 | the asset-class columns add up to the portfolio total of the same day |
| Portfolio.PortfolioByPlatform | src/plutus_lens/services/portfolio_service.py:64-71 | one column per platform, distinct, covering every platform of any service, each on the calendar |
| Portfolio.PlatformValue | src/plutus_lens/services/portfolio_service.py:69-70 | a platform's value is the sum of the four services' values for that platform, a service without it counting 0 |
| Portfolio.GroupOfFour | src/plutus_lens/services/portfolio_service.py:69-70 | grouping four stacked frames gives each label the sum of its sums in each frame |
| Portfolio.GroupOfThree | src/plutus_lens/services/portfolio_service.py:86 | grouping three stacked frames gives each label the sum of its sums in each frame |
| Portfolio.ShareOfLabel | src/plutus_lens/services/portfolio_service.py:69-70 | in a frame with distinct labels a label sums to its own column, or to 0 when absent |
| Portfolio.BalanceTotal | src/plutus_lens/services/portfolio_service.py:97-99 | the total is defined on the calendar and is, each day, the sum of every account of every service |
| Portfolio.DayTotals | src/plutus_lens/services/portfolio_service.py:98 | `sum(axis=1)` gives each calendar day the row sum, and no other day |
| Portfolio.TotalsOfAccounts | src/plutus_lens/services/portfolio_service.py:97-98 | summing the platform view gives back the sum of all accounts |
| Portfolio.TotalOfAccounts | src/plutus_lens/services/portfolio_service.py:69-70 | the grouped platform frame's day total is the accounts' day total |
| Portfolio.PlatformGroupTotal | src/plutus_lens/services/portfolio_service.py:69-70 | grouping the stacked platform views keeps the sum of their four day totals |
| Portfolio.GroupOfPartsTotal | src/plutus_lens/services/portfolio_service.py:69-70 | grouping four stacked frames keeps the sum of their day totals |
| Portfolio.PlatformViewsConserve | src/plutus_lens/services/portfolio_service.py:64-67 | the four services' platform views together hold the accounts' day total |
| Portfolio.RowSumOfParts | src/plutus_lens/services/portfolio_service.py:69 | the day total of stacked frames is the sum of their day totals |
| Portfolio.LabelSumOfParts | src/plutus_lens/services/portfolio_service.py:69-70 | a label's sum over four stacked frames is the sum of its sums in each |
| Portfolio.PortfolioByCurrency | src/plutus_lens/services/portfolio_service.py:82-87 | fails iff some view repeats a label and the three views do not share one label sequence; with a shared sequence each column is the sum of the same position in each view; without repeats the labels are distinct and each is the sum of its sums in each view; always on the calendar |
| Portfolio.PositionSums | src/plutus_lens/services/portfolio_service.py:86 | views with identical labels are added column by column, on the calendar |
| Portfolio.PositionSumsByLabel | src/plutus_lens/services/portfolio_service.py:86 | with identical labels and no repeat, adding by position is adding by label |
| Portfolio.PenceAndPoundsFail | src/plutus_lens/services/portfolio_service.py:86 | a securities view with both a GBX and a GBP group shows two `GBP` columns, and next to a cash view of CHF the currency view fails |
| Calendar.TruncToInt | data/platform_data/platform_data_refresh.py:33 | `int()` truncates toward zero: within one of the value, never past it away from zero |
| Calendar.Day | data/platform_data/platform_data_refresh.py:33 | the calendar day of a timestamp is the one whose midnight-to-midnight span holds it |
| Calendar.DayOfMidnight | data/platform_data/platform_data_refresh.py:33 | midnight of a day is in that day |
| Calendar.DayMonotone | data/platform_data/platform_data_refresh.py:144 | a time is at or after midnight of a day iff its day is that day or later |
| Calendar.Earliest | src/plutus_lens/services/collections/_collections_services_util.py:29 | the earliest timestamp is one of them and none is earlier |
| Calendar.Latest | src/plutus_lens/services/collections/_collections_services_util.py:29 | the latest timestamp is one of them and none is later |
| Calendar.Days | src/plutus_lens/services/collections/_collections_services_util.py:29 | the day range counts up by one from the first day to the last, empty when the first is after the last |
| Calendar.DaysMembership | src/plutus_lens/services/collections/_collections_services_util.py:29 | a day is in the range iff it lies between its ends |
| Calendar.YearOfDay | data/platform_data/platform_data_refresh.py:144 | every day lies in the year that starts on or before it and ends after it |
| Calendar.YearOfDayUnique | data/platform_data/platform_data_refresh.py:144 | that year is the only one |
| Bcge.CleanList | src/plutus_lens/data/platform_data/bcge/bcge_data_extract.py:41-57 | an empty line raises; otherwise the first value is kept, values before the first date are dropped, and blanks after it are squeezed |
| Bcge.FromDateFirst | src/plutus_lens/data/platform_data/bcge/bcge_data_extract.py:45-49 | nothing survives iff no value is a date; otherwise output starts with the first date value, followed by the squeezed rest |
| Bcge.SqueezeNoDoubleBlank | src/plutus_lens/data/platform_data/bcge/bcge_data_extract.py:50-56 | two kept blanks are never adjacent, and after a kept blank the next kept value is not blank |
| Bcge.SqueezeKeepsValues | src/plutus_lens/data/platform_data/bcge/bcge_data_extract.py:51-53 | every non-blank value after the date is kept, in order |
| Bcge.SqueezeSubseq | src/plutus_lens/data/platform_data/bcge/bcge_data_extract.py:50-56 | the squeezed values are an order-preserving subsequence of the input |
| Bcge.FromDateSubseq | src/plutus_lens/data/platform_data/bcge/bcge_data_extract.py:45-56 | the values from the date on are an order-preserving subsequence of the input |
| Bcge.CleanedSubseq | src/plutus_lens/data/platform_data/bcge/bcge_data_extract.py:43-57 | the cleaned line is an order-preserving subsequence of the line |
| Bcge.Check | src/plutus_lens/data/platform_data/bcge/bcge_data_validation_test.py:10-14 | an empty statement fails with IndexError; otherwise the check reconciles or warns, never raises |
| Bcge.Telescope | src/plutus_lens/data/platform_data/bcge/bcge_data_validation_test.py:10 | on a consistent statement the movements add up to the first line's movement plus the change of balance |
| Bcge.ConsistentDiscrepancy | src/plutus_lens/data/platform_data/bcge/bcge_data_validation_test.py:10 | on a consistent statement the check's quantity is the first line's inflow |
| Bcge.ConsistentReconciles | src/plutus_lens/data/platform_data/bcge/bcge_data_validation_test.py:10-12 | a consistent statement whose first line has no inflow passes |
| Bcge.InteriorOrderIrrelevant | src/plutus_lens/data/platform_data/bcge/bcge_data_validation_test.py:10 | reordering the lines between the first and the last does not change the verdict |
| Bcge.FirstInflowFlagged | src/plutus_lens/data/platform_data/bcge/bcge_data_validation_test.py:10 | a consistent one-line statement opening with a deposit is reported as a mismatch |
| Bcge.CorrectedCheck | src/plutus_lens/data/platform_data/bcge/bcge_data_validation_test.py:10-14 | corrected definition (see ## Findings): with the opening balance taken before both first-line movements, an empty statement fails and others reconcile or warn |
| Bcge.ConsistentStatementReconciles | src/plutus_lens/data/platform_data/bcge/bcge_data_validation_test.py:10-12 | corrected definition (see ## Findings): every consistent statement passes the corrected check |
| Bcge.ConsistentNoWarning | src/plutus_lens/data/platform_data/bcge/bcge_data_validation_test.py:11-12 | corrected definition (see ## Findings): a consistent statement gets no warning from the corrected check |
| Bcge.CorrectedCheckOfTwo | src/plutus_lens/data/platform_data/bcge/bcge_data_validation_test.py:10-12 | corrected definition (see ## Findings): on two lines the corrected check passes iff the second balance follows from the first, to the cent |
| Bcge.Flows | src/plutus_lens/data/platform_data/bcge/bcge_data_extract.py:117-128 | every line becomes one CHF cash flow of amount out + in, an inflow iff that amount is not negative |
| Bcge.OpeningRowsAsWritten | src/plutus_lens/data/platform_data/bcge/bcge_data_extract.py:119-122 | as written, one opening row per line on the earliest date |
| Bcge.CashFlowPrepAsWritten | src/plutus_lens/data/platform_data/bcge/bcge_data_extract.py:117-139 | as written: fails iff the statement is empty; otherwise the line flows followed by one opening row per line of the earliest date, at least one |
| Bcge.AsWrittenFlowsTotal | src/plutus_lens/data/platform_data/bcge/bcge_data_extract.py:117-122 | as written, on a consistent statement whose first line is alone on the earliest date, the flows add up to the closing balance plus the first amount plus its absolute value |
| Bcge.ConsistentWarning | src/plutus_lens/data/platform_data/bcge/bcge_data_validation_test.py:10-14 | as written, a consistent statement warns iff its first line has an inflow |
| Bcge.TwoOpeningRows | src/plutus_lens/data/platform_data/bcge/bcge_data_extract.py:119-122 | two lines on the first day yield two opening rows |
| Bcge.OpeningInflowDoubled | src/plutus_lens/data/platform_data/bcge/bcge_data_extract.py:120 | an opening deposit of 100 onto an empty account yields an opening balance of 200 |
| Bcge.FirstOfEarliest | src/plutus_lens/data/platform_data/bcge/bcge_data_extract.py:119 | the first line dated on the earliest date: no earlier line has that date |
| Bcge.CashFlowPrep | src/plutus_lens/data/platform_data/bcge/bcge_data_extract.py:117-139 | corrected definition (see ## Findings): an empty statement fails; otherwise one row per line plus one opening row on the earliest date, all BCGE CHF cash of subtype Variable, typed Inflow iff the amount is not negative |
| Bcge.FlowsAddUpToClosingBalance | src/plutus_lens/data/platform_data/bcge/bcge_data_extract.py:117-122 | corrected definition (see ## Findings): with the one opening row, the cash flows of a consistent date-ordered statement add up to its closing balance |
| Bcge.FlowTotals | src/plutus_lens/data/platform_data/bcge/bcge_data_extract.py:117 | the line amounts add up to the outflows plus the inflows |
| Bcge.Extract | src/plutus_lens/data/platform_data/bcge/bcge_data_extract.py:148-155 | as written: fails iff the statement is empty; warns iff the check reports a mismatch, which on a consistent statement is exactly when the first line has an inflow; the one cash-flow ledger holds the line flows and one opening row per line of the earliest date |
| Bcge.CorrectedExtract | src/plutus_lens/data/platform_data/bcge/bcge_data_extract.py:148-155 | corrected definition (see ## Findings): fails iff the statement is empty; a consistent statement raises no warning; the ledger has one opening row |
| Bcge.ExtractWritable | src/plutus_lens/data/platform_data/bcge/bcge_data_extract.py:124-125 | both the as-written and the corrected BCGE ledger can always be written |
| Etoro.SplitPairs | src/plutus_lens/data/platform_data/etoro/etoro_data_extract.py:79 | a two-column split succeeds iff no value splits into three and some value splits into two, so it fails on no value at all; on success each value's first piece, and its second or NaN |
| Etoro.NoSeparatorNoSecond | src/plutus_lens/data/platform_data/etoro/etoro_data_extract.py:79 | a value without the separator is whole in the first column and NaN in the second |
| Etoro.SecondWord | src/plutus_lens/data/platform_data/etoro/etoro_data_extract.py:56 | the second space-separated word is read back |
| Etoro.Deposits | src/plutus_lens/data/platform_data/etoro/etoro_data_extract.py:52-60 | exactly the Deposit lines, in order, with their date and amount, as Etoro transfers |
| Etoro.DepositCurrency | src/plutus_lens/data/platform_data/etoro/etoro_data_extract.py:56 | a deposit's currency is the second word of its details, NaN when there is only one |
| Etoro.TickersListUpdate | src/plutus_lens/data/platform_data/etoro/etoro_data_extract.py:163-170 | the result is as long as the input iff every ticker maps to a non-NaN value |
| Etoro.TickersListUpdateElements | src/plutus_lens/data/platform_data/etoro/etoro_data_extract.py:167-169 | each ticker is replaced by its mapped value, or kept, then stripped and upper-cased |
| Etoro.KeepCorrected | src/plutus_lens/data/platform_data/etoro/etoro_data_extract.py:168-169 | NaN values are dropped, so the result is shorter exactly when one is NaN |
| Etoro.KeepCorrectedElements | src/plutus_lens/data/platform_data/etoro/etoro_data_extract.py:168-169 | without NaN, each result is the cleaned correction of its ticker |
| Etoro.KeepCorrectedIdempotent | src/plutus_lens/data/platform_data/etoro/etoro_data_extract.py:168-169 | running the update again without corrections changes nothing, when cleaning is idempotent |
| Etoro.CleanTickerIdempotent | src/plutus_lens/data/platform_data/etoro/etoro_data_extract.py:169 | strip-and-upper-case is idempotent |
| Etoro.UpperTwice | src/plutus_lens/data/platform_data/etoro/etoro_data_extract.py:169 | upper-casing twice is upper-casing once |
| Etoro.TickersListUpdateIdempotent | src/plutus_lens/data/platform_data/etoro/etoro_data_extract.py:163-170 | the updated list is a fixed point of the update with an empty correction table |
| Etoro.GbxToGbp | src/plutus_lens/data/platform_data/etoro/etoro_data_extract.py:82 | the quote is never GBX afterwards, and NaN stays NaN |
| Etoro.GbxNeverStays | src/plutus_lens/data/platform_data/etoro/etoro_data_extract.py:82 | replacing GBX by GBP never yields GBX |
| Etoro.GbxQuote | src/plutus_lens/data/platform_data/etoro/etoro_data_extract.py:82 | GBX becomes GBP, a quote without GBX is unchanged |
| Etoro.TradeOfLine | src/plutus_lens/data/platform_data/etoro/etoro_data_extract.py:79-88 | one trade line becomes a ledger line: buy iff Open Position, sell units negated, corrected ticker, no pence quote |
| Etoro.TradesOf | src/plutus_lens/data/platform_data/etoro/etoro_data_extract.py:79-88 | each trade line becomes the trade of its ticker and quote |
| Etoro.SecuritiesLedger | src/plutus_lens/data/platform_data/etoro/etoro_data_extract.py:74-89 | exactly the Open Position and Position closed lines, in order, each a ledger line as above; fails when there is none |
| Etoro.OwnedSnoc | src/plutus_lens/data/platform_data/etoro/etoro_data_extract.py:108 | a line of the ticker dated up to the split adds its units to the owned quantity; others add nothing |
| Etoro.Ratio | src/plutus_lens/data/platform_data/etoro/etoro_data_extract.py:110 | the split ratio is read as `int(n)` and `int(d)` of `n:d`, with `int`'s sign, surrounding whitespace and single underscores, failing when either is unreadable |
| Text.PyIntExtendsParseInt | src/plutus_lens/data/platform_data/etoro/etoro_data_extract.py:110 | `int()` reads every optionally negative run of digits to its value |
| Text.PyIntPlus | src/plutus_lens/data/platform_data/etoro/etoro_data_extract.py:110 | `int()` reads a `+` sign as no sign |
| Text.PyIntPadded | src/plutus_lens/data/platform_data/etoro/etoro_data_extract.py:110 | `int()` ignores whitespace around the number |
| Text.PyIntUnderscore | src/plutus_lens/data/platform_data/etoro/etoro_data_extract.py:110 | `int()` ignores a single underscore between digits |
| Text.PyIntDoubleUnderscore | src/plutus_lens/data/platform_data/etoro/etoro_data_extract.py:110 | `int()` rejects two underscores in a row |
| Etoro.SplitRestoresRatio | src/plutus_lens/data/platform_data/etoro/etoro_data_extract.py:110-111 | with its correction, the ledger holds owned times n over d units at the split date |
| Etoro.SplitAdjustment | src/plutus_lens/data/platform_data/etoro/etoro_data_extract.py:106-113 | no row iff nothing is owned at the split date; otherwise a split-adjustment row of owned·n/d − owned units, failing on a zero denominator |
| Etoro.SplitEvents | src/plutus_lens/data/platform_data/etoro/etoro_data_extract.py:102-104 | one event per split line, in order, with its date and the pair before the space; fails when there is no split line |
| Etoro.Corrections | src/plutus_lens/data/platform_data/etoro/etoro_data_extract.py:106-113 | succeeds iff every event's adjustment does, with at most one row per event |
| Etoro.CorrectionsMembers | src/plutus_lens/data/platform_data/etoro/etoro_data_extract.py:109-113 | the rows are exactly the adjustments the events call for |
| Etoro.StockSplitCorr | src/plutus_lens/data/platform_data/etoro/etoro_data_extract.py:92-115 | at most one row per split line, every row a split adjustment of Etoro equity |
| Etoro.CashBalancing | src/plutus_lens/data/platform_data/etoro/etoro_data_extract.py:128-139 | one USD cash row per trade, on the trade's date |
| Etoro.CashBalancingTotal | src/plutus_lens/data/platform_data/etoro/etoro_data_extract.py:134 | the cash rows add up to what sells brought in less what buys spent |
| Etoro.DividendFlowLine | src/plutus_lens/data/platform_data/etoro/etoro_data_extract.py:149-158 | a dividend line becomes an inflow of its amount in the currency after `/`, never GBX, described iff that currency is known |
| Etoro.Dividends | src/plutus_lens/data/platform_data/etoro/etoro_data_extract.py:145-159 | exactly the Dividend lines, in order, each an inflow as above; fails when there is none |
| Etoro.Extract | src/plutus_lens/data/platform_data/etoro/etoro_data_extract.py:175-190 | fails when the statement has no trade, no split or no dividend line; otherwise the cash legs settle the trades, and the securities ledger is the trades followed by split adjustments |
| Ibkr.CashFlows | src/plutus_lens/data/platform_data/ibkr/ibkr_data_extract.py:25-33 | exactly the rows whose currency is not `Total`, as transfers, with their amounts kept in total |
| Ibkr.LedgerLine | src/plutus_lens/data/platform_data/ibkr/ibkr_data_extract.py:49-59 | a buy iff the proceeds are negative, else a sell; sell units are negated and a buy's trade price is negated; Stocks become Equity |
| Ibkr.SecuritiesLedger | src/plutus_lens/data/platform_data/ibkr/ibkr_data_extract.py:47-60 | one ledger line per execution, in order |
| Ibkr.LedgerUnits | src/plutus_lens/data/platform_data/ibkr/ibkr_data_extract.py:56-58 | the ledger's units are the bought quantities less the sold ones |
| Ibkr.QuoteLegs | src/plutus_lens/data/platform_data/ibkr/ibkr_data_extract.py:80-82 | one quote leg per currency trade, in order |
| Ibkr.BaseLegs | src/plutus_lens/data/platform_data/ibkr/ibkr_data_extract.py:84-89 | one base leg per currency trade, in order |
| Ibkr.FxLegs | src/plutus_lens/data/platform_data/ibkr/ibkr_data_extract.py:74-94 | twice as many rows as Forex lines: all quote legs, then all base legs, leg i and leg i + n settling the same trade |
| Ibkr.FxBalancing | src/plutus_lens/data/platform_data/ibkr/ibkr_data_extract.py:74-94 | fails iff the ledger has no Forex line; otherwise its legs |
| Ibkr.TradeLegs | src/plutus_lens/data/platform_data/ibkr/ibkr_data_extract.py:76-89 | the two legs share date and description; one carries proceeds plus fee in the quote currency, the other the units in the currency before the dot |
| Ibkr.QuoteLegsIn | src/plutus_lens/data/platform_data/ibkr/ibkr_data_extract.py:80-82 | a currency's quote legs add up to what its trades paid, proceeds plus fees |
| Ibkr.BaseLegsIn | src/plutus_lens/data/platform_data/ibkr/ibkr_data_extract.py:84-89 | a currency's base legs add up to the units bought of it |
| Ibkr.FxBalancingPerCurrency | src/plutus_lens/data/platform_data/ibkr/ibkr_data_extract.py:74-94 | in every currency the legs move what the trades paid in it plus what they bought of it |
| Ibkr.CashBalancingAsWritten | src/plutus_lens/data/platform_data/ibkr/ibkr_data_extract.py:108-115 | as written, one cash row per trade, amount plus proceeds for a buy, minus proceeds for a sell, plus the fee |
| Ibkr.SaleDrainsCash | src/plutus_lens/data/platform_data/ibkr/ibkr_data_extract.py:109 | as written, selling for 100 with a fee of 1 books -101 where the account receives 99 |
| Ibkr.AsWrittenAgainstSettled | src/plutus_lens/data/platform_data/ibkr/ibkr_data_extract.py:109 | the written amount equals the settled one on buys and is off by twice the proceeds on sells |
| Ibkr.CashBalancingAsWrittenPerCurrency | src/plutus_lens/data/platform_data/ibkr/ibkr_data_extract.py:108-115 | as written, a currency's cash rows add up to the written amounts of its trades |
| Ibkr.CashBalancing | src/plutus_lens/data/platform_data/ibkr/ibkr_data_extract.py:108-115 | corrected definition (see ## Findings): one Transfer cash row per trade, on its date, in its quote currency |
| Ibkr.CashBalancingPerCurrency | src/plutus_lens/data/platform_data/ibkr/ibkr_data_extract.py:108-115 | corrected definition (see ## Findings): a currency's cash rows add up to what its trades settled, proceeds plus fees |
| Ibkr.CashLegDirection | src/plutus_lens/data/platform_data/ibkr/ibkr_data_extract.py:56-57 | corrected definition (see ## Findings): a sale whose fee does not exceed its proceeds brings cash in; a buy takes cash out |
| Ibkr.Dividends | src/plutus_lens/data/platform_data/ibkr/ibkr_data_extract.py:122-131 | exactly the rows whose currency does not contain `Total`, as inflows, amounts kept in total |
| Ibkr.Extract | src/plutus_lens/data/platform_data/ibkr/ibkr_data_extract.py:138-151 | as written: fails iff no execution is a Forex line; otherwise only equity lines reach the securities ledger, one cash row each, and each currency's cash rows add up to the written amounts `(buy - sell) * Proceeds + fees` of its trades |
| Ibkr.CorrectedExtract | src/plutus_lens/data/platform_data/ibkr/ibkr_data_extract.py:138-151 | corrected definition (see ## Findings): fails iff no execution is a Forex line; otherwise only equity lines reach the securities ledger, one cash row each, and each currency's cash rows settle its trades |
| Ibkr.ExtractAgainstCorrected | src/plutus_lens/data/platform_data/ibkr/ibkr_data_extract.py:138-151 | the as-written and corrected runs fail on the same inputs and otherwise differ in their cash-balancing ledger only |
| Revolut.Settle | src/plutus_lens/data/platform_data/revolut/revolut_data_extract.py:36-40 | keeps exactly the lines in the given state, in order, and moves each amount by its fee, so the total moves by the fees' total |
| Revolut.SettleUndo | src/plutus_lens/data/platform_data/revolut/revolut_data_extract.py:36-40 | taking the fee back out of every kept line gives back the filtered lines |
| Revolut.CleanAccountStatement | src/plutus_lens/data/platform_data/revolut/revolut_data_extract.py:33-43 | the COMPLETED current lines with amount less fee, then the Completed history lines with amount plus fee |
| Revolut.ReplaceEach | src/plutus_lens/data/platform_data/revolut/revolut_data_extract.py:50-51 | replacing each pattern in turn leaves a text with none of them unchanged |
| Revolut.ReplaceEachOne | src/plutus_lens/data/platform_data/revolut/revolut_data_extract.py:50-51 | a text with one occurrence of one pattern, and no other pattern before or after, gets that occurrence replaced |
| Revolut.ConvertEnglishMonths | src/plutus_lens/data/platform_data/revolut/revolut_data_extract.py:47-52 | a text holding no French month abbreviation is unchanged |
| Revolut.MonthTranslated | src/plutus_lens/data/platform_data/revolut/revolut_data_extract.py:48-51 | a text holding one French month abbreviation gets it replaced by the English one and the rest left alone |
| Revolut.CashKind | src/plutus_lens/data/platform_data/revolut/revolut_data_extract.py:68-75 | after the six overwrites a line is an outflow exactly when it is no top-up or exchange and either not an in/out line or its description is upper-case once `From ` and `To ` are removed; otherwise a transfer |
| Revolut.CashFlowOfLine | src/plutus_lens/data/platform_data/revolut/revolut_data_extract.py:66-80 | a statement line becomes a Revolut cash row of its date, amount and currency, subtype Variable |
| Revolut.Classify | src/plutus_lens/data/platform_data/revolut/revolut_data_extract.py:68-80 | fails iff a line has no description; otherwise one cash row per line, in order |
| Revolut.CashFlowPrep | src/plutus_lens/data/platform_data/revolut/revolut_data_extract.py:55-81 | the cash rows add up to the current lines less their fees plus the history lines plus their fees, each typed Outflow or Transfer |
| Revolut.CryptoKind | src/plutus_lens/data/platform_data/revolut/revolut_data_extract.py:112-114 | Achat, Vente and Envoi become buy, sell and transfer out; any other type is kept |
| Revolut.CryptoSigns | src/plutus_lens/data/platform_data/revolut/revolut_data_extract.py:115-118 | for non-negative export values at a positive price, fees are costs, a buy adds fewer units than bought and costs its value, a sale removes more units than sold, a transfer out removes what was sent |
| Revolut.FeeCurrency | src/plutus_lens/data/platform_data/revolut/revolut_data_extract.py:107 | the currency is the last word of the fee text, NaN for a text with fewer words than the widest |
| Revolut.UniformFeeCurrency | src/plutus_lens/data/platform_data/revolut/revolut_data_extract.py:107 | when every fee reads `<number> <code>`, each line's currency is its code |
| Revolut.TwoWords | src/plutus_lens/data/platform_data/revolut/revolut_data_extract.py:107 | a two-word text splits into its two words |
| Revolut.CryptoLines | src/plutus_lens/data/platform_data/revolut/revolut_data_extract.py:105-120 | one ledger line per export line, in order, ticker suffixed `-USD`, asset class Cryptos |
| Revolut.AddTransferFees | src/plutus_lens/data/platform_data/revolut/revolut_data_extract.py:86-93 | the ledger unchanged, followed by one `transfer fees` row per transfer out, of units fees over price |
| Revolut.TransferFeesCount | src/plutus_lens/data/platform_data/revolut/revolut_data_extract.py:89-92 | there are as many fee rows as transfers out, and the number of transfers out is unchanged |
| Revolut.NoneKept | src/plutus_lens/data/platform_data/revolut/revolut_data_extract.py:89 | filtering with a predicate no element meets leaves nothing |
| Revolut.SendsOutCount | src/plutus_lens/data/platform_data/revolut/revolut_data_extract.py:114 | the ledger has as many transfers out as the export has Envoi or transfer-out lines |
| Revolut.CryptoLedgerShape | src/plutus_lens/data/platform_data/revolut/revolut_data_extract.py:119-122 | adding fee rows keeps every line and its platform and asset class |
| Revolut.CryptosPrep | src/plutus_lens/data/platform_data/revolut/revolut_data_extract.py:96-123 | fails iff the export has no line; otherwise one row per export line, then one fee row per outgoing transfer, all Revolut Cryptos |
| Revolut.SavingsCurrency | src/plutus_lens/data/platform_data/revolut/revolut_data_extract.py:138-142 | no `£` or `€` is left in the value; the currency is CHF when CHF is present after removing them, else EUR for `€`, else GBP for `£` |
| Revolut.SavingsKind | src/plutus_lens/data/platform_data/revolut/revolut_data_extract.py:148-150 | interest beats service fee beats buy, and none of them leaves the type NaN |
| Revolut.IsinIsLastWord | src/plutus_lens/data/platform_data/revolut/revolut_data_extract.py:152 | the ISIN is the description's last word |
| Revolut.MoneyMarketPrep | src/plutus_lens/data/platform_data/revolut/revolut_data_extract.py:127-154 | one savings row per input line, in order |
| Revolut.Extract | src/plutus_lens/data/platform_data/revolut/revolut_data_extract.py:158-167 | fails iff the crypto export is empty or the cash side fails, the crypto side first; the cash total is settled amounts, the crypto ledger gains one fee row per outgoing transfer, the savings keep their count |
| Kraken.PageCount | src/plutus_lens/data/platform_data/kraken/kraken_data_extract.py:66-76 | one request at least, and just enough pages of 50 to reach the ledger size |
| Kraken.Offsets | src/plutus_lens/data/platform_data/kraken/kraken_data_extract.py:66-77 | offsets 0, 50, ...: each entry lies in exactly one requested page, and no request after the first starts past the end |
| Kraken.FullLedger | src/plutus_lens/data/platform_data/kraken/kraken_data_extract.py:62-79 | the loop asks for exactly those offsets and concatenates their pages in order |
| Kraken.Coin | src/plutus_lens/data/platform_data/kraken/kraken_data_extract.py:89-92 | the ETH aliases map to ETH, SOL03.S and SOL to SOL, EIGEN to EIGEN, and any other code to no coin |
| Kraken.CleanLedger | src/plutus_lens/data/platform_data/kraken/kraken_data_extract.py:84-100 | fails iff no entry is of a known coin; otherwise one row per entry, in order |
| Kraken.CleanEntryShape | src/plutus_lens/data/platform_data/kraken/kraken_data_extract.py:87-97 | units equal amount less fee before the sign flip; currency equals ticker; a ticker iff a known coin, suffixed `-USD`; deposit becomes transfer |
| Kraken.LedgerUnits | src/plutus_lens/data/platform_data/kraken/kraken_data_extract.py:87-97 | over the whole ledger the units are amounts less fees |
| Kraken.TradeDoc | src/plutus_lens/data/platform_data/kraken/kraken_data_extract.py:100 | each row has exactly the nine ledger columns |
| Kraken.TradeDocIdentity | src/plutus_lens/data/platform_data/kraken/kraken_data_extract.py:100 | a row's identity reads back unchanged, in units; the row is in a balance group iff its currency is known |
| Kraken.Extract | src/plutus_lens/data/platform_data/kraken/kraken_data_extract.py:104-109 | fails iff no entry is of a known coin; otherwise one nine-column row per entry, bound for the crypto ledger |
| Kraken.ExtractWritable | src/plutus_lens/data/platform_data/kraken/kraken_data_extract.py:104-109 | an extracted ledger can always be written; every row reads back, and is in a balance group iff its entry is of a known coin (an unknown asset has a NaN currency) |
| DocumentStore.MergeTwice | data/database_studio.py:122-125 | setting the same fields twice is setting them once |
| DocumentStore.UpsertExisting | data/database_studio.py:122-125 | an upsert merges its fields into the document with its id and changes no other document |
| DocumentStore.NotInBatchSetsNothing | data/database_studio.py:118-125 | a batch sets no field on an id it does not hold |
| DocumentStore.SetFieldsId | data/database_studio.py:120-121 | the `_id` a batch sets on a document is that document's own id |
| Identity.BalanceCalcStamps | data/platform_data/platform_data_refresh.py:59-63 | the stamped rows are the sorted rows, each with its id |
| Identity.StampsMultiset | data/platform_data/platform_data_refresh.py:59-63 | two arrangements with the same ids give the same multiset of stamps |
| MarketData.Backfill | data/market_data/market_data_extract.py:114-118 | back-filling keeps the stored days and columns and adds a rate column per missing currency on every stored day |
| MarketData.CodeStrips | data/market_data/market_data_extract.py:105 | removing `CHF` from a three-letter code followed by `CHF` leaves the code, except for CHF itself, which leaves nothing |
| MarketData.RemovedIsGone | data/market_data/market_data_extract.py:88 | `list.remove` on a list without repeats leaves no copy of the value |
| MarketData.SharingCut | data/market_data/market_data_extract.py:139 | every three-letter cut comes from at least one stored column |
| Text.SplitJoin | src/plutus_lens/data/platform_data/etoro/etoro_data_extract.py:79 | splitting on a separator and joining back with it gives the original text |
| Text.ReplaceSingle | src/plutus_lens/data/platform_data/revolut/revolut_data_extract.py:51 | a text with one occurrence of the pattern gets exactly that occurrence replaced |
| Text.ReplaceKeepsLength | src/plutus_lens/data/platform_data/etoro/etoro_data_extract.py:82 | replacing with a text of the pattern's length keeps the length |
| Text.IntToStringRoundTrip | data/platform_data/platform_data_refresh.py:33-34 | the decimal rendering of an integer reads back as that integer |
| Text.IntToStringInjective | data/platform_data/platform_data_refresh.py:33-34 | different integers render differently |
| Text.Strip | src/plutus_lens/data/platform_data/etoro/etoro_data_extract.py:169 | the stripped text neither starts nor ends with whitespace |
| Text.Upper | src/plutus_lens/data/platform_data/etoro/etoro_data_extract.py:169 | upper-casing keeps the length and upper-cases every character |

Notes on what the code does:

- `collection_writer` merges the row's fields into a stored document with
  `$set`; it does not replace the document, so stored fields the row lacks
  survive.
- Every service's calendar runs over the cash-flow ledger's dates only,
  whichever ledger the service values.
- The money-market account frame raises `KeyError` for an account whose
  second piece is not a key of the ISIN to currency dictionary (a missing
  currency is kept as a value, so it does not raise); its currency view
  falls back to `Unknown` instead. The portfolio's currency view raises
  only when a view repeats a label (a `GBX` and a `GBP` group both read
  `GBP`) and the three views do not have the same columns.
- The eToro, IBKR and Revolut extractions raise when a kind of line they
  split is absent: an eToro statement without a trade, split or dividend
  line, an IBKR ledger without a Forex line, an empty Revolut crypto
  export. Splitting an empty column with `expand=True` gives no column to
  assign or to select.
- A NaN platform, ticker or quote currency is a missing value: the pivot and
  the currency grouping drop it.
- The balance fingerprint sorts by date, then by amount, with a stable
  sort, so ties keep their input order.

## Left out

- The MongoDB connection, the `input()` prompts and `sys.exit`: the store is a value, and `creation_user_choice` returns an error where the program exits.
- The yfinance provider, the Kraken HTTP endpoint and the Excel and CSV reads (including `os.listdir`): they become function parameters or input sequences.
- The Kraken request signature, HMAC (RFC 2104) with SHA-512 over a SHA-256 digest (FIPS 180-4): it is part of the HTTP call, which is a parameter.
- Floating point: amounts are exact `real`s, `round(2)` in the services and `float32` are not modelled, and the BCGE check's `round(x, 2) == 0` is taken as an absolute value below half a cent.
- Python's `str()` of a float, used in ids and descriptions: it is the parameter `fmt`; parsing numbers and dates (Revolut's `astype(float)`, `strptime`, `pd.to_datetime`) is a parameter or already done in the input rows.
- Time zones: dates are epoch seconds and days are UTC days; the local clock is a parameter.
- Column order of the produced frames, and pandas index labels.
- String handling is ASCII only: whitespace, upper-casing and `\b` in the BCGE date pattern follow the ASCII definitions, not Unicode's.
- `str.replace` is taken as a literal replacement, the pandas default from version 2 on.
- The free-text rules of BCGE: the name-based type and subtype overrides, the accent repair table, `extract_datetime`, and the spreadsheet pre-cleaning before `clean_list`.
- The Dash user interface, `data_bridge.py`, `accounts_connection.py`, `clean_pct_number`, the older `data/platform_data/bcge` extractor, `data_refresh.py` call ordering and the module-level script lines that run on import.
- The rule that the missing-dates fill runs before the missing-instruments fill is kept by the order of the calls in the update functions; no contract states it.
- MarketData.AddMissingCurrencies: the source assigns `missing_data.values` positionally (market_data_extract.py line 116), pairing fetched rows with stored rows by position; the model pairs them by date and fails when the fetched dates are not the stored ones, and it does not state which fetched value lands in which cell, only which dates and columns change.
- MarketData.CleanFx: when two stored columns share a three-letter cut, which of them pandas keeps is not stated; the contract covers the keys and the unshared columns.
- Revolut.SavingsCurrency: removal is proved for `£` and `€` only, since deleting `CHF` can form a new `CHF` (as in `CCHFHF`).
- Revolut.MonthTranslated: stated for a text with one French month abbreviation that no other replacement touches, not for every text.
- Revolut.CashKind: the `Type` column is read as a string; a missing type is not modelled.
- Bcge.CorrectedExtract: states that a consistent statement raises no warning, not the exact warning condition, which Bcge.CorrectedCheck gives.
- Identity.ReadEntry: a timestamp in the `type`, currency or `platform` column is read as malformed, where `str` would render it; no adapter puts one there.
- Identity.BalanceCalc: an empty ledger is stamped as empty whatever its columns; the driver drops empty ledgers before stamping, so what pandas does with an empty frame that lacks a column is not modelled.
- Etoro.Ratio: `int()` also reads non-ASCII digits and Unicode whitespace; the model reads ASCII only.
- Text.Strip: states only that the result has no whitespace at either end, not that it is the middle of the input.

## Findings

| source | as written | input that shows it | evidently intended | confidence | as-written member | corrected member |
|---|---|---|---|---|---|---|
| src/plutus_lens/data/platform_data/bcge/bcge_data_validation_test.py:10 | the opening balance is `balance[0] - out[0]`, leaving the first line's inflow in | a one-line statement depositing 100 onto an empty account, closing balance 100: the quantity is 100, so the warning prints | opening balance `balance[0] - out[0] - in[0]`, so every consistent statement passes | not executed | Bcge.Check, Bcge.FirstInflowFlagged, Bcge.ConsistentWarning, Bcge.Extract | Bcge.CorrectedCheck, Bcge.ConsistentStatementReconciles, Bcge.CorrectedExtract |
| src/plutus_lens/data/platform_data/bcge/bcge_data_extract.py:119-122 | one opening row per line on the earliest date, each of amount `abs(amount) + balance` | two lines on the first day give two opening rows; an opening deposit of 100 onto an empty account gives an opening row of 200 | one opening row, the balance before the first line, `balance - amount` | not executed | Bcge.OpeningRowsAsWritten, Bcge.OpeningInflowDoubled, Bcge.AsWrittenFlowsTotal, Bcge.Extract | Bcge.CashFlowPrep, Bcge.FlowsAddUpToClosingBalance, Bcge.CorrectedExtract |
| src/plutus_lens/data/platform_data/ibkr/ibkr_data_extract.py:109 | the cash amount is `(buy - sell) * Proceeds + fees`, though `Proceeds` is already negative for a buy and positive for a sell | selling one share for 100 with a fee of -1 books -101 where the account receives 99 | `Proceeds + fees` for every trade | not executed | Ibkr.CashBalancingAsWritten, Ibkr.SaleDrainsCash, Ibkr.Extract | Ibkr.CashBalancing, Ibkr.CashBalancingPerCurrency, Ibkr.CorrectedExtract |

Bcge.Extract and Ibkr.Extract run the code as written; Bcge.CorrectedExtract
and Ibkr.CorrectedExtract run the corrected definitions.
