# AutoParts stock and sales core, in Dafny

AutoParts is a desktop application for a car-parts shop. This project models
its core. Two back ends keep the same data: a parts catalogue (article, name,
brand, car model, category, stock, buying and selling price), sales with their
line items, and goods receipts with theirs.

- `SimpleDatabase` talks SQL to SQLite directly.
- The other back end uses the peewee `Part`, `Sale` and `SaleItem` models, with
  the `PartService` and `SaleService` helpers on top.

`SettingsManager` keeps typed, section-prefixed settings with defaults, and the
most-recently-used file list, in a QSettings store.

Files and modules:

- `text.dfy`, module `Text`:
  - case folding: SQLite's ASCII-only `LOWER()`/`LIKE` and Python's `str.lower`;
  - substrings and `str.strip`;
  - Python's string order;
  - the decimal digits of a slot number.
- `sorting.dfy`, module `Sorting`: order-keeping filters and a stable insertion
  sort, which stand for `ORDER BY` and `sorted`.
- `schema.dfy`, module `Schema`: the `parts` row both back ends store, and the
  order by article.
- `database_simple.dfy`, module `SimpleDb`:
  - the class `SimpleDatabase`, its five tables as fields and one
    AUTOINCREMENT counter per table;
  - every operation is a method whose contract states the whole new state;
  - `create_sale` and `create_receipt` run their line loops in module-level
    methods, proved against the specification functions `SaleAccepted`,
    `Debit`, `Credit`, `SaleItemsFor` and `ReceiptItemsFor`.
- `part_model.dfy`, module `PartModel`: the class `Part`, with
  `reduce_quantity` updating the instance in place, `profit_margin`, and the
  `Part.search` query.
- `sale_model.dfy`, module `SaleModel`: the class `Sale`, with `calculate_total`
  updating the instance; `items_count`, `total_price` and the `items`
  back-reference.
- `part_service.dfy`, module `PartService`: the pure list queries and
  validators of `PartService`, over the rows of the peewee `parts` table.
- `sale_service.dfy`, module `SaleService`:
  - the peewee tables as the class `Store`;
  - `create_sale`, which is not atomic: a failure part way keeps what the
    earlier lines did. Ids come from SQLite's rule of one more than the
    largest id, so a later sale can reuse a deleted sale's id (see Findings).
    The module also has an all-or-nothing `CreateSaleAtomic`;
  - `validate_sale_items` and `calculate_change`.
- `settings_manager.dfy`, module `Settings`: the class `SettingsManager` over a
  string-keyed map:
  - the four section getters and setters;
  - the ten properties with their defaults;
  - `get_recent_files` and `add_recent_file`, with their loops.

Prices are integers in minor units. Timestamps are opaque numbers, passed in as
`now`. `os.path.exists` is a function parameter `pathExists`. The application
data directory is a constructor argument.

## Model

| member | source | states |
|---|---|---|
| SimpleDb.SimpleDatabase.constructor | src/database_simple.py:22-96 | The database starts with empty tables, and its invariant holds: unique part, sale and receipt ids and unique articles, all ids below their counters. |
| SimpleDb.SimpleDatabase.AddPart | src/database_simple.py:98-123 | Succeeds exactly when no part has the article. Then it adds one row under the next id, with the given fields and both timestamps set to now. Otherwise nothing changes. No other table changes either way. |
| SimpleDb.ListRows | src/database_simple.py:130 | The rows returned are the parts with ids below the bound: each exactly once, sorted by article. |
| SimpleDb.ListsRowsInsert | src/database_simple.py:130 | Inserting the next id's row by article keeps a listing sorted, free of duplicates and complete. |
| SimpleDb.SimpleDatabase.GetAllParts | src/database_simple.py:125-137 | Every part exactly once, ordered by article. |
| SimpleDb.SimpleDatabase.SearchParts | src/database_simple.py:139-162 | Sorted by article and without duplicates. The result holds exactly the parts where the lower-cased query occurs in the lower-cased article, name, brand, car model or category (corrected folding, see Findings). |
| SimpleDb.SearchAsWrittenMissesOwnCategory | src/database_simple.py:145-153 | As written, a part with category "Двигатель" is not found by that very word, though the corrected search finds it. |
| SimpleDb.FieldMatchesAsWritten | src/database_simple.py:145-153 | The WHERE test of one column as written: the query folded by Python, the column by SQLite's ASCII-only `LOWER()`. |
| SimpleDb.MatchesAsWritten | src/database_simple.py:149-153 | The WHERE clause as written: the as-written test on article, name, brand, car model or category. |
| SimpleDb.SearchFindsEverySubstring | src/database_simple.py:145-153 | Corrected search finds a part by any substring of any of its five searched columns. |
| SimpleDb.SearchIgnoresQueryCase | src/database_simple.py:145 | Lower-casing the query beforehand does not change which parts match. |
| SimpleDb.ApplyUpdateIdempotent | src/database_simple.py:164-180 | An update keeps the id and creation time and stamps the modification time; applying the same update again changes nothing. |
| SimpleDb.ApplyUpdateQuantityOnly | src/database_simple.py:171-180 | An update naming only the quantity changes the quantity and the modification time, and no other column. |
| SimpleDb.SimpleDatabase.UpdatePart | src/database_simple.py:164-187 | Returns true exactly when the id exists, at least one column is named, and the new article is not another part's. Then only that part changes, and only by the named columns and `updated_at`. Otherwise nothing changes. |
| SimpleDb.SimpleDatabase.DeletePart | src/database_simple.py:189-200 | Returns true exactly when the part existed; afterwards the id is absent and the other parts are unchanged. |
| SimpleDb.SimpleDatabase.GetPartById | src/database_simple.py:202-217 | None exactly when the id is absent; otherwise the stored row, which carries that id. |
| SimpleDb.CheckStock | src/database_simple.py:232-237 | The check loop accepts exactly when every line names an existing part whose current stock covers the line. |
| SimpleDb.SaleTotalConcat | src/database_simple.py:240 | The sale total is additive over the lines. |
| SimpleDb.DebitLines | src/database_simple.py:249-260 | The insert-and-debit loop produces the debited parts table and one item row per line, ids counting up. |
| SimpleDb.DebitEffect | src/database_simple.py:256-260 | Each part loses the sum of the quantities its lines name; every other column except `updated_at` is unchanged. |
| SimpleDb.DebitUntouched | src/database_simple.py:256-260 | A part that no line names is unchanged. |
| SimpleDb.SaleKeepsStockNonNegative | src/database_simple.py:231-260 | For an accepted sale with distinct part ids, stock stays non-negative, and each sold part drops by exactly its line's quantity. |
| SimpleDb.DuplicateLinesOversell | src/database_simple.py:231-260 | The check uses the pre-sale stock, so two lines of 1 on a part with stock 1 pass and leave stock −1. |
| SimpleDb.SimpleDatabase.CreateSale | src/database_simple.py:219-272 | All or nothing. It succeeds exactly when every line passes the check. On success it adds one sale with total Σ quantity×price, one item per line, and the debited parts. Otherwise no table or counter changes. |
| SimpleDb.DebitKeepsPartsValid | src/database_simple.py:256-260 | Debiting keeps part ids and articles unique. |
| SimpleDb.NewSaleKeepsSalesValid | src/database_simple.py:241-254 | Adding a sale and its items keeps every id below its counter, and every item pointing at an existing sale. |
| SimpleDb.NewSaleItemsCount | src/database_simple.py:279-284 | A new sale's `items_count` is its number of lines. |
| SimpleDb.SimpleDatabase.GetAllSales | src/database_simple.py:274-293 | Newest first; the rows are a permutation of the per-sale summaries, each with its item count. |
| SimpleDb.SaleItemViewsConcat | src/database_simple.py:300-305 | The JOIN listing of items is additive over the item table. |
| SimpleDb.NewSaleItemViews | src/database_simple.py:300-305 | A new sale lists exactly its lines, in order, each with the article and name of its part. |
| SimpleDb.SimpleDatabase.GetSaleItems | src/database_simple.py:295-312 | The sale's items whose part still exists, in table order, joined with article and name. |
| SimpleDb.CreditLines | src/database_simple.py:337-348 | The receipt loop produces the credited parts table and one item row per line. |
| SimpleDb.CreditEffect | src/database_simple.py:344-348 | Each part gains the sum of the quantities its lines name; nothing else but `updated_at` changes. |
| SimpleDb.ReceiptNeverLowersStock | src/database_simple.py:326-348 | With non-negative quantities, no stock decreases, and non-negative stock stays so. |
| SimpleDb.CreditKeepsPartsValid | src/database_simple.py:344-348 | Crediting keeps part ids and articles unique. |
| SimpleDb.NewReceiptKeepsReceiptsValid | src/database_simple.py:328-342 | Adding a receipt and its items keeps the receipt tables' invariant. |
| SimpleDb.SimpleDatabase.CreateReceipt | src/database_simple.py:314-360 | Always succeeds, with no stock check. It adds one receipt with total Σ quantity×buy price, one item per line, and the credited parts. |
| SimpleDb.NewReceiptItemsCount | src/database_simple.py:367-372 | A new receipt's `items_count` is its number of lines. |
| SimpleDb.SimpleDatabase.GetAllReceipts | src/database_simple.py:362-381 | Newest first; a permutation of the per-receipt summaries with their item counts. |
| SimpleDb.SimpleDatabase.GetReceiptItems | src/database_simple.py:383-400 | The receipt's items whose part still exists, joined with article and name. |
| SimpleDb.ReceiptItemViewsConcat | src/database_simple.py:388-393 | The JOIN listing of receipt items is additive over the item table. |
| SimpleDb.ReceiptItemViewsNone | src/database_simple.py:388-393 | A receipt that no item row points at lists nothing. |
| SimpleDb.NewReceiptItemViews | src/database_simple.py:388-393 | A new receipt lists exactly its lines, in order, each with the article and name of its part. |
| Schema.ByArticleTotalPreorder | src/database_simple.py:130 | Ordering rows by article is a total preorder, so the sorts are well defined. |
| Text.SqlLower | src/database_simple.py:149-153 | SQLite `LOWER()`: same length; only the ASCII capitals change, each to its small letter. |
| Text.PyLower | src/database_simple.py:145 | Python `str.lower` on ASCII and Cyrillic: same length; letter by letter. |
| Text.PyLowerIdempotent | src/database_simple.py:145 | Lower-casing twice is lower-casing once. |
| Text.PyLowerKeepsSubstring | src/database_simple.py:145-153 | A substring stays a substring after both sides are lower-cased. |
| Text.SqlLowerKeepsSubstring | src/models/part.py:38-43 | The same for SQLite's ASCII-only folding. |
| PartModel.Part.ReduceQuantity | src/models/part.py:53-59 | Returns whether the stock covers the amount. The instance then is exactly `Reduced` of its old state: less stock and a new `updated_at` on success, unchanged otherwise. |
| PartModel.ReducedEffect | src/models/part.py:53-59 | On success only the stock (by exactly the amount) and the modification time change; on failure nothing does. |
| PartModel.ReduceKeepsStockNonNegative | src/models/part.py:55-56 | Whatever the amount, a non-negative stock stays non-negative. |
| PartModel.ReduceByWholeStock | src/models/part.py:55-56 | Reducing by the whole stock succeeds and leaves zero. |
| PartModel.ReduceThenReturn | src/models/part.py:55-56 | After a successful reduction, adding the amount back restores the stock. |
| PartModel.ProfitMargin | src/models/part.py:61-66 | Zero when the buying price is not positive. |
| PartModel.ProfitMarginMeaning | src/models/part.py:64-65 | Buying price plus margin percent of it is the selling price; the margin is positive or zero exactly when the selling price is above or equal to the buying price. |
| PartModel.ProfitMarginExample | src/models/part.py:64-65 | Buying at 100 and selling at 150 gives 50. |
| PartModel.Search | src/models/part.py:35-43 | Exactly the rows where the query occurs, ignoring ASCII case, in article, name, brand or car model; table order. |
| PartModel.SearchIgnoresAsciiCase | src/models/part.py:38-43 | The case of ASCII letters in the query does not matter. |
| PartModel.SearchKeepsOrder | src/models/part.py:38-43 | A search keeps the order of the rows it filters. |
| PartModel.SearchSkipsCategory | src/models/part.py:38-43 | The category is not searched: a part found only by its category is missed. |
| PartModel.SearchFindsVerbatim | src/models/part.py:38-43 | A verbatim substring of one of the four columns is found. |
| SaleModel.ItemsOf | src/models/sale.py:35 | The `items` back-reference: exactly the rows pointing at the sale. |
| SaleModel.TotalPrice | src/models/sale.py:44-47 | `total_price` is quantity times unit price. |
| SaleModel.ItemsCount | src/models/sale.py:20-23 | `items_count` is the number of rows of the `items` back-reference. |
| SaleModel.ItemsTotalConcat | src/models/sale.py:27 | The items total is additive. |
| SaleModel.ItemsTotalExample | src/models/sale.py:25-30 | Two at 180 and one at 120 total 480. |
| SaleModel.ItemsCountAppend | src/models/sale.py:20-23 | A new item row counts for its own sale only. |
| SaleModel.ItemsCountNone | src/models/sale.py:20-23 | A sale that no row points at has no items. |
| SaleModel.Sale.CalculateTotal | src/models/sale.py:25-30 | Returns and stores the sum of quantity×price over the sale's items; no other field changes. |
| SaleModel.CalculateTotalIdempotent | src/models/sale.py:25-30 | A second call with unchanged items gives the same total. |
| PartService.CheckAvailabilityMatchesReduce | src/services/part_service.py:80-87 | `check_availability` is true exactly when `reduce_quantity` would succeed. |
| PartService.CheckAvailability | src/services/part_service.py:80-82 | True when the stock is at least the quantity asked for. |
| PartService.GetAllParts | src/services/part_service.py:32-34 | Sorted by article; a permutation of the table. |
| PartService.GetPartsInStock | src/services/part_service.py:37-39 | Sorted by article; exactly the rows with positive stock, as a multiset. |
| PartService.GetLowStockParts | src/services/part_service.py:102-106 | Sorted by quantity; exactly the rows with 0 < stock ≤ threshold, as a multiset. |
| PartService.LowStockDefault | src/services/part_service.py:102 | The default threshold is 5. |
| PartService.SearchParts | src/services/part_service.py:42-46 | A blank query lists every part by article; otherwise exactly the `Part.search` hits for the stripped query. |
| PartService.SearchPartsIgnoresSurroundingSpace | src/services/part_service.py:44-46 | Spaces around the query do not change the result. |
| PartService.StripIdempotent | src/services/part_service.py:44-46 | Stripping twice is stripping once. |
| Text.StripEmptyIffBlank | src/services/part_service.py:44 | `query.strip()` is empty exactly when the query is all white space. |
| PartService.GetCategories | src/services/part_service.py:90-93 | Strictly sorted (so distinct) non-empty categories of the table; every non-empty category is listed. |
| PartService.GetBrands | src/services/part_service.py:96-99 | The same for brands. |
| Text.StrLeTotal | src/services/part_service.py:93 | Python's string order is total, transitive (`Text.StrLeTransitive`) and antisymmetric (`Text.StrLeAntisymmetric`). |
| PartService.ValidateArticleOwnPart | src/services/part_service.py:109-114 | With unique articles, a part's own article validates when its id is excluded. |
| PartService.Excludes | src/services/part_service.py:112 | `if exclude_id:` is taken only for an id that is neither None nor 0. |
| PartService.ValidateArticle | src/services/part_service.py:109-114 | True exactly when no row carries the article, other than the row that a truthy `exclude_id` names. |
| PartService.ValidateArticleZeroExcludesNothing | src/services/part_service.py:112 | `exclude_id` 0 is falsy and excludes nothing. |
| PartService.ValidArticleKeepsUnique | src/services/part_service.py:109-114 | Adding a row whose article validates keeps articles unique. |
| SaleService.FindPart | src/services/sale_service.py:27 | `Part.get_by_id`: none exactly when no row has the id, else a row with that id. |
| SaleService.NextRowId | src/services/sale_service.py:23 | The id SQLite gives a new row of a peewee table: above every id in the table and one more than the largest, or 1 for an empty table. |
| SaleService.NextRowIdAfterItems | src/services/sale_service.py:38-43 | Item rows written one after another from the next free id take the ids counting up from it. |
| SaleService.ItemsForKeepsIdsUnique | src/services/sale_service.py:38-43 | Those rows keep item ids unique. |
| SaleService.Store.constructor | src/services/sale_service.py:16-55 | Empty sale tables over a parts table with unique ids; ids unique and every item attached to a sale. |
| SaleService.SellLines | src/services/sale_service.py:26-45 | The loop stops at the first line that does not fit. It returns the parts after the lines before it and one item row per such line, each under the next free item id. When all lines fit it also returns the total Σ quantity×price. |
| SaleService.MisfitSticks | src/services/sale_service.py:26-35 | Once a line fails, later lines do not move the failure point. |
| SaleService.MisfitReasons | src/services/sale_service.py:27-35 | A line fails when its part is missing or its remaining stock is short. |
| SaleService.CreateSale | src/services/sale_service.py:16-55 | The sale takes the next free sale id. It succeeds exactly when every line fits against the stock left by the lines before it. Parts and items reflect exactly the lines before the first misfit. On success: one sale with the total of all lines. A missing part leaves the sale row with total 0. A short stock deletes the sale row, while earlier lines' stock and item rows stay. Ids stay unique. |
| SaleService.ApplyKeepsStockNonNegative | src/services/sale_service.py:26-35 | Non-negative stock stays non-negative, even when lines repeat a part. |
| SaleService.ApplyEffect | src/services/sale_service.py:26-45 | When all lines fit, each part loses exactly the quantities its lines name; nothing but `updated_at` changes besides. |
| SaleService.QuantityForDistinct | src/services/sale_service.py:26-35 | With distinct part ids, a part's total is its one line's quantity. |
| SaleService.NewSaleItems | src/services/sale_service.py:38-51 | A sale's `items` are the rows already pointing at its id followed by its lines' rows; `items_count` and `calculate_total` count both. |
| SaleService.NewSaleOwnItems | src/services/sale_service.py:38-51 | When no row pointed at the id before, `items_count` is the number of lines and `calculate_total` gives back the saved total. |
| SaleService.NextSaleHasNoItems | src/services/sale_service.py:23 | When every item belongs to an existing sale, none points at the id the next sale gets. |
| SaleService.NewSaleKeepsItemsBelonging | src/services/sale_service.py:23-43 | A new sale with its own item rows keeps every item attached to an existing sale. |
| SaleService.OrphanItemsJoinNextSale | src/services/sale_service.py:23-35 | As written: a sale that fails on its second line leaves its first item row behind; the next sale reuses the id and has two items and a recalculated total of 300 for one line sold at 150. |
| SaleService.CreateSaleAtomic | src/services/sale_service.py:32-35 | Corrected: nothing changes unless every line fits. Otherwise the same sale, stock and item rows as written. Every item stays attached to a sale, and the new sale's item count and recalculated total match its lines. |
| SaleService.ValidateSaleItems | src/services/sale_service.py:78-103 | An empty list gives only the "no items" error. Otherwise one error list per line, in order, with 1-based positions. Valid exactly when there is no error. |
| SaleService.NoErrorsIffAllLinesOk | src/services/sale_service.py:86-103 | No errors exactly when every line's part exists, its quantity is positive and the stock covers it. |
| SaleService.ErrorPositionsInRange | src/services/sale_service.py:86-99 | Every error names a position from 1 to the number of lines. |
| SaleService.ApplyElsewhere | src/services/sale_service.py:26-45 | Reducing other parts leaves a part's row as it was. |
| SaleService.ValidatedSaleSucceeds | src/services/sale_service.py:77-103 | Lines that validate and name distinct parts all fit, so `create_sale` succeeds. |
| SaleService.ValidationIgnoresRepeatedParts | src/services/sale_service.py:86-97 | Two lines of 1 on a part with stock 1 validate, yet `create_sale` fails on the second. |
| SaleService.CalculateChange | src/services/sale_service.py:106-108 | The change is never negative. |
| SaleService.ChangeSettlesPayment | src/services/sale_service.py:106-108 | When the payment covers the total, total plus change equals the payment; an underpayment gets 0. |
| Settings.Lookup | src/settings_manager.py:56 | `settings.value(key, default)`: the stored value, or the default when absent. |
| Settings.SettingsManager.constructor | src/settings_manager.py:14-20 | The manager keeps the given settings store and application data directory. |
| Settings.SettingKeyInjective | src/settings_manager.py:54-182 | `section/key` keys of slash-free sections determine section and key. |
| Settings.SectionsDistinct | src/settings_manager.py:54-182 | The interface, database, export and recent sections never share a key. |
| Settings.SetThenGet | src/settings_manager.py:54-60 | A section setter is read back by the getter and leaves every other section key unchanged. |
| Settings.SettingsManager.GetInterfaceSetting | src/settings_manager.py:54-56 | The value under `interface/<key>`, or the default when absent. |
| Settings.SettingsManager.SetInterfaceSetting | src/settings_manager.py:58-60 | Stores the value under `interface/<key>` and changes nothing else. |
| Settings.SettingsManager.GetDatabaseSetting | src/settings_manager.py:100-102 | The value under `database/<key>`, or the default. |
| Settings.SettingsManager.SetDatabaseSetting | src/settings_manager.py:104-106 | Stores under `database/<key>` only. |
| Settings.SettingsManager.GetExportSetting | src/settings_manager.py:147-149 | The value under `export/<key>`, or the default. |
| Settings.SettingsManager.SetExportSetting | src/settings_manager.py:151-153 | Stores under `export/<key>` only. |
| Settings.SettingsManager.GetRecentValue | src/settings_manager.py:176-178 | The value under `recent/<key>`, or the default. |
| Settings.SettingsManager.SetRecentValue | src/settings_manager.py:180-182 | Stores under `recent/<key>` only. |
| Settings.SettingsManager.ShowWelcomeDialog | src/settings_manager.py:62-65 | Defaults to true. |
| Settings.SettingsManager.SetShowWelcomeDialog | src/settings_manager.py:67-69 | Stores the flag under `interface/show_welcome_dialog`. |
| Settings.SettingsManager.AutoRefreshInterval | src/settings_manager.py:71-74 | Defaults to 30. |
| Settings.SettingsManager.SetAutoRefreshInterval | src/settings_manager.py:76-78 | Stores under `interface/auto_refresh_interval`. |
| Settings.SettingsManager.ItemsPerPage | src/settings_manager.py:80-83 | Defaults to 50. |
| Settings.SettingsManager.SetItemsPerPage | src/settings_manager.py:85-87 | Stores under `interface/items_per_page`. |
| Settings.SettingsManager.ConfirmDeletions | src/settings_manager.py:89-92 | Defaults to true. |
| Settings.SettingsManager.SetConfirmDeletions | src/settings_manager.py:94-96 | Stores under `interface/confirm_deletions`. |
| Settings.SettingsManager.DatabasePath | src/settings_manager.py:108-112 | Defaults to `autoparts.db` joined to the application data directory. |
| Settings.SettingsManager.SetDatabasePath | src/settings_manager.py:114-116 | Stores under `database/path`. |
| Settings.SettingsManager.AutoBackupEnabled | src/settings_manager.py:118-121 | Defaults to true. |
| Settings.SettingsManager.SetAutoBackupEnabled | src/settings_manager.py:123-125 | Stores under `database/auto_backup_enabled`. |
| Settings.SettingsManager.BackupIntervalDays | src/settings_manager.py:127-130 | Defaults to 7. |
| Settings.SettingsManager.SetBackupIntervalDays | src/settings_manager.py:132-134 | Stores under `database/backup_interval_days`. |
| Settings.SettingsManager.MaxBackupFiles | src/settings_manager.py:136-139 | Defaults to 10. |
| Settings.SettingsManager.SetMaxBackupFiles | src/settings_manager.py:141-143 | Stores under `database/max_backup_files`. |
| Settings.SettingsManager.DefaultExportFormat | src/settings_manager.py:155-158 | Defaults to "csv". |
| Settings.SettingsManager.SetDefaultExportFormat | src/settings_manager.py:160-162 | Stores under `export/default_format`. |
| Settings.SettingsManager.ExportDirectory | src/settings_manager.py:164-168 | Defaults to `exports` joined to the application data directory. |
| Settings.SettingsManager.SetExportDirectory | src/settings_manager.py:170-172 | Stores under `export/directory`. |
| Settings.PathJoin | src/settings_manager.py:108-116 | POSIX `os.path.join`: an absolute second part wins; otherwise the two parts with one slash between. |
| Settings.PathDefaults | src/settings_manager.py:108-172 | With nothing stored, the database path is `<app data>/autoparts.db` and the export directory `<app data>/exports`. |
| Settings.SlotKeyInjective | src/settings_manager.py:186-213 | Different positions have different `recent/file_<i>` keys. |
| Text.DigitsInjective | src/settings_manager.py:188 | Different numbers have different decimal renderings. |
| Settings.RecentFiles | src/settings_manager.py:184-191 | At most `max_files` entries (none for a non-positive bound), each non-empty and existing. |
| Settings.SettingsManager.GetRecentFiles | src/settings_manager.py:184-191 | The loop returns the non-empty, existing values of slots 0..max−1, in slot order. |
| Settings.RemoveFirst | src/settings_manager.py:198-199 | Removes one occurrence when present (multiset minus one) and otherwise changes nothing. |
| Settings.RemoveFirstIsFilter | src/settings_manager.py:198-199 | For a value listed at most once, removing it is filtering it out. |
| Settings.PyPrefix | src/settings_manager.py:205 | Python's `[:n]`, negative bounds counting from the end. |
| Settings.SettingsManager.AddRecentFile | src/settings_manager.py:193-213 | Slots 0.. hold the new list. Slots from its length to `max_files − 1` are absent. Every other key is unchanged. |
| Settings.SettingsManager.WriteSlots | src/settings_manager.py:208-209 | The write loop fills slot i with entry i and touches no other key. |
| Settings.SettingsManager.ClearSlots | src/settings_manager.py:212-213 | The clean-up loop removes the slots in the range and touches no other key. |
| Settings.NewRecentShape | src/settings_manager.py:195-205 | For a positive bound the new list starts with the added file and has at most `max_files` entries; for a non-positive bound it is empty. |
| Settings.NewRecentOrder | src/settings_manager.py:195-205 | If the file was listed at most once, it is now listed once, followed by the other previously listed files in their old order, cut to fit. |
| Settings.RepeatedEntrySurvives | src/settings_manager.py:198-205 | A file listed twice keeps a second copy: `["a","p","p"]` becomes `["p","a","p"]`. |
| Settings.RecentFilesReadsBack | src/settings_manager.py:184-213 | Slots holding a list of existing files, with the rest of the range empty, read back as exactly that list. |
| Settings.NewRecentListed | src/settings_manager.py:186-202 | Every entry of the new list is non-empty and exists, when the added file does. |
| Settings.AddThenGetRecent | src/settings_manager.py:184-213 | After `add_recent_file` of an existing file, `get_recent_files` with the same bound returns the new list. |
| Sorting.SortSorted | src/services/part_service.py:34 | The sort used for ORDER BY and `sorted` yields a sorted permutation. |
| Sorting.FilterKeepsSorted | src/services/part_service.py:39 | Filtering a sorted list keeps it sorted. |

## Left out

- Connections, cursors, `lastrowid`, commits and error printing are not modelled. Each table is a map or sequence. The `SimpleDatabase` tables are AUTOINCREMENT tables, so each has a fresh-id counter that starts at 1. BEGIN/COMMIT/ROLLBACK are all-or-nothing state updates.
- SimpleDb.SimpleDatabase.constructor: `CREATE TABLE IF NOT EXISTS` keeps the rows of a database file that already has the tables. The model covers a file without them, where all five tables start empty.
- The peewee tables use the implicit `AutoField`, an `INTEGER PRIMARY KEY` without AUTOINCREMENT, so a new row gets one more than the largest id (`SaleService.NextRowId`). Parts are not created in this module, so the parts table keeps the ids it is given.
- `datetime.now()` is a `now` parameter, read once per call. The per-line readings in the UPDATE loops of `create_sale` and `create_receipt` all get that one value.
- `REAL` and `Decimal` prices are exact integers (minor units). Float rounding and `Decimal` quantization are not modelled. `ProfitMargin` is stated exactly over reals.
- `SimpleDb.SimpleDatabase.SearchParts`: `%` and `_` in the query are taken literally, where LIKE would treat them as wildcards.
- `Text.PyLower` folds ASCII and the Cyrillic alphabet only. `str.lower` on other scripts is not modelled.
- `SimpleDb.SimpleDatabase.UpdatePart`: the update names the nine data columns only. An unknown column name in `kwargs` (an SQL error, so `False`) is not modelled.
- `SimpleDb.SimpleDatabase.GetAllSales` and `SimpleDb.SimpleDatabase.GetAllReceipts` promise only newest-first order and the exact rows. Ties between equal dates have no defined order in SQL. The JOIN listings of `get_sale_items` and `get_receipt_items` are given in table order.
- Foreign keys are not enforced, so a deleted part's sale and receipt items stay behind. The JOIN listings drop them, and the model does the same.
- `SaleService.CreateSale`: `SaleItem.part` is an `IntegerField` given the `Part` instance; the model stores the part's id.
- `SaleService.ValidateSaleItems`: the "malformed line" error (KeyError, TypeError, ValueError) is not modelled, because lines are typed records.
- `SaleService.CreateSale`: only `Part.DoesNotExist` is modelled among the exceptions the outer handler catches. Database errors are not.
- `PartService.create_part`, `get_part_by_id`, `get_part_by_article`, `update_part`, `delete_part` and `reduce_quantity` are not modelled. They are one-line peewee wrappers around `Part.create`, `get_by_id`, `Part.get_by_article`, `setattr` and `save`, `delete_instance`, and `Part.reduce_quantity` (which is modelled). `Part.get_by_article` itself is not modelled.
- `SaleService.get_all_sales`, `get_sales_by_date` and `get_sale_by_id` are not modelled. They are plain peewee queries.
- The window geometry and state settings are not modelled; they are opaque Qt byte arrays. `ensure_app_directories`, `reset_to_defaults`, `export_settings` and `import_settings` are not modelled either; they are filesystem work.
- QSettings persistence is a string-keyed map of values. Values keep their type here, while the INI back end can return them as strings after a reload. `settings.remove(key)` drops only the key itself, not sub-keys under it.
- `Settings.SlotPath`: a recent-file slot holding a non-string value counts as "no file". Python would pass a truthy non-string to `os.path.exists`.

## Findings

| source | as written | input that shows it | evidently intended | confidence | as-written member | corrected member |
|---|---|---|---|---|---|---|
| src/database_simple.py:145-153 | The query is lower-cased with Python's Unicode `str.lower`, but each column with SQLite's `LOWER()`, which folds ASCII only. `LIKE` is case-insensitive only for ASCII too. | A part with category "Двигатель", searched as "двигатель" or "Двигатель": the column stays "Двигатель" and the pattern is "%двигатель%", so the part is not found. The repository's own search test expects two hits for "двигатель". | A case-insensitive search in which both sides are folded the same way, as the docstring and the test say. | not executed | SimpleDb.SearchAsWrittenMissesOwnCategory | SimpleDb.SearchFindsEverySubstring |
| src/services/sale_service.py:23-35 | A short stock deletes only the sale row. The stock reductions and item rows of the earlier lines stay, and those item rows still carry the deleted id. The next `Sale.create` gets that id again, because SQLite gives one more than the largest remaining id. | Parts 1 (stock 5) and 2 (stock 1), no sales. `create_sale([{part 1, qty 1, 150}, {part 2, qty 999}])` fails; then `create_sale([{part 1, qty 1, 150}])` succeeds as sale 1 with total 150, yet `items_count` is 2 and `calculate_total` gives 300. | A failed sale leaves nothing behind, as the "roll back the transaction" comment at line 33 says. | not executed | SaleService.OrphanItemsJoinNextSale | SaleService.CreateSaleAtomic |
