# MF SIP Tracker — Dafny model of the core

This project models the logic core of a mutual-fund SIP tracker (`MF_management`):

- **Scheme-code resolution** (`NavFetcher.get_scheme_code`): a persisted name→code mapping
  consulted first, then a fuzzy match of the statement's scheme name against the AMFI catalog,
  accepted only above a score of 80, recorded and written back to the mapping file.
- **Historical NAV post-processing** (`NavFetcher.fetch_historical_nav`): the provider's
  `dd-mm-yyyy` points parsed and sorted by date, or None on any failure.
- **Statement extraction** (`DataProcessor`): label trimming, column selection, dropping rows with
  no scheme name or an unparsable date, numeric coercion with 0 as default, and the two queries
  (distinct schemes, one scheme's rows by date).
- **The page's inline computations** (`app.py` `main()`): active-SIP detection, the scheme list
  shown, the time window and the NAV points in it, per-date aggregation of transactions, purchase
  markers and the invested / current value / profit figures.

Modules: `Wrappers` (Option), `Time` (instants as integer nanoseconds, as pandas holds them),
`Seqs` (first-occurrence search, `unique`, masks, sorting, column projection, `min`), `Text` (Python's `str.strip`),
`NavFetch` (nav_fetcher.py), `DataProcessing` (data_processor.py), `Dashboard` (app.py).

Inputs that the program gets from outside become parameters: the AMFI catalog and the provider's
history reply, the fuzzy scorer (`extractOne`, an oracle returning a name and a score in
0..100), the contents of the mapping file, the statement sheet as read, the parsers that
`pd.to_datetime` / `pd.to_numeric` stand for, and "now".

Three things the program does not do, and the model therefore does not either: the cache file
named at nav_fetcher.py:13 is never read or written, the fetched NAV points are not
de-duplicated by date, and `load_data` returns an empty frame (not an error) when every row is
dropped.

## Model

| member | source | states |
|---|---|---|
| `NavFetch.NavFetcher.constructor` | nav_fetcher.py:9-15 | the catalog and its name list are fixed; the mappings are loaded from the mapping file, empty when it is absent |
| `NavFetch.NavFetcher.LoadMappings` | nav_fetcher.py:17-22 | the mappings become the file's map, or the empty map when the file does not exist |
| `NavFetch.NavFetcher.SaveMappings` | nav_fetcher.py:24-26 | the file afterwards holds exactly the in-memory mappings, so reloading yields them again |
| `NavFetch.NavFetcher.GetSchemeCode` | nav_fetcher.py:28-48 | result and new mappings are those of `Resolve`; the matcher is consulted (counter +1) only on a miss; the file is rewritten exactly when a mapping is added; mappings and file stay in agreement |
| `NavFetch.Stored` | nav_fetcher.py:17-22 | an absent mapping file reads as the empty map, a present one as its contents |
| `NavFetch.Names` | nav_fetcher.py:12 | the name list has one entry per catalog item, in catalog order |
| `NavFetch.Resolve` | nav_fetcher.py:32-48 | a call never removes or alters an existing entry, adds at most the queried name, and a returned code is the one stored for that name |
| `NavFetch.ResolveHit` | nav_fetcher.py:32-33 | a known name returns its stored code, leaves the mappings unchanged and consults no matcher |
| `NavFetch.ResolveBelowThreshold` | nav_fetcher.py:37-48 | on a miss, a score of 80 or less gives None and leaves the mappings unchanged |
| `NavFetch.ResolveAccepted` | nav_fetcher.py:39-45 | on a miss with score > 80, the code of the first catalog item (in iteration order) named like the best match is returned and recorded under the queried name |
| `NavFetch.ResolveNoCatalogEntry` | nav_fetcher.py:41-48 | score > 80 but no catalog item named like the best match gives None and no change |
| `NavFetch.ResolveIdempotent` | nav_fetcher.py:32-45 | after a call that returned code c, a second call with the same name returns c, changes nothing and consults no matcher, whatever the matcher would answer |
| `NavFetch.ResolveBoundary` | nav_fetcher.py:39 | with the best name in the catalog, score 80 is rejected and score 81 accepted |
| `NavFetch.ResolveFirstMatchExample` | nav_fetcher.py:32-45 | empty mappings, catalog {C1: "Fund X Growth"}, score 88: the code C1 is returned and recorded for "Fund X - Growth Option" |
| `NavFetch.Truthy` | nav_fetcher.py:54 | a code is falsy exactly when it is None or the empty string |
| `NavFetch.ParsePoints` | nav_fetcher.py:60-62 | all points parse or the whole parse fails; on success point i is point i's parsed date and NAV |
| `NavFetch.FetchHistoricalNav` | nav_fetcher.py:50-68 | None for a falsy code, a provider fault, a reply without `data`, an empty `data` list or an unparsable point; otherwise a non-empty series sorted ascending by date holding exactly the parsed points (same multiset) |
| `Text.Strip` | data_processor.py:24-25 | the trimmed label neither starts nor ends with whitespace (Python's `isspace` set) |
| `Text.StripRemovesOnlySpace` | data_processor.py:24-25 | trimming removes only a whitespace prefix and suffix: the result is an infix of the label |
| `Text.StripIdempotent` | data_processor.py:24-25 | trimming an already trimmed label changes nothing |
| `DataProcessing.Trimmed` | data_processor.py:24-25 | every column label is replaced by its trimmed form, position by position |
| `DataProcessing.Available` | data_processor.py:22-29 | the kept columns are exactly the required ones present after trimming, each once, in the required list's order |
| `DataProcessing.ColumnIndex` | data_processor.py:24-29 | a column is found exactly when some label trims to its name, and it is the first such label |
| `DataProcessing.ColumnPresent` | data_processor.py:28 | a required column is located exactly when its name is among the trimmed labels |
| `DataProcessing.LayoutOf` | data_processor.py:28-36 | a layout exists exactly when both Scheme Name and Date columns are present (otherwise the source raises KeyError); each of its fields is the position of the column whose trimmed label is that required name |
| `DataProcessing.DateOf` | data_processor.py:35 | a blank date cell is NaT; a non-blank one is whatever the date parser makes of its text |
| `DataProcessing.NumericColumn` | data_processor.py:39-41 | a numeric field exists exactly when its column does, and then holds the coerced cell |
| `DataProcessing.NumberOrZero` | data_processor.py:39-41 | a blank or unparsable numeric cell becomes 0, a parsable one its value |
| `DataProcessing.ConvertRow` | data_processor.py:31-41 | a row is kept exactly when its scheme cell is non-blank and its date parses; a kept row carries that name and date, and a NAV/Units/Amount/description field exactly when that column exists, holding the cell's number (0 when blank or unparsable) or the description cell |
| `DataProcessing.ExtractRows` | data_processor.py:31-41 | never more rows out than in; every output row is the conversion of some input row |
| `DataProcessing.ExtractRowsConcat` | data_processor.py:31-36 | extraction distributes over concatenation: rows are only filtered, never reordered or duplicated |
| `DataProcessing.ExtractRowsStep` | data_processor.py:31-41 | one more input row adds its conversion, or nothing |
| `DataProcessing.ExtractRowsSound` | data_processor.py:32-36 | every output row has a non-blank scheme name and a successfully parsed date taken from one input row |
| `DataProcessing.Extract` | data_processor.py:17-51 | None exactly when the sheet is missing or lacks Scheme Name or Date; otherwise the available columns, and as rows the in-order filter-and-convert of the sheet's rows under the sheet's layout (never more rows than the sheet) |
| `DataProcessing.ExtractColumnsMatchFields` | data_processor.py:28-41 | each extracted row has NAV, Units and Amount values exactly when the frame kept those columns |
| `DataProcessing.DataProcessor.constructor` | data_processor.py:8-10 | no transactions before a load |
| `DataProcessing.DataProcessor.LoadData` | data_processor.py:12-51 | returns `Extract` of the sheet; on success it becomes the stored frame, on failure the stored frame is unchanged |
| `DataProcessing.SchemeNames` | data_processor.py:56 | the Scheme Name column of the frame, row by row |
| `DataProcessing.DataProcessor.Schemes` | data_processor.py:53-57 | empty before a load; afterwards distinct names, exactly those occurring in the frame, in order of first appearance |
| `DataProcessing.OfScheme` | data_processor.py:62 | exactly the rows of the given scheme, each with its multiplicity |
| `DataProcessing.DataProcessor.TransactionsFor` | data_processor.py:59-63 | empty before a load; afterwards a permutation of exactly that scheme's rows, sorted non-decreasing by date |
| `Seqs.IndexOf` | nav_fetcher.py:41-42 | the first position holding the value, or None exactly when it is absent |
| `Seqs.Unique` | data_processor.py:56 | distinct values, the same set as the input, in order of first appearance |
| `Seqs.Filter` | app.py:127-128 | a mask keeps exactly the elements satisfying it, each with its multiplicity |
| `Seqs.FilterConcat` | app.py:127-128 | a mask distributes over concatenation: order is kept |
| `Seqs.FilterSorted` | app.py:127-128 | masking a sorted series leaves it sorted |
| `Seqs.FilterStrictlySorted` | app.py:152 | masking a series in strictly increasing order leaves it in strictly increasing order |
| `Seqs.FilterKeepsOrder` | data_processor.py:28 | selecting from a list without repeats gives a list without repeats, in the original list's order |
| `Seqs.KeysOf` | app.py:119-121 | the projection of a frame column (the NAV or transaction dates): one entry per row, that row's key, in row order |
| `Seqs.SortBy` | nav_fetcher.py:63 | `sort_values`: the result is sorted by the key and is a permutation of the input |
| `Seqs.InsertBy` | data_processor.py:62 | insertion into a sorted sequence keeps it sorted and adds exactly the one element |
| `Seqs.DedupSorted` | app.py:145 | the group keys of a sorted column: strictly increasing, same values |
| `Seqs.Min` | app.py:119-121 | the minimum belongs to the series and is at most every element |
| `Dashboard.Cutoff` | app.py:62 | the cutoff lies exactly 45 days before now |
| `Dashboard.IsRecentPurchase` | app.py:67 | a transaction is a recent purchase exactly when it is at most 45 days old (the cutoff instant now - 45 days included) and has an Amount greater than 0 |
| `Dashboard.ActiveAmong` | app.py:61-69 | the in-order selection of active schemes that the loop builds; never longer than the scheme list |
| `Dashboard.RecentPurchases` | app.py:66-68 | the mask is non-empty exactly when some transaction is a purchase (Amount > 0) dated on or after now - 45 days |
| `Dashboard.ActiveAmongMembers` | app.py:61-69 | a scheme is active exactly when it is one of the schemes and has such a recent purchase |
| `Dashboard.ActiveAmongStep` | app.py:64-69 | each loop step appends the scheme exactly when it is active |
| `Dashboard.ActiveSchemes` | app.py:61-69 | the loop yields the active schemes in the order of the scheme list |
| `Dashboard.DisplaySchemes` | app.py:73-76 | the active list is shown only when the checkbox is set and the list is non-empty; otherwise all schemes |
| `Dashboard.DisplayWithinSchemes` | app.py:73-78 | the selector offers only schemes of the statement, and offers some exactly when the statement has some |
| `Dashboard.RangeDays` | app.py:103-109 | 6 Months is 180 days, 1 Year 365, 2 Years 730, 3 Years 1095; "All Time" has no length |
| `Dashboard.WindowStart` | app.py:113-121 | a finite range starts that many days before the end; "All Time" starts at the earliest NAV or transaction date, which is one of them |
| `Dashboard.FilterNav` | app.py:127-128 | exactly the points with start <= date <= end, both ends inclusive |
| `Dashboard.FilteredNavLatest` | app.py:127-128 | on an ascending series the window stays ascending, so its last point is the latest one |
| `Dashboard.Total` | app.py:146-147 | the column sum: a single row sums to its own value, and non-negative values give a non-negative sum |
| `Dashboard.OnDate` | app.py:145 | exactly the transactions of one date, each with its multiplicity |
| `Dashboard.GroupDates` | app.py:145 | group keys strictly increasing, exactly the transaction dates |
| `Dashboard.GroupDatesCover` | app.py:145 | every transaction date is a key, and every key is some transaction's date |
| `Dashboard.Aggregate` | app.py:145-149 | one row per key, carrying Amount and Units summed over that key's transactions |
| `Dashboard.GroupByDate` | app.py:145-149 | one row per distinct date in ascending order, Amount and Units summed over that date |
| `Dashboard.AggregateSum` | app.py:145-149 | the aggregated rows add up to the per-date totals |
| `Dashboard.PerDaySumSnoc` | app.py:145-149 | one more transaction adds its value to exactly the one date it falls on |
| `Dashboard.PerDaySumCovers` | app.py:145-149 | per-date totals over distinct dates covering every transaction add up to the overall total |
| `Dashboard.GroupByDateTotals` | app.py:145-149 | aggregation loses nothing: total Amount and Units over the aggregate equal the totals over the transactions |
| `Dashboard.Purchases` | app.py:152 | exactly the aggregated rows with Amount > 0, each with its multiplicity; a strictly date-ordered aggregate gives strictly date-ordered purchases |
| `Dashboard.PurchasesAscending` | app.py:145-152 | the purchase markers taken from the per-date aggregate are in strictly increasing date order |
| `Dashboard.Summarize` | app.py:206-210 | invested = sum of all Amounts (redemptions included), current value = sum of Units times the NAV of the window's last point, profit + invested = current value |
| `Dashboard.SummaryMatchesAggregate` | app.py:145-149 | the summary's invested amount and units equal the sums over the per-date aggregate |

## Left out

- The Streamlit page, file upload, "Set as Default" file write, dev-path fallback, plotly figure, hover text and the sequence of early returns in `main()` (app.py:8-58, 78-100, 131-203, 212-218): user interface and I/O.
- Marker-size scaling (app.py:157-167) and the NAV mean in the aggregation (app.py:148): cosmetic floating-point arithmetic; the unused `redemptions` variable (app.py:185).
- Floating point: money, units and NAV are reals; no rounding, NaN or infinity.
- `print` warnings (nav_fetcher.py:47, 66; data_processor.py:50): output only.
- mftool network calls: the catalog and the history reply are inputs; the unused cache file at nav_fetcher.py:13.
- The fuzzy scorer and its tie-breaking: an oracle. `extractOne` on an empty catalog returns None and the tuple unpacking then raises; the oracle here always answers. With the real scorer the best name is always a catalog name, so the case of `ResolveNoCatalogEntry` does not arise in practice.
- JSON file I/O: the mapping file is a field holding a map; an unreadable or malformed file (an exception in `json.load`) and writers in other processes are not modelled.
- `pd.read_excel` with `header=8`: the sheet is given as labels and rows; `LoadData` receives it instead of a path. Non-string column labels (for which `c.strip()` raises) are not modelled: labels are strings.
- `pd.to_datetime` and `pd.to_numeric`: abstract per-value partial functions; pandas' column-wide format inference, which can make one cell's parse depend on the others, is not modelled.
- Duplicate labels after trimming (for example "Amount" and "Amount "): in the program `df[col]` then yields two columns, so `pd.to_numeric` (data_processor.py:41) or `pd.to_datetime` (line 35) raises and `load_data` returns None, and a doubled Scheme Name makes `get_schemes` raise (line 56); the model instead reads the first such column and succeeds.
- `Seqs.SortBy`: pandas' default quicksort is not stable; the model's contract is sorted plus permutation, and the order it picks among equal dates is one of those pandas may produce.
- `NavFetch.ParsePoints`: a history point lacking a `date` or `nav` key (read as NaN/NaT) is not modelled; every point carries both texts.
- `datetime.now()`: a parameter; the two calls in `main()` are separate parameters of `ActiveSchemes` and `WindowStart`.
- `Dashboard.Summarize`: requires a non-empty window; the page raises IndexError at app.py:208 otherwise. It and `Dashboard.GroupByDate` require the Amount and Units columns, and `Dashboard.ActiveSchemes` the Amount column, whose absence makes the page raise KeyError.
- `Dashboard.GroupByDate`: succeeds on a statement without a NAV column, whereas the page's `groupby('Date').agg` also takes the NAV mean (app.py:148) and raises KeyError there; a consequence of leaving the NAV mean out.
