# BTC-USD order-book dashboard — Dafny model

The dashboard polls an exchange's order-book endpoint once a second and shows
four widgets: a bid/ask table, a spread chart, an imbalance gauge and a
cumulative depth chart. Each widget keeps its own module-level cache
(`Map<product, { data, timestamp }>`), reuses an entry while strictly less than
its expiry has elapsed, and otherwise fetches, derives its numbers and replaces
the entry.

This project models, as pure functions over immutable values:

- the shared snapshot and sequence helpers (`BookData`): `slice(0, n)`,
  `slice(-n)`, the `size` column and its left-to-right sum;
- the expiring cache (`ExpiringCache`): the hit test and the whole-entry write,
  over `map<string, Entry<T>>` with the clock reading `now` as an input;
- each widget's derivation and its one-tick state transition: `DepthChart`
  (running totals over 50 levels, 5000 ms cache, writes only while mounted),
  `OrderBookTable` (first ten pairs reshaped to rows, 5000 ms cache),
  `Imbalance` (`(B - A) / (B + A)` over the top ten sizes, raw response cached
  for 5000 ms) and `SpreadIndicator` (best ask minus best bid, 60-sample
  rolling window, raw response cached for 2000 ms).

A widget's `Tick` is one call of its fetch function. It takes the widget state,
the product id, the clock reading for the freshness test, and the outcome of the
fetch, `Fetched(book, at) | NotABook(at) | Failed`, where `at` is the clock
reading used for the cache write. `NotABook` is a JSON body without `bids` or
`asks`, such as an exchange error message: `fetch` does not reject on an HTTP
error status, so such a body reaches the widget. `Failed` is a network error or
a body that is not JSON. The fetch outcome is consulted only on a cache miss, and the result
reports whether a fetch was made.

Prices and sizes are already-parsed `real` values. The model follows the code
as written: four independent caches with fixed expiries, a mounted guard only
in the depth chart, and caches that hold different things (depth series,
truncated rows, or the raw response body). The depth chart and the table read
`bids`/`asks` before writing the cache, so a body that is not a book is dropped
like a failed fetch; the imbalance gauge and the spread chart write the body
first, so such a body is cached and keeps serving cache hits, which change
nothing, until it expires.

## Model

| member | source | states |
|---|---|---|
| BookData.Take | src/components/OrderBook.tsx:38-39 | `slice(0, n)` returns a prefix of the input of length `min(|s|, n)` |
| BookData.TakeIdempotent | src/components/OrderBook.tsx:38-39 | truncating an already truncated sequence returns it unchanged |
| BookData.TakeLast | src/components/SpreadIndicator.tsx:41 | `slice(-n)` has length `min(|s|, n)` and element `i` is the input's element at `|s| - |r| + i`, i.e. a suffix |
| BookData.Sum | src/components/OrderbookImbalance.tsx:43-44 | a sum of non-negative sizes is non-negative |
| BookData.Sizes | src/components/OrderbookImbalance.tsx:43 | the `[, size]` projection keeps one entry per level, in order, and entry `i` is the size of level `i` |
| BookData.ReduceIsSum | src/components/OrderbookImbalance.tsx:43-44 | `Reduce`, the left-to-right `reduce((sum, x) => sum + x, acc)`, equals `acc` plus `Sum` for every input, so the two totals agree |
| BookData.SumAppend | src/components/MarketDepthChart.tsx:37-41 | the total of a concatenation is the sum of the totals, which the running-total lemmas rely on |
| ExpiringCache.Lookup | src/components/MarketDepthChart.tsx:24-30 | an entry is reused exactly when the key is present and `now < timestamp + expiry`, and then its stored data is returned |
| ExpiringCache.Store | src/components/OrderBook.tsx:44 | the key's entry is replaced by the new data and timestamp; every other key keeps its entry and no key is removed |
| ExpiringCache.StoreThenLookup | src/components/OrderBook.tsx:25-31 | a stored value is served back while less than `expiry` has elapsed since its timestamp, and not afterwards |
| ExpiringCache.StoreKeepsOtherKeys | src/components/OrderBook.tsx:44 | writing one product never changes what another product looks up to |
| ExpiringCache.StaleAtExpiry | src/components/OrderBook.tsx:28 | the freshness test is strict: at exactly `expiry` ms the entry is stale, one ms earlier it is fresh |
| DepthChart.Running | src/components/MarketDepthChart.tsx:37-41 | the `cumulative +=` accumulation yields one value per input and value `i` is the start value plus the sum of inputs `0..i` |
| DepthChart.Depth | src/components/MarketDepthChart.tsx:36-42 | one side's depth has length `min(|orders|, 50)` and entry `i` is the total size of levels `0..i` |
| DepthChart.DepthOf | src/components/MarketDepthChart.tsx:44-47 | the bid series is determined by the bids alone and the ask series by the asks alone, each as prefix sums over at most 50 levels |
| DepthChart.DepthMonotone | src/components/MarketDepthChart.tsx:37-41 | with non-negative sizes the depth series is non-decreasing |
| DepthChart.DepthSteps | src/components/MarketDepthChart.tsx:39-40 | the first depth value is the first size and each later one adds exactly the next level's size |
| DepthChart.DepthIgnoresPrices | src/components/MarketDepthChart.tsx:38 | replacing the price of any level leaves the depth series unchanged |
| DepthChart.DepthIgnoresDeepLevels | src/components/MarketDepthChart.tsx:38 | levels after the fiftieth do not affect the depth series |
| DepthChart.Tick | src/components/MarketDepthChart.tsx:22-57 | a fetch is made exactly on a cache miss; other products' entries are untouched; after unmount neither the shown data nor the cache changes |
| DepthChart.FreshHitSkipsFetch | src/components/MarketDepthChart.tsx:24-30 | on a fresh entry no fetch is made, the fetch outcome is irrelevant, the cache is not written, and a mounted chart shows the cached series |
| DepthChart.RefetchAtExpiry | src/components/MarketDepthChart.tsx:27 | an entry exactly 5000 ms old causes a fetch |
| DepthChart.FailedFetchChangesNothing | src/components/MarketDepthChart.tsx:54-56 | a failed fetch leaves the cache unchanged, and on a miss the whole widget |
| DepthChart.SuccessfulFetchStores | src/components/MarketDepthChart.tsx:50-53 | a successful fetch while mounted shows the new depth and caches it with the fetch's timestamp |
| DepthChart.NonBookBodyChangesNothing | src/components/MarketDepthChart.tsx:44-56 | a body without `bids`/`asks` throws in `processOrders` before the cache write, so on a miss the widget is unchanged |
| OrderBookTable.Rows | src/components/OrderBook.tsx:38-39 | a displayed side has `min(|side|, 10)` rows and row `i` carries the price and size of input pair `i` |
| OrderBookTable.RowsAreTopLevels | src/components/OrderBook.tsx:38-39 | reading the rows back as pairs gives exactly the input's first ten pairs in order, with no re-sorting |
| OrderBookTable.RowsIdempotent | src/components/OrderBook.tsx:38-39 | building the table from an already displayed side returns the same rows |
| OrderBookTable.TableOf | src/components/OrderBook.tsx:37-40 | each side of the table is the top ten pairs of the matching side of the response |
| OrderBookTable.Tick | src/components/OrderBook.tsx:23-48 | a fetch is made exactly on a cache miss, and other products' entries are untouched |
| OrderBookTable.FreshHitSkipsFetch | src/components/OrderBook.tsx:25-31 | on a fresh entry the cached table is shown and nothing is fetched or written |
| OrderBookTable.RefetchAtExpiry | src/components/OrderBook.tsx:28 | an entry exactly 5000 ms old causes a fetch |
| OrderBookTable.SuccessfulFetchReplacesEntry | src/components/OrderBook.tsx:43-44 | a successful fetch shows the new table and replaces only this product's entry, with the fetch's timestamp |
| OrderBookTable.FailedFetchChangesNothing | src/components/OrderBook.tsx:45-47 | a failed fetch leaves the cache unchanged, and on a miss the whole widget |
| OrderBookTable.NonBookBodyChangesNothing | src/components/OrderBook.tsx:37-47 | a body without `bids`/`asks` throws while building the rows, before the cache write, so on a miss the widget is unchanged |
| Imbalance.TopSize | src/components/OrderbookImbalance.tsx:40-44 | the `reduce` over the first ten sizes equals `Sum` of those sizes, and is non-negative when the sizes are |
| Imbalance.Ratio | src/components/OrderbookImbalance.tsx:43-46 | there is no ratio exactly when `B + A = 0`; otherwise the ratio times `B + A` is `B - A` |
| Imbalance.TopSizeIgnoresDeepLevels | src/components/OrderbookImbalance.tsx:40-44 | two sides whose first ten sizes agree have the same total, whatever their prices and deeper levels |
| Imbalance.RatioDependsOnTopSizesOnly | src/components/OrderbookImbalance.tsx:40-46 | books whose top-ten sizes agree on both sides have the same ratio |
| Imbalance.RatioBounded | src/components/OrderbookImbalance.tsx:46 | with non-negative sizes the ratio lies in [-1, 1] |
| Imbalance.RatioSign | src/components/OrderbookImbalance.tsx:63 | with non-negative sizes the ratio is non-negative, which selects the bid colour, exactly when `B >= A` |
| Imbalance.RatioSwapNegates | src/components/OrderbookImbalance.tsx:46 | exchanging bids and asks negates the ratio and keeps it defined or undefined |
| Imbalance.WorkedExample | src/components/OrderbookImbalance.tsx:43-46 | bid sizes 1, 2 against ask sizes 1, 3 give -1/7 |
| Imbalance.Process | src/components/OrderbookImbalance.tsx:39-48 | a body that is not a book leaves the gauge value as it was; a book sets it to its ratio |
| Imbalance.Tick | src/components/OrderbookImbalance.tsx:17-37 | a fetch is made exactly on a cache miss; other products are untouched; a changed gauge value is the ratio of the book now cached for the product |
| Imbalance.CacheKeepsRawResponse | src/components/OrderbookImbalance.tsx:22-33 | the cache holds the whole response, deeper levels included, and a later fresh tick recomputes the ratio from it without fetching |
| Imbalance.SuccessfulFetchSetsRatio | src/components/OrderbookImbalance.tsx:27-33 | a successful fetch on a miss caches the raw book with the response timestamp, replacing only this product's entry, and sets the gauge to its ratio |
| Imbalance.NonBookBodyBlocksFetches | src/components/OrderbookImbalance.tsx:19-36 | a body without `bids`/`asks` is cached before processing throws; until it expires every tick is a hit that neither fetches nor changes the gauge |
| Imbalance.FreshHitSkipsFetch | src/components/OrderbookImbalance.tsx:19-25 | on a fresh entry the cached body is processed again, with no fetch and no cache write |
| Imbalance.FailedFetchChangesNothing | src/components/OrderbookImbalance.tsx:34-36 | a network or non-JSON failure leaves the cache unchanged, and on a miss the whole widget |
| SpreadIndicator.SpreadOf | src/components/SpreadIndicator.tsx:40 | a spread exists exactly when both sides are non-empty, and best bid price plus spread is the best ask price |
| SpreadIndicator.Push | src/components/SpreadIndicator.tsx:41 | the new window has length `min(|prev| + 1, 60)`, ends with the new sample, and before it holds the last `min(|prev|, 59)` samples of `prev` in order |
| SpreadIndicator.PushKeepsLatest | src/components/SpreadIndicator.tsx:41 | one append yields the last 60 samples of the old window followed by the new one |
| SpreadIndicator.PushAllKeepsLatest | src/components/SpreadIndicator.tsx:41 | from a window of at most 60, appending any samples one by one leaves the last 60 of old window plus samples |
| SpreadIndicator.WindowHoldsLatestSixty | src/components/SpreadIndicator.tsx:41 | from an empty window, after k >= 60 samples the window is exactly the latest 60 |
| SpreadIndicator.SixtyOneSamples | src/components/SpreadIndicator.tsx:41 | after 61 samples the first one has dropped out and the other 60 remain in order |
| SpreadIndicator.WorkedExample | src/components/SpreadIndicator.tsx:40 | bid 100.00 and ask 100.50 give a spread of 0.50 |
| SpreadIndicator.Sample | src/components/SpreadIndicator.tsx:39-42 | a body that is not a book, or a one-sided book, leaves the window as it was; otherwise the window is `prev.slice(-59)` followed by the spread, with length at most 60 |
| SpreadIndicator.Tick | src/components/SpreadIndicator.tsx:17-37 | a fetch is made exactly on a cache miss; other products are untouched; a window of at most 60 stays at most 60 |
| SpreadIndicator.FreshHitReprocessesCachedBody | src/components/SpreadIndicator.tsx:19-25 | on a fresh entry nothing is fetched or written and the window becomes the cached body's sample, which leaves it unchanged when the body has no spread |
| SpreadIndicator.FreshHitOnOneSidedBookChangesNothing | src/components/SpreadIndicator.tsx:22-24 | a fresh cached book with an empty side throws in `processSpread`, so the tick fetches nothing and changes nothing |
| SpreadIndicator.FreshHitAppendsCachedSpread | src/components/SpreadIndicator.tsx:19-25 | a fresh entry is not refetched or rewritten, yet its spread is appended to the window again |
| SpreadIndicator.RefetchAtExpiry | src/components/SpreadIndicator.tsx:22 | an entry exactly 2000 ms old causes a fetch |
| SpreadIndicator.FailedFetchChangesNothing | src/components/SpreadIndicator.tsx:34-36 | a network or non-JSON failure leaves the cache unchanged, and on a miss the whole widget |
| SpreadIndicator.NonBookBodyBlocksFetches | src/components/SpreadIndicator.tsx:19-36 | a body without `bids`/`asks` is cached before `processSpread` throws; until it expires every tick is a hit that neither fetches nor adds a sample |
| SpreadIndicator.SuccessfulFetchSamples | src/components/SpreadIndicator.tsx:31-33 | a successful fetch caches the raw response with the fetch's timestamp and appends its spread |
| SpreadIndicator.OneSidedResponseStillCached | src/components/SpreadIndicator.tsx:31-35 | a response with an empty side is cached, because the write precedes the spread, but adds no sample |

## Left out

- Network I/O (`fetch`, `response.json()`, the `level=1`/`level=2` endpoints): the fetch is an input. A network error or a body that is not JSON is `Failed`. A JSON body without `bids` or `asks` is `NotABook`. Bodies whose `bids`/`asks` hold entries of the wrong shape are not modelled.
- Clocks: both `Date.now()` readings are inputs (`now` for the freshness test, `at` for the cache write).
- Scheduling: the one-second `setInterval`, its cleanup, and React's `useEffect`/`useState`/`useMemo`. A `Tick` is one call of a fetch function, applied atomically. Overlapping calls whose fetches are in flight at the same time are not modelled.
- Multiple instances of one widget sharing its module-level `Map`: the model pairs one displayed state with one cache.
- Number parsing and formatting (`parseFloat`, `toFixed`) and floating-point rounding: values are exact `real`s, so sums do not round.
- DepthChart.Tick: `isMounted` is one input read when the result is delivered, although the code reads it on both the cache-hit path and after the fetch returns.
- Imbalance.Ratio: JavaScript yields NaN (or an infinity with negative sizes) when `B + A = 0`; the model returns `None` instead of a float value.
- SpreadIndicator.SpreadOf: reading `[0]` of an empty side throws in the code; the model returns `None`, and the caller leaves the window unchanged. On a cache hit the throw happens outside the `try`, as an unhandled rejection; the model only records that no sample is added.
- Imbalance.Process: a cached body that is not a book throws outside the `try` on every cache hit, as an unhandled rejection; the model records only that the gauge does not change. SpreadIndicator.Sample treats it the same way for the window.
- State updates after unmount in the table, imbalance and spread widgets, which have no mounted guard: the model applies them like any other update.
- Chart.js registration, datasets and options (apart from the bar-colour test), JSX tables, SCSS, and the page layout in `src/app/page.tsx`: presentation only.
