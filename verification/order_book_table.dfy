/** The bid/ask table: the first ten `[price, size]` pairs of each side,
    reshaped into `{ price, size }` rows, cached per product for 5 seconds. */
module OrderBookTable {
  import opened Wrappers
  import opened BookData
  import opened ExpiringCache

  const TableLevels: nat := 10
  const CacheExpiry: nat := 5000

  /** One displayed row. */
  datatype Row = Row(price: real, size: real)

  datatype Table = Table(bids: seq<Row>, asks: seq<Row>)

  /** `side.slice(0, 10).map(([price, size]) => ({ price, size }))`. */
  function Rows(side: seq<Level>): (r: seq<Row>)
    ensures |r| == Min(|side|, TableLevels)
    ensures forall i :: 0 <= i < |r| ==> r[i].price == side[i].price && r[i].size == side[i].size
  {
    var top := Take(side, TableLevels);
    seq(|top|, i requires 0 <= i < |top| => Row(top[i].price, top[i].size))
  }

  /** The reverse reshaping, from rows back to `[price, size]` pairs. */
  function Levels(rows: seq<Row>): (r: seq<Level>)
    ensures |r| == |rows|
  {
    seq(|rows|, i requires 0 <= i < |rows| => Level(rows[i].price, rows[i].size))
  }

  /** The table holds exactly the input's top ten levels, in the input's order. */
  lemma RowsAreTopLevels(side: seq<Level>)
    ensures Levels(Rows(side)) == Take(side, TableLevels)
  {
  }

  /** Truncating an already truncated side changes nothing. */
  lemma RowsIdempotent(side: seq<Level>)
    ensures Rows(Levels(Rows(side))) == Rows(side)
  {
    RowsAreTopLevels(side);
    TakeIdempotent(side, TableLevels);
  }

  function TableOf(book: Book): (r: Table)
    ensures Levels(r.bids) == Take(book.bids, TableLevels)
    ensures Levels(r.asks) == Take(book.asks, TableLevels)
  {
    RowsAreTopLevels(book.bids);
    RowsAreTopLevels(book.asks);
    Table(Rows(book.bids), Rows(book.asks))
  }

  /** The component: the table on screen and the module-level cache. */
  datatype Widget = Widget(shown: Table, cache: Cache<Table>)

  /** One call of `fetchOrderBook`; `fetch` is only consulted on a cache miss. */
  function Tick(w: Widget, product: string, now: nat, fetch: Fetch): (r: TickResult<Widget>)
    ensures r.fetched <==> Lookup(w.cache, product, now, CacheExpiry).None?
    ensures r.state.cache.Keys <= w.cache.Keys + {product}
    ensures forall k :: k in w.cache && k != product ==> k in r.state.cache && r.state.cache[k] == w.cache[k]
  {
    match Lookup(w.cache, product, now, CacheExpiry)
    case Some(cached) => TickResult(w.(shown := cached), false)
    case None =>
      match fetch
      case Failed => TickResult(w, true)
      case NotABook(_) => TickResult(w, true)
      case Fetched(book, at) =>
        var table := TableOf(book);
        TickResult(Widget(table, Store(w.cache, product, table, at)), true)
  }

  /** A fresh entry is shown as is, without a fetch or a cache write. */
  lemma FreshHitSkipsFetch(w: Widget, product: string, now: nat, fetch: Fetch)
    requires product in w.cache && now - w.cache[product].timestamp < CacheExpiry
    ensures Tick(w, product, now, fetch) == TickResult(w.(shown := w.cache[product].data), false)
  {
  }

  /** At exactly 5000 ms of age the entry is stale and a fetch is made. */
  lemma RefetchAtExpiry(w: Widget, product: string, fetch: Fetch)
    requires product in w.cache
    ensures Tick(w, product, w.cache[product].timestamp + CacheExpiry, fetch).fetched
  {
  }

  /** A successful fetch replaces the product's entry with the new table and timestamp. */
  lemma SuccessfulFetchReplacesEntry(w: Widget, product: string, now: nat, book: Book, at: nat)
    requires Lookup(w.cache, product, now, CacheExpiry).None?
    ensures Tick(w, product, now, Fetched(book, at)).state.cache == w.cache[product := Entry(TableOf(book), at)]
    ensures Tick(w, product, now, Fetched(book, at)).state.shown == TableOf(book)
  {
  }

  /** A failed fetch leaves the cache untouched, and on a miss the whole widget too. */
  lemma FailedFetchChangesNothing(w: Widget, product: string, now: nat)
    ensures Tick(w, product, now, Failed).state.cache == w.cache
    ensures Lookup(w.cache, product, now, CacheExpiry).None? ==> Tick(w, product, now, Failed).state == w
  {
  }

  /** A body without `bids`/`asks` throws in `data.bids.slice(0, 10)`, before the cache
      write, so like a failed fetch it leaves the widget as it was. */
  lemma NonBookBodyChangesNothing(w: Widget, product: string, now: nat, at: nat)
    requires Lookup(w.cache, product, now, CacheExpiry).None?
    ensures Tick(w, product, now, NotABook(at)).state == w
  {
  }
}
