/** The market-depth chart: running totals of size over the top 50 levels of
    each side, cached per product for 5 seconds, written only while mounted. */
module DepthChart {
  import opened Wrappers
  import opened BookData
  import opened ExpiringCache

  const DepthLevels: nat := 50
  const CacheExpiry: nat := 5000

  /** What the chart plots: one cumulative-size series per side. */
  datatype DepthData = DepthData(bids: seq<real>, asks: seq<real>)

  /** The `cumulative += size` accumulation over `xs`, starting from `acc`. */
  function Running(xs: seq<real>, acc: real): (r: seq<real>)
    ensures |r| == |xs|
    ensures forall i :: 0 <= i < |r| ==> r[i] == acc + Sum(xs[..i + 1])
  {
    if |xs| == 0 then []
    else
      var rest := Running(xs[1..], acc + xs[0]);
      assert forall i :: 0 < i <= |rest| ==> xs[..i + 1][1..] == xs[1..][..i];
      [acc + xs[0]] + rest
  }

  /** `processOrders`: entry `i` is the total size of levels `0..i`, over at most 50 levels. */
  function Depth(orders: seq<Level>): (r: seq<real>)
    ensures |r| == Min(|orders|, DepthLevels)
    ensures forall i :: 0 <= i < |r| ==> r[i] == Sum(Sizes(orders[..i + 1]))
  {
    var top := Take(orders, DepthLevels);
    var r := Running(Sizes(top), 0.0);
    forall i | 0 <= i < |r|
      ensures r[i] == Sum(Sizes(orders[..i + 1]))
    {
      assert Sizes(top)[..i + 1] == Sizes(orders[..i + 1]);
    }
    r
  }

  /** Both series of the chart; each side is computed from that side alone. */
  function DepthOf(book: Book): (r: DepthData)
    ensures |r.bids| == Min(|book.bids|, DepthLevels) && |r.asks| == Min(|book.asks|, DepthLevels)
    ensures forall i :: 0 <= i < |r.bids| ==> r.bids[i] == Sum(Sizes(book.bids[..i + 1]))
    ensures forall i :: 0 <= i < |r.asks| ==> r.asks[i] == Sum(Sizes(book.asks[..i + 1]))
  {
    DepthData(Depth(book.bids), Depth(book.asks))
  }

  /** With non-negative sizes the depth curve never goes down. */
  lemma DepthMonotone(orders: seq<Level>)
    requires NonNegative(Sizes(orders))
    ensures forall i, j :: 0 <= i <= j < |Depth(orders)| ==> Depth(orders)[i] <= Depth(orders)[j]
  {
    var d := Depth(orders);
    forall i, j | 0 <= i <= j < |d|
      ensures d[i] <= d[j]
    {
      var s := Sizes(orders[..j + 1]);
      assert s == Sizes(orders[..i + 1]) + s[i + 1..];
      SumAppend(Sizes(orders[..i + 1]), s[i + 1..]);
      assert NonNegative(s[i + 1..]);
    }
  }

  /** Each step of the curve adds exactly the size of the next level. */
  lemma DepthSteps(orders: seq<Level>)
    ensures |orders| > 0 ==> Depth(orders)[0] == orders[0].size
    ensures forall i :: 0 < i < |Depth(orders)| ==> Depth(orders)[i] == Depth(orders)[i - 1] + orders[i].size
  {
    var d := Depth(orders);
    if |orders| > 0 {
      assert Sizes(orders[..1]) == [orders[0].size];
    }
    forall i | 0 < i < |d|
      ensures d[i] == d[i - 1] + orders[i].size
    {
      assert Sizes(orders[..i + 1]) == Sizes(orders[..i]) + [orders[i].size];
      SumAppend(Sizes(orders[..i]), [orders[i].size]);
      assert Sum([orders[i].size]) == orders[i].size;
    }
  }

  /** Prices play no part: rewriting the price of any level leaves the depth unchanged. */
  lemma DepthIgnoresPrices(orders: seq<Level>, k: nat, price: real)
    requires k < |orders|
    ensures Depth(orders[k := Level(price, orders[k].size)]) == Depth(orders)
  {
    var other := orders[k := Level(price, orders[k].size)];
    forall i | 0 <= i < |Depth(orders)|
      ensures Depth(other)[i] == Depth(orders)[i]
    {
      assert Sizes(other[..i + 1]) == Sizes(orders[..i + 1]);
    }
  }

  /** Levels past the fiftieth do not reach the chart. */
  lemma DepthIgnoresDeepLevels(orders: seq<Level>, deeper: seq<Level>)
    requires |orders| >= DepthLevels
    ensures Depth(orders + deeper) == Depth(orders)
  {
    forall i | 0 <= i < DepthLevels
      ensures Depth(orders + deeper)[i] == Depth(orders)[i]
    {
      assert (orders + deeper)[..i + 1] == orders[..i + 1];
    }
  }

  /** The component: the series on screen and the module-level cache. */
  datatype Widget = Widget(shown: DepthData, cache: Cache<DepthData>)

  /** One call of `fetchOrderBook`. `mounted` is the `isMounted` flag as read when
      the result is delivered; `fetch` is only consulted on a cache miss. */
  function Tick(w: Widget, product: string, now: nat, mounted: bool, fetch: Fetch): (r: TickResult<Widget>)
    ensures r.fetched <==> Lookup(w.cache, product, now, CacheExpiry).None?
    ensures r.state.cache.Keys <= w.cache.Keys + {product}
    ensures forall k :: k in w.cache && k != product ==> k in r.state.cache && r.state.cache[k] == w.cache[k]
    ensures !mounted ==> r.state == w
  {
    match Lookup(w.cache, product, now, CacheExpiry)
    case Some(cached) =>
      TickResult(if mounted then w.(shown := cached) else w, false)
    case None =>
      match fetch
      case Failed => TickResult(w, true)
      case NotABook(_) => TickResult(w, true)
      case Fetched(book, at) =>
        var depth := DepthOf(book);
        if mounted then TickResult(Widget(depth, Store(w.cache, product, depth, at)), true)
        else TickResult(w, true)
  }

  /** A fresh entry is shown as is; the network is not touched and the cache is not written. */
  lemma FreshHitSkipsFetch(w: Widget, product: string, now: nat, mounted: bool, fetch: Fetch)
    requires product in w.cache && now - w.cache[product].timestamp < CacheExpiry
    ensures !Tick(w, product, now, mounted, fetch).fetched
    ensures Tick(w, product, now, mounted, fetch).state.cache == w.cache
    ensures mounted ==> Tick(w, product, now, mounted, fetch).state.shown == w.cache[product].data
    ensures forall other: Fetch :: Tick(w, product, now, mounted, other) == Tick(w, product, now, mounted, fetch)
  {
  }

  /** At exactly 5000 ms of age the entry is stale and a fetch is made. */
  lemma RefetchAtExpiry(w: Widget, product: string, mounted: bool, fetch: Fetch)
    requires product in w.cache
    ensures Tick(w, product, w.cache[product].timestamp + CacheExpiry, mounted, fetch).fetched
  {
  }

  /** A fetch that fails leaves the cache as it was, and on a miss the whole widget too. */
  lemma FailedFetchChangesNothing(w: Widget, product: string, now: nat, mounted: bool)
    ensures Tick(w, product, now, mounted, Failed).state.cache == w.cache
    ensures Lookup(w.cache, product, now, CacheExpiry).None? ==> Tick(w, product, now, mounted, Failed).state == w
  {
  }

  /** A successful fetch while mounted shows the new depth and caches it under a fresh timestamp. */
  lemma SuccessfulFetchStores(w: Widget, product: string, now: nat, book: Book, at: nat)
    requires Lookup(w.cache, product, now, CacheExpiry).None?
    ensures Tick(w, product, now, true, Fetched(book, at)).state.shown == DepthOf(book)
    ensures Tick(w, product, now, true, Fetched(book, at)).state.cache[product] == Entry(DepthOf(book), at)
  {
  }

  /** A body without `bids`/`asks` throws in `processOrders(data.bids)`, before the cache
      write, so like a failed fetch it leaves the widget as it was. */
  lemma NonBookBodyChangesNothing(w: Widget, product: string, now: nat, mounted: bool, at: nat)
    requires Lookup(w.cache, product, now, CacheExpiry).None?
    ensures Tick(w, product, now, mounted, NotABook(at)).state == w
  {
  }
}
