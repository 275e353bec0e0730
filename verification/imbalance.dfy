/** The imbalance gauge: `(B - A) / (B + A)` over the summed sizes of the top ten
    levels per side. The cache keeps the raw response for 5 seconds and the ratio
    is recomputed from it on every hit. */
module Imbalance {
  import opened Wrappers
  import opened BookData
  import opened ExpiringCache

  const TopLevels: nat := 10
  const CacheExpiry: nat := 5000

  /** `side.slice(0, 10).reduce((sum, [, size]) => sum + size, 0)`. */
  function TopSize(side: seq<Level>): (r: real)
    ensures r == Sum(Sizes(Take(side, TopLevels)))
    ensures NonNegative(Sizes(side)) ==> r >= 0.0
  {
    ReduceIsSum(0.0, Sizes(Take(side, TopLevels)));
    Reduce(0.0, Sizes(Take(side, TopLevels)))
  }

  /** The ratio, or `None` where JavaScript's division yields no finite number
      (both totals zero). */
  function Ratio(book: Book): (r: Option<real>)
    ensures r.None? <==> TopSize(book.bids) + TopSize(book.asks) == 0.0
    ensures r.Some? ==> r.value * (TopSize(book.bids) + TopSize(book.asks)) == TopSize(book.bids) - TopSize(book.asks)
  {
    var b := TopSize(book.bids);
    var a := TopSize(book.asks);
    if b + a == 0.0 then None else Some((b - a) / (b + a))
  }

  /** Only the sizes of the first ten levels of each side matter. */
  lemma TopSizeIgnoresDeepLevels(side: seq<Level>, other: seq<Level>)
    requires Sizes(Take(side, TopLevels)) == Sizes(Take(other, TopLevels))
    ensures TopSize(side) == TopSize(other)
  {
  }

  /** Levels past the tenth, and every price, leave the ratio unchanged. */
  lemma RatioDependsOnTopSizesOnly(book: Book, other: Book)
    requires Sizes(Take(book.bids, TopLevels)) == Sizes(Take(other.bids, TopLevels))
    requires Sizes(Take(book.asks, TopLevels)) == Sizes(Take(other.asks, TopLevels))
    ensures Ratio(book) == Ratio(other)
  {
    TopSizeIgnoresDeepLevels(book.bids, other.bids);
    TopSizeIgnoresDeepLevels(book.asks, other.asks);
  }

  /** With non-negative sizes the ratio lies in [-1, 1], the gauge's axis range. */
  lemma RatioBounded(book: Book)
    requires NonNegative(Sizes(book.bids)) && NonNegative(Sizes(book.asks))
    ensures Ratio(book).Some? ==> -1.0 <= Ratio(book).value <= 1.0
  {
    var b := TopSize(book.bids);
    var a := TopSize(book.asks);
    if b + a != 0.0 {
      QuotientBounded(b, a, Ratio(book).value);
    }
  }

  lemma QuotientBounded(b: real, a: real, v: real)
    requires b >= 0.0 && a >= 0.0 && b + a != 0.0
    requires v * (b + a) == b - a
    ensures -1.0 <= v <= 1.0
  {
    var s := b + a;
    if v > 1.0 {
      PositiveProduct(v - 1.0, s);
      assert false;
    }
    if v < -1.0 {
      PositiveProduct(-1.0 - v, s);
      assert false;
    }
  }

  lemma PositiveProduct(x: real, y: real)
    requires x > 0.0 && y > 0.0
    ensures x * y > 0.0
  {
  }

  /** The bar is drawn in the bid colour exactly when bids outweigh or equal asks. */
  lemma RatioSign(book: Book)
    requires NonNegative(Sizes(book.bids)) && NonNegative(Sizes(book.asks))
    ensures Ratio(book).Some? ==> (Ratio(book).value >= 0.0 <==> TopSize(book.bids) >= TopSize(book.asks))
  {
    var b := TopSize(book.bids);
    var a := TopSize(book.asks);
    if b + a != 0.0 {
      QuotientSign(b, a, Ratio(book).value);
    }
  }

  lemma QuotientSign(b: real, a: real, v: real)
    requires b >= 0.0 && a >= 0.0 && b + a != 0.0
    requires v * (b + a) == b - a
    ensures v >= 0.0 <==> b >= a
  {
    var s := b + a;
    if v > 0.0 {
      PositiveProduct(v, s);
    } else if v < 0.0 {
      PositiveProduct(-v, s);
      assert (-v) * s == -(v * s);
    }
  }

  /** Exchanging the two sides negates the ratio. */
  lemma RatioSwapNegates(book: Book)
    ensures Ratio(Book(book.asks, book.bids)).None? <==> Ratio(book).None?
    ensures Ratio(book).Some? ==> Ratio(Book(book.asks, book.bids)).value == -Ratio(book).value
  {
    var b := TopSize(book.bids);
    var a := TopSize(book.asks);
    if b + a != 0.0 {
      assert a - b == -(b - a) && a + b == b + a;
      NegatedQuotient(b - a, b + a);
    }
  }

  lemma NegatedQuotient(x: real, y: real)
    requires y != 0.0
    ensures (-x) / y == -(x / y)
  {
  }

  /** Bids `[[100.00, 1], [99.50, 2]]` against asks `[[100.50, 1], [101.00, 3]]`. */
  lemma WorkedExample()
    ensures Ratio(Book([Level(100.0, 1.0), Level(99.5, 2.0)], [Level(100.5, 1.0), Level(101.0, 3.0)])) == Some(-1.0 / 7.0)
  {
    var book := Book([Level(100.0, 1.0), Level(99.5, 2.0)], [Level(100.5, 1.0), Level(101.0, 3.0)]);
    assert Sizes(Take(book.bids, TopLevels)) == [1.0, 2.0];
    assert Sizes(Take(book.asks, TopLevels)) == [1.0, 3.0];
    assert [1.0, 2.0][1..] == [2.0] && [1.0, 3.0][1..] == [3.0];
    assert Sum([2.0]) == 2.0 && Sum([3.0]) == 3.0;
    assert TopSize(book.bids) == 3.0 && TopSize(book.asks) == 4.0;
  }

  /** The component: the ratio on screen and the module-level cache of raw
      responses; a cached `None` is a JSON body that is not a book. */
  datatype Widget = Widget(shown: Option<real>, cache: Cache<Option<Book>>)

  /** `processOrderBook`: a body that is not a book throws before `setImbalance`. */
  function Process(shown: Option<real>, body: Option<Book>): (r: Option<real>)
    ensures body.None? ==> r == shown
    ensures body.Some? ==> r == Ratio(body.value)
  {
    match body
    case None => shown
    case Some(book) => Ratio(book)
  }

  /** One call of `fetchOrderBook`; `fetch` is only consulted on a cache miss. The
      body is cached before it is processed, so a body that is not a book is
      cached too. */
  function Tick(w: Widget, product: string, now: nat, fetch: Fetch): (r: TickResult<Widget>)
    ensures r.fetched <==> Lookup(w.cache, product, now, CacheExpiry).None?
    ensures r.state.cache.Keys <= w.cache.Keys + {product}
    ensures forall k :: k in w.cache && k != product ==> k in r.state.cache && r.state.cache[k] == w.cache[k]
    ensures r.state.shown != w.shown ==>
      product in r.state.cache && r.state.cache[product].data.Some? && r.state.shown == Ratio(r.state.cache[product].data.value)
  {
    match Lookup(w.cache, product, now, CacheExpiry)
    case Some(cached) => TickResult(w.(shown := Process(w.shown, cached)), false)
    case None =>
      match fetch
      case Failed => TickResult(w, true)
      case NotABook(at) => TickResult(w.(cache := Store(w.cache, product, None, at)), true)
      case Fetched(book, at) =>
        TickResult(Widget(Ratio(book), Store(w.cache, product, Some(book), at)), true)
  }

  /** The cache keeps the whole response, deeper levels included, and a later hit
      recomputes the ratio from it. */
  lemma CacheKeepsRawResponse(w: Widget, product: string, now: nat, book: Book, at: nat, later: nat, fetch: Fetch)
    requires Lookup(w.cache, product, now, CacheExpiry).None?
    requires later - at < CacheExpiry
    ensures Tick(w, product, now, Fetched(book, at)).state.cache[product].data == Some(book)
    ensures Tick(Tick(w, product, now, Fetched(book, at)).state, product, later, fetch)
      == TickResult(Tick(w, product, now, Fetched(book, at)).state, false)
  {
  }

  /** A successful fetch caches the raw book under the response timestamp and
      sets the gauge to its ratio. */
  lemma SuccessfulFetchSetsRatio(w: Widget, product: string, now: nat, book: Book, at: nat)
    requires Lookup(w.cache, product, now, CacheExpiry).None?
    ensures Tick(w, product, now, Fetched(book, at)) == TickResult(Widget(Ratio(book), w.cache[product := Entry(Some(book), at)]), true)
  {
  }

  /** A body without `bids`/`asks` is cached; until it expires every tick is a hit
      that neither fetches nor changes the gauge. */
  lemma NonBookBodyBlocksFetches(w: Widget, product: string, now: nat, at: nat, later: nat, fetch: Fetch)
    requires Lookup(w.cache, product, now, CacheExpiry).None?
    requires later - at < CacheExpiry
    ensures Tick(w, product, now, NotABook(at)).state == w.(cache := Store(w.cache, product, None, at))
    ensures Tick(Tick(w, product, now, NotABook(at)).state, product, later, fetch)
      == TickResult(Tick(w, product, now, NotABook(at)).state, false)
  {
  }

  /** A fresh entry is used without a fetch or a cache write. */
  lemma FreshHitSkipsFetch(w: Widget, product: string, now: nat, fetch: Fetch)
    requires product in w.cache && now - w.cache[product].timestamp < CacheExpiry
    ensures Tick(w, product, now, fetch) == TickResult(w.(shown := Process(w.shown, w.cache[product].data)), false)
  {
  }

  /** A network or non-JSON failure leaves the cache untouched, and on a miss the
      whole widget too. */
  lemma FailedFetchChangesNothing(w: Widget, product: string, now: nat)
    ensures Tick(w, product, now, Failed).state.cache == w.cache
    ensures Lookup(w.cache, product, now, CacheExpiry).None? ==> Tick(w, product, now, Failed).state == w
  {
  }
}
