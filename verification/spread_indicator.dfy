/** The spread chart: best ask minus best bid of a level-1 snapshot, appended
    to a rolling window of the latest 60 samples. The raw response is cached per
    product for 2 seconds, and a cache hit still appends a sample. */
module SpreadIndicator {
  import opened Wrappers
  import opened BookData
  import opened ExpiringCache

  const WindowSize: nat := 60
  const CacheExpiry: nat := 2000

  /** `asks[0][0] - bids[0][0]`, or `None` where reading `[0]` of an empty side throws. */
  function SpreadOf(book: Book): (r: Option<real>)
    ensures r.Some? <==> |book.asks| > 0 && |book.bids| > 0
    ensures r.Some? ==> book.bids[0].price + r.value == book.asks[0].price
  {
    if |book.asks| == 0 || |book.bids| == 0 then None
    else Some(book.asks[0].price - book.bids[0].price)
  }

  /** `[...prev.slice(-59), spread]`. */
  function Push(window: seq<real>, x: real): (r: seq<real>)
    ensures |r| == Min(|window| + 1, WindowSize)
    ensures r[|r| - 1] == x
    ensures forall i :: 0 <= i < |r| - 1 ==> r[i] == window[|window| - (|r| - 1) + i]
  {
    TakeLast(window, WindowSize - 1) + [x]
  }

  /** The window after appending `xs` one sample at a time. */
  function PushAll(window: seq<real>, xs: seq<real>): seq<real>
  {
    if |xs| == 0 then window else Push(PushAll(window, xs[..|xs| - 1]), xs[|xs| - 1])
  }

  /** One append keeps the latest 60 of the old window followed by the new sample. */
  lemma PushKeepsLatest(window: seq<real>, x: real)
    ensures Push(window, x) == TakeLast(window + [x], WindowSize)
  {
    var r := Push(window, x);
    var t := TakeLast(window + [x], WindowSize);
    assert |r| == |t|;
    forall i | 0 <= i < |r|
      ensures r[i] == t[i]
    {
    }
  }

  lemma TakeLastOfTakeLast(s: seq<real>, x: real)
    ensures TakeLast(TakeLast(s, WindowSize) + [x], WindowSize) == TakeLast(s + [x], WindowSize)
  {
    var l := TakeLast(TakeLast(s, WindowSize) + [x], WindowSize);
    var t := TakeLast(s + [x], WindowSize);
    assert |l| == |t|;
    forall i | 0 <= i < |l|
      ensures l[i] == t[i]
    {
    }
  }

  /** Starting from any window of at most 60 samples, the result holds the latest
      60 samples of the old window followed by everything appended. */
  lemma {:induction false} PushAllKeepsLatest(window: seq<real>, xs: seq<real>)
    requires |window| <= WindowSize
    ensures PushAll(window, xs) == TakeLast(window + xs, WindowSize)
  {
    if |xs| == 0 {
      assert window + xs == window;
    } else {
      var init := xs[..|xs| - 1];
      var x := xs[|xs| - 1];
      PushAllKeepsLatest(window, init);
      PushKeepsLatest(PushAll(window, init), x);
      TakeLastOfTakeLast(window + init, x);
      assert window + init + [x] == window + xs;
    }
  }

  /** From an empty window, after k >= 60 samples it holds exactly the latest 60. */
  lemma {:induction false} WindowHoldsLatestSixty(xs: seq<real>)
    requires |xs| >= WindowSize
    ensures PushAll([], xs) == xs[|xs| - WindowSize..]
  {
    var empty: seq<real> := [];
    PushAllKeepsLatest(empty, xs);
    assert empty + xs == xs;
    assert Min(|xs|, WindowSize) == WindowSize;
  }

  /** After 61 samples the first one has dropped out. */
  lemma {:induction false} SixtyOneSamples(xs: seq<real>)
    requires |xs| == 61
    ensures PushAll([], xs) == xs[1..]
  {
    WindowHoldsLatestSixty(xs);
  }

  /** A level-1 response of bid 100.00 and ask 100.50 gives a spread of 0.50. */
  lemma WorkedExample()
    ensures SpreadOf(Book([Level(100.0, 1.0)], [Level(100.5, 1.0)])) == Some(0.5)
  {
  }

  /** The component: the plotted window and the module-level cache of raw
      responses; a cached `None` is a JSON body that is not a book. */
  datatype Widget = Widget(window: seq<real>, cache: Cache<Option<Book>>)

  /** `processSpread`: append the spread of the body. A body that is not a book,
      or a book with an empty side, throws before the state update. */
  function Sample(window: seq<real>, body: Option<Book>): (r: seq<real>)
    ensures (body.None? || SpreadOf(body.value).None?) ==> r == window
    ensures body.Some? && SpreadOf(body.value).Some? ==>
      |r| == Min(|window| + 1, WindowSize) && r[|r| - 1] == SpreadOf(body.value).value
    ensures body.Some? && SpreadOf(body.value).Some? ==> r == Push(window, SpreadOf(body.value).value)
  {
    match body
    case None => window
    case Some(book) =>
      match SpreadOf(book)
      case None => window
      case Some(s) => Push(window, s)
  }

  /** One call of `fetchSpread`; `fetch` is only consulted on a cache miss. The
      body is cached before the spread is taken, so a one-sided book and a body
      that is not a book are cached too. */
  function Tick(w: Widget, product: string, now: nat, fetch: Fetch): (r: TickResult<Widget>)
    ensures r.fetched <==> Lookup(w.cache, product, now, CacheExpiry).None?
    ensures r.state.cache.Keys <= w.cache.Keys + {product}
    ensures forall k :: k in w.cache && k != product ==> k in r.state.cache && r.state.cache[k] == w.cache[k]
    ensures |w.window| <= WindowSize ==> |r.state.window| <= WindowSize
  {
    match Lookup(w.cache, product, now, CacheExpiry)
    case Some(cached) => TickResult(w.(window := Sample(w.window, cached)), false)
    case None =>
      match fetch
      case Failed => TickResult(w, true)
      case NotABook(at) => TickResult(w.(cache := Store(w.cache, product, None, at)), true)
      case Fetched(book, at) =>
        TickResult(Widget(Sample(w.window, Some(book)), Store(w.cache, product, Some(book), at)), true)
  }

  /** On a fresh entry nothing is fetched or written, and the cached body is
      processed again: a body with a spread appends it, any other body throws
      and leaves the window as it was. */
  lemma FreshHitReprocessesCachedBody(w: Widget, product: string, now: nat, fetch: Fetch)
    requires product in w.cache && now - w.cache[product].timestamp < CacheExpiry
    ensures Tick(w, product, now, fetch) == TickResult(w.(window := Sample(w.window, w.cache[product].data)), false)
  {
  }

  /** A cached one-sided book is not refetched and adds no sample. */
  lemma FreshHitOnOneSidedBookChangesNothing(w: Widget, product: string, now: nat, fetch: Fetch)
    requires product in w.cache && now - w.cache[product].timestamp < CacheExpiry
    requires w.cache[product].data.Some? && SpreadOf(w.cache[product].data.value).None?
    ensures Tick(w, product, now, fetch) == TickResult(w, false)
  {
    FreshHitReprocessesCachedBody(w, product, now, fetch);
  }

  /** A fresh entry is not refetched, yet its spread is appended to the window again. */
  lemma FreshHitAppendsCachedSpread(w: Widget, product: string, now: nat, fetch: Fetch)
    requires product in w.cache && now - w.cache[product].timestamp < CacheExpiry
    requires w.cache[product].data.Some? && SpreadOf(w.cache[product].data.value).Some?
    ensures Tick(w, product, now, fetch).state.window == Push(w.window, SpreadOf(w.cache[product].data.value).value)
    ensures !Tick(w, product, now, fetch).fetched
    ensures Tick(w, product, now, fetch).state.cache == w.cache
  {
    FreshHitReprocessesCachedBody(w, product, now, fetch);
  }

  /** At exactly 2000 ms of age the entry is stale and a fetch is made. */
  lemma RefetchAtExpiry(w: Widget, product: string, fetch: Fetch)
    requires product in w.cache
    ensures Tick(w, product, w.cache[product].timestamp + CacheExpiry, fetch).fetched
  {
  }

  /** A body without `bids`/`asks` is cached; until it expires every tick is a hit
      that neither fetches nor adds a sample. */
  lemma NonBookBodyBlocksFetches(w: Widget, product: string, now: nat, at: nat, later: nat, fetch: Fetch)
    requires Lookup(w.cache, product, now, CacheExpiry).None?
    requires later - at < CacheExpiry
    ensures Tick(w, product, now, NotABook(at)).state == w.(cache := Store(w.cache, product, None, at))
    ensures Tick(Tick(w, product, now, NotABook(at)).state, product, later, fetch)
      == TickResult(Tick(w, product, now, NotABook(at)).state, false)
  {
  }

  /** A network or non-JSON failure leaves the cache untouched, and on a miss the whole widget too. */
  lemma FailedFetchChangesNothing(w: Widget, product: string, now: nat)
    ensures Tick(w, product, now, Failed).state.cache == w.cache
    ensures Lookup(w.cache, product, now, CacheExpiry).None? ==> Tick(w, product, now, Failed).state == w
  {
  }

  /** A successful fetch caches the raw response under a fresh timestamp and
      appends its spread. */
  lemma SuccessfulFetchSamples(w: Widget, product: string, now: nat, book: Book, at: nat)
    requires Lookup(w.cache, product, now, CacheExpiry).None?
    requires SpreadOf(book).Some?
    ensures Tick(w, product, now, Fetched(book, at)).state.cache[product] == Entry(Some(book), at)
    ensures Tick(w, product, now, Fetched(book, at)).state.window == Push(w.window, SpreadOf(book).value)
  {
  }

  /** A one-sided response is cached even though no sample is appended. */
  lemma OneSidedResponseStillCached(w: Widget, product: string, now: nat, book: Book, at: nat)
    requires Lookup(w.cache, product, now, CacheExpiry).None?
    requires SpreadOf(book).None?
    ensures Tick(w, product, now, Fetched(book, at)).state == Widget(w.window, Store(w.cache, product, Some(book), at))
  {
  }
}
