/** The order-book snapshot shared by all four widgets, and the small sequence
    helpers (`slice(0, n)`, `slice(-n)`, summing sizes) they are built from. */
module BookData {

  /** One `[price, size]` pair of the exchange's response, already parsed. */
  datatype Level = Level(price: real, size: real)

  /** A snapshot as the exchange returns it: each side best-first, not re-sorted here. */
  datatype Book = Book(bids: seq<Level>, asks: seq<Level>)

  /** The outcome of one `fetch` + `response.json()`. `at` is the clock reading
      taken when the response has arrived, which is the timestamp a cache write uses.
      `NotABook` is a JSON body without `bids` or `asks` (an exchange error
      message, `null`): `fetch` does not reject on an HTTP error status, so such a
      body reaches the widget, and whether it is cached depends on whether the
      widget writes the cache before or after reading the sides. `Failed` is a
      network error or a body that is not JSON: `fetch` or `response.json()`
      throws before anything is written. */
  datatype Fetch = Fetched(book: Book, at: nat) | NotABook(at: nat) | Failed

  function Min(a: int, b: int): int
  {
    if a <= b then a else b
  }

  /** JavaScript's `s.slice(0, n)`: the first `n` elements, or all of `s` if shorter. */
  function Take<T>(s: seq<T>, n: nat): (r: seq<T>)
    ensures |r| == Min(|s|, n)
    ensures r <= s
  {
    if |s| <= n then s else s[..n]
  }

  lemma TakeIdempotent<T>(s: seq<T>, n: nat)
    ensures Take(Take(s, n), n) == Take(s, n)
  {
  }

  /** JavaScript's `s.slice(-n)` for `n > 0`: the last `n` elements, or all of `s` if shorter. */
  function TakeLast<T>(s: seq<T>, n: nat): (r: seq<T>)
    ensures |r| == Min(|s|, n)
    ensures forall i :: 0 <= i < |r| ==> r[i] == s[|s| - |r| + i]
  {
    s[|s| - Min(|s|, n)..]
  }

  /** The `size` column of a side, in order. */
  function Sizes(levels: seq<Level>): (r: seq<real>)
    ensures |r| == |levels|
    ensures forall i :: 0 <= i < |r| ==> r[i] == levels[i].size
  {
    seq(|levels|, i requires 0 <= i < |levels| => levels[i].size)
  }

  predicate NonNegative(xs: seq<real>)
  {
    forall i :: 0 <= i < |xs| ==> xs[i] >= 0.0
  }

  /** The total of `xs`, grouped from the right; over exact reals it equals the
      left-to-right `reduce` (see `ReduceIsSum`). */
  function Sum(xs: seq<real>): (r: real)
    ensures NonNegative(xs) ==> r >= 0.0
  {
    if |xs| == 0 then 0.0 else xs[0] + Sum(xs[1..])
  }

  lemma {:induction false} SumAppend(a: seq<real>, b: seq<real>)
    ensures Sum(a + b) == Sum(a) + Sum(b)
  {
    if |a| == 0 {
      assert a + b == b;
    } else {
      assert (a + b)[1..] == a[1..] + b;
      SumAppend(a[1..], b);
    }
  }

  /** `xs.reduce((sum, x) => sum + x, acc)`: the left-to-right accumulation. */
  function Reduce(acc: real, xs: seq<real>): real
    decreases |xs|
  {
    if |xs| == 0 then acc else Reduce(acc + xs[0], xs[1..])
  }

  lemma {:induction false} ReduceIsSum(acc: real, xs: seq<real>)
    ensures Reduce(acc, xs) == acc + Sum(xs)
    decreases |xs|
  {
    if |xs| > 0 {
      ReduceIsSum(acc + xs[0], xs[1..]);
    }
  }
}
