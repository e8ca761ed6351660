/**
 * `AmazonScraper`: the details read from one product page, and `scrape_top_products`, which
 * loads a category listing, collects its ASINs, reads and saves each product in rank order.
 */
module Scraper {
  import opened Optional
  import opened Text
  import opened Slices
  import opened Fallback
  import opened Page
  import opened PriceText
  import opened PriceChain
  import opened Fields
  import opened Discovery
  import opened Store

  /** The `details` dict of `get_product_details`; `None` for a key it does not set. */
  datatype Details = Details(
    title: Option<string>,
    price: Option<real>,
    currency: Option<string>,
    listPrice: Option<real>,
    discountPercent: Option<real>,
    rating: Option<real>,
    reviewsCount: Option<int>,
    bulletPoints: Option<string>,
    bestSellersRank: Option<string>,
    mainImageUrl: Option<string>,
    isPrime: Option<bool>
  )

  /** The empty dict. */
  const NoDetails := Details(None, None, None, None, None, None, None, None, None, None, None)

  /** The product page of an ASIN. */
  function DetailUrl(asin: string): string {
    "https://www.amazon.com/dp/" + asin
  }

  /** The stripped `#productTitle` text, or "Product <asin>" when there is none. */
  function TitleOf(asin: string, title: Option<string>): (t: string)
    ensures title.None? ==> t == "Product " + asin
    ensures title.Some? ==> |t| <= |title.value| && (t == [] || (!IsSpace(t[0]) && !IsSpace(t[|t| - 1])))
  {
    if title.Some? then Strip(title.value) else "Product " + asin
  }

  /** `(list_price - price) / list_price * 100`, before rounding. */
  function Discount(listPrice: real, price: real): (d: real)
    requires listPrice > 0.0
    ensures d / 100.0 * listPrice == listPrice - price
  {
    (listPrice - price) / listPrice * 100.0
  }

  /**
   * A discount is below 100 percent when the price is positive, and it is positive, zero or
   * negative as the list price is above, equal to or below the price.
   */
  lemma DiscountBounds(listPrice: real, price: real)
    requires listPrice > 0.0 && price > 0.0
    ensures Discount(listPrice, price) < 100.0
    ensures Discount(listPrice, price) > 0.0 <==> listPrice > price
    ensures Discount(listPrice, price) == 0.0 <==> listPrice == price
  {
    var f := (listPrice - price) / listPrice;
    assert f * listPrice == listPrice - price;
    assert Discount(listPrice, price) == f * 100.0;
    ProductSign(f - 1.0, listPrice);
    ProductSign(f, listPrice);
  }

  /** The sign of a product with a positive factor is the sign of the other factor. */
  lemma ProductSign(x: real, y: real)
    requires y > 0.0
    ensures x * y < 0.0 <==> x < 0.0
    ensures x * y > 0.0 <==> x > 0.0
    ensures x * y == 0.0 <==> x == 0.0
  {
    if x < 0.0 {
      assert (-x) * y > 0.0;
    }
  }

  /**
   * The list price and discount read from the `a-text-price` element's text: set together,
   * exactly when the price parsed from that text and the product's price are both positive;
   * the list price is then the parsed one.
   */
  function ListPriceOf(text: Option<string>, price: real): (r: (Option<real>, Option<real>))
    ensures r.0.Some? <==> r.1.Some?
    ensures r.0.Some? ==> r.0.value > 0.0 && price > 0.0 && r.1.value == Discount(r.0.value, price)
    ensures text.None? || price <= 0.0 ==> r == (None, None)
    ensures r.0.Some? <==>
      && text.Some? && price > 0.0
      && ExtractPriceValue(Strip(text.value)).price.Some?
      && ExtractPriceValue(Strip(text.value)).price.value > 0.0
    ensures r.0.Some? ==> r.0 == ExtractPriceValue(Strip(text.value)).price
  {
    if text.None? then (None, None)
    else
      var listPrice := ExtractPriceValue(Strip(text.value)).price;
      if listPrice.Some? && listPrice.value > 0.0 && price > 0.0 then
        (listPrice, Some(Discount(listPrice.value, price)))
      else (None, None)
  }

  /** A rating is kept only when it is not zero (`if rating:`). */
  function KeptRating(r: Option<real>): (k: Option<real>)
    ensures k.Some? <==> r.Some? && r.value != 0.0
    ensures k.Some? ==> k == r
  {
    if r.Some? && r.value != 0.0 then r else None
  }

  /** A review count is kept only when it is not zero (`if reviews:`). */
  function KeptReviews(r: Option<nat>): (k: Option<int>)
    ensures k.Some? <==> r.Some? && r.value >= 1
    ensures k.Some? ==> k.value == r.value as int && k.value >= 1
  {
    if r.Some? && r.value != 0 then Some(r.value as int) else None
  }

  /** A text is kept only when it is not empty (`if bullets:`, `if bsr:`). */
  function KeptText(s: Option<string>): (k: Option<string>)
    ensures k.Some? <==> s.Some? && s.value != []
    ensures k.Some? ==> k == s
  {
    if s.Some? && s.value != [] then s else None
  }

  /**
   * `get_product_details` once the product page `p` is loaded: the title first, then the
   * price (which may click a variant), then every other field read from the page the price
   * search leaves. When `get_price` raises, only the title is set.
   */
  function DetailsOn(asin: string, p: Page): (r: (Details, Page))
    ensures r.0.title == Some(TitleOf(asin, p.title)) && r.1 == PriceOf(p).page
    ensures r.0.price.None? <==> p.scrollFails
    ensures r.0.price.None? ==> r.0 == NoDetails.(title := r.0.title)
    ensures r.0.price.Some? ==> r.0.currency.Some? && r.0.isPrime == Some(r.1.prime) && r.0.mainImageUrl == r.1.image
    ensures r.0.price.Some? ==>
      && PriceOf(p).result.Some?
      && r.0.price == Some(PriceOf(p).result.value.price)
      && r.0.currency == Some(PriceOf(p).result.value.currency)
      && (r.0.listPrice, r.0.discountPercent) == ListPriceOf(r.1.listPrice, r.0.price.value)
    ensures r.0.price.Some? ==>
      && r.0.rating == KeptRating(RatingOf(r.1.rating))
      && r.0.reviewsCount == KeptReviews(ReviewsOf(r.1.reviews))
      && r.0.bulletPoints == KeptText(Some(BulletSummary(r.1.bullets)))
      && r.0.bestSellersRank == KeptText(BestSellersRank(r.1))
  {
    PriceOutcome(p);
    var title := Some(TitleOf(asin, p.title));
    var run := PriceOf(p);
    var q := run.page;
    match run.result
    case None => (NoDetails.(title := title), q)
    case Some(quote) =>
      var (listPrice, discount) := ListPriceOf(q.listPrice, quote.price);
      (Details(
         title, Some(quote.price), Some(quote.currency), listPrice, discount,
         KeptRating(RatingOf(q.rating)), KeptReviews(ReviewsOf(q.reviews)),
         KeptText(Some(BulletSummary(q.bullets))), KeptText(BestSellersRank(q)),
         q.image, Some(q.prime)),
       q)
  }

  /**
   * `get_product_details(asin)` with the driver on `p`: nothing when the product page cannot
   * be loaded (the driver stays on `p`), otherwise the details read from the loaded page.
   */
  function DetailsOf(site: map<string, Page>, asin: string, p: Page): (r: (Details, Page))
    ensures DetailUrl(asin) !in site ==> r == (NoDetails, p)
    ensures r.0.title.Some? <==> DetailUrl(asin) in site
  {
    if DetailUrl(asin) in site then DetailsOn(asin, site[DetailUrl(asin)]) else (NoDetails, p)
  }

  /** A product whose fields hold what `get_product_details` can produce. */
  predicate ProductShape(p: Product) {
    && ((p.price == 0.0 && p.currency == "$") || (p.price > 0.0 && p.currency in Currencies))
    && (p.listPrice.Some? <==> p.discountPercent.Some?)
    && (p.listPrice.Some? ==>
          p.listPrice.value > 0.0 && p.price > 0.0 && p.discountPercent.value < 100.0 &&
          (p.discountPercent.value > 0.0 <==> p.listPrice.value > p.price))
    && (p.rating.Some? ==> p.rating.value > 0.0)
    && (p.reviewsCount.Some? ==> p.reviewsCount.value >= 1)
    && (p.bestSellersRank.Some? ==> p.bestSellersRank.value != [] && '(' !in p.bestSellersRank.value)
  }

  /**
   * The details of one ASIN: a title exactly when its page loads ("Product <asin>" when the
   * page has none); no price exactly when `get_price` raises, and then nothing but the
   * title; otherwise a price of 0.0 in "$" or a positive price in a known currency, and the
   * other fields within their bounds.
   */
  lemma DetailsFacts(site: map<string, Page>, asin: string, p: Page)
    ensures var d := DetailsOf(site, asin, p).0; var url := DetailUrl(asin);
      && (d.title.Some? <==> url in site)
      && (url in site && site[url].title.None? ==> d.title == Some("Product " + asin))
      && (d.title.Some? && d.price.None? <==> url in site && site[url].scrollFails)
      && (d.price.None? ==> d == NoDetails.(title := d.title))
      && (d.price.Some? <==> d.currency.Some?)
      && (d.price.Some? ==> d.isPrime.Some?)
      && (d.title.Some? && d.price.Some? ==>
            ProductShape(Product(asin, d.title.value, 0, d.price.value, d.currency.value,
              d.listPrice, d.discountPercent, d.rating, d.reviewsCount, false,
              d.bestSellersRank, "", d.mainImageUrl)))
      && (url in site && d.price.Some? ==>
            && PriceOf(site[url]).result.Some?
            && d.price == Some(PriceOf(site[url]).result.value.price)
            && d.currency == Some(PriceOf(site[url]).result.value.currency)
            && (d.listPrice, d.discountPercent) == ListPriceOf(PriceOf(site[url]).page.listPrice, d.price.value))
  {
    var url := DetailUrl(asin);
    if url in site {
      var page := site[url];
      PriceOutcome(page);
      var run := PriceOf(page);
      if run.result.Some? {
        var quote := run.result.value;
        var (listPrice, discount) := ListPriceOf(run.page.listPrice, quote.price);
        if listPrice.Some? {
          DiscountBounds(listPrice.value, quote.price);
        }
      }
    }
  }

  /** The product `scrape_top_products` builds from the details of the ASIN at `rank`, if any. */
  function ProductOf(asin: string, rank: int, d: Details): (r: seq<Product>)
    ensures |r| <= 1 && (r != [] <==> d.title.Some?)
    ensures r != [] ==> r[0].asin == asin && r[0].rank == rank
  {
    if d.title.None? then []
    else
      [Product(asin, d.title.value, rank, d.price.GetOr(0.0), d.currency.GetOr("$"),
               d.listPrice, d.discountPercent, d.rating, d.reviewsCount, d.isPrime.GetOr(false),
               d.bestSellersRank, d.bulletPoints.GetOr(""), d.mainImageUrl)]
  }

  /** `get_product_details` on a site, as a function of the ASIN and the page the driver is on. */
  function Reader(site: map<string, Page>): (string, Page) -> (Details, Page) {
    (asin, p) => DetailsOf(site, asin, p)
  }

  /**
   * The products built from the first `n` ASINs, ranked from 1, and the page left, where
   * `read` gives the details of an ASIN and the page after reading them.
   */
  function Process(read: (string, Page) -> (Details, Page), asins: seq<string>, n: nat, start: Page): (r: (seq<Product>, Page))
    requires n <= |asins|
    ensures |r.0| <= n
    ensures n == 0 ==> r == ([], start)
  {
    if n == 0 then ([], start)
    else
      var (products, p) := Process(read, asins, n - 1, start);
      var (d, q) := read(asins[n - 1], p);
      (products + ProductOf(asins[n - 1], n, d), q)
  }

  /**
   * The loop builds a product for an ASIN exactly when its page loads, within `ProductShape`.
   * When `get_price` raises, the product holds the title and the defaults: price 0.0 in "$",
   * not Prime, no bullet points and nothing else. Otherwise its price and currency are the
   * quote `get_price` returns, and its Prime badge and bullet summary are read from the page
   * the price search left, the summary being "" when no bullet is kept.
   */
  lemma ProductOfFacts(site: map<string, Page>, asin: string, rank: int, p: Page)
    ensures var ps := ProductOf(asin, rank, DetailsOf(site, asin, p).0); var url := DetailUrl(asin);
      && (ps != [] <==> url in site)
      && (ps != [] ==> ProductShape(ps[0]))
      && (url in site && site[url].scrollFails ==>
            ps == [Product(asin, TitleOf(asin, site[url].title), rank, 0.0, "$",
                           None, None, None, None, false, None, "", None)])
      && (url in site && !site[url].scrollFails ==>
            var run := PriceOf(site[url]);
            && run.result.Some?
            && ps[0].price == run.result.value.price && ps[0].currency == run.result.value.currency
            && ps[0].isPrime == run.page.prime
            && ps[0].bulletPoints == BulletSummary(run.page.bullets))
  {
    DetailsFacts(site, asin, p);
    var url := DetailUrl(asin);
    if url in site && !site[url].scrollFails {
      var b := BulletSummary(PriceOf(site[url]).page.bullets);
      assert KeptText(Some(b)).GetOr("") == b;
    }
  }

  /** Details holding only a title make a product with every other field at its default. */
  lemma ProductDefaults(asin: string, rank: int, t: string)
    ensures ProductOf(asin, rank, NoDetails.(title := Some(t))) ==
      [Product(asin, t, rank, 0.0, "$", None, None, None, None, false, None, "", None)]
  {
  }

  /**
   * `scrape_top_products(category_url, max_products)` with the driver on `start`: nothing when
   * the listing does not load, has no `div[data-asin]` (the wait times out) or its scroll
   * script raises; otherwise the products of the collected ASINs, in rank order.
   */
  function ScrapeOf(site: map<string, Page>, url: string, maxProducts: int, start: Page): (r: (seq<Product>, Page))
    ensures url !in site ==> r == ([], start)
    ensures url in site && (site[url].asinDivs == [] || site[url].scrollFails) ==> r == ([], site[url])
    ensures |r.0| <= Cap(maxProducts)
  {
    ScrapeWith(Reader(site), site, url, maxProducts, start)
  }

  /** `ScrapeOf` where `read` gives the details of each collected ASIN. */
  function ScrapeWith(read: (string, Page) -> (Details, Page), site: map<string, Page>, url: string,
                      maxProducts: int, start: Page): (r: (seq<Product>, Page))
    ensures url !in site ==> r == ([], start)
    ensures url in site && (site[url].asinDivs == [] || site[url].scrollFails) ==> r == ([], site[url])
    ensures |r.0| <= Cap(maxProducts)
  {
    if url !in site then ([], start)
    else
      var listing := site[url];
      if listing.asinDivs == [] || listing.scrollFails then ([], listing)
      else
        var asins := Collected(Candidates(listing.asinDivs), maxProducts);
        Process(read, asins, |asins|, listing)
  }

  /** Whether some product has rank `rank`. */
  predicate HasRank(products: seq<Product>, rank: int) {
    exists k :: 0 <= k < |products| && products[k].rank == rank
  }

  /** The loop's `n`-th turn: the details of the `n`-th ASIN, read on the page the turns before left. */
  lemma ProcessStep(read: (string, Page) -> (Details, Page), asins: seq<string>, n: nat, start: Page)
    requires 0 < n <= |asins|
    ensures Process(read, asins, n, start).0 ==
      Process(read, asins, n - 1, start).0 + ProductOf(asins[n - 1], n, read(asins[n - 1], Process(read, asins, n - 1, start).1).0)
  {
  }

  /**
   * Products of the first `n` ASINs: each carries the rank of its ASIN's position (1-based),
   * and the ranks increase.
   */
  predicate Ranked(ps: seq<Product>, asins: seq<string>, n: nat)
    requires n <= |asins|
  {
    && |ps| <= n
    && (forall k :: 0 <= k < |ps| ==> 1 <= ps[k].rank <= n && ps[k].asin == asins[ps[k].rank - 1])
    && (forall j, k :: 0 <= j < k < |ps| ==> ps[j].rank < ps[k].rank)
  }

  /** Appending the product, if any, of the `n`-th ASIN keeps the products ranked. */
  lemma RankedStep(ps: seq<Product>, added: seq<Product>, asins: seq<string>, n: nat)
    requires 0 < n <= |asins| && Ranked(ps, asins, n - 1)
    requires |added| <= 1 && (added != [] ==> added[0].rank == n && added[0].asin == asins[n - 1])
    ensures Ranked(ps + added, asins, n)
  {
    var qs := ps + added;
    assert forall k :: 0 <= k < |ps| ==> qs[k] == ps[k];
  }

  /** The products of the first `n` ASINs are ranked. */
  lemma {:induction false} ProcessRanks(read: (string, Page) -> (Details, Page), asins: seq<string>, n: nat, start: Page)
    requires n <= |asins|
    ensures Ranked(Process(read, asins, n, start).0, asins, n)
    decreases n
  {
    if n > 0 {
      ProcessRanks(read, asins, n - 1, start);
      ProcessStep(read, asins, n, start);
      var before := Process(read, asins, n - 1, start);
      RankedStep(before.0, ProductOf(asins[n - 1], n, read(asins[n - 1], before.1).0), asins, n);
    }
  }

  /** Every product of the loop is within `ProductShape` when every product `read` allows is. */
  lemma {:induction false} ProcessProducts(read: (string, Page) -> (Details, Page), asins: seq<string>, n: nat, start: Page)
    requires n <= |asins|
    requires forall a, p, r :: ProductOf(a, r, read(a, p).0) != [] ==> ProductShape(ProductOf(a, r, read(a, p).0)[0])
    ensures forall k :: 0 <= k < |Process(read, asins, n, start).0| ==> ProductShape(Process(read, asins, n, start).0[k])
    decreases n
  {
    if n > 0 {
      ProcessProducts(read, asins, n - 1, start);
      ProcessStep(read, asins, n, start);
      var before := Process(read, asins, n - 1, start).0;
      var added := ProductOf(asins[n - 1], n, read(asins[n - 1], Process(read, asins, n - 1, start).1).0);
      assert added != [] ==> ProductShape(added[0]);
      var ps := before + added;
      forall k | 0 <= k < |ps|
        ensures ProductShape(ps[k])
      {
        if k < |before| {
          assert ps[k] == before[k];
        } else {
          assert ps[k] == added[0];
        }
      }
    }
  }

  /** An ASIN among the first `n` has a product exactly when `read` gives it a title. */
  lemma {:induction false} ProcessCovers(read: (string, Page) -> (Details, Page), asins: seq<string>, n: nat, start: Page,
                                         titled: string -> bool)
    requires n <= |asins|
    requires forall a, p :: read(a, p).0.title.Some? <==> titled(a)
    ensures forall i :: 0 <= i < n ==> (HasRank(Process(read, asins, n, start).0, i + 1) <==> titled(asins[i]))
    decreases n
  {
    if n > 0 {
      ProcessCovers(read, asins, n - 1, start, titled);
      RanksBelow(read, asins, n - 1, start);
      ProcessStep(read, asins, n, start);
      var before := Process(read, asins, n - 1, start);
      var details := read(asins[n - 1], before.1).0;
      assert details.title.Some? <==> titled(asins[n - 1]);
      var added := ProductOf(asins[n - 1], n, details);
      CoverStep(before.0, added, n, titled(asins[n - 1]));
      forall i | 0 <= i < n
        ensures HasRank(before.0 + added, i + 1) <==> titled(asins[i])
      {
        if i < n - 1 {
          assert HasRank(before.0 + added, i + 1) <==> HasRank(before.0, i + 1);
        }
      }
    }
  }

  /** The products of the first `n` ASINs have ranks up to `n`. */
  lemma RanksBelow(read: (string, Page) -> (Details, Page), asins: seq<string>, n: nat, start: Page)
    requires n <= |asins|
    ensures forall k :: 0 <= k < |Process(read, asins, n, start).0| ==> Process(read, asins, n, start).0[k].rank < n + 1
  {
    ProcessRanks(read, asins, n, start);
  }

  /** Appending the product of rank `n`, if any, to products of lower ranks. */
  lemma CoverStep(before: seq<Product>, added: seq<Product>, n: nat, loaded: bool)
    requires forall k :: 0 <= k < |before| ==> before[k].rank < n
    requires |added| <= 1 && (added != [] <==> loaded) && (added != [] ==> added[0].rank == n)
    ensures forall r :: r < n ==> (HasRank(before + added, r) <==> HasRank(before, r))
    ensures HasRank(before + added, n) <==> loaded
  {
    var ps := before + added;
    forall r ensures HasRank(ps, r) <==> HasRank(before, r) || (added != [] && r == n) {
      if HasRank(ps, r) {
        var k :| 0 <= k < |ps| && ps[k].rank == r;
        if k < |before| { assert before[k].rank == r; }
      }
      if HasRank(before, r) {
        var k :| 0 <= k < |before| && before[k].rank == r;
        assert ps[k].rank == r;
      }
      if added != [] && r == n {
        assert ps[|before|].rank == n;
      }
    }
  }

  /**
   * The products of distinct ASINs on a site: each has the rank of its ASIN's position, the
   * ranks increase, the ASINs are distinct, an ASIN has a product exactly when its page loads,
   * and each product is within `ProductShape`.
   */
  lemma ProcessShape(site: map<string, Page>, asins: seq<string>, start: Page)
    requires NoRepeats(asins)
    ensures var ps := Process(Reader(site), asins, |asins|, start).0;
      && Ranked(ps, asins, |asins|)
      && DistinctAsins(ps)
      && (forall k :: 0 <= k < |ps| ==> ProductShape(ps[k]))
      && (forall i :: 0 <= i < |asins| ==> (HasRank(ps, i + 1) <==> DetailUrl(asins[i]) in site))
  {
    ReaderFacts(site);
    ProcessShapeBy(Reader(site), asins, start, a => DetailUrl(a) in site);
  }

  /** What the details read on a site give: a product within `ProductShape`, a title when the page loads. */
  lemma ReaderFacts(site: map<string, Page>)
    ensures forall a, p, r :: ProductOf(a, r, Reader(site)(a, p).0) != [] ==>
      ProductShape(ProductOf(a, r, Reader(site)(a, p).0)[0])
    ensures forall a, p :: Reader(site)(a, p).0.title.Some? <==> DetailUrl(a) in site
  {
    forall a, p, r | ProductOf(a, r, Reader(site)(a, p).0) != []
      ensures ProductShape(ProductOf(a, r, Reader(site)(a, p).0)[0])
    {
      ProductOfFacts(site, a, r, p);
    }
    forall a, p ensures Reader(site)(a, p).0.title.Some? <==> DetailUrl(a) in site {
      DetailsFacts(site, a, p);
    }
  }

  /** `ProcessShape` for any `read` whose products are within `ProductShape` and titled as `titled` says. */
  lemma ProcessShapeBy(read: (string, Page) -> (Details, Page), asins: seq<string>, start: Page, titled: string -> bool)
    requires NoRepeats(asins)
    requires forall a, p, r :: ProductOf(a, r, read(a, p).0) != [] ==> ProductShape(ProductOf(a, r, read(a, p).0)[0])
    requires forall a, p :: read(a, p).0.title.Some? <==> titled(a)
    ensures var ps := Process(read, asins, |asins|, start).0;
      && Ranked(ps, asins, |asins|)
      && DistinctAsins(ps)
      && (forall k :: 0 <= k < |ps| ==> ProductShape(ps[k]))
      && (forall i :: 0 <= i < |asins| ==> (HasRank(ps, i + 1) <==> titled(asins[i])))
  {
    ProcessRanks(read, asins, |asins|, start);
    ProcessProducts(read, asins, |asins|, start);
    ProcessCovers(read, asins, |asins|, start, titled);
    RankedDistinct(Process(read, asins, |asins|, start).0, asins);
  }

  /** Products that carry the ranks of distinct ASINs, in increasing rank, have distinct ASINs. */
  lemma RankedDistinct(ps: seq<Product>, asins: seq<string>)
    requires NoRepeats(asins) && Ranked(ps, asins, |asins|)
    ensures DistinctAsins(ps)
  {
    forall j, k | 0 <= j < k < |ps|
      ensures ps[j].asin != ps[k].asin
    {
      assert asins[ps[j].rank - 1] != asins[ps[k].rank - 1];
    }
  }

  /**
   * What `scrape_top_products` returns: nothing when the listing fails; otherwise at most
   * `max_products` products (one when it is negative), each with the rank of its ASIN among
   * the collected ones, in increasing rank, with distinct ASINs, one for each collected ASIN
   * whose page loads, and each within `ProductShape`.
   */
  lemma ScrapeShape(site: map<string, Page>, url: string, maxProducts: int, start: Page)
    ensures var ps := ScrapeOf(site, url, maxProducts, start).0;
      && (url !in site || site[url].asinDivs == [] || site[url].scrollFails ==> ps == [])
      && |ps| <= Cap(maxProducts)
      && (maxProducts >= 0 ==> |ps| <= maxProducts)
      && DistinctAsins(ps)
      && (forall k :: 0 <= k < |ps| ==> ProductShape(ps[k]))
      && (url in site && site[url].asinDivs != [] && !site[url].scrollFails ==>
            var asins := Collected(Candidates(site[url].asinDivs), maxProducts);
            && Ranked(ps, asins, |asins|)
            && (forall i :: 0 <= i < |asins| ==> (HasRank(ps, i + 1) <==> DetailUrl(asins[i]) in site)))
  {
    ReaderFacts(site);
    ScrapeShapeBy(Reader(site), site, url, maxProducts, start, a => DetailUrl(a) in site);
  }

  /** `ScrapeShape` for any `read` whose products are within `ProductShape` and titled as `titled` says. */
  lemma ScrapeShapeBy(read: (string, Page) -> (Details, Page), site: map<string, Page>, url: string,
                      maxProducts: int, start: Page, titled: string -> bool)
    requires forall a, p, r :: ProductOf(a, r, read(a, p).0) != [] ==> ProductShape(ProductOf(a, r, read(a, p).0)[0])
    requires forall a, p :: read(a, p).0.title.Some? <==> titled(a)
    ensures var ps := ScrapeWith(read, site, url, maxProducts, start).0;
      && (url !in site || site[url].asinDivs == [] || site[url].scrollFails ==> ps == [])
      && |ps| <= Cap(maxProducts)
      && (maxProducts >= 0 ==> |ps| <= maxProducts)
      && DistinctAsins(ps)
      && (forall k :: 0 <= k < |ps| ==> ProductShape(ps[k]))
      && (url in site && site[url].asinDivs != [] && !site[url].scrollFails ==>
            var asins := Collected(Candidates(site[url].asinDivs), maxProducts);
            && Ranked(ps, asins, |asins|)
            && (forall i :: 0 <= i < |asins| ==> (HasRank(ps, i + 1) <==> titled(asins[i]))))
  {
    if url in site && site[url].asinDivs != [] && !site[url].scrollFails {
      var listing := site[url];
      var asins := Collected(Candidates(listing.asinDivs), maxProducts);
      CollectedShape(Candidates(listing.asinDivs), maxProducts);
      ProcessShapeBy(read, asins, listing, titled);
    }
  }

  /**
   * After a scrape, the table holds every returned product whose write succeeded, under its
   * ASIN and exactly as returned, and no other new ASIN; rows of ASINs not scraped are untouched.
   */
  lemma ScrapeSaved(site: map<string, Page>, url: string, maxProducts: int, start: Page,
                    rows: map<string, Product>, accepts: Product -> bool)
    ensures var ps := ScrapeOf(site, url, maxProducts, start).0; var r := SaveAll(rows, Accepted(ps, accepts));
      && (forall k :: 0 <= k < |ps| && accepts(ps[k]) ==> ps[k].asin in r && r[ps[k].asin] == ps[k])
      && (forall a :: a in r ==> a in rows || HasAsin(ps, a))
      && (forall a :: a in rows && !HasAsin(ps, a) ==> r[a] == rows[a])
  {
    ScrapeShape(site, url, maxProducts, start);
    SaveAcceptedKeeps(rows, ScrapeOf(site, url, maxProducts, start).0, accepts);
  }

  /** `AmazonScraper` with its driver started: the browser, the price extractor on it and the table. */
  class AmazonScraper {
    const db: DatabaseManager
    const driver: Browser
    const prices: PriceExtractor

    /** `__init__` followed by `init_driver`, the browser given rather than launched. */
    constructor (db: DatabaseManager, driver: Browser)
      ensures this.db == db && this.driver == driver && prices.driver == driver
    {
      this.db := db;
      this.driver := driver;
      prices := new PriceExtractor(driver);
    }

    /** `extract_rating` */
    method ExtractRating() returns (r: Option<real>)
      ensures r == RatingOf(driver.page.rating)
    {
      r := RatingOf(driver.page.rating);
    }

    /** `extract_reviews_count` */
    method ExtractReviewsCount() returns (r: Option<nat>)
      ensures r == ReviewsOf(driver.page.reviews)
    {
      r := ReviewsOf(driver.page.reviews);
    }

    /** `extract_bullet_points`: the loop over the first five bullet elements. */
    method ExtractBulletPoints() returns (s: string)
      ensures s == BulletSummary(driver.page.bullets)
    {
      var elements := Head(driver.page.bullets, 5);
      var bullets: seq<string> := [];
      var i := 0;
      while i < |elements|
        invariant i <= |elements|
        invariant bullets == KeptBullets(elements[..i])
      {
        var text := Strip(elements[i]);
        KeptBulletsSnoc(elements, i);
        if text != [] && |text| > 10 {
          bullets := bullets + [text];
        }
        i := i + 1;
      }
      assert elements[..i] == elements;
      s := if bullets != [] then Join(bullets, " | ") else "";
    }

    /** `extract_best_sellers_rank` */
    method ExtractBestSellersRank() returns (r: Option<string>)
      ensures r == BestSellersRank(driver.page)
    {
      var header := Scan(driver.page.bsrHeaders, HeaderStep);
      if header.Some? {
        if header.value.firstRank.None? {
          return None;
        }
        return Some(RankText(header.value.firstRank.value));
      }
      if driver.page.detailSpans.None? {
        return None;
      }
      r := Scan(driver.page.detailSpans.value, SpanStep);
    }

    /** `get_product_details` */
    method GetProductDetails(asin: string) returns (d: Details)
      requires prices.driver == driver
      modifies driver
      ensures (d, driver.page) == Reader(driver.site)(asin, old(driver.page))
    {
      var loaded := driver.Get(DetailUrl(asin));
      if !loaded {
        return NoDetails;
      }
      d := NoDetails.(title := Some(TitleOf(asin, driver.page.title)));
      var price, attempts := prices.GetPrice();
      if price.None? {
        return d;
      }
      var quote := price.value;
      var (listPrice, discount) := ListPriceOf(driver.page.listPrice, quote.price);
      var rating := ExtractRating();
      var reviews := ExtractReviewsCount();
      var bullets := ExtractBulletPoints();
      var bsr := ExtractBestSellersRank();
      d := d.(price := Some(quote.price), currency := Some(quote.currency),
              listPrice := listPrice, discountPercent := discount,
              rating := KeptRating(rating), reviewsCount := KeptReviews(reviews),
              bulletPoints := KeptText(Some(bullets)), bestSellersRank := KeptText(bsr),
              mainImageUrl := driver.page.image, isPrime := Some(driver.page.prime));
    }

    /**
     * `scrape_top_products`: the products returned are those `ScrapeOf` describes, and each was
     * saved, in order, as it was built.
     */
    method ScrapeTopProducts(categoryUrl: string, maxProducts: int) returns (products: seq<Product>)
      requires prices.driver == driver
      modifies driver, db
      ensures (products, driver.page) == ScrapeOf(driver.site, categoryUrl, maxProducts, old(driver.page))
      ensures db.rows == SaveAll(old(db.rows), Accepted(products, db.accepts))
    {
      products := [];
      var loaded := driver.Get(categoryUrl);
      if !loaded || driver.page.asinDivs == [] || driver.page.scrollFails {
        return;
      }
      var asins := CollectAsins(Candidates(driver.page.asinDivs), maxProducts);
      products := ProcessAsins(asins);
    }

    /** The `for rank, asin in enumerate(asins, 1)` loop of `scrape_top_products`. */
    method ProcessAsins(asins: seq<string>) returns (products: seq<Product>)
      requires prices.driver == driver
      modifies driver, db
      ensures (products, driver.page) == Process(Reader(driver.site), asins, |asins|, old(driver.page))
      ensures db.rows == SaveAll(old(db.rows), Accepted(products, db.accepts))
    {
      products := [];
      ghost var start, stored := driver.page, db.rows;
      ghost var read := Reader(driver.site);
      assert Process(read, asins, 0, start) == ([], start);
      var i := 0;
      while i < |asins|
        invariant i <= |asins|
        invariant (products, driver.page) == Process(read, asins, i, start)
        invariant db.rows == SaveAll(stored, Accepted(products, db.accepts))
      {
        products := ScrapeNext(asins, i, products, start, stored);
        i := i + 1;
      }
    }

    /**
     * The turn of that loop for the ASIN at index `i`: whatever `ScrapeOne` builds for it, with
     * rank `i + 1`, is appended to the products of the earlier turns.
     */
    method ScrapeNext(asins: seq<string>, i: nat, products: seq<Product>, ghost start: Page,
                      ghost stored: map<string, Product>) returns (next: seq<Product>)
      requires prices.driver == driver && i < |asins|
      requires (products, driver.page) == Process(Reader(driver.site), asins, i, start)
      requires db.rows == SaveAll(stored, Accepted(products, db.accepts))
      modifies driver, db
      ensures (next, driver.page) == Process(Reader(driver.site), asins, i + 1, start)
      ensures db.rows == SaveAll(stored, Accepted(next, db.accepts))
    {
      var built := ScrapeOne(asins[i], i + 1);
      SaveAllAppend(stored, Accepted(products, db.accepts), Accepted(built, db.accepts));
      AcceptedAppend(products, built, db.accepts);
      next := products + built;
    }

    /**
     * One turn of that loop: the details of `asin`; when they have a title, the product of rank
     * `rank` built from them, saved (when the write succeeds) and returned; otherwise nothing,
     * and nothing saved.
     */
    method ScrapeOne(asin: string, rank: int) returns (built: seq<Product>)
      requires prices.driver == driver
      modifies driver, db
      ensures built == ProductOf(asin, rank, Reader(driver.site)(asin, old(driver.page)).0)
      ensures driver.page == Reader(driver.site)(asin, old(driver.page)).1
      ensures db.rows == SaveAll(old(db.rows), Accepted(built, db.accepts))
    {
      var details := GetProductDetails(asin);
      if details.title.None? {
        return [];
      }
      var product := ProductOf(asin, rank, details)[0];
      db.SaveProduct(product);
      built := [product];
      assert built[..0] == [];
      assert Accepted(built, db.accepts) == if db.accepts(product) then built else [];
    }
  }
}
