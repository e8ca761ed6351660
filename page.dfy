/**
 * The browser as scraper.py sees it: for each selector it queries, what the current page
 * yields. A `Page` holds those answers; `Browser` holds the page the driver is on and the pages
 * that navigating to each URL loads.
 */
module Page {
  import opened Optional

  /** An element read with `get_attribute("textContent") or elem.text`. */
  datatype Elem = Elem(textContent: string, text: string)

  /** The text such an element yields: its `textContent`, or its `text` when that is empty. */
  function Displayed(e: Elem): (t: string)
    ensures t == [] <==> e.textContent == [] && e.text == []
  {
    if e.textContent != [] then e.textContent else e.text
  }

  /**
   * A `.a-price-whole` element found by one of the visible-price selectors: its text, and
   * the text of the `.a-price-fraction` beside it, `None` when that lookup raises.
   */
  datatype PriceDisplay = PriceDisplay(whole: string, fraction: Option<string>)

  /**
   * A `th.prodDetSectionEntry` header and the text of the first rank in the cell of its row;
   * `None` when the row, cell or rank span cannot be found (the lookup raises).
   */
  datatype BsrHeader = BsrHeader(text: string, firstRank: Option<string>)

  /** What clicking the first colour or size variant does. */
  datatype ClickOutcome =
    | NoVariants            // the variant selector finds nothing
    | ClickFails            // the click script raises
    | Clicked(after: Page)  // the page after the click

  /**
   * What the selectors scraper.py queries yield on one page.
   * An `Option` is `None` where `find_element` raises or a script returns `null`.
   */
  datatype Page = Page(
    title: Option<string>,                 // #productTitle
    scrollFails: bool,                     // window.scrollBy raises
    availability: seq<string>,             // #availability price/state spans
    optionTexts: seq<string>,              // span.a-size-small, span.olpWrapper, #twister_swatch_price
    variants: ClickOutcome,                // the first swatch and what clicking it leads to
    offscreen: seq<Elem>,                  // span.a-price span.a-offscreen
    visible: seq<Option<PriceDisplay>>,    // the three .a-price-whole selectors, in order
    scriptPrice: Option<string>,           // the offscreen-search script's result
    dataPrice: Option<string>,             // the data-a-price script's result
    listPrice: Option<string>,             // span.a-price.a-text-price span.a-offscreen
    rating: Option<Elem>,                  // i.a-icon-star span.a-icon-alt
    reviews: Option<string>,               // span#acrCustomerReviewText
    bullets: seq<string>,                  // #feature-bullets ul li span.a-list-item
    bsrHeaders: seq<BsrHeader>,            // th.prodDetSectionEntry
    detailSpans: Option<seq<string>>,      // the spans of #productDetails_detailBullets_sections1
    image: Option<string>,                 // the src of #landingImage
    prime: bool,                           // i.a-icon-prime is present
    asinDivs: seq<string>                  // the data-asin of every div[data-asin] of a listing
  )

  /** The page once the first variant is clicked; unchanged when there is none or the click fails. */
  function AfterClick(p: Page): (q: Page)
    ensures p.variants.Clicked? ==> q == p.variants.after
    ensures !p.variants.Clicked? ==> q == p
  {
    if p.variants.Clicked? then p.variants.after else p
  }

  /** The web driver: the page it is on, and the page `driver.get(url)` loads for each URL it can load. */
  class Browser {
    var page: Page
    const site: map<string, Page>

    constructor (site: map<string, Page>, start: Page)
      ensures this.site == site && page == start
    {
      this.site := site;
      page := start;
    }

    /** `driver.get(url)`: loads the page of `url`, or raises (`false`) and stays where it is. */
    method Get(url: string) returns (loaded: bool)
      modifies this
      ensures loaded <==> url in site
      ensures loaded ==> page == site[url]
      ensures !loaded ==> page == old(page)
    {
      loaded := url in site;
      if loaded {
        page := site[url];
      }
    }

    /** `execute_script("arguments[0].click();", variants[0])`. */
    method ClickFirstVariant()
      modifies this
      ensures page == AfterClick(old(page))
    {
      page := AfterClick(page);
    }
  }
}
