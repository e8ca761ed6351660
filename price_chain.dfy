/**
 * `PriceExtractor.get_price` and its six strategies: an availability check that can end the
 * search with `(0.0, "$")`, then the strategies in a fixed order, the first price found
 * winning. The variant strategy clicks, and the strategies after it read the clicked page.
 */
module PriceChain {
  import opened Optional
  import opened Text
  import opened Decimal
  import opened Regex
  import opened Fallback
  import opened Slices
  import opened PriceText
  import opened Page

  /** A `(price, currency)` pair as `get_price` returns it. */
  datatype Quote = Quote(price: real, currency: string)

  /** What every strategy returns when it returns anything: a positive price in a known currency. */
  predicate IsFound(q: Quote) {
    q.price > 0.0 && q.currency in Currencies
  }

  /** The result when the product is unavailable or no strategy finds a price. */
  const NotFound := Quote(0.0, "$")

  datatype Strategy =
    | OptionsText        // try_options_text
    | SelectVariant      // try_select_variant
    | OffscreenElements  // try_offscreen_elements
    | VisiblePrice       // try_visible_price
    | ScriptSearch       // try_javascript_search
    | DataAttributes     // try_data_attributes

  /** The `methods` list of `get_price`, in the order it tries them. */
  const Strategies: seq<Strategy> :=
    [OptionsText, SelectVariant, OffscreenElements, VisiblePrice, ScriptSearch, DataAttributes]

  /**
   * `price, currency = extract_price_value(text); if price and price > 0: return price, currency`:
   * a price read from the text goes on to the caller, no price lets the scan go on.
   */
  function QuoteStep(text: string): (r: Step<Quote>)
    ensures !r.Abort?
    ensures r.Found? ==> IsFound(r.value)
    ensures r.Found? <==> ExtractPriceValue(text).price.Some?
  {
    var parsed := ExtractPriceValue(text);
    if parsed.price.Some? then Found(Quote(parsed.price.value, parsed.currency)) else Skip
  }

  /**
   * One element of `try_options_text`: "N options from $X" read from the stripped text. A
   * capture that `float()` rejects raises out of the loop and ends the strategy (`Abort`);
   * a zero price goes on to the next element.
   */
  function OptionsStep(text: string): (r: Step<Quote>)
    ensures r.Found? ==> IsFound(r.value) && r.value.currency == "$"
    ensures Find(OptionsFrom, Strip(text)).None? ==> r.Skip?
  {
    var t := Strip(text);
    if Find(OptionsFrom, t).None? then Skip
    else
      match PatternValue(OptionsFrom, t)
      case None => Abort
      case Some(v) => if v > 0.0 then Found(Quote(v, "$")) else Skip
  }

  /** One offscreen element: its text is parsed only when it is not empty and holds a '$'. */
  function OffscreenStep(e: Elem): (r: Step<Quote>)
    ensures !r.Abort?
    ensures r.Found? ==> IsFound(r.value) && '$' in Displayed(e)
  {
    var t := Displayed(e);
    if t != [] && '$' in t then QuoteStep(t) else Skip
  }

  /**
   * One visible-price selector: a missing element goes on to the next selector; otherwise
   * the whole part, stripped and without commas, must be digits with dots, and
   * "$<whole>.<fraction>" is parsed, the fraction being "00" when it cannot be read.
   */
  function VisibleStep(d: Option<PriceDisplay>): (r: Step<Quote>)
    ensures !r.Abort?
    ensures r.Found? ==> IsFound(r.value)
    ensures r.Found? ==> d.Some? && IsDigitText(Without(Without(Strip(d.value.whole), ','), '.'))
  {
    match d
    case None => Skip
    case Some(PriceDisplay(whole, fraction)) =>
      var w := Without(Strip(whole), ',');
      var f := match fraction case None => "00" case Some(x) => Strip(x);
      if w != [] && IsDigitText(Without(w, '.')) then QuoteStep("$" + w + "." + f) else Skip
  }

  /** A script's result: `null` or "" finds nothing, anything else is parsed. */
  function ScriptStep(result: Option<string>): (r: Option<Quote>)
    ensures r.Some? ==> IsFound(r.value) && result.Some? && result.value != []
  {
    match result
    case None => None
    case Some(t) => if t != [] && QuoteStep(t).Found? then Some(QuoteStep(t).value) else None
  }

  /** The first `limit` offscreen elements of `p`, scanned for a price. */
  function OffscreenPrice(p: Page, limit: nat): (r: Option<Quote>)
    ensures r.Some? ==> IsFound(r.value)
    ensures limit == 0 || p.offscreen == [] ==> r.None?
  {
    FirstHitKeeps(Head(p.offscreen, limit), OffscreenStep, IsFound);
    FirstHit(Head(p.offscreen, limit), OffscreenStep)
  }

  /**
   * What strategy `s` returns on page `p`, and the page it leaves. Only `SelectVariant`
   * changes the page: when a first variant exists and the click succeeds, it reads the first
   * three offscreen prices of the clicked page.
   */
  function Apply(s: Strategy, p: Page): (r: (Option<Quote>, Page))
    ensures r.1 == if s == SelectVariant then AfterClick(p) else p
    ensures s == SelectVariant && !p.variants.Clicked? ==> r.0.None?
  {
    match s
    case OptionsText => (FirstHit(p.optionTexts, OptionsStep), p)
    case SelectVariant =>
      if p.variants.Clicked? then (OffscreenPrice(p.variants.after, 3), p.variants.after) else (None, p)
    case OffscreenElements => (OffscreenPrice(p, 5), p)
    case VisiblePrice => (FirstHit(p.visible, VisibleStep), p)
    case ScriptSearch => (ScriptStep(p.scriptPrice), p)
    case DataAttributes => (ScriptStep(p.dataPrice), p)
  }

  /** Every strategy, on every page, returns nothing or a positive price in a known currency. */
  lemma ApplyFinds(s: Strategy, p: Page)
    ensures Apply(s, p).0.Some? ==> IsFound(Apply(s, p).0.value)
    ensures s != SelectVariant ==> Apply(s, p).1 == p
  {
    match s
    case OptionsText => FirstHitKeeps(p.optionTexts, OptionsStep, IsFound);
    case SelectVariant =>
      if p.variants.Clicked? {
        FirstHitKeeps(Head(p.variants.after.offscreen, 3), OffscreenStep, IsFound);
      }
    case OffscreenElements => FirstHitKeeps(Head(p.offscreen, 5), OffscreenStep, IsFound);
    case VisiblePrice => FirstHitKeeps(p.visible, VisibleStep, IsFound);
    case ScriptSearch =>
    case DataAttributes =>
  }

  /** An availability text saying the product is unavailable, in any letter case. */
  predicate Unavailable(p: Page)
    ensures Unavailable(p) ==> exists i :: 0 <= i < |p.availability| && |p.availability[i]| >= 11
  {
    exists i :: 0 <= i < |p.availability| && Contains(Lower(p.availability[i]), "unavailable")
  }

  /**
   * The outcome of `get_price` on a page: its result (`None` when the scroll script raises),
   * the page it leaves and the strategies it invoked with what each returned.
   */
  datatype PriceRun = PriceRun(result: Option<Quote>, page: Page, attempts: seq<Attempt<Strategy, Quote>>)

  function PriceOf(p: Page): (r: PriceRun)
    ensures r.result.None? <==> p.scrollFails
    ensures p.scrollFails || Unavailable(p) ==> r.page == p && r.attempts == []
    ensures |r.attempts| <= |Strategies|
  {
    if p.scrollFails then PriceRun(None, p, [])
    else if Unavailable(p) then PriceRun(Some(NotFound), p, [])
    else
      var run := FirstSuccess(Strategies, Apply, p);
      PriceRun(Some(run.result.GetOr(NotFound)), run.state, run.attempts)
  }

  /** An unavailable product is priced `(0.0, "$")` without invoking any strategy. */
  lemma UnavailableShortCircuit(p: Page)
    requires !p.scrollFails && Unavailable(p)
    ensures PriceOf(p) == PriceRun(Some(NotFound), p, [])
  {
  }

  /**
   * Otherwise the strategies are invoked in the fixed order and the chain stops at the first
   * one that finds a price: the result is that price, or `(0.0, "$")` after all six found none.
   */
  lemma StrategyOrder(p: Page)
    requires !p.scrollFails && !Unavailable(p)
    ensures var r := PriceOf(p);
      && 1 <= |r.attempts| <= |Strategies|
      && (forall k :: 0 <= k < |r.attempts| ==> r.attempts[k].strategy == Strategies[k])
      && (forall k :: 0 <= k < |r.attempts| - 1 ==> r.attempts[k].outcome.None?)
      && r.result.Some?
      && (|| (IsFound(r.result.value) && r.attempts[|r.attempts| - 1].outcome == r.result)
          || (r.result.value == NotFound && |r.attempts| == |Strategies| &&
              forall k :: 0 <= k < |r.attempts| ==> r.attempts[k].outcome.None?))
  {
    var run := FirstSuccess(Strategies, Apply, p);
    forall s, q | true ensures Apply(s, q).0.Some? ==> IsFound(Apply(s, q).0.value) {
      ApplyFinds(s, q);
    }
    FirstSuccessKeeps(Strategies, Apply, p, IsFound);
    FirstSuccessTrace(Strategies, Apply, p);
  }

  /**
   * `get_price` raises exactly when the scroll script does; otherwise its price is
   * `(0.0, "$")` or positive, in a known currency.
   */
  lemma PriceOutcome(p: Page)
    ensures PriceOf(p).result.None? <==> p.scrollFails
    ensures PriceOf(p).result.Some? ==> PriceOf(p).result.value == NotFound || IsFound(PriceOf(p).result.value)
  {
    if !p.scrollFails && !Unavailable(p) {
      StrategyOrder(p);
    }
  }

  /** `PriceExtractor`: the strategies, run against the driver's current page. */
  class PriceExtractor {
    const driver: Browser

    constructor (driver: Browser)
      ensures this.driver == driver
    {
      this.driver := driver;
    }

    /** `try_options_text` */
    method TryOptionsText() returns (r: Option<Quote>)
      ensures r == FirstHit(driver.page.optionTexts, OptionsStep)
    {
      r := Scan(driver.page.optionTexts, OptionsStep);
    }

    /** The loop over `elements[:limit]` shared by the variant and offscreen strategies. */
    method ScanOffscreen(limit: nat) returns (r: Option<Quote>)
      ensures r == OffscreenPrice(driver.page, limit)
    {
      r := Scan(Head(driver.page.offscreen, limit), OffscreenStep);
    }

    /** `try_select_variant`: click the first variant, then read the first three offscreen prices. */
    method TrySelectVariant() returns (r: Option<Quote>)
      modifies driver
      ensures (r, driver.page) == Apply(SelectVariant, old(driver.page))
    {
      if !driver.page.variants.Clicked? {
        return None;
      }
      driver.ClickFirstVariant();
      r := ScanOffscreen(3);
    }

    /** `try_offscreen_elements` */
    method TryOffscreenElements() returns (r: Option<Quote>)
      ensures r == OffscreenPrice(driver.page, 5)
    {
      r := ScanOffscreen(5);
    }

    /** `try_visible_price` */
    method TryVisiblePrice() returns (r: Option<Quote>)
      ensures r == FirstHit(driver.page.visible, VisibleStep)
    {
      r := Scan(driver.page.visible, VisibleStep);
    }

    /** `get_price`'s dispatch on the strategy it is at. */
    method Invoke(s: Strategy) returns (r: Option<Quote>)
      modifies driver
      ensures (r, driver.page) == Apply(s, old(driver.page))
    {
      match s
      case OptionsText => r := TryOptionsText();
      case SelectVariant => r := TrySelectVariant();
      case OffscreenElements => r := TryOffscreenElements();
      case VisiblePrice => r := TryVisiblePrice();
      case ScriptSearch => r := ScriptStep(driver.page.scriptPrice);
      case DataAttributes => r := ScriptStep(driver.page.dataPrice);
    }

    /** The availability loop of `get_price`. */
    method IsUnavailable() returns (b: bool)
      ensures b <==> Unavailable(driver.page)
    {
      var texts := driver.page.availability;
      var i := 0;
      while i < |texts|
        invariant i <= |texts|
        invariant forall j :: 0 <= j < i ==> !Contains(Lower(texts[j]), "unavailable")
      {
        if Contains(Lower(texts[i]), "unavailable") {
          return true;
        }
        i := i + 1;
      }
      return false;
    }

    /**
     * `get_price`: `None` when the scroll script raises; `(0.0, "$")` for an unavailable
     * product; otherwise the first strategy's price, or `(0.0, "$")` when none finds one.
     * `attempts` records each strategy invoked and what it returned.
     */
    method GetPrice() returns (r: Option<Quote>, ghost attempts: seq<Attempt<Strategy, Quote>>)
      modifies driver
      ensures PriceRun(r, driver.page, attempts) == PriceOf(old(driver.page))
    {
      attempts := [];
      if driver.page.scrollFails {
        return None, attempts;
      }
      var unavailable := IsUnavailable();
      if unavailable {
        return Some(NotFound), attempts;
      }
      var found;
      found, attempts := RunStrategies();
      return Some(found.GetOr(NotFound)), attempts;
    }

    /** The `for method in methods` loop of `get_price`. */
    method RunStrategies() returns (r: Option<Quote>, ghost attempts: seq<Attempt<Strategy, Quote>>)
      modifies driver
      ensures Run(r, driver.page, attempts) == FirstSuccess(Strategies, Apply, old(driver.page))
    {
      attempts := [];
      var i := 0;
      while i < |Strategies|
        invariant i <= |Strategies|
        invariant var rest := FirstSuccess(Strategies[i..], Apply, driver.page);
          FirstSuccess(Strategies, Apply, old(driver.page)) == Run(rest.result, rest.state, attempts + rest.attempts)
      {
        FirstSuccessStep(Strategies, Apply, FirstSuccess(Strategies, Apply, old(driver.page)), attempts, i, driver.page);
        var outcome := Invoke(Strategies[i]);
        attempts := attempts + [Attempt(Strategies[i], outcome)];
        if outcome.Some? {
          return outcome, attempts;
        }
        i := i + 1;
      }
      return None, attempts;
    }

  }
}
