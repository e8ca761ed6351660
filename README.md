# Amazon best-seller scraper, modelled in Dafny

This project models the computing core of `scraper.py`. That script loads an Amazon category listing in a browser and collects the ASINs (product ids) listed there. For each ASIN it reads the product page: title, price, list price and discount, rating, review count, bullet points, Best Sellers Rank, image and Prime badge. It saves each product to an SQLite table keyed by ASIN.

The browser is modelled as data:

- A `Page.Page` holds, for every selector the script queries, what that selector yields on one page: texts, optional elements and script results.
- A flag records whether the page's scroll script raises.
- A `Page.Browser` holds the page the driver is on and the page that `driver.get(url)` loads for each URL it can load.

The table is a `map` from ASIN to product inside `Store.DatabaseManager`. A fixed predicate `accepts` on that manager says which writes succeed.

Modules, in dependency order:

- `Optional`, `Slices`, `Text`: Python's `None`, prefix slices and the `str` operations used (`strip`, `lower`, `replace`, `split`, `join`, `in`, `isdigit`).
- `Decimal`: `float()` and `int()` on digit strings, as exact numbers.
- `Regex`: the nine regular expressions of the script, each written out as a scanner. Includes `re.search` as the leftmost position where the scanner matches.
- `PriceText`: `extract_price_value`.
- `PriceForms`: what `extract_price_value` reads from the usual shapes of price text (symbol then number, number then symbol, a leading "Price:" in any letter case), and five worked examples.
- `Page`: the page model and the browser class.
- `Fallback`: the two "first success wins" loops the script is built from.
  - A `for x in xs: ... return` scan.
  - The strategy chain of `get_price`, which keeps a ghost trace of the strategies invoked.
- `PriceChain`: `get_price` and its six strategies, as functions and as methods of `PriceExtractor`.
- `Fields`: rating, review count, bullet summary and Best Sellers Rank.
- `FieldForms`: what those readers give on the usual shapes of their text (a rating run, a review count with thousands commas, "N options from $X", a rank cell), with worked examples.
- `Discovery`: the ASIN-collecting loop.
- `Store`: `ProductModel` and `DatabaseManager`.
- `Scraper`: `get_product_details`, `scrape_top_products` and the class `AmazonScraper`.

The loops that walk the page's elements (the strategy chain, the availability check, the element scans, the bullet loop, the ASIN-collecting loop and the rank loop) are methods with a `while` loop. Each such method is proved equal to a function of its inputs or of the old state. The loop over the three price patterns in `extract_price_value` is kept as the function `PriceIn`, a `FirstHit` scan over the patterns, because it is only ever used inside expressions. The properties are proved about these functions as lemmas.

## Model

| member | source | states |
|---|---|---|
| Text.Strip | scraper.py:149 | `str.strip()`: the result is no longer than the text and has no whitespace at either end |
| Text.StripInfix | scraper.py:149 | the stripped text is the infix left after the leading whitespace, and everything dropped on either side is whitespace |
| Text.StripKeeps | scraper.py:149 | text with no whitespace at either end is its own strip |
| Text.Without | scraper.py:172 | `replace(",", "")`: no longer than the text, every kept character comes from it and differs from the removed one, and text without that character is unchanged |
| Text.BeforeFirst | scraper.py:485 | `split("(")[0]`: the longest prefix without '(' that is followed by '(' or by the end of the text |
| Text.JoinEmpty | scraper.py:451 | a `" | ".join` of non-empty parts is empty exactly when there are no parts |
| Text.Join | scraper.py:451 | `sep.join(parts)`: empty for no parts; otherwise it starts with the first part, ends with the last, and is at least as long as the separators between the parts |
| Text.Lower | scraper.py:363 | `str.lower()`: same length, no ASCII capital left, and every other character unchanged |
| Text.Contains | scraper.py:363 | `sub in s` can hold only when `sub` is no longer than `s` |
| Text.ContainsAt | scraper.py:363 | `sub in s` holds exactly when `sub` occurs at some position of `s` |
| Slices.Head | scraper.py:615 | `xs[:n]`: a prefix of `xs`; the first `n` elements or all of them for `n >= 0`, and `\|xs\| + n` of them (none if that is negative) for `n < 0` |
| Decimal.DigitsValue | scraper.py:435 | the number a digit string denotes is positive exactly when some digit is not '0' |
| Decimal.ParseFloat | scraper.py:174 | `float()` accepts digits-and-dots text exactly when it has at most one dot and at least one digit; the value is never negative and is positive exactly when some digit is not '0' |
| Decimal.ParseFloatParts | scraper.py:174 | `float("W.F")` is W plus F scaled down by ten to the number of fraction digits |
| Decimal.DecimalValue | scraper.py:174 | the value of `W.F` is never negative, and positive exactly when W or F is |
| Decimal.ParseInt | scraper.py:435 | `int()` of a digit string fails exactly on the empty string, and is positive exactly when some digit is not '0' |
| Regex.MatchAt | scraper.py:150-167 | a match tried at a position starts there, ends within the text and has the pattern's groups, each non-empty, inside the match, and made only of characters the group admits |
| Regex.OptionsFromAt | scraper.py:192-194 | the same for `\d+\s+options?\s+from\s+\$\s*([\d,]+\.?\d*)`, ignoring case |
| Regex.NumberOneDot | scraper.py:193 | the captured number `[\d,]+\.?\d*` holds at most one '.', so `float()` never sees two dots from this pattern |
| Regex.RankInAt | scraper.py:476 | the same (`Placed`) for `#(\d+)\s+in\s+([^(]+)`: the match starts at the position, its first group is digits and its second holds no '('; the whitespace character the engine gives back to `[^(]+` is shown by `FieldForms.RankGiveBackMatch` and `FieldForms.RankTextGiveBack` |
| Regex.Search | scraper.py:170 | `re.search`: the position found matches and no earlier one does; no position is found exactly when none matches |
| Regex.Find | scraper.py:170 | the match `re.search` returns is placed in the text as `MatchAt` promises |
| Regex.GroupTextChars | scraper.py:172 | every character a group of a found match captures is one the group admits |
| Regex.RunStops | scraper.py:163 | a greedy run ends at the first character outside its class |
| PriceText.StripNoise | scraper.py:150-155 | the anchored `re.sub` removes only a prefix: nothing when the text starts with no noise word, otherwise the first noise word, in any case, with the run of whitespace and colons after it |
| PriceText.Cleaned | scraper.py:149-156 | the cleaned text is no longer than the input and has no whitespace at either end |
| PriceText.PatternStep | scraper.py:170-178 | one pattern turn never ends the loop with an error; it returns exactly when the value read is positive, and returns that value |
| PriceText.NoNoise | scraper.py:150-155 | text whose first letter begins none of the noise words, in any case, loses nothing |
| PriceText.CurrencyOf | scraper.py:159-160 | the currency is the first of `$ £ € ¥` in the cleaned text, or "$" when none occurs |
| PriceText.PatternValue | scraper.py:170-174 | the value read from a pattern's leftmost match, commas removed, is never negative |
| PriceText.PriceIn | scraper.py:169-180 | the price loop returns only positive values |
| PriceText.PatternPrecedence | scraper.py:169-178 | the first pattern, in order, whose value is positive decides the price; zero or unreadable matches fall through |
| PriceText.ExtractPriceValue | scraper.py:144-180 | empty text gives `(None, "$")`; a price is always positive; the currency is always one of `$ £ € ¥` |
| PriceText.ExtractClean | scraper.py:148-157 | on text the cleaning leaves alone, price and currency are read from the text itself |
| PriceForms.PartsFloat | scraper.py:172-174 | `float(text.replace(",", ""))` on a positive number written `W.F` (commas allowed in W) is the exact value of `W.F` |
| PriceForms.SignTextRead | scraper.py:158-174 | in text with no currency symbol before `c`, a symbol `c` followed by a positive `W.F` makes the first pattern read `W.F`, and `c` is the currency |
| PriceForms.SignTextPrice | scraper.py:144-180 | on such text, when the cleaning leaves it alone, `extract_price_value` returns `(W.F, c)` |
| PriceForms.NumberTextPrice | scraper.py:144-180 | a positive `W.F` followed by a symbol `c` gives `(W.F, c)`: symbol-then-number finds nothing and number-then-symbol reads `W.F` |
| PriceForms.PriceWordCleaned | scraper.py:148-157 | a leading "Price: " is removed with the colon and space after it, and the rest is left as it is |
| PriceForms.DollarExample | scraper.py:144-180 | `extract_price_value("$12.99") == (12.99, "$")` |
| PriceForms.TrailingSignExample | scraper.py:144-180 | `extract_price_value("12.99$") == (12.99, "$")` |
| PriceForms.OptionsExample | scraper.py:144-180 | `extract_price_value("3 options from $9.99") == (9.99, "$")`: the leading 3 is not taken for the price |
| PriceForms.ListPriceExample | scraper.py:144-180 | `extract_price_value("Price: $1,234.56") == (1234.56, "$")`: noise word dropped, thousands comma removed |
| PriceForms.ListPriceWords | scraper.py:150-155 | "LIST PRICE" in capitals starts none of "Price", "From", "Save", "Limited time deal", and starts "List Price" ignoring case |
| PriceForms.ListPriceWordCleaned | scraper.py:148-157 | a leading "LIST PRICE: " is removed with the colon and space after it |
| PriceForms.UpperListPriceExample | scraper.py:144-180 | `extract_price_value("LIST PRICE: $5.00") == (5.0, "$")`: the noise word is matched ignoring case |
| Fallback.FirstHit | scraper.py:190-203 | the value of the first element that does not skip; nothing when all skip or when that element raises |
| Fallback.FirstHitAt | scraper.py:190-203 | the scan is decided by its first element that does not skip |
| Fallback.FirstHitKeeps | scraper.py:190-203 | a scan returns only values every element's value satisfies |
| Fallback.Scan | scraper.py:190-203 | the loop returning from its body computes `FirstHit` |
| Fallback.FirstSuccessTrace | scraper.py:379-385 | the strategies run in list order, all but the last returned nothing, a value is the last one's, and no value means every strategy ran and none returned one |
| Fallback.FirstSuccessKeeps | scraper.py:379-382 | the chain returns only values every strategy can return |
| Fallback.FirstSuccessStep | scraper.py:379-382 | one turn of the strategy loop either ends the chain with the current strategy's value or leaves the rest of the chain to the remaining strategies |
| Fallback.FirstSuccessHead | scraper.py:379-382 | loop helper of `RunStrategies`: a chain begins by invoking its first strategy and stops there on a value |
| Fallback.FirstSuccess | scraper.py:379-385 | the chain invokes no more strategies than there are, and at least one when there is one (the order and outcome of each attempt are `FirstSuccessTrace`'s) |
| PriceChain.QuoteStep | scraper.py:224-230 | a parsed price goes on to the caller as a positive price in a known currency; no price lets the scan go on |
| PriceChain.OptionsStep | scraper.py:190-200 | "N options from $X" gives a positive dollar price; no match goes on to the next element |
| PriceChain.OffscreenStep | scraper.py:241-247 | an offscreen element is parsed only when its text is not empty and holds '$' |
| PriceChain.VisibleStep | scraper.py:261-282 | a visible price is read only when the comma-free whole part is digits with dots |
| PriceChain.ScriptStep | scraper.py:309-313 | a script result is parsed only when it is not null and not empty |
| PriceChain.Apply | scraper.py:182-341 | only the variant strategy changes the page, to the one the click leads to; without a clickable variant it finds nothing |
| PriceChain.OffscreenPrice | scraper.py:241-247 | the loop over `elements[:limit]` gives only positive prices in a known currency, and nothing for no elements or limit 0 |
| PriceChain.Unavailable | scraper.py:357-365 | a product is unavailable only when some availability text is at least as long as "unavailable" |
| PriceChain.PriceOf | scraper.py:343-385 | no result exactly when the scroll script raises; then, or for an unavailable product, no strategy is invoked and the page is unchanged; at most the six strategies are invoked |
| PriceChain.ApplyFinds | scraper.py:182-341 | every strategy returns nothing or a positive price in a known currency; only the variant strategy changes the page |
| PriceChain.UnavailableShortCircuit | scraper.py:357-365 | an "unavailable" product (any letter case) is priced `(0.0, "$")` and no strategy runs |
| PriceChain.StrategyOrder | scraper.py:369-385 | otherwise the strategies run in their fixed order until the first price; the result is that price, or `(0.0, "$")` after all six returned nothing |
| PriceChain.PriceOutcome | scraper.py:343-385 | `get_price` raises exactly when its scroll script does; otherwise its price is `(0.0, "$")` or positive in a known currency |
| PriceChain.PriceExtractor.constructor | scraper.py:140-142 | the extractor works on the given driver |
| PriceChain.PriceExtractor.TryOptionsText | scraper.py:182-203 | `try_options_text` is the scan `FirstHit` specifies |
| PriceChain.PriceExtractor.ScanOffscreen | scraper.py:241-247 | the loop over `elements[:limit]` returns the first offscreen price |
| PriceChain.PriceExtractor.TrySelectVariant | scraper.py:205-233 | `try_select_variant` clicks the first variant and reads the first three offscreen prices of the new page |
| PriceChain.PriceExtractor.TryOffscreenElements | scraper.py:235-250 | `try_offscreen_elements` reads the first five offscreen prices |
| PriceChain.PriceExtractor.TryVisiblePrice | scraper.py:252-287 | `try_visible_price` tries each selector in order, the first readable price winning |
| PriceChain.PriceExtractor.Invoke | scraper.py:379-380 | invoking a strategy returns what it returns and leaves the page it leaves |
| PriceChain.PriceExtractor.IsUnavailable | scraper.py:357-367 | the availability loop answers true exactly when some text contains "unavailable" in any case |
| PriceChain.PriceExtractor.GetPrice | scraper.py:343-385 | `get_price`'s result, page and strategy trace are those of `PriceOf` |
| PriceChain.PriceExtractor.RunStrategies | scraper.py:379-385 | the `for method in methods` loop computes the chain `FirstSuccess` specifies, trace included |
| Fields.RatingOf | scraper.py:412-424 | a rating is never negative, and there is none without the element |
| Fields.ReviewsOf | scraper.py:426-438 | there is no review count without the element |
| Fields.KeptBullets | scraper.py:447-450 | no more bullets are kept than there are elements; `KeptInOrder` and `KeptAll` state which are kept and in what order |
| Fields.KeptBulletsFrom | scraper.py:447-450 | every kept bullet is the stripped text of one of the elements and is longer than ten characters |
| Fields.KeptBulletsSnoc | scraper.py:447-450 | loop helper of `ExtractBulletPoints`: one more element appends its kept text, if any |
| Fields.KeptNone | scraper.py:447-451 | no bullet is kept exactly when every text strips to ten characters or fewer |
| Fields.BulletSummary | scraper.py:440-453 | the summary is empty when nothing is kept, and otherwise starts with the first kept bullet and ends with the last |
| Fields.BulletSummaryShape | scraper.py:440-453 | the summary joins at most five bullets from the first five elements, each longer than ten characters; every such element's stripped text is kept, in element order; it is empty exactly when none qualifies |
| Fields.SummaryEmpty | scraper.py:451 | the summary is empty exactly when no bullet is kept |
| Fields.KeptShape | scraper.py:447-450 | the kept bullets of any list: each from an element and longer than ten characters, every qualifying element kept, in order, and none exactly when no element qualifies |
| Fields.Kept | scraper.py:448-450 | one element keeps at most one bullet: its stripped text, exactly when that is longer than ten characters |
| Fields.KeptInOrder | scraper.py:447-450 | the kept bullets are, in order, the stripped texts at increasing positions, and a position is kept exactly when its text strips to more than ten characters |
| Fields.KeptAll | scraper.py:447-450 | every element whose stripped text is longer than ten characters is kept |
| Fields.RankText | scraper.py:476-485 | a rank cell's text, formatted or cut at '(', never contains '(' |
| Fields.RankMatchText | scraper.py:476-482 | in `"#N in Category"`, N is one or more digits, the category captured is not empty and holds no '(', and the formatted text has no '(' |
| Fields.StripKeepsOut | scraper.py:485 | stripping adds no character |
| Fields.SpanStep | scraper.py:493-496 | a detail span qualifies exactly when its stripped text starts with '#' and contains "in"; it then gives that text cut before its first '(' and stripped, which holds no '('; a span never ends the scan with an error |
| Fields.HeaderStep | scraper.py:465-466 | a header is taken exactly when its text contains "Best Sellers Rank", and the value is that header; a header never ends the scan with an error |
| Fields.BsrFromHeader | scraper.py:465-485 | the first header naming the Best Sellers Rank decides: its rank cell read as `RankText`, or nothing when the cell is missing, whatever the detail-bullets section holds |
| Fields.BsrFromSpans | scraper.py:487-498 | without such a header the detail-bullets scan decides, and without that section there is nothing |
| Fields.BsrFromSpan | scraper.py:487-498 | without such a header, the first span starting with '#' and containing "in" gives its stripped text before the first '(' |
| Fields.BestSellersRank | scraper.py:455-503 | the Best Sellers Rank is nothing or a text without '(' |
| FieldForms.FirstRunEnds | scraper.py:419 | in `pre + run + rest`, with no character of the class in `pre` and `rest` not starting with one, the greedy run after `pre` is exactly `run` |
| FieldForms.DotRunFind | scraper.py:419 | the match of `([\d.]+)` in such text is `run` |
| FieldForms.RatingRun | scraper.py:412-424 | for text whose first run of digits and dots is `run`, the rating is `float(run)` |
| FieldForms.RatingDecimal | scraper.py:412-424 | a rating run written `W.F` gives W plus F scaled down by its number of digits |
| FieldForms.RatingTwoDots | scraper.py:419-424 | a rating run with two dots is rejected by `float()`, so there is no rating |
| FieldForms.RatingExample | scraper.py:412-424 | "4.5 out of 5 stars" rates 4.5 |
| FieldForms.WithoutKeeps | scraper.py:435 | `replace(",", "")` keeps every other character |
| FieldForms.CommaFreeEmpty | scraper.py:435 | a run of digits and commas loses all its characters to `replace` exactly when it holds no digit |
| FieldForms.CommaRunFind | scraper.py:433 | the match of `([\d,]+)` in text whose first run of digits and commas is `run` is `run` |
| FieldForms.ReviewsRun | scraper.py:426-438 | the review count is `int()` of the first run of digits and commas with its commas removed; there is one exactly when that run holds a digit |
| FieldForms.ReviewsExample | scraper.py:426-438 | "(1,234 ratings)" counts 1234 reviews |
| FieldForms.NumberEndShift | scraper.py:194 | `[\d,]+\.?\d*` ends at the same place in a number whatever text comes before it |
| FieldForms.DecimalWholeNumber | scraper.py:194 | `[\d,]+\.?\d*` takes a number `W.F` whole |
| FieldForms.OptionsTextFind | scraper.py:192-194 | "N options from $X" matches from its first character to its last, capturing `X` |
| FieldForms.OptionsWordsAt | scraper.py:192-194 | the count, "options" and "from" are matched up to the whitespace before '$' |
| FieldForms.OptionsPriceTail | scraper.py:192-194 | the '$' and the number `X` end the match |
| FieldForms.OptionsTextGroup | scraper.py:191-196 | "N options from $X" is its own strip, and its capture is `X` |
| FieldForms.OptionsTextFound | scraper.py:190-200 | a positive `W.F` after "N options from $" is the price, in dollars |
| FieldForms.OptionsTextCommas | scraper.py:195-197 | a capture of commas only leaves nothing for `float()`, which raises and ends the options strategy with no price |
| FieldForms.OptionsTextExample | scraper.py:190-200 | "3 options from $1,299.00" offers 1299 dollars |
| FieldForms.RankFindAt | scraper.py:476 | a rank match at the start of the text is the one `re.search` returns |
| FieldForms.RankMatchAt | scraper.py:476 | "#D in C", with C running up to a '(' or the end, matches with groups D and C |
| FieldForms.RankTextShape | scraper.py:470-482 | such a cell reads "#D in " followed by C stripped |
| FieldForms.RankGiveBackMatch | scraper.py:476 | with two or more whitespace characters between "in" and a '(', the engine gives the last of them back to `[^(]+` |
| FieldForms.RankTextGiveBack | scraper.py:476-482 | such a cell reads "#D in " with an empty category |
| FieldForms.RankTextOneDigit | scraper.py:470-482 | a cell "#D in C" with a one-digit rank reads "#D in " followed by C stripped |
| FieldForms.RankTextExample | scraper.py:470-482 | "#1 in Home & Kitchen (See Top 100 in Home & Kitchen)" reads "#1 in Home & Kitchen" |
| Page.Displayed | scraper.py:223 | `textContent or text` is empty exactly when both are |
| Page.AfterClick | scraper.py:214-215 | clicking the first variant moves to the page it leads to, and changes nothing without one |
| Page.Browser.constructor | scraper.py:396-403 | the driver starts on the given page of the given site |
| Page.Browser.Get | scraper.py:512 | `driver.get` loads the URL's page exactly when the site has it, and otherwise stays put |
| Page.Browser.ClickFirstVariant | scraper.py:215 | the driver moves to the page after the click |
| Discovery.Candidates | scraper.py:609-611 | `div[data-asin]:not([data-asin=""])` keeps exactly the non-empty attributes |
| Discovery.Distinct | scraper.py:615-619 | no more values are kept than the list holds; `DistinctMembers` states which |
| Discovery.DistinctMembers | scraper.py:615-619 | the values kept are distinct and are exactly the non-blank values of the list |
| Discovery.DistinctPrefix | scraper.py:615-621 | scanning further only appends values after those already kept |
| Discovery.DistinctSnoc | scraper.py:618-619 | loop helper of `CollectAsins`: one more element is appended when it is not blank and not yet kept |
| Discovery.Cap | scraper.py:620-621 | the loop stops at no fewer than one ASIN, and at `max_products` when that is positive |
| Discovery.Collected | scraper.py:614-623 | what is collected is at most the cap, and a prefix of the distinct non-blank values of the scanned part |
| Discovery.FirstSeenOrder | scraper.py:618-619 | kept values are in the order of their first occurrence |
| Discovery.CollectedStop | scraper.py:620-621 | once `max_products` values are kept, they are the collected ASINs |
| Discovery.CollectAsins | scraper.py:614-623 | the collecting loop, with its `break`, computes `Collected` |
| Discovery.CollectedShape | scraper.py:614-623 | the collected ASINs are distinct and not blank, at most `max_products` of them (one when it is negative), all from the first `2 * max_products` elements, and a non-blank element is left out only when the cap was reached |
| Discovery.DistinctExample | scraper.py:618 | `[a, "", b, a]` keeps `[a, b]` |
| Discovery.ListingExample | scraper.py:614-623 | `[a, "", b, a, c, d, b, f]` with `max_products` 3 collects `[a, b, c]` |
| Discovery.CollectCapExample | scraper.py:620-621 | with `max_products` 1, `[a, b]` collects `[a]` |
| Discovery.CollectNegativeExample | scraper.py:615-621 | with `max_products` -1, `[a, b, c]` is sliced to `[a]` and collects `[a]` |
| Store.Upsert | scraper.py:86 | `INSERT OR REPLACE` on the UNIQUE `asin`: one row for the ASIN, with the new values, every other row unchanged |
| Store.LastSaveWins | scraper.py:86 | saving the same ASIN twice keeps the second record |
| Store.SavesCommute | scraper.py:86 | saves of different ASINs can be reordered |
| Store.SaveAll | scraper.py:656 | saving a batch keeps every ASIN the table held |
| Store.SaveAllAppend | scraper.py:656 | saving one batch after another is saving them together |
| Store.SaveAllKeeps | scraper.py:656 | after saving products with distinct ASINs, each is stored as saved, the keys are the old ones and the batch's, and other rows are untouched |
| Store.Accepted | scraper.py:80-111 | the products whose writes succeed are no more than the batch |
| Store.AcceptedMembers | scraper.py:80-111 | they are exactly the batch's products whose writes succeed |
| Store.AcceptedDistinct | scraper.py:80-111 | dropping failed writes keeps the ASINs distinct |
| Store.AcceptedAppend | scraper.py:80-111 | the accepted products of two batches are those of each, in order |
| Store.AcceptedAll | scraper.py:80-111 | when every write succeeds, the whole batch is stored |
| Store.SaveAcceptedKeeps | scraper.py:80-111 | when some writes fail, each product whose write succeeds is stored as it is, no ASIN outside the table and the batch appears, and rows of ASINs outside the batch are untouched |
| Store.DatabaseManager.constructor | scraper.py:48-57 | `CREATE TABLE IF NOT EXISTS` keeps an existing table's rows and otherwise starts empty |
| Store.DatabaseManager.InitDatabase | scraper.py:52-78 | creating the table again changes nothing |
| Store.DatabaseManager.SaveProduct | scraper.py:80-111 | `save_product` upserts when the write succeeds; a failed write is swallowed and changes nothing |
| Scraper.Discount | scraper.py:538 | the discount, as a fraction of 100 of the list price, is the saving `list_price - price` |
| Scraper.TitleOf | scraper.py:515-521 | "Product <asin>" without a title element; otherwise the stripped title, no whitespace at either end |
| Scraper.KeptRating | scraper.py:545-548 | `if rating:` keeps a rating exactly when it is present and not zero, unchanged |
| Scraper.KeptReviews | scraper.py:550-553 | `if reviews:` keeps a count exactly when it is present and at least one, unchanged |
| Scraper.KeptText | scraper.py:556-565 | `if bullets:` and `if bsr:` keep a text exactly when it is present and not empty, unchanged |
| Scraper.DetailsOn | scraper.py:505-587 | the title is set first; no price exactly when the scroll raises, and then only the title; with a price, price and currency are the quote `get_price` returns, list price and discount are `ListPriceOf` on that price, and rating, review count, bullets, rank, image and Prime badge are read from the page the price search left, where the driver stays |
| Scraper.DetailsOf | scraper.py:505-587 | a title exactly when the product page loads; nothing and the driver unmoved when it does not |
| Scraper.DiscountBounds | scraper.py:536-538 | with positive prices the discount is below 100%, and positive, zero or negative as the list price is above, equal to or below the price |
| Scraper.ListPriceOf | scraper.py:528-541 | list price and discount are set together, exactly when the price parsed from the element's text and the product's price are both positive; the list price is the parsed one and the discount is computed from the two |
| Scraper.DetailsFacts | scraper.py:505-587 | a title exactly when the page loads ("Product <asin>" when it has none); no price exactly when `get_price` raises, and then only the title; otherwise price and currency are `get_price`'s quote, list price and discount are `ListPriceOf`'s, and every field is within `ProductShape` |
| Scraper.ProductOf | scraper.py:636-654 | an item without a title is skipped; otherwise one product with that ASIN and rank |
| Scraper.ProductOfFacts | scraper.py:636-654 | a product is built exactly when the ASIN's page loads, within `ProductShape`; when `get_price` raises it holds the title with price 0.0, currency "$", `is_prime` false, bullet points "" and nothing else; otherwise its price and currency are `get_price`'s quote and its Prime badge and bullet summary ("" when none is kept) come from the page the price search left |
| Scraper.ProductDefaults | scraper.py:640-654 | details holding only a title make a product whose other fields take the `details.get` defaults: 0.0, "$", `False`, "" and `None` |
| Scraper.ProcessStep | scraper.py:628-657 | loop helper of the proofs about `Process`: the n-th turn appends the product of the n-th ASIN, read on the page the earlier turns left |
| Scraper.Process | scraper.py:628-668 | the loop builds at most one product per ASIN, and before any turn nothing, on the page it started from |
| Scraper.ScrapeWith | scraper.py:589-678 | nothing when the listing does not load (driver left where it was), or has no `div[data-asin]` or its scroll raises (driver on the listing); never more products than the cap |
| Scraper.ScrapeOf | scraper.py:589-678 | the same for the details read on a site |
| Scraper.RankedStep | scraper.py:628-657 | appending the product, if any, of the n-th ASIN keeps the products ranked |
| Scraper.ProcessRanks | scraper.py:628-657 | each product's rank is its ASIN's 1-based position, and ranks increase |
| Scraper.RanksBelow | scraper.py:628 | products of the first n ASINs have ranks up to n |
| Scraper.CoverStep | scraper.py:636-658 | appending the product of rank n does not change which lower ranks are present |
| Scraper.ProcessProducts | scraper.py:636-654 | every product of the loop is within `ProductShape` |
| Scraper.ProcessCovers | scraper.py:628-668 | an ASIN has a product exactly when its details have a title: a skipped item leaves its rank unused and does not renumber the rest |
| Scraper.RankedDistinct | scraper.py:618-628 | ranked products of distinct ASINs have distinct ASINs |
| Scraper.ReaderFacts | scraper.py:505-587 | the details read on a site give products within `ProductShape` and a title exactly when the page loads |
| Scraper.ProcessShape | scraper.py:628-668 | the loop over distinct ASINs: ranked, distinct ASINs, within `ProductShape`, one product per ASIN whose page loads |
| Scraper.ProcessShapeBy | scraper.py:628-668 | the same for any details reader with those two properties |
| Scraper.ScrapeShape | scraper.py:589-678 | nothing when the listing fails; otherwise at most `max_products` products (one when negative), ranked by their collected ASINs' positions, with distinct ASINs, one per collected ASIN whose page loads, each within `ProductShape` |
| Scraper.ScrapeShapeBy | scraper.py:589-678 | the same for any details reader with those two properties |
| Scraper.ScrapeSaved | scraper.py:656-657 | after a scrape, every returned product whose write succeeded is in the table as returned, no other new ASIN appears, and rows of ASINs not scraped are untouched |
| Scraper.AmazonScraper.constructor | scraper.py:390-403 | the scraper works on the given table and driver, with a price extractor on that driver |
| Scraper.AmazonScraper.ExtractRating | scraper.py:412-424 | `extract_rating` reads `RatingOf` from the current page |
| Scraper.AmazonScraper.ExtractReviewsCount | scraper.py:426-438 | `extract_reviews_count` reads `ReviewsOf` from the current page |
| Scraper.AmazonScraper.ExtractBulletPoints | scraper.py:440-453 | the bullet loop computes `BulletSummary` |
| Scraper.AmazonScraper.ExtractBestSellersRank | scraper.py:455-503 | `extract_best_sellers_rank` computes `BestSellersRank` |
| Scraper.AmazonScraper.GetProductDetails | scraper.py:505-587 | `get_product_details` returns the details `DetailsOf` describes and leaves the driver where it says |
| Scraper.AmazonScraper.ScrapeTopProducts | scraper.py:589-678 | `scrape_top_products` returns what `ScrapeOf` describes, and the table is the old one with the returned products whose writes succeed saved in order |
| Scraper.AmazonScraper.ProcessAsins | scraper.py:628-668 | the rank loop computes `Process` and saves as it goes |
| Scraper.AmazonScraper.ScrapeNext | scraper.py:628-668 | one turn of the rank loop extends the products and the saves by that ASIN's product |
| Scraper.AmazonScraper.ScrapeOne | scraper.py:634-661 | one ASIN: its product when the details have a title, saved when the write succeeds; otherwise nothing |

## Left out

- Selenium: driver setup, Chrome options, user agents, CSS selectors, XPath and the JavaScript bodies passed to `execute_script`. Their results are fields of `Page`: texts, optional elements and script results.
- `wait.until(...)` on the listing is modelled as the listing having no `div[data-asin]`. The wait before `get_price` cannot change the result and is left out.
- `time.sleep` and `random.uniform` pacing: no effect on results.
- Scrolling on a listing or product page is a single flag. Either the script raises (the listing yields nothing; `get_price` raises) or it has no effect.
- Floating point: `float()` is the exact decimal value of its text. `round(discount, 2)` is not modelled; discounts are stated before rounding. Python's `float()` and `int()` edge cases outside digits, dots and commas (signs, exponents, underscores, `inf`) cannot arise from the captured groups.
- `\d`, `str.isdigit()` and `re.IGNORECASE` are restricted to ASCII digits and letters. `\s` and `str.strip()` use Python's whitespace set.
- SQLite: connections, commits, the autoincrement `id` and the `scraped_at` timestamp. The table is a map keyed by ASIN.
- Store.DatabaseManager.SaveProduct: whether a write fails is a fixed predicate `accepts` of the product. A failure that depends on time or on earlier writes is not captured.
- Exceptions while reading an attribute in the ASIN loop (`except: continue`) are not modelled: an attribute is always readable.
- Exceptions inside `get_product_details` other than `driver.get` failing and `get_price`'s scroll are not modelled. Each element lookup that can fail is an `Option` in `Page` instead.
- Logging, `main()`, the command line, `KeyboardInterrupt` handling and `close_driver`.
- `api_server.py`: Flask routes and SQL executed by SQLite.
