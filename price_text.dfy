/**
 * `PriceExtractor.extract_price_value`: price and currency from a fragment of page text.
 * Used for every price the scraper reads, list prices included.
 */
module PriceText {
  import opened Optional
  import opened Text
  import opened Decimal
  import opened Regex
  import opened Fallback

  /** The `(price, currency)` pair: no price, or a price that is strictly positive. */
  datatype Parsed = Parsed(price: Option<real>, currency: string)

  const Currencies: set<string> := {"$", "\U{a3}", "\U{20ac}", "\U{a5}"}

  predicate IsNumberPattern(p: Pattern) {
    p.SignThenNumber? || p.NumberThenSign? || p.Number? || p.OptionsFrom?
  }

  type NumberPattern = p: Pattern | IsNumberPattern(p) witness Number

  /** Symbol then number, number then symbol, bare number: the order the patterns are tried in. */
  const PricePatterns: seq<NumberPattern> := [SignThenNumber, NumberThenSign, Number]

  /** `re.sub(NoisePrefix, "", s, flags=re.IGNORECASE)`: only a match at the start is removed. */
  function StripNoise(s: string): (r: string)
    ensures |r| <= |s| && r == s[|s| - |r|..]
    ensures FirstWordPrefix(s, NoiseWords).None? ==> r == s
    ensures var w := FirstWordPrefix(s, NoiseWords);
      w.Some? && w.value > 0 ==> r == s[RunEnd(s, w.value, IsSpaceOrColon)..]
  {
    match MatchAt(NoisePrefix, s, 0)
    case None => s
    case Some(m) => s[m.whole.hi..]
  }

  /** The text the price patterns are searched in: stripped, noise prefix removed, stripped again. */
  function Cleaned(text: string): (r: string)
    ensures |r| <= |text|
    ensures r == [] || (!IsSpace(r[0]) && !IsSpace(r[|r| - 1]))
  {
    Strip(StripNoise(Strip(text)))
  }

  /** The first currency symbol occurring in `s`, or "$" when none does. */
  function CurrencyOf(s: string): (c: string)
    ensures c in Currencies
    ensures
      || ((forall k :: 0 <= k < |s| ==> !IsSign(s[k])) && c == "$")
      || (exists k :: 0 <= k < |s| && IsSign(s[k]) && c == [s[k]] && forall j :: 0 <= j < k ==> !IsSign(s[j]))
  {
    match Search(CurrencySign, s, 0)
    case None =>
      assert forall k :: 0 <= k < |s| ==> !IsSign(s[k]) by {
        forall k | 0 <= k < |s| ensures !IsSign(s[k]) {
          SignMatch(s, k);
        }
      }
      "$"
    case Some(k) =>
      assert forall j :: 0 <= j < k ==> !IsSign(s[j]) by {
        forall j | 0 <= j < k ensures !IsSign(s[j]) {
          SignMatch(s, j);
        }
      }
      SignMatch(s, k);
      [s[k]]
  }

  lemma SignMatch(s: string, k: nat)
    requires k <= |s|
    ensures MatchAt(CurrencySign, s, k).Some? <==> k < |s| && IsSign(s[k])
  {
  }

  /** The group of the leftmost match of `p` in `s`, commas removed, as `float()` reads it. */
  function PatternValue(p: NumberPattern, s: string): (v: Option<real>)
    ensures v.Some? ==> v.value >= 0.0
  {
    match Find(p, s)
    case None => None
    case Some(m) =>
      var digits := Without(GroupText(s, m, 0), ',');
      GroupTextChars(p, s, 0);
      assert forall k :: 0 <= k < |digits| ==> IsDigit(digits[k]) || digits[k] == '.';
      ParseFloat(digits)
  }

  /** One iteration of the pattern loop: a positive value returns, anything else goes on. */
  function PatternStep(s: string, p: NumberPattern): (r: Step<real>)
    ensures !r.Abort?
    ensures r.Found? <==> PatternValue(p, s).Some? && PatternValue(p, s).value > 0.0
    ensures r.Found? ==> r.value == PatternValue(p, s).value
  {
    match PatternValue(p, s)
    case Some(v) => if v > 0.0 then Found(v) else Skip
    case None => Skip
  }

  /** The price loop: the first pattern, in order, whose leftmost match reads as a positive number. */
  function PriceIn(s: string): (v: Option<real>)
    ensures v.Some? ==> v.value > 0.0
  {
    var step := (p: NumberPattern) => PatternStep(s, p);
    FirstHitKeeps(PricePatterns, step, (v: real) => v > 0.0);
    FirstHit(PricePatterns, step)
  }

  /**
   * `extract_price_value(price_text)`: empty text gives `(None, "$")`; otherwise the currency
   * is the first symbol of the cleaned text ("$" when there is none) and the price is the
   * first pattern's value that is positive, if any.
   */
  function ExtractPriceValue(text: string): (r: Parsed)
    ensures text == [] ==> r == Parsed(None, "$")
    ensures r.price.Some? ==> r.price.value > 0.0
    ensures r.currency in Currencies
  {
    if text == [] then Parsed(None, "$")
    else
      var s := Cleaned(text);
      Parsed(PriceIn(s), CurrencyOf(s))
  }

  /** The patterns are tried in order: the first whose value is positive decides the price. */
  lemma PatternPrecedence(s: string, i: nat)
    requires i < |PricePatterns|
    requires PatternStep(s, PricePatterns[i]).Found?
    requires forall j :: 0 <= j < i ==> PatternStep(s, PricePatterns[j]).Skip?
    ensures PriceIn(s) == Some(PatternStep(s, PricePatterns[i]).value)
  {
    FirstHitAt(PricePatterns, (p: NumberPattern) => PatternStep(s, p), i);
  }

  /** A case-insensitive prefix agrees with the text on the first character. */
  lemma StartsHead(s: string, w: string)
    requires w != [] && StartsWithIgnoringCase(s, w)
    ensures LowerChar(s[0]) == LowerChar(w[0])
  {
    assert Lower(s[..|w|])[0] == Lower(w)[0];
  }

  /** Text whose first letter starts none of the noise words loses nothing to the noise prefix. */
  lemma NoNoise(s: string)
    requires s != [] && LowerChar(s[0]) !in "pfsl"
    ensures StripNoise(s) == s
  {
    var ws := NoiseWords;
    forall k | 0 <= k < |ws| ensures !StartsWithIgnoringCase(s, ws[k]) {
      if StartsWithIgnoringCase(s, ws[k]) { StartsHead(s, ws[k]); }
    }
    assert FirstWordPrefix(s, ws[6..]) == None;
    assert FirstWordPrefix(s, ws[5..]) == FirstWordPrefix(s, ws[6..]);
    assert FirstWordPrefix(s, ws[4..]) == FirstWordPrefix(s, ws[5..]);
    assert FirstWordPrefix(s, ws[3..]) == FirstWordPrefix(s, ws[4..]);
    assert FirstWordPrefix(s, ws[2..]) == FirstWordPrefix(s, ws[3..]);
    assert FirstWordPrefix(s, ws[1..]) == FirstWordPrefix(s, ws[2..]);
    assert FirstWordPrefix(s, ws[0..]) == FirstWordPrefix(s, ws[1..]);
    assert ws[0..] == ws;
  }

  /** On text the cleaning leaves alone, the price and currency are read from the text itself. */
  lemma ExtractClean(s: string)
    requires s != [] && Cleaned(s) == s
    ensures ExtractPriceValue(s) == Parsed(PriceIn(s), CurrencyOf(s))
  {
  }
}
