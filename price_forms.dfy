/**
 * What `extract_price_value` reads from the usual shapes of price text: a currency symbol
 * before a number (possibly after other words, possibly after a noise word such as "Price:"),
 * and a number followed by a symbol; with the shapes the method's documentation names.
 */
module PriceForms {
  import opened Optional
  import opened Text
  import opened Decimal
  import opened Regex
  import opened PriceText
  import opened Fallback

  /** Text holding no currency symbol. */
  predicate NoSigns(s: string) {
    forall k :: 0 <= k < |s| ==> !IsSign(s[k])
  }

  /** A number written `W.F`: W a non-empty run of digits and commas, F digits. */
  predicate DecimalParts(whole: string, fraction: string) {
    && whole != []
    && (forall k :: 0 <= k < |whole| ==> IsNumberChar(whole[k]))
    && AllDigits(fraction)
  }

  /** Digits and commas with the commas removed are digits. */
  lemma CommaFreeDigits(whole: string)
    requires forall k :: 0 <= k < |whole| ==> IsNumberChar(whole[k])
    ensures AllDigits(Without(whole, ','))
  {
    var r := Without(whole, ',');
    forall k | 0 <= k < |r| ensures IsDigit(r[k]) {
      assert r[k] in whole;
      var j :| 0 <= j < |whole| && whole[j] == r[k];
    }
  }

  /** The exact value of `W.F` once the commas of W are removed. */
  function PartsValue(whole: string, fraction: string): real
    requires DecimalParts(whole, fraction)
  {
    CommaFreeDigits(whole);
    DecimalValue(DigitsValue(Without(whole, ',')), DigitsValue(fraction), Pow10(|fraction|))
  }

  /** Removing the commas of `W.F` removes only those of W. */
  lemma WithoutWhole(whole: string, fraction: string)
    requires AllDigits(fraction)
    ensures Without(whole + "." + fraction, ',') == Without(whole, ',') + "." + fraction
  {
    var t := "." + fraction;
    assert ',' !in t by {
      forall k | 0 <= k < |t| ensures t[k] != ',' {
        if k > 0 { assert t[k] == fraction[k - 1]; }
      }
    }
    assert whole + "." + fraction == whole + t;
    WithoutAppend(whole, t, ',');
  }

  /** `float(text.replace(',', ''))` on the text `W.F` of a positive number is its value. */
  lemma PartsFloat(whole: string, fraction: string)
    requires DecimalParts(whole, fraction) && PartsValue(whole, fraction) > 0.0
    ensures AllDigits(Without(whole, ','))
    ensures ParseFloat(Without(whole + "." + fraction, ',')) == Some(PartsValue(whole, fraction))
  {
    var w := Without(whole, ',');
    CommaFreeDigits(whole);
    WithoutWhole(whole, fraction);
    ParseFloatParts(w, fraction);
  }

  /** The text `pre`, a currency symbol `c`, and the number `W.F`. */
  function SignText(pre: string, c: char, whole: string, fraction: string): string {
    pre + [c] + whole + "." + fraction
  }

  /** Symbol then number matches at the symbol and captures `W.F`, up to the end of the text. */
  lemma SignTextAt(pre: string, c: char, whole: string, fraction: string)
    requires IsSign(c) && DecimalParts(whole, fraction)
    ensures var s := SignText(pre, c, whole, fraction);
      MatchAt(SignThenNumber, s, |pre|) == Some(Match(Span(|pre|, |s|), [Span(|pre| + 1, |s|)]))
  {
    var s := SignText(pre, c, whole, fraction);
    var i := |pre|;
    var d := i + 1 + |whole|;
    assert s[i] == c && s[i + 1] == whole[0] && s[d] == '.';
    forall k | i + 1 <= k < d ensures IsNumberChar(s[k]) {
      assert s[k] == whole[k - i - 1];
    }
    forall k | d + 1 <= k < |s| ensures IsDigit(s[k]) {
      assert s[k] == fraction[k - d - 1];
    }
    RunStops(s, i + 1, i + 1, IsSpace);
    RunStops(s, i + 1, d, IsNumberChar);
    RunStops(s, d + 1, |s|, IsDigit);
  }

  /** When `pre` holds no currency symbol, `re.search` finds that match. */
  lemma SignTextFind(pre: string, c: char, whole: string, fraction: string)
    requires NoSigns(pre) && IsSign(c) && DecimalParts(whole, fraction)
    ensures var s := SignText(pre, c, whole, fraction);
      Find(SignThenNumber, s) == Some(Match(Span(|pre|, |s|), [Span(|pre| + 1, |s|)]))
  {
    var s := SignText(pre, c, whole, fraction);
    SignTextAt(pre, c, whole, fraction);
    forall j | 0 <= j < |pre| ensures MatchAt(SignThenNumber, s, j).None? {
      assert s[j] == pre[j];
    }
    assert Search(SignThenNumber, s, 0) == Some(|pre|);
  }

  /**
   * Text that does not start with whitespace or with the first letter of a noise word, and
   * ends in a digit or dot, comes out of the cleaning unchanged.
   */
  lemma SignTextClean(pre: string, c: char, whole: string, fraction: string)
    requires IsSign(c) && DecimalParts(whole, fraction)
    requires pre == [] || (!IsSpace(pre[0]) && LowerChar(pre[0]) !in "pfsl")
    ensures Cleaned(SignText(pre, c, whole, fraction)) == SignText(pre, c, whole, fraction)
  {
    var s := SignText(pre, c, whole, fraction);
    assert s[0] == if pre == [] then c else pre[0];
    assert s[|s| - 1] == if fraction == [] then '.' else fraction[|fraction| - 1];
    StripKeeps(s);
    NoNoise(s);
  }

  /**
   * In text with no currency symbol before `c`, a symbol followed by a positive number `W.F`
   * (commas allowed in W) gives that number, commas removed, as the price and `c` as the
   * currency.
   */
  lemma SignTextRead(pre: string, c: char, whole: string, fraction: string)
    requires NoSigns(pre) && IsSign(c) && DecimalParts(whole, fraction) && PartsValue(whole, fraction) > 0.0
    ensures var s := SignText(pre, c, whole, fraction);
      PriceIn(s) == Some(PartsValue(whole, fraction)) && CurrencyOf(s) == [c]
  {
    var s := SignText(pre, c, whole, fraction);
    SignTextValue(pre, c, whole, fraction);
    PatternPrecedence(s, 0);
    SignTextCurrency(pre, c, whole, fraction);
  }

  /** Symbol then number reads the number `W.F`. */
  lemma SignTextValue(pre: string, c: char, whole: string, fraction: string)
    requires NoSigns(pre) && IsSign(c) && DecimalParts(whole, fraction) && PartsValue(whole, fraction) > 0.0
    ensures PatternStep(SignText(pre, c, whole, fraction), SignThenNumber) == Found(PartsValue(whole, fraction))
  {
    SignTextFind(pre, c, whole, fraction);
    SignTextGroup(pre, c, whole, fraction);
    PartsFloat(whole, fraction);
  }

  /** What follows the symbol is the number. */
  lemma SignTextGroup(pre: string, c: char, whole: string, fraction: string)
    ensures var s := SignText(pre, c, whole, fraction);
      s[|pre| + 1..|s|] == whole + "." + fraction
  {
  }

  /** The first currency symbol of the text is `c`. */
  lemma SignTextCurrency(pre: string, c: char, whole: string, fraction: string)
    requires NoSigns(pre) && IsSign(c)
    ensures CurrencyOf(SignText(pre, c, whole, fraction)) == [c]
  {
    var s := SignText(pre, c, whole, fraction);
    assert s[|pre|] == c;
    assert forall j :: 0 <= j < |pre| ==> s[j] == pre[j];
  }

  /** The same read through `extract_price_value`, when the text is already clean. */
  lemma SignTextPrice(pre: string, c: char, whole: string, fraction: string)
    requires NoSigns(pre) && IsSign(c) && DecimalParts(whole, fraction) && PartsValue(whole, fraction) > 0.0
    requires pre == [] || (!IsSpace(pre[0]) && LowerChar(pre[0]) !in "pfsl")
    ensures ExtractPriceValue(SignText(pre, c, whole, fraction)) == Parsed(Some(PartsValue(whole, fraction)), [c])
  {
    SignTextExtract(pre, c, whole, fraction);
    SignTextRead(pre, c, whole, fraction);
  }

  /** Clean text of that shape is read as it stands. */
  lemma SignTextExtract(pre: string, c: char, whole: string, fraction: string)
    requires IsSign(c) && DecimalParts(whole, fraction)
    requires pre == [] || (!IsSpace(pre[0]) && LowerChar(pre[0]) !in "pfsl")
    ensures var s := SignText(pre, c, whole, fraction);
      ExtractPriceValue(s) == Parsed(PriceIn(s), CurrencyOf(s))
  {
    SignTextClean(pre, c, whole, fraction);
    ExtractClean(SignText(pre, c, whole, fraction));
  }

  /** The number `W.F` followed by the currency symbol `c`. */
  function NumberText(whole: string, fraction: string, c: char): string {
    whole + "." + fraction + [c]
  }

  /** The characters of `W.F` followed by `c`, by position. */
  lemma NumberTextChars(whole: string, fraction: string, c: char)
    requires IsSign(c) && DecimalParts(whole, fraction)
    ensures var s := NumberText(whole, fraction, c);
      && |s| == |whole| + |fraction| + 2
      && (forall k :: 0 <= k < |whole| ==> IsNumberChar(s[k]))
      && s[|whole|] == '.'
      && (forall k :: |whole| < k < |s| - 1 ==> IsDigit(s[k]))
      && s[|s| - 1] == c
  {
    var s := NumberText(whole, fraction, c);
    var d := |whole|;
    forall k | 0 <= k < d ensures IsNumberChar(s[k]) {
      assert s[k] == whole[k];
    }
    forall k | d < k < |s| - 1 ensures IsDigit(s[k]) {
      assert s[k] == fraction[k - d - 1];
    }
  }

  /** No currency symbol there is followed by a number, so symbol then number finds nothing. */
  lemma NumberTextNoSign(whole: string, fraction: string, c: char)
    requires IsSign(c) && DecimalParts(whole, fraction)
    ensures Find(SignThenNumber, NumberText(whole, fraction, c)).None?
  {
    var s := NumberText(whole, fraction, c);
    NumberTextChars(whole, fraction, c);
    forall j | 0 <= j < |s| - 1 ensures !IsSign(s[j]) {
    }
    RunStops(s, |s|, |s|, IsSpace);
    assert Search(SignThenNumber, s, 0).None?;
  }

  /** Number then symbol matches the whole text and captures `W.F`. */
  lemma NumberTextFind(whole: string, fraction: string, c: char)
    requires IsSign(c) && DecimalParts(whole, fraction)
    ensures var s := NumberText(whole, fraction, c);
      Find(NumberThenSign, s) == Some(Match(Span(0, |s|), [Span(0, |s| - 1)]))
  {
    var s := NumberText(whole, fraction, c);
    var d := |whole|;
    NumberTextChars(whole, fraction, c);
    RunStops(s, 0, d, IsNumberChar);
    RunStops(s, d + 1, |s| - 1, IsDigit);
    RunStops(s, |s| - 1, |s| - 1, IsSpace);
    assert MatchAt(NumberThenSign, s, 0).Some?;
  }

  /** Number then symbol reads the number `W.F`. */
  lemma NumberTextValue(whole: string, fraction: string, c: char)
    requires IsSign(c) && DecimalParts(whole, fraction) && PartsValue(whole, fraction) > 0.0
    ensures PatternStep(NumberText(whole, fraction, c), PricePatterns[1]) == Found(PartsValue(whole, fraction))
  {
    NumberTextFind(whole, fraction, c);
    NumberTextGroup(whole, fraction, c);
    PartsFloat(whole, fraction);
  }

  /** What precedes the symbol is the number. */
  lemma NumberTextGroup(whole: string, fraction: string, c: char)
    ensures var s := NumberText(whole, fraction, c);
      s[0..|s| - 1] == whole + "." + fraction
  {
  }

  /** The text is its own cleaning, and its only currency symbol is `c`. */
  lemma NumberTextClean(whole: string, fraction: string, c: char)
    requires IsSign(c) && DecimalParts(whole, fraction)
    ensures var s := NumberText(whole, fraction, c);
      Cleaned(s) == s && CurrencyOf(s) == [c]
  {
    var s := NumberText(whole, fraction, c);
    NumberTextChars(whole, fraction, c);
    StripKeeps(s);
    NoNoise(s);
    assert forall j :: 0 <= j < |s| - 1 ==> !IsSign(s[j]);
  }

  /**
   * A positive number `W.F` followed by a currency symbol, and nothing else, gives that number
   * as the price and that symbol as the currency.
   */
  lemma NumberTextPrice(whole: string, fraction: string, c: char)
    requires IsSign(c) && DecimalParts(whole, fraction) && PartsValue(whole, fraction) > 0.0
    ensures ExtractPriceValue(NumberText(whole, fraction, c)) == Parsed(Some(PartsValue(whole, fraction)), [c])
  {
    NumberTextExtract(whole, fraction, c);
    NumberTextPriceIn(whole, fraction, c);
  }

  /** The text is read as it stands, and its currency is `c`. */
  lemma NumberTextExtract(whole: string, fraction: string, c: char)
    requires IsSign(c) && DecimalParts(whole, fraction)
    ensures var s := NumberText(whole, fraction, c);
      ExtractPriceValue(s) == Parsed(PriceIn(s), [c])
  {
    NumberTextClean(whole, fraction, c);
    ExtractClean(NumberText(whole, fraction, c));
  }

  /** The price loop settles on number then symbol. */
  lemma NumberTextPriceIn(whole: string, fraction: string, c: char)
    requires IsSign(c) && DecimalParts(whole, fraction) && PartsValue(whole, fraction) > 0.0
    ensures PriceIn(NumberText(whole, fraction, c)) == Some(PartsValue(whole, fraction))
  {
    NumberTextSkip(whole, fraction, c);
    NumberTextValue(whole, fraction, c);
  }

  /** Symbol then number reads nothing there, so the loop goes on to number then symbol. */
  lemma NumberTextSkip(whole: string, fraction: string, c: char)
    requires IsSign(c) && DecimalParts(whole, fraction)
    ensures PatternStep(NumberText(whole, fraction, c), PricePatterns[0]) == Skip
  {
    NumberTextNoSign(whole, fraction, c);
  }

  /** A leading "Price:" and the whitespace after it are removed before the price is read. */
  lemma PriceWordCleaned(t: string)
    requires t != [] && !IsSpaceOrColon(t[0]) && Strip(t) == t
    ensures Cleaned("Price: " + t) == t
  {
    var s := "Price: " + t;
    assert s[..5] == "Price";
    assert StartsWithIgnoringCase(s, NoiseWords[0]);
    assert FirstWordPrefix(s, NoiseWords) == Some(5);
    assert s[5] == ':' && s[6] == ' ' && s[7] == t[0];
    RunStops(s, 5, 7, IsSpaceOrColon);
    assert s[7..] == t;
    StripKeeps(s);
  }

  /** One more digit on the right multiplies the value by ten and adds that digit. */
  lemma DigitsSnoc(s: string, c: char)
    requires AllDigits(s) && IsDigit(c)
    ensures AllDigits(s + [c])
    ensures DigitsValue(s + [c]) == DigitsValue(s) * 10 + (c as int - '0' as int)
  {
    assert (s + [c])[..|s|] == s;
  }

  /** The value of a one-digit string. */
  lemma OneDigit(a: char)
    requires IsDigit(a)
    ensures AllDigits([a]) && DigitsValue([a]) == a as int - '0' as int
  {
    DigitsSnoc([], a);
    assert [] + [a] == [a];
  }

  /** The value of a two-digit string. */
  lemma TwoDigits(a: char, b: char)
    requires IsDigit(a) && IsDigit(b)
    ensures AllDigits([a, b]) && DigitsValue([a, b]) == (a as int - '0' as int) * 10 + (b as int - '0' as int)
  {
    OneDigit(a);
    DigitsSnoc([a], b);
    assert [a] + [b] == [a, b];
  }

  /** The value of a four-digit string. */
  lemma FourDigits(a: char, b: char, c: char, d: char)
    requires IsDigit(a) && IsDigit(b) && IsDigit(c) && IsDigit(d)
    ensures AllDigits([a, b, c, d])
    ensures DigitsValue([a, b, c, d]) ==
      DigitsValue([a, b]) * 100 + (c as int - '0' as int) * 10 + (d as int - '0' as int)
  {
    TwoDigits(a, b);
    DigitsSnoc([a, b], c);
    assert [a, b] + [c] == [a, b, c];
    DigitsSnoc([a, b, c], d);
    assert [a, b, c] + [d] == [a, b, c, d];
  }

  /** `W.F` with a two-digit fraction is W plus F hundredths. */
  lemma Hundredths(whole: string, fraction: string)
    requires DecimalParts(whole, fraction) && AllDigits(fraction) && |fraction| == 2
    ensures PartsValue(whole, fraction) ==
      DigitsValue(Without(whole, ',')) as real + DigitsValue(fraction) as real / 100.0
  {
    assert Pow10(2) == 100 by {
      assert Pow10(1) == 10;
    }
  }

  /** "12" and "99" make the number 12.99. */
  lemma TwelveNinetyNine()
    ensures DecimalParts("12", "99") && PartsValue("12", "99") == 12.99
  {
    TwoDigits('1', '2');
    TwoDigits('9', '9');
    assert Without("12", ',') == "12" by {
      assert ',' !in "12";
    }
    Hundredths("12", "99");
  }

  /** "9" and "99" make the number 9.99. */
  lemma NineNinetyNine()
    ensures DecimalParts("9", "99") && PartsValue("9", "99") == 9.99
  {
    OneDigit('9');
    TwoDigits('9', '9');
    assert Without("9", ',') == "9" by {
      assert ',' !in "9";
    }
    Hundredths("9", "99");
  }

  /** "$12.99" reads as 12.99 dollars. */
  lemma DollarExample(s: string)
    requires s == "$12.99"
    ensures ExtractPriceValue(s) == Parsed(Some(12.99), "$")
  {
    assert s == SignText([], '$', "12", "99");
    TwelveNinetyNine();
    SignTextPrice([], '$', "12", "99");
  }

  /** "12.99$" reads as 12.99 dollars: the symbol after the number. */
  lemma TrailingSignExample(s: string)
    requires s == "12.99$"
    ensures ExtractPriceValue(s) == Parsed(Some(12.99), "$")
  {
    assert s == NumberText("12", "99", '$');
    TwelveNinetyNine();
    NumberTextPrice("12", "99", '$');
  }

  /** "3 options from $9.99" reads as 9.99 dollars: the digit 3 is not taken for the price. */
  lemma OptionsExample(s: string)
    requires s == "3 options from $9.99"
    ensures ExtractPriceValue(s) == Parsed(Some(9.99), "$")
  {
    var pre := "3 options from ";
    assert s == SignText(pre, '$', "9", "99");
    assert NoSigns(pre);
    NineNinetyNine();
    SignTextPrice(pre, '$', "9", "99");
  }

  /** The comma between two runs of digits is the only character removed. */
  lemma WithoutComma(a: string, b: string)
    requires AllDigits(a) && AllDigits(b)
    ensures Without(a + "," + b, ',') == a + b
  {
    WithoutCommaSplit(a, b);
    DigitsKeep(a);
    DigitsKeep(b);
  }

  /** Digits hold no comma to remove. */
  lemma DigitsKeep(a: string)
    requires AllDigits(a)
    ensures Without(a, ',') == a
  {
    assert forall k :: 0 <= k < |a| ==> a[k] != ',';
  }

  /** Removing the commas around a comma is removing those of either side. */
  lemma WithoutCommaSplit(a: string, b: string)
    ensures Without(a + "," + b, ',') == Without(a, ',') + Without(b, ',')
  {
    WithoutAppend(a, ",", ',');
    WithoutAppend(a + ",", b, ',');
    CommaGone();
  }

  /** A lone comma is removed entirely. */
  lemma CommaGone()
    ensures Without(",", ',') == []
  {
  }

  /** Removing the comma of `A,BCD` leaves the digits `ABCD`. */
  lemma ThousandsComma(a: char, b: char, c: char, d: char)
    requires IsDigit(a) && IsDigit(b) && IsDigit(c) && IsDigit(d)
    ensures Without([a, ',', b, c, d], ',') == [a, b, c, d]
  {
    assert [a, ',', b, c, d] == [a] + "," + [b, c, d];
    assert [a] + [b, c, d] == [a, b, c, d];
    WithoutComma([a], [b, c, d]);
  }

  /** `A,BCD.EF` is the number ABCD plus EF hundredths. */
  lemma ThousandsParts(a: char, b: char, c: char, d: char, e: char, f: char)
    requires IsDigit(a) && IsDigit(b) && IsDigit(c) && IsDigit(d) && IsDigit(e) && IsDigit(f)
    ensures AllDigits([a, b, c, d]) && AllDigits([e, f])
    ensures DecimalParts([a, ',', b, c, d], [e, f])
    ensures PartsValue([a, ',', b, c, d], [e, f]) == DigitsValue([a, b, c, d]) as real + DigitsValue([e, f]) as real / 100.0
  {
    FourDigits(a, b, c, d);
    TwoDigits(e, f);
    ThousandsComma(a, b, c, d);
    Hundredths([a, ',', b, c, d], [e, f]);
  }

  /** "1,234" and "56" make the number 1234.56. */
  lemma ThousandsValue()
    ensures DecimalParts("1,234", "56") && PartsValue("1,234", "56") == 1234.56
  {
    ThousandsParts('1', '2', '3', '4', '5', '6');
    FourDigits('1', '2', '3', '4');
    TwoDigits('1', '2');
    TwoDigits('5', '6');
  }

  /** After "Price: ", the price and currency are read from the rest of the text. */
  lemma PriceWordExtract(t: string)
    requires t != [] && !IsSpaceOrColon(t[0]) && Strip(t) == t
    ensures ExtractPriceValue("Price: " + t) == Parsed(PriceIn(t), CurrencyOf(t))
  {
    PriceWordCleaned(t);
  }

  /** "$1,234.56" is a dollar sign and the number `1,234.56`, and is its own strip. */
  lemma ListPriceText(t: string)
    requires t == "$1,234.56"
    ensures t == SignText([], '$', "1,234", "56")
    ensures t != [] && !IsSpaceOrColon(t[0]) && Strip(t) == t
  {
    StripKeeps(t);
  }

  /** "Price: $1,234.56" reads as 1234.56 dollars: noise word dropped, thousands comma removed. */
  lemma ListPriceExample(s: string)
    requires s == "Price: $1,234.56"
    ensures ExtractPriceValue(s) == Parsed(Some(1234.56), "$")
  {
    var t := "$1,234.56";
    assert s == "Price: " + t;
    ListPriceText(t);
    PriceWordExtract(t);
    ThousandsValue();
    SignTextRead([], '$', "1,234", "56");
  }

  /** "LIST PRICE" is "List Price" ignoring case. */
  lemma ListPriceCase()
    ensures Lower("LIST PRICE") == Lower("List Price")
  {
    assert |Lower("LIST PRICE")| == 10;
    forall k | 0 <= k < 10 ensures Lower("LIST PRICE")[k] == Lower("List Price")[k] {
    }
  }

  /** "LIST PRICE" starts none of the noise words before "List Price", and that one. */
  lemma ListPriceWords(s: string)
    requires |s| >= 10 && s[..10] == "LIST PRICE"
    ensures FirstWordPrefix(s, NoiseWords) == Some(10)
  {
    var ws := NoiseWords;
    ListPriceNotEarlier(s);
    ListPriceStarts(s);
    assert FirstWordPrefix(s, ws[4..]) == Some(10);
    assert FirstWordPrefix(s, ws[3..]) == FirstWordPrefix(s, ws[4..]);
    assert FirstWordPrefix(s, ws[2..]) == FirstWordPrefix(s, ws[3..]);
    assert FirstWordPrefix(s, ws[1..]) == FirstWordPrefix(s, ws[2..]);
    assert FirstWordPrefix(s, ws[0..]) == FirstWordPrefix(s, ws[1..]);
    assert ws[0..] == ws;
  }

  /** "Price", "From" and "Save" differ in the first letter, "Limited time deal" in the third. */
  lemma ListPriceNotEarlier(s: string)
    requires |s| >= 10 && s[..10] == "LIST PRICE"
    ensures forall k :: 0 <= k < 4 ==> !StartsWithIgnoringCase(s, NoiseWords[k])
  {
    var ws := NoiseWords;
    assert s[0] == 'L' && s[2] == 'S';
    forall k | 0 <= k < 3 ensures !StartsWithIgnoringCase(s, ws[k]) {
      if StartsWithIgnoringCase(s, ws[k]) { StartsHead(s, ws[k]); }
    }
    if StartsWithIgnoringCase(s, ws[3]) {
      StartsAt(s, ws[3], 2);
    }
  }

  /** A case-insensitive prefix agrees with the text at each of its positions. */
  lemma StartsAt(s: string, w: string, k: nat)
    requires k < |w| && StartsWithIgnoringCase(s, w)
    ensures LowerChar(s[k]) == LowerChar(w[k])
  {
    assert Lower(s[..|w|])[k] == Lower(w)[k];
  }

  /** "LIST PRICE" starts with "List Price" ignoring case. */
  lemma ListPriceStarts(s: string)
    requires |s| >= 10 && s[..10] == "LIST PRICE"
    ensures StartsWithIgnoringCase(s, NoiseWords[4])
  {
    ListPriceCase();
    assert NoiseWords[4] == "List Price";
  }

  /** A leading "LIST PRICE:" in capitals is removed like "List Price:", with the whitespace after it. */
  lemma ListPriceWordCleaned(t: string)
    requires t != [] && !IsSpaceOrColon(t[0]) && Strip(t) == t
    ensures Cleaned("LIST PRICE: " + t) == t
  {
    var s := "LIST PRICE: " + t;
    assert s[..10] == "LIST PRICE";
    ListPriceWords(s);
    assert s[10] == ':' && s[11] == ' ' && s[12] == t[0];
    RunStops(s, 10, 12, IsSpaceOrColon);
    assert s[12..] == t;
    StripKeeps(s);
  }

  /** "5" and "00" make the number 5. */
  lemma FiveDollars()
    ensures DecimalParts("5", "00") && PartsValue("5", "00") == 5.0
  {
    OneDigit('5');
    TwoDigits('0', '0');
    assert Without("5", ',') == "5" by {
      assert ',' !in "5";
    }
    Hundredths("5", "00");
  }

  /** "LIST PRICE: $5.00" reads as 5 dollars: the noise word is matched ignoring case. */
  lemma UpperListPriceExample(s: string)
    requires s == "LIST PRICE: " + "$5.00"
    ensures ExtractPriceValue(s) == Parsed(Some(5.0), "$")
  {
    var t := "$5.00";
    assert t == SignText([], '$', "5", "00");
    StripKeeps(t);
    ListPriceWordCleaned(t);
    FiveDollars();
    SignTextRead([], '$', "5", "00");
  }
}
