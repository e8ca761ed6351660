/**
 * What the rating, review-count and "N options from $X" readers take from the usual shapes of
 * their text: the first run of the characters their pattern admits, read by `float()` or
 * `int()`; with a worked example of each.
 */
module FieldForms {
  import opened Optional
  import opened Text
  import opened Decimal
  import opened Regex
  import opened Page
  import opened Fields
  import opened PriceForms
  import opened PriceText
  import opened PriceChain
  import opened Fallback

  /** `pre` holds no character of the class `p`, `run` only such characters, and `rest` does not start with one. */
  predicate FirstRun(pre: string, run: string, rest: string, p: char -> bool) {
    && (forall k :: 0 <= k < |pre| ==> !p(pre[k]))
    && run != [] && (forall k :: 0 <= k < |run| ==> p(run[k]))
    && (rest == [] || !p(rest[0]))
  }

  /** In `pre + run + rest`, the run of `p` starting after `pre` ends where `run` does. */
  lemma FirstRunEnds(pre: string, run: string, rest: string, p: char -> bool)
    requires FirstRun(pre, run, rest, p)
    ensures var s := pre + run + rest;
      && (forall k :: 0 <= k < |pre| ==> !p(s[k]))
      && p(s[|pre|])
      && RunEnd(s, |pre|, p) == |pre| + |run|
      && s[|pre|..|pre| + |run|] == run
  {
    var s := pre + run + rest;
    var i := |pre|;
    var e := i + |run|;
    ConcatSlices(pre, run, rest);
    forall k | 0 <= k < i ensures !p(s[k]) {
      assert s[k] == s[..i][k];
    }
    forall k | i <= k < e ensures p(s[k]) {
      assert s[k] == s[i..e][k - i];
    }
    if e < |s| {
      assert s[e] == s[e..][0];
    }
    RunStops(s, i, e, p);
  }

  /** The three pieces of `pre + run + rest` are its slices. */
  lemma ConcatSlices(pre: string, run: string, rest: string)
    ensures var s := pre + run + rest;
      && s[..|pre|] == pre
      && s[|pre|..|pre| + |run|] == run
      && s[|pre| + |run|..] == rest
  {
  }

  /**
   * In a rating text made of `pre`, the run `run` of digits and dots and `rest`, where `pre`
   * holds no digit or dot and `rest` does not start with one, the rating is `float(run)`.
   */
  lemma RatingRun(elem: Elem, pre: string, run: string, rest: string)
    requires Displayed(elem) == pre + run + rest
    requires FirstRun(pre, run, rest, IsDigitOrDot)
    ensures RatingOf(Some(elem)) == ParseFloat(run)
  {
    var s := pre + run + rest;
    DotRunFind(pre, run, rest);
    FirstRunEnds(pre, run, rest, IsDigitOrDot);
  }

  /** The first run of digits and dots of `pre + run + rest` is `run`. */
  lemma DotRunFind(pre: string, run: string, rest: string)
    requires FirstRun(pre, run, rest, IsDigitOrDot)
    ensures var s := pre + run + rest;
      Find(DigitsAndDots, s) == Some(Match(Span(|pre|, |pre| + |run|), [Span(|pre|, |pre| + |run|)]))
  {
    var s := pre + run + rest;
    var i := |pre|;
    FirstRunEnds(pre, run, rest, IsDigitOrDot);
    forall j | 0 <= j < i ensures MatchAt(DigitsAndDots, s, j).None? {
    }
    assert MatchAt(DigitsAndDots, s, i).Some?;
    assert Search(DigitsAndDots, s, 0) == Some(i);
  }

  /** A rating written `W.F` in that position is W plus F scaled down by its number of digits. */
  lemma RatingDecimal(elem: Elem, pre: string, whole: string, fraction: string, rest: string)
    requires Displayed(elem) == pre + (whole + "." + fraction) + rest
    requires AllDigits(whole) && AllDigits(fraction) && (whole != [] || fraction != [])
    requires FirstRun(pre, whole + "." + fraction, rest, IsDigitOrDot)
    ensures RatingOf(Some(elem)) == Some(DecimalValue(DigitsValue(whole), DigitsValue(fraction), Pow10(|fraction|)))
  {
    RatingRun(elem, pre, whole + "." + fraction, rest);
    ParseFloatParts(whole, fraction);
  }

  /** A run with two dots, such as "1.2.3", is rejected by `float()`, and there is no rating. */
  lemma RatingTwoDots(elem: Elem, pre: string, run: string, rest: string, i: nat, j: nat)
    requires Displayed(elem) == pre + run + rest
    requires FirstRun(pre, run, rest, IsDigitOrDot)
    requires i < j < |run| && run[i] == '.' && run[j] == '.'
    ensures RatingOf(Some(elem)) == None
  {
    RatingRun(elem, pre, run, rest);
  }

  /** "4.5 out of 5 stars" is the rating 4.5: only the first run is read. */
  lemma RatingExample(elem: Elem)
    requires Displayed(elem) == "4.5 out of 5 stars"
    ensures RatingOf(Some(elem)) == Some(4.5)
  {
    var rest := " out of 5 stars";
    assert Displayed(elem) == [] + ("4" + "." + "5") + rest;
    OneDigit('4');
    OneDigit('5');
    assert Pow10(1) == 10;
    RatingDecimal(elem, [], "4", "5", rest);
  }

  /** A character other than `c` survives `replace(c, "")`. */
  lemma {:induction false} WithoutKeeps(s: string, c: char, k: nat)
    requires k < |s| && s[k] != c
    ensures s[k] in Without(s, c)
  {
    if k > 0 {
      WithoutKeeps(s[1..], c, k - 1);
    }
  }

  /** Digits and commas leave something once the commas are removed exactly when there is a digit. */
  lemma CommaFreeEmpty(run: string)
    requires forall k :: 0 <= k < |run| ==> IsNumberChar(run[k])
    ensures Without(run, ',') != [] <==> exists k :: 0 <= k < |run| && IsDigit(run[k])
  {
    if exists k :: 0 <= k < |run| && IsDigit(run[k]) {
      var k :| 0 <= k < |run| && IsDigit(run[k]);
      WithoutKeeps(run, ',', k);
    } else {
      var r := Without(run, ',');
      if r != [] {
        assert r[0] in run;
      }
    }
  }

  /** The first run of digits and commas of `pre + run + rest` is `run`. */
  lemma CommaRunFind(pre: string, run: string, rest: string)
    requires FirstRun(pre, run, rest, IsNumberChar)
    ensures var s := pre + run + rest;
      Find(DigitsAndCommas, s) == Some(Match(Span(|pre|, |pre| + |run|), [Span(|pre|, |pre| + |run|)]))
  {
    var s := pre + run + rest;
    var i := |pre|;
    FirstRunEnds(pre, run, rest, IsNumberChar);
    forall j | 0 <= j < i ensures MatchAt(DigitsAndCommas, s, j).None? {
    }
    assert MatchAt(DigitsAndCommas, s, i).Some?;
    assert Search(DigitsAndCommas, s, 0) == Some(i);
  }

  /**
   * In a review text whose stripped form is `pre`, the run `run` of digits and commas and
   * `rest`, where `pre` holds no digit or comma and `rest` does not start with one, the count
   * is `int()` of the run with its commas removed: its value when the run holds a digit, and
   * nothing when it is commas only.
   */
  lemma ReviewsRun(raw: string, pre: string, run: string, rest: string)
    requires Strip(raw) == pre + run + rest
    requires FirstRun(pre, run, rest, IsNumberChar)
    ensures AllDigits(Without(run, ','))
    ensures ReviewsOf(Some(raw)) == ParseInt(Without(run, ','))
    ensures ReviewsOf(Some(raw)).Some? <==> exists k :: 0 <= k < |run| && IsDigit(run[k])
  {
    CommaFreeDigits(run);
    ReviewsOfRun(raw, pre, run, rest);
    CommaFreeEmpty(run);
  }

  /** The review count read from such a text is `int()` of the run without its commas. */
  lemma ReviewsOfRun(raw: string, pre: string, run: string, rest: string)
    requires Strip(raw) == pre + run + rest
    requires FirstRun(pre, run, rest, IsNumberChar)
    ensures ReviewsOf(Some(raw)) == ParseInt(Without(run, ','))
  {
    CommaRunFind(pre, run, rest);
    FirstRunEnds(pre, run, rest, IsNumberChar);
  }

  /** "(1,234 ratings)" is the review count 1234: the thousands comma is removed. */
  lemma ReviewsExample(raw: string)
    requires raw == "(1,234 ratings)"
    ensures ReviewsOf(Some(raw)) == Some(1234)
  {
    StripKeeps(raw);
    var run := "1,234";
    assert raw == "(" + run + " ratings)";
    assert FirstRun("(", run, " ratings)", IsNumberChar);
    ReviewsRun(raw, "(", run, " ratings)");
    ThousandsComma('1', '2', '3', '4');
    FourDigits('1', '2', '3', '4');
    TwoDigits('1', '2');
  }

  /** A run of `p` in `s` starts and ends at the same places after anything is put before `s`. */
  lemma RunEndShift(pre: string, s: string, i: nat, p: char -> bool)
    requires i <= |s|
    ensures RunEnd(pre + s, |pre| + i, p) == |pre| + RunEnd(s, i, p)
  {
    var t := pre + s;
    var j := RunEnd(s, i, p);
    assert forall k :: |pre| + i <= k < |pre| + j ==> t[k] == s[k - |pre|];
    assert |pre| + j < |t| ==> t[|pre| + j] == s[j];
    RunStops(t, |pre| + i, |pre| + j, p);
  }

  /** The same for the greedy number `[\d,]+\.?\d*`. */
  lemma NumberEndShift(pre: string, s: string)
    requires s != [] && IsNumberChar(s[0])
    ensures (pre + s)[|pre|] == s[0]
    ensures NumberEnd(pre + s, |pre|) == |pre| + NumberEnd(s, 0)
  {
    var t := pre + s;
    RunEndShift(pre, s, 0, IsNumberChar);
    var r := RunEnd(s, 0, IsNumberChar);
    if r < |s| {
      assert t[|pre| + r] == s[r];
      if s[r] == '.' {
        RunEndShift(pre, s, r + 1, IsDigit);
      }
    }
  }

  /** A number `[\d,]+\.?\d*` that the greedy match takes whole. */
  predicate WholeNumber(num: string) {
    num != [] && IsNumberChar(num[0]) && NumberEnd(num, 0) == |num|
  }

  /** `W.F`, with W digits and commas and F digits, is such a number. */
  lemma DecimalWholeNumber(whole: string, fraction: string)
    requires DecimalParts(whole, fraction)
    ensures WholeNumber(whole + "." + fraction)
  {
    var t := whole + "." + fraction;
    var d := |whole|;
    assert t[0] == whole[0] && t[d] == '.';
    forall k | 0 <= k < d ensures IsNumberChar(t[k]) {
      assert t[k] == whole[k];
    }
    forall k | d + 1 <= k < |t| ensures IsDigit(t[k]) {
      assert t[k] == fraction[k - d - 1];
    }
    RunStops(t, 0, d, IsNumberChar);
    RunStops(t, d + 1, |t|, IsDigit);
  }

  /** The text "N options from $X", with the count `N` and the number `X`. */
  function OptionsText(count: string, num: string): string {
    count + " options from $" + num
  }

  /** The characters of "N options from $X", by position. */
  lemma OptionsTextChars(count: string, num: string)
    ensures var s := OptionsText(count, num); var n := |count|;
      && |s| == n + 15 + |num|
      && s[..n] == count
      && s[n] == ' ' && s[n + 1..n + 7] == "option" && s[n + 7] == 's' && s[n + 8] == ' '
      && s[n + 9..n + 13] == "from" && s[n + 13] == ' ' && s[n + 14] == '$'
      && s[n + 15..] == num
  {
  }

  /** "N options from $X" matches from its first character to its last, capturing `X`. */
  lemma OptionsTextFind(count: string, num: string)
    requires IsDigitText(count) && WholeNumber(num)
    ensures var s := OptionsText(count, num);
      Find(OptionsFrom, s) == Some(Match(Span(0, |s|), [Span(|count| + 15, |s|)]))
  {
    var s := OptionsText(count, num);
    OptionsWords(count, num);
    OptionsPriceTail(count, num);
    assert MatchAt(OptionsFrom, s, 0).Some?;
  }

  /** The count and the words "options from" are matched up to the whitespace before '$'. */
  lemma OptionsWords(count: string, num: string)
    requires IsDigitText(count) && WholeNumber(num)
    ensures OptionsFromAt(OptionsText(count, num), 0) == OptionsPrice(OptionsText(count, num), 0, |count| + 13)
  {
    var s := OptionsText(count, num);
    var n := |count|;
    OptionsTextChars(count, num);
    assert forall k :: 0 <= k < n ==> s[k] == count[k];
    OptionsWordsAt(s, n);
  }

  /** The same, by position: digits up to `n`, then " options from" and at least one more character. */
  lemma OptionsWordsAt(t: string, n: nat)
    requires 0 < n && n + 14 <= |t| && forall k :: 0 <= k < n ==> IsDigit(t[k])
    requires t[n] == ' ' && t[n + 1..n + 7] == "option" && t[n + 7] == 's' && t[n + 8] == ' '
    requires t[n + 9..n + 13] == "from"
    ensures OptionsFromAt(t, 0) == OptionsPrice(t, 0, n + 13)
  {
    RunStops(t, 0, n, IsDigit);
    RunStops(t, n, n + 1, IsSpace);
    KeepsCase(t, n + 1, "option");
    assert LowerChar(t[n + 7]) == 's';
    RunStops(t, n + 8, n + 9, IsSpace);
    KeepsCase(t, n + 9, "from");
  }

  /** A prefix written in the pattern's own case matches ignoring case. */
  lemma KeepsCase(t: string, a: nat, p: string)
    requires a + |p| <= |t| && t[a..a + |p|] == p
    ensures StartsWithIgnoringCase(t[a..], p)
  {
    assert t[a..][..|p|] == p;
  }

  /** The whitespace, the '$' and the number `X` that end the match. */
  lemma OptionsPriceTail(count: string, num: string)
    requires WholeNumber(num)
    ensures var s := OptionsText(count, num);
      OptionsPrice(s, 0, |count| + 13) == Some(Match(Span(0, |s|), [Span(|count| + 15, |s|)]))
  {
    var s := OptionsText(count, num);
    var n := |count|;
    OptionsTextChars(count, num);
    RunStops(s, n + 13, n + 14, IsSpace);
    assert s == s[..n + 15] + num;
    NumberEndShift(s[..n + 15], num);
    RunStops(s, n + 15, n + 15, IsSpace);
  }

  /** "N options from $X" has no whitespace at either end, and its capture is `X`. */
  lemma OptionsTextGroup(count: string, num: string)
    requires IsDigitText(count) && WholeNumber(num)
    ensures var s := OptionsText(count, num);
      Strip(s) == s && GroupText(s, Match(Span(0, |s|), [Span(|count| + 15, |s|)]), 0) == num
  {
    var s := OptionsText(count, num);
    OptionsTextChars(count, num);
    assert s[0] == count[0];
    assert s[|s| - 1] == num[|num| - 1];
    assert IsNumberTextChar(num[|num| - 1]);
    StripKeeps(s);
  }

  /** The number the options text offers, when it reads as a positive `W.F`, is the price in dollars. */
  lemma OptionsTextFound(count: string, whole: string, fraction: string)
    requires IsDigitText(count) && DecimalParts(whole, fraction) && PartsValue(whole, fraction) > 0.0
    ensures OptionsStep(OptionsText(count, whole + "." + fraction)) == Found(Quote(PartsValue(whole, fraction), "$"))
  {
    var num := whole + "." + fraction;
    DecimalWholeNumber(whole, fraction);
    OptionsTextFind(count, num);
    OptionsTextGroup(count, num);
    PartsFloat(whole, fraction);
  }

  /**
   * A capture of commas only, as in "2 options from $,", leaves nothing for `float()`, which
   * raises: the scan over the options texts ends with no price.
   */
  lemma OptionsTextCommas(count: string, commas: string)
    requires IsDigitText(count) && commas != [] && forall k :: 0 <= k < |commas| ==> commas[k] == ','
    ensures OptionsStep(OptionsText(count, commas)) == Abort
  {
    RunStops(commas, 0, |commas|, IsNumberChar);
    assert WholeNumber(commas);
    OptionsTextFind(count, commas);
    OptionsTextGroup(count, commas);
    CommaFreeEmpty(commas);
  }

  /** "1,299" and "00" make the number 1299. */
  lemma TwelveNinetyNineHundred()
    ensures DecimalParts("1,299", "00") && PartsValue("1,299", "00") == 1299.0
  {
    assert "1,299" == ['1', ',', '2', '9', '9'] && "00" == ['0', '0'];
    ThousandsParts('1', '2', '9', '9', '0', '0');
    TwoDigits('1', '2');
    assert DigitsValue(['1', '2']) == 12;
    FourDigits('1', '2', '9', '9');
    assert DigitsValue(['1', '2', '9', '9']) == 1299;
    TwoDigits('0', '0');
    assert DigitsValue(['0', '0']) == 0;
  }

  /** "3 options from $1,299.00" offers 1299 dollars. */
  lemma OptionsTextExample(s: string)
    requires s == "3" + " options from $" + "1,299.00"
    ensures OptionsStep(s) == Found(Quote(1299.0, "$"))
  {
    var t := OptionsText("3", "1,299" + "." + "00");
    ExampleOptionsText();
    assert s == t;
    TwelveNinetyNineHundred();
    OptionsTextFound("3", "1,299", "00");
    assert OptionsStep(t) == Found(Quote(1299.0, "$"));
  }

  /** The example's text in pieces: the count "3" and the number "1,299.00". */
  lemma ExampleOptionsText()
    ensures IsDigitText("3")
    ensures "3" + " options from $" + "1,299.00" == OptionsText("3", "1,299" + "." + "00")
  {
    assert "1,299.00" == "1,299" + "." + "00";
  }

  /**
   * The stripped rank cell `t` starts with "#N", whitespace and "in": `t[0]` is '#', the
   * digits `N` run from 1 to `d`, whitespace from `d` to `w1`, and "in" is at `w1`.
   */
  predicate RankHead(t: string, d: nat, w1: nat) {
    && 1 < d < w1 && w1 + 2 <= |t| && t[0] == '#'
    && (forall k :: 1 <= k < d ==> IsDigit(t[k]))
    && (forall k :: d <= k < w1 ==> IsSpace(t[k]))
    && t[w1] == 'i' && t[w1 + 1] == 'n'
  }

  /** "#", digits from 1 to `d`, whitespace up to `w1` and "in" match up to the whitespace before the category. */
  lemma RankHeadAt(t: string, d: nat, w1: nat)
    requires RankHead(t, d, w1)
    ensures RankInAt(t, 0) == RankCategory(t, 0, d, w1 + 2)
  {
    RunStops(t, 1, d, IsDigit);
    RunStops(t, d, w1, IsSpace);
    assert t[w1..][..2] == "in";
  }

  /**
   * After "in", whitespace from `a` to `w` and a category from `w` to `c` that starts with
   * neither whitespace nor '(' and runs to a '(' or the end: the category is captured whole.
   */
  lemma RankCategoryAt(t: string, d: nat, a: nat, w: nat, c: nat)
    requires 1 < d <= a < w < c <= |t|
    requires forall k :: 1 <= k < d ==> IsDigit(t[k])
    requires forall k :: a <= k < w ==> IsSpace(t[k])
    requires !IsSpace(t[w]) && forall k :: w <= k < c ==> t[k] != '('
    requires c == |t| || t[c] == '('
    ensures RankCategory(t, 0, d, a) == Some(Match(Span(0, c), [Span(1, d), Span(w, c)]))
  {
    RunStops(t, a, w, IsSpace);
    RunStops(t, w, c, NotOpenParen);
  }

  /**
   * When the whitespace after "in" runs from `a` into a '(' at `w` and is at least two
   * characters long, the engine gives its last character back to `[^(]+`, and the category
   * is that one character.
   */
  lemma RankGiveBackAt(t: string, d: nat, a: nat, w: nat)
    requires 1 < d <= a && a + 2 <= w < |t|
    requires forall k :: 1 <= k < d ==> IsDigit(t[k])
    requires forall k :: a <= k < w ==> IsSpace(t[k])
    requires t[w] == '('
    ensures RankCategory(t, 0, d, a) == Some(Match(Span(0, w), [Span(1, d), Span(w - 1, w)]))
  {
    RunStops(t, a, w, IsSpace);
    RunStops(t, w - 1, w, NotOpenParen);
  }

  /** A rank match at the start of the text is the one `re.search` returns. */
  lemma RankFindAt(t: string, m: Match)
    requires RankInAt(t, 0) == Some(m)
    ensures Find(RankIn, t) == Some(m)
  {
    assert MatchAt(RankIn, t, 0).Some?;
  }

  /** A cell whose stripped text has a rank match capturing `num` and `cat` reads as "#num in " and `cat` stripped. */
  lemma RankTextOfMatch(cell: string, m: Match, num: string, cat: string)
    requires Find(RankIn, Strip(cell)) == Some(m)
    requires GroupText(Strip(cell), m, 0) == num && GroupText(Strip(cell), m, 1) == cat
    ensures RankText(cell) == "#" + num + " in " + Strip(cat)
  {
  }

  /** The rank match of "#N in C" found at the start of `t`, with C from `w` to `c`. */
  lemma RankMatchAt(t: string, d: nat, w1: nat, w: nat, c: nat)
    requires RankHead(t, d, w1)
    requires w1 + 2 < w < c <= |t|
    requires forall k :: w1 + 2 <= k < w ==> IsSpace(t[k])
    requires !IsSpace(t[w]) && forall k :: w <= k < c ==> t[k] != '('
    requires c == |t| || t[c] == '('
    ensures Find(RankIn, t) == Some(Match(Span(0, c), [Span(1, d), Span(w, c)]))
  {
    RankHeadAt(t, d, w1);
    RankCategoryAt(t, d, w1 + 2, w, c);
    RankFindAt(t, Match(Span(0, c), [Span(1, d), Span(w, c)]));
  }

  /**
   * `extract_best_sellers_rank` on a cell that strips to "#N in C" followed by nothing or by a
   * '(' (the whitespace around "in" of any length, C running from `w` to `c` and starting
   * with neither whitespace nor '(') gives "#N in " and C stripped.
   */
  lemma RankTextShape(cell: string, d: nat, w1: nat, w: nat, c: nat)
    requires RankHead(Strip(cell), d, w1)
    requires w1 + 2 < w < c <= |Strip(cell)|
    requires forall k :: w1 + 2 <= k < w ==> IsSpace(Strip(cell)[k])
    requires !IsSpace(Strip(cell)[w]) && forall k :: w <= k < c ==> Strip(cell)[k] != '('
    requires c == |Strip(cell)| || Strip(cell)[c] == '('
    ensures RankText(cell) == "#" + Strip(cell)[1..d] + " in " + Strip(Strip(cell)[w..c])
  {
    var t := Strip(cell);
    RankMatchAt(t, d, w1, w, c);
    RankTextOfMatch(cell, Match(Span(0, c), [Span(1, d), Span(w, c)]), t[1..d], t[w..c]);
  }

  /** The rank match of "#N in" followed by two or more whitespace characters and a '(' at `w`. */
  lemma RankGiveBackMatch(t: string, d: nat, w1: nat, w: nat)
    requires RankHead(t, d, w1)
    requires w1 + 4 <= w < |t| && t[w] == '('
    requires forall k :: w1 + 2 <= k < w ==> IsSpace(t[k])
    ensures Find(RankIn, t) == Some(Match(Span(0, w), [Span(1, d), Span(w - 1, w)]))
  {
    var m := Match(Span(0, w), [Span(1, d), Span(w - 1, w)]);
    RankHeadAt(t, d, w1);
    RankGiveBackAt(t, d, w1 + 2, w);
    assert RankInAt(t, 0) == Some(m);
    RankFindAt(t, m);
  }

  /**
   * With two or more whitespace characters between "in" and a '(' at `w`, the category is the
   * last of them, and stripping it leaves "#N in ".
   */
  lemma RankTextGiveBack(cell: string, d: nat, w1: nat, w: nat)
    requires RankHead(Strip(cell), d, w1)
    requires w1 + 4 <= w < |Strip(cell)| && Strip(cell)[w] == '('
    requires forall k :: w1 + 2 <= k < w ==> IsSpace(Strip(cell)[k])
    ensures RankText(cell) == "#" + Strip(cell)[1..d] + " in "
  {
    var t := Strip(cell);
    RankGiveBackMatch(t, d, w1, w);
    StripSpace(t[w - 1..w]);
    RankTextOfMatch(cell, Match(Span(0, w), [Span(1, d), Span(w - 1, w)]), t[1..d], t[w - 1..w]);
  }

  /** A single whitespace character strips to nothing. */
  lemma StripSpace(s: string)
    requires |s| == 1 && IsSpace(s[0])
    ensures Strip(s) == []
  {
    assert StripLeft(s[1..]) == [];
  }

  /** "Home & Kitchen " strips to "Home & Kitchen". */
  lemma HomeKitchenStrip()
    ensures Strip("Home & Kitchen ") == "Home & Kitchen"
  {
    var c := "Home & Kitchen ";
    assert StripLeft(c) == c;
    assert c[..|c| - 1] == "Home & Kitchen";
  }

  /** A cell "#D in C" followed by nothing or '(', for a one-digit rank D, with no whitespace at either end. */
  lemma RankTextOneDigit(cell: string, n: char, cat: string, rest: string)
    requires IsDigit(n) && cell == ['#', n, ' ', 'i', 'n', ' '] + cat + rest
    requires cat != [] && !IsSpace(cat[0]) && '(' !in cat && (rest == [] || rest[0] == '(')
    requires !IsSpace(cell[|cell| - 1])
    ensures RankText(cell) == "#" + [n] + " in " + Strip(cat)
  {
    var c := 6 + |cat|;
    assert cell[0] == '#' && cell[1] == n && cell[2] == ' ' && cell[3] == 'i' && cell[4] == 'n' && cell[5] == ' ';
    StripKeeps(cell);
    assert forall k :: 6 <= k < c ==> cell[k] == cat[k - 6];
    assert c < |cell| ==> cell[c] == rest[0];
    assert cell[1..2] == [n] && cell[6..c] == cat;
    RankTextShape(cell, 2, 3, 6, c);
  }

  /**
   * The rank cell "#1 in Home & Kitchen (See Top 100 in Home & Kitchen)" reads as
   * "#1 in Home & Kitchen": the part in parentheses is dropped.
   */
  lemma RankTextExample(cell: string)
    requires cell == "#1 in " + "Home & Kitchen " + "(See Top 100 in Home & Kitchen)"
    ensures RankText(cell) == "#1 in Home & Kitchen"
  {
    var cat := "Home & Kitchen ";
    var rest := "(See Top 100 in Home & Kitchen)";
    assert "#1 in " == ['#', '1', ' ', 'i', 'n', ' '];
    assert '(' !in cat;
    HomeKitchenStrip();
    RankTextOneDigit(cell, '1', cat, rest);
    HomeKitchenRank();
  }

  /** The rank read from the example cell, written out. */
  lemma HomeKitchenRank()
    ensures "#" + ['1'] + " in " + "Home & Kitchen" == "#1 in Home & Kitchen"
  {
    var r := "#" + ['1'] + " in " + "Home & Kitchen";
    var e := "#1 in Home & Kitchen";
    assert |r| == |e|;
    forall k | 0 <= k < |e| ensures r[k] == e[k] {
    }
  }
}
