/**
 * Python's `float()` and `int()` applied to the digit strings the scraper's regexes capture.
 * A float is modelled as the exact decimal value of its text: binary rounding is not modelled.
 */
module Decimal {
  import opened Optional
  import opened Text

  function Pow10(k: nat): (p: nat)
    ensures p >= 1
  {
    if k == 0 then 1 else 10 * Pow10(k - 1)
  }

  predicate AllDigits(s: string) {
    forall i :: 0 <= i < |s| ==> IsDigit(s[i])
  }

  /** The number a string of decimal digits denotes; it is zero exactly when every digit is '0'. */
  function DigitsValue(s: string): (n: nat)
    requires AllDigits(s)
    ensures n > 0 <==> exists i :: 0 <= i < |s| && s[i] != '0'
  {
    if s == [] then 0
    else
      var init := s[..|s| - 1];
      assert forall i :: 0 <= i < |init| ==> init[i] == s[i];
      DigitsValue(init) * 10 + (s[|s| - 1] as int - '0' as int)
  }

  /** The strings `float()` accepts among those made of digits and dots: at most one dot, at least one digit. */
  predicate IsFloatText(t: string) {
    && (exists i :: 0 <= i < |t| && t[i] != '.')
    && !(exists i, j :: 0 <= i < j < |t| && t[i] == '.' && t[j] == '.')
  }

  predicate HasNonZeroDigit(t: string) {
    exists i :: 0 <= i < |t| && t[i] != '.' && t[i] != '0'
  }

  /**
   * `float(t)` for text made of ASCII digits and dots; `None` stands for the `ValueError`
   * raised on text such as "" or "." or "1.2.3". The value is never negative, and it is
   * positive exactly when some digit is not '0'.
   */
  function ParseFloat(t: string): (r: Option<real>)
    requires forall i :: 0 <= i < |t| ==> IsDigit(t[i]) || t[i] == '.'
    ensures r.Some? <==> IsFloatText(t)
    ensures r.Some? ==> r.value >= 0.0
    ensures r.Some? ==> (r.value > 0.0 <==> HasNonZeroDigit(t))
  {
    var whole := BeforeFirst(t, '.');
    if |whole| == |t| then
      NoDotText(t);
      if t == [] then None else Some(DigitsValue(t) as real)
    else
      var fraction := t[|whole| + 1..];
      assert t == whole + ['.'] + fraction;
      if '.' in fraction then
        TwoDotText(t, whole, fraction);
        None
      else
        OneDotText(t, whole, fraction);
        if whole == [] && fraction == [] then None
        else Some(DecimalValue(DigitsValue(whole), DigitsValue(fraction), Pow10(|fraction|)))
  }

  /** `whole.fraction` as an exact real, where `scale` is ten to the number of fraction digits. */
  function DecimalValue(whole: nat, fraction: nat, scale: nat): (v: real)
    requires scale >= 1
    ensures v >= 0.0
    ensures v > 0.0 <==> whole > 0 || fraction > 0
  {
    var f := fraction as real / scale as real;
    assert f >= 0.0;
    assert fraction > 0 ==> f > 0.0;
    whole as real + f
  }

  lemma NoDotText(t: string)
    requires forall i :: 0 <= i < |t| ==> IsDigit(t[i]) || t[i] == '.'
    requires BeforeFirst(t, '.') == t
    ensures AllDigits(t)
    ensures IsFloatText(t) <==> t != []
    ensures t != [] ==> (DigitsValue(t) > 0 <==> HasNonZeroDigit(t))
  {
    assert '.' !in t;
    if t != [] {
      assert t[0] != '.';
    }
  }

  lemma TwoDotText(t: string, whole: string, fraction: string)
    requires t == whole + ['.'] + fraction && '.' in fraction
    ensures !IsFloatText(t)
  {
    var j :| 0 <= j < |fraction| && fraction[j] == '.';
    assert t[|whole|] == '.' && t[|whole| + 1 + j] == '.';
  }

  lemma OneDotText(t: string, whole: string, fraction: string)
    requires forall i :: 0 <= i < |t| ==> IsDigit(t[i]) || t[i] == '.'
    requires t == whole + ['.'] + fraction && '.' !in whole && '.' !in fraction
    ensures AllDigits(whole) && AllDigits(fraction)
    ensures IsFloatText(t) <==> whole != [] || fraction != []
    ensures AllDigits(whole) && AllDigits(fraction) ==>
      (DigitsValue(whole) > 0 || DigitsValue(fraction) > 0 <==> HasNonZeroDigit(t))
  {
    assert forall i :: 0 <= i < |whole| ==> whole[i] == t[i];
    assert forall i :: 0 <= i < |fraction| ==> fraction[i] == t[|whole| + 1 + i];
    if whole != [] {
      assert t[0] != '.';
    }
    if fraction != [] {
      assert t[|whole| + 1] != '.';
    }
    forall i, j | 0 <= i < j < |t| && t[i] == '.'
      ensures t[j] != '.'
    {
      assert i == |whole|;
    }
    if HasNonZeroDigit(t) {
      var i :| 0 <= i < |t| && t[i] != '.' && t[i] != '0';
      if i < |whole| {
        assert whole[i] != '0';
      } else {
        assert fraction[i - |whole| - 1] != '0';
      }
    }
  }

  /** `float("W.F")` is W plus F scaled down by the number of fraction digits. */
  lemma ParseFloatParts(whole: string, fraction: string)
    requires AllDigits(whole) && AllDigits(fraction) && (whole != [] || fraction != [])
    ensures ParseFloat(whole + "." + fraction) == Some(DecimalValue(DigitsValue(whole), DigitsValue(fraction), Pow10(|fraction|)))
  {
    var t := whole + "." + fraction;
    assert t[|whole|] == '.';
    assert BeforeFirst(t, '.') == whole;
    assert t[|whole| + 1..] == fraction;
  }

  /** `int(t)` for text made of ASCII digits; `None` stands for the `ValueError` raised on "". */
  function ParseInt(t: string): (r: Option<nat>)
    requires AllDigits(t)
    ensures r.Some? <==> t != []
    ensures r.Some? ==> (r.value > 0 <==> exists i :: 0 <= i < |t| && t[i] != '0')
  {
    if t == [] then None else Some(DigitsValue(t))
  }
}
