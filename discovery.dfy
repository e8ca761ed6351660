/**
 * Collecting the ASINs of a category listing: the loop of `scrape_top_products` that scans at
 * most `2 * max_products` candidates, skips blank ones and repeats, and stops at `max_products`.
 */
module Discovery {
  import opened Text
  import opened Slices

  /** `asin and asin.strip()`: an attribute with something besides whitespace. */
  predicate NotBlank(a: string) {
    Strip(a) != []
  }

  /** `div[data-asin]:not([data-asin=""])`: the listing's elements whose attribute is not empty. */
  function Candidates(divs: seq<string>): (r: seq<string>)
    ensures |r| <= |divs|
    ensures forall a :: a in r <==> a in divs && a != []
  {
    if divs == [] then []
    else
      var init := divs[..|divs| - 1];
      var last := divs[|divs| - 1];
      assert divs == init + [last];
      Candidates(init) + (if last != [] then [last] else [])
  }

  /** No value occurs twice. */
  predicate NoRepeats(xs: seq<string>) {
    forall i, j :: 0 <= i < j < |xs| ==> xs[i] != xs[j]
  }

  /** The distinct non-blank values of `xs`, in the order they are first seen. */
  function Distinct(xs: seq<string>): (r: seq<string>)
    ensures |r| <= |xs|
  {
    if xs == [] then []
    else
      var init := xs[..|xs| - 1];
      var last := xs[|xs| - 1];
      assert xs == init + [last];
      var r := Distinct(init);
      if NotBlank(last) && last !in r then r + [last] else r
  }

  /** The distinct values are exactly the non-blank values of the list, each once. */
  lemma {:induction false} DistinctMembers(xs: seq<string>)
    ensures NoRepeats(Distinct(xs))
    ensures forall a :: a in Distinct(xs) <==> a in xs && NotBlank(a)
  {
    if xs != [] {
      var init := xs[..|xs| - 1];
      assert xs == init + [xs[|xs| - 1]];
      DistinctMembers(init);
    }
  }

  /** The number of ASINs the loop collects before it stops: `max_products`, but at least one. */
  function Cap(maxProducts: int): (c: nat)
    ensures c >= 1 && (maxProducts >= 1 ==> c == maxProducts)
  {
    if maxProducts >= 1 then maxProducts else 1
  }

  /** What the loop collects: the first-seen distinct values of `elements[:max_products * 2]`, cut at the cap. */
  function Collected(elements: seq<string>, maxProducts: int): (r: seq<string>)
    ensures |r| <= Cap(maxProducts)
    ensures var d := Distinct(Head(elements, maxProducts * 2)); |r| <= |d| && r == d[..|r|]
  {
    var d := Distinct(Head(elements, maxProducts * 2));
    if |d| <= Cap(maxProducts) then d else d[..Cap(maxProducts)]
  }

  /** Scanning more of the list only adds values after those already collected. */
  lemma {:induction false} DistinctPrefix(xs: seq<string>, i: nat)
    requires i <= |xs|
    ensures var d := Distinct(xs[..i]); |d| <= |Distinct(xs)| && d == Distinct(xs)[..|d|]
    decreases |xs|
  {
    if i < |xs| {
      var init := xs[..|xs| - 1];
      assert init[..i] == xs[..i];
      DistinctPrefix(init, i);
      assert xs[..|xs|] == xs;
    } else {
      assert xs[..i] == xs;
    }
  }

  /** The collecting loop of `scrape_top_products`. */
  method CollectAsins(elements: seq<string>, maxProducts: int) returns (asins: seq<string>)
    ensures asins == Collected(elements, maxProducts)
  {
    var scan := Head(elements, maxProducts * 2);
    asins := [];
    var i := 0;
    while i < |scan|
      invariant i <= |scan|
      invariant asins == Distinct(scan[..i])
      invariant |asins| < Cap(maxProducts)
    {
      var asin := scan[i];
      assert scan[..i + 1] == scan[..i] + [asin];
      DistinctSnoc(scan[..i], asin, asins);
      if NotBlank(asin) && asin !in asins {
        asins := asins + [asin];
        if |asins| >= maxProducts {
          CollectedStop(elements, maxProducts, i + 1);
          return;
        }
      }
      i := i + 1;
    }
    assert scan[..i] == scan;
  }

  /** Once the first `n` scanned elements hold `Cap` distinct values, those are what is collected. */
  lemma CollectedStop(elements: seq<string>, maxProducts: int, n: nat)
    requires n <= |Head(elements, maxProducts * 2)|
    requires |Distinct(Head(elements, maxProducts * 2)[..n])| == Cap(maxProducts)
    ensures Distinct(Head(elements, maxProducts * 2)[..n]) == Collected(elements, maxProducts)
  {
    DistinctPrefix(Head(elements, maxProducts * 2), n);
  }

  /**
   * The collected ASINs are distinct, not blank, at most `max_products` of them (one when
   * `max_products` is negative), all from the first `2 * max_products` elements; and any
   * non-blank value there that is missing from them is missing only because the cap was reached.
   */
  lemma CollectedShape(elements: seq<string>, maxProducts: int)
    ensures var r := Collected(elements, maxProducts); var scan := Head(elements, maxProducts * 2);
      && NoRepeats(r)
      && |r| <= Cap(maxProducts)
      && (maxProducts >= 0 ==> |r| <= maxProducts)
      && (forall a :: a in r ==> NotBlank(a) && a in scan)
      && (forall a :: a in scan && NotBlank(a) && a !in r ==> |r| == Cap(maxProducts))
  {
    var scan := Head(elements, maxProducts * 2);
    var d := Distinct(scan);
    var r := Collected(elements, maxProducts);
    DistinctMembers(scan);
    if |d| > Cap(maxProducts) {
      assert forall a :: a in r ==> a in d;
    }
    if maxProducts == 0 {
      assert scan == [];
    }
  }

  /** `xs.index(a)`, or `|xs|` when `a` does not occur in `xs`. */
  function FirstIndex(xs: seq<string>, a: string): (k: nat)
    ensures k <= |xs| && a !in xs[..k]
    ensures k < |xs| <==> a in xs
    ensures k < |xs| ==> xs[k] == a
  {
    if xs == [] then 0
    else if xs[0] == a then 0
    else
      var k := FirstIndex(xs[1..], a);
      assert xs[1..][..k] == xs[1..k + 1];
      k + 1
  }

  /** Collected values keep the order in which they are first seen in the listing. */
  lemma {:induction false} FirstSeenOrder(xs: seq<string>, i: nat, j: nat)
    requires i < j < |Distinct(xs)|
    ensures FirstIndex(xs, Distinct(xs)[i]) < FirstIndex(xs, Distinct(xs)[j])
    decreases |xs|
  {
    var init := xs[..|xs| - 1];
    var last := xs[|xs| - 1];
    assert xs == init + [last];
    var d := Distinct(init);
    DistinctMembers(init);
    var a := Distinct(xs)[i];
    var b := Distinct(xs)[j];
    if j < |d| {
      FirstSeenOrder(init, i, j);
      FirstIndexOfPrefix(init, last, a);
      FirstIndexOfPrefix(init, last, b);
    } else {
      assert b == last && b !in d && a in d;
      assert b !in init;
      FirstIndexOfPrefix(init, last, a);
      assert xs[|init|] == b;
      assert FirstIndex(xs, b) == |init|;
    }
  }

  /** Appending a value does not move the first occurrence of a value already present. */
  lemma FirstIndexOfPrefix(init: seq<string>, last: string, a: string)
    requires a in init
    ensures FirstIndex(init + [last], a) == FirstIndex(init, a)
  {
    var xs := init + [last];
    var k := FirstIndex(init, a);
    var n := FirstIndex(xs, a);
    assert xs[..k] == init[..k];
    assert xs[k] == a;
  }

  /** One more element extends the distinct values when it is not blank and not seen yet. */
  lemma DistinctSnoc(xs: seq<string>, x: string, r: seq<string>)
    requires Distinct(xs) == r
    ensures Distinct(xs + [x]) == if NotBlank(x) && x !in r then r + [x] else r
  {
    assert (xs + [x])[..|xs|] == xs;
  }

  /** A blank is skipped: `[a, e, b]` has the distinct values `[a, b]`. */
  lemma BlankSkipped(a: string, b: string, e: string)
    requires NotBlank(a) && NotBlank(b) && !NotBlank(e) && a != b
    ensures Distinct([a, e, b]) == [a, b]
  {
    DistinctSnoc([], a, []);
    assert [] + [a] == [a];
    DistinctSnoc([a], e, [a]);
    assert [a] + [e] == [a, e];
    DistinctSnoc([a, e], b, [a]);
    assert [a, e] + [b] == [a, e, b] && [a] + [b] == [a, b];
  }

  /** Blanks and repeats are skipped: `[a, e, b, a]` has the distinct values `[a, b]`. */
  lemma DistinctExample(a: string, b: string, e: string)
    requires NotBlank(a) && NotBlank(b) && !NotBlank(e) && a != b
    ensures Distinct([a, e, b, a]) == [a, b]
  {
    BlankSkipped(a, b, e);
    DistinctSnoc([a, e, b], a, [a, b]);
    assert [a, e, b] + [a] == [a, e, b, a];
  }

  /** A new value after `[a, e, b, a]` is appended to its distinct values. */
  lemma DistinctFive(a: string, b: string, c: string, e: string)
    requires NotBlank(a) && NotBlank(b) && NotBlank(c) && !NotBlank(e)
    requires a != b && a != c && b != c
    ensures Distinct([a, e, b, a, c]) == [a, b, c]
  {
    DistinctExample(a, b, e);
    DistinctSnoc([a, e, b, a], c, [a, b]);
    assert [a, e, b, a] + [c] == [a, e, b, a, c] && [a, b] + [c] == [a, b, c];
  }

  /** And another after that. */
  lemma DistinctLonger(a: string, b: string, c: string, d: string, e: string)
    requires NotBlank(a) && NotBlank(b) && NotBlank(c) && NotBlank(d) && !NotBlank(e)
    requires a != b && a != c && a != d && b != c && b != d && c != d
    ensures Distinct([a, e, b, a, c, d]) == [a, b, c, d]
  {
    DistinctFive(a, b, c, e);
    DistinctSnoc([a, e, b, a, c], d, [a, b, c]);
    assert [a, e, b, a, c] + [d] == [a, e, b, a, c, d] && [a, b, c] + [d] == [a, b, c, d];
  }

  /**
   * The listing `[a, e, b, a, c, d, b, f]` with `max_products` 3 collects `[a, b, c]`: only the
   * first six elements are scanned, the blank and the repeat are skipped, and the loop stops
   * at three.
   */
  lemma ListingExample(a: string, b: string, c: string, d: string, e: string, f: string)
    requires NotBlank(a) && NotBlank(b) && NotBlank(c) && NotBlank(d) && !NotBlank(e)
    requires a != b && a != c && a != d && b != c && b != d && c != d
    ensures Collected([a, e, b, a, c, d, b, f], 3) == [a, b, c]
  {
    assert Head([a, e, b, a, c, d, b, f], 6) == [a, e, b, a, c, d];
    DistinctLonger(a, b, c, d, e);
  }

  /** The loop stops at `max_products`: with 1, `[a, b]` collects only `a`. */
  lemma CollectCapExample(a: string, b: string)
    requires NotBlank(a) && NotBlank(b) && a != b
    ensures Collected([a, b], 1) == [a]
  {
    DistinctSnoc([], a, []);
    assert [] + [a] == [a];
    DistinctSnoc([a], b, [a]);
    assert [a] + [b] == [a, b];
  }

  /**
   * A negative `max_products` slices from the end: with -1, `elements[:-2]` of `[a, b, c]` is
   * `[a]`, and the loop, which stops only once it holds at least -1 ASINs, stops after `a`.
   */
  lemma CollectNegativeExample(a: string, b: string, c: string)
    requires NotBlank(a)
    ensures Collected([a, b, c], -1) == [a]
  {
    assert Head([a, b, c], -2) == [a];
    DistinctSnoc([], a, []);
    assert [] + [a] == [a];
  }
}
