/**
 * The product-page fields read from page text: rating, review count, the bullet summary and
 * the Best Sellers Rank.
 */
module Fields {
  import opened Optional
  import opened Text
  import opened Decimal
  import opened Regex
  import opened Fallback
  import opened Slices
  import opened Page

  /**
   * `extract_rating`: `float()` of the first run of digits and dots in the element's text;
   * nothing when the element is missing, the text has no such run, or `float()` rejects it.
   */
  function RatingOf(e: Option<Elem>): (r: Option<real>)
    ensures r.Some? ==> r.value >= 0.0
    ensures e.None? ==> r.None?
  {
    match e
    case None => None
    case Some(elem) =>
      var t := Displayed(elem);
      match Find(DigitsAndDots, t)
      case None => None
      case Some(m) =>
        var run := GroupText(t, m, 0);
        GroupTextChars(DigitsAndDots, t, 0);
        assert forall k :: 0 <= k < |run| ==> IsDigit(run[k]) || run[k] == '.';
        ParseFloat(run)
  }

  /**
   * `extract_reviews_count`: `int()` of the first run of digits and commas in the stripped
   * text, commas removed; nothing when the element is missing, there is no run, or the run
   * is only commas.
   */
  function ReviewsOf(text: Option<string>): (r: Option<nat>)
    ensures text.None? ==> r.None?
  {
    match text
    case None => None
    case Some(raw) =>
      var t := Strip(raw);
      match Find(DigitsAndCommas, t)
      case None => None
      case Some(m) =>
        var digits := Without(GroupText(t, m, 0), ',');
        GroupTextChars(DigitsAndCommas, t, 0);
        assert forall k :: 0 <= k < |digits| ==> IsDigit(digits[k]);
        ParseInt(digits)
  }

  /** The stripped text of a bullet when it is kept: longer than ten characters. */
  function Kept(text: string): (r: seq<string>)
    ensures |r| <= 1
    ensures r != [] <==> |Strip(text)| > 10
    ensures r != [] ==> r[0] == Strip(text)
  {
    var t := Strip(text);
    if t != [] && |t| > 10 then [t] else []
  }

  /** The kept bullets of `texts`, in order. */
  function KeptBullets(texts: seq<string>): (r: seq<string>)
    ensures |r| <= |texts|
  {
    if texts == [] then []
    else KeptBullets(texts[..|texts| - 1]) + Kept(texts[|texts| - 1])
  }

  /** Every kept bullet is the stripped text of one of `texts`, longer than ten characters. */
  lemma {:induction false} KeptBulletsFrom(texts: seq<string>)
    ensures forall b :: b in KeptBullets(texts) ==> |b| > 10 && exists t :: t in texts && b == Strip(t)
  {
    if texts != [] {
      var init := texts[..|texts| - 1];
      KeptBulletsFrom(init);
      assert forall t :: t in init ==> t in texts;
    }
  }

  /** The positions of the texts that are kept, in increasing order. */
  function KeptPositions(texts: seq<string>): seq<nat> {
    if texts == [] then []
    else KeptPositions(texts[..|texts| - 1]) + (if |Strip(texts[|texts| - 1])| > 10 then [|texts| - 1] else [])
  }

  /**
   * `kept` is, in order, the stripped texts at the positions `pos`: the positions increase, and
   * a position is in `pos` exactly when its text strips to more than ten characters.
   */
  predicate KeptAt(texts: seq<string>, pos: seq<nat>, kept: seq<string>) {
    && |pos| == |kept|
    && (forall k :: 0 <= k < |pos| ==> pos[k] < |texts| && kept[k] == Strip(texts[pos[k]]))
    && (forall k, l :: 0 <= k < l < |pos| ==> pos[k] < pos[l])
    && (forall i :: 0 <= i < |texts| ==> (i in pos <==> |Strip(texts[i])| > 10))
  }

  /** The kept bullets are the stripped texts at the kept positions, in order. */
  lemma {:induction false} KeptInOrder(texts: seq<string>)
    ensures KeptAt(texts, KeptPositions(texts), KeptBullets(texts))
  {
    if texts != [] {
      var n := |texts| - 1;
      KeptInOrder(texts[..n]);
      assert texts == texts[..n] + [texts[n]];
      KeptAtSnoc(texts[..n], texts[n], KeptPositions(texts[..n]), KeptBullets(texts[..n]));
    }
  }

  /** One more text extends the positions and the kept bullets together. */
  lemma KeptAtSnoc(init: seq<string>, last: string, pos: seq<nat>, kept: seq<string>)
    requires KeptAt(init, pos, kept)
    ensures KeptAt(init + [last], pos + (if |Strip(last)| > 10 then [|init|] else []), kept + Kept(last))
  {
    var texts := init + [last];
    var pos' := pos + (if |Strip(last)| > 10 then [|init|] else []);
    assert forall i :: 0 <= i < |init| ==> texts[i] == init[i];
    forall i | 0 <= i < |texts| ensures i in pos' <==> |Strip(texts[i])| > 10 {
      if i < |init| {
        assert i in pos' <==> i in pos;
      }
    }
  }

  /** Every text among `texts` that strips to more than ten characters is kept. */
  lemma KeptAll(texts: seq<string>)
    ensures forall t :: t in texts && |Strip(t)| > 10 ==> Strip(t) in KeptBullets(texts)
  {
    KeptInOrder(texts);
    assert KeptAt(texts, KeptPositions(texts), KeptBullets(texts));
    var pos := KeptPositions(texts);
    forall t | t in texts && |Strip(t)| > 10 ensures Strip(t) in KeptBullets(texts) {
      var i :| 0 <= i < |texts| && texts[i] == t;
      assert i in pos;
      var k :| 0 <= k < |pos| && pos[k] == i;
    }
  }

  /** One more element adds its kept text, if any, at the end. */
  lemma KeptBulletsSnoc(texts: seq<string>, i: nat)
    requires i < |texts|
    ensures KeptBullets(texts[..i + 1]) == KeptBullets(texts[..i]) + Kept(texts[i])
  {
    assert texts[..i + 1][..i] == texts[..i];
  }

  /** `extract_bullet_points`: the kept bullets among the first five, joined with " | ". */
  function BulletSummary(texts: seq<string>): (r: string)
    ensures KeptBullets(Head(texts, 5)) == [] ==> r == []
    ensures var kept := KeptBullets(Head(texts, 5));
      kept != [] ==> StartsWith(r, kept[0]) && |kept[|kept| - 1]| <= |r| && r[|r| - |kept[|kept| - 1]|..] == kept[|kept| - 1]
  {
    Join(KeptBullets(Head(texts, 5)), " | ")
  }

  /**
   * The bullet summary joins at most five bullets, each the stripped text of one of the first
   * five bullet elements and longer than ten characters; every such text is kept, in the order
   * of the elements; the summary is empty exactly when none of the first five qualifies.
   */
  lemma BulletSummaryShape(texts: seq<string>)
    ensures var kept := KeptBullets(Head(texts, 5));
      && |kept| <= 5
      && (forall b :: b in kept ==> |b| > 10 && exists t :: t in texts[..|Head(texts, 5)|] && b == Strip(t))
      && (BulletSummary(texts) == [] <==> kept == [])
      && (forall t :: t in texts[..|Head(texts, 5)|] && |Strip(t)| > 10 ==> Strip(t) in kept)
      && KeptAt(Head(texts, 5), KeptPositions(Head(texts, 5)), kept)
      && (kept == [] <==> forall t :: t in texts[..|Head(texts, 5)|] ==> |Strip(t)| <= 10)
  {
    var head := Head(texts, 5);
    KeptShape(head);
    assert head == texts[..|head|];
    SummaryEmpty(texts);
  }

  /** The summary is empty exactly when no bullet is kept. */
  lemma SummaryEmpty(texts: seq<string>)
    ensures BulletSummary(texts) == [] <==> KeptBullets(Head(texts, 5)) == []
  {
    var kept := KeptBullets(Head(texts, 5));
    KeptBulletsFrom(Head(texts, 5));
    JoinEmpty(kept, " | ");
  }

  /** The facts about the kept bullets of `texts` that the summary states, for any list. */
  lemma KeptShape(texts: seq<string>)
    ensures var kept := KeptBullets(texts);
      && |kept| <= |texts|
      && (forall b :: b in kept ==> |b| > 10 && exists t :: t in texts && b == Strip(t))
      && (forall t :: t in texts && |Strip(t)| > 10 ==> Strip(t) in kept)
      && KeptAt(texts, KeptPositions(texts), kept)
      && (kept == [] <==> forall t :: t in texts ==> |Strip(t)| <= 10)
  {
    KeptBulletsFrom(texts);
    KeptAll(texts);
    KeptInOrder(texts);
    KeptNone(texts);
  }

  /** No bullet is kept exactly when every text strips to at most ten characters. */
  lemma {:induction false} KeptNone(texts: seq<string>)
    ensures KeptBullets(texts) == [] <==> forall t :: t in texts ==> |Strip(t)| <= 10
  {
    if texts != [] {
      var init := texts[..|texts| - 1];
      var last := texts[|texts| - 1];
      KeptNone(init);
      assert texts == init + [last];
      assert KeptBullets(texts) == KeptBullets(init) + Kept(last);
      assert Kept(last) == [] <==> |Strip(last)| <= 10;
    }
  }

  /**
   * The text of a first rank cell: "#N in Category" when the rank pattern matches (the
   * category stripped), otherwise the stripped text before its first '('.
   */
  function RankText(cell: string): (r: string)
    ensures '(' !in r
  {
    var t := Strip(cell);
    match Find(RankIn, t)
    case Some(m) =>
      RankMatchText(t);
      "#" + GroupText(t, m, 0) + " in " + Strip(GroupText(t, m, 1))
    case None =>
      StripKeepsOut(BeforeFirst(t, '('), '(');
      Strip(BeforeFirst(t, '('))
  }

  /** The rank number is one or more digits and the category stops before any '('. */
  lemma RankMatchText(t: string)
    requires Find(RankIn, t).Some?
    ensures var m := Find(RankIn, t).value;
      && GroupText(t, m, 0) != [] && IsDigitText(GroupText(t, m, 0))
      && GroupText(t, m, 1) != [] && '(' !in GroupText(t, m, 1)
      && '(' !in "#" + GroupText(t, m, 0) + " in " + Strip(GroupText(t, m, 1))
  {
    var m := Find(RankIn, t).value;
    assert m.groups[0] in m.groups && m.groups[1] in m.groups;
    GroupTextChars(RankIn, t, 0);
    GroupTextChars(RankIn, t, 1);
    StripKeepsOut(GroupText(t, m, 1), '(');
  }

  /** Stripping adds no character. */
  lemma StripKeepsOut(s: string, c: char)
    requires c !in s
    ensures c !in Strip(s)
  {
    var r := Strip(s);
    var a := |s| - |StripLeft(s)|;
    StripInfix(s);
    assert forall k :: 0 <= k < |r| ==> r[k] == s[a + k];
  }

  /** Whether a header is the Best Sellers Rank header. */
  function HeaderStep(h: BsrHeader): (r: Step<BsrHeader>)
    ensures !r.Abort?
    ensures r.Found? <==> Contains(h.text, "Best Sellers Rank")
    ensures r.Found? ==> r.value == h
  {
    if Contains(h.text, "Best Sellers Rank") then Found(h) else Skip
  }

  /** One span of the detail-bullets section: a "#... in ..." text, cut at its first '('. */
  function SpanStep(text: string): (r: Step<string>)
    ensures !r.Abort?
    ensures r.Found? <==> StartsWith(Strip(text), "#") && Contains(Strip(text), "in")
    ensures r.Found? ==> r.value == Strip(BeforeFirst(Strip(text), '(')) && '(' !in r.value
  {
    var t := Strip(text);
    if StartsWith(t, "#") && Contains(t, "in") then
      StripKeepsOut(BeforeFirst(t, '('), '(');
      Found(Strip(BeforeFirst(t, '(')))
    else Skip
  }

  /**
   * `extract_best_sellers_rank`: only the first Best Sellers Rank header is read; when its rank
   * cell cannot be read the result is nothing and the detail-bullets section is not tried.
   * Without such a header, the first qualifying span of that section, if the section exists.
   */
  function BestSellersRank(p: Page): (r: Option<string>)
    ensures r.Some? ==> '(' !in r.value
  {
    match FirstHit(p.bsrHeaders, HeaderStep)
    case Some(h) => if h.firstRank.Some? then Some(RankText(h.firstRank.value)) else None
    case None =>
      if p.detailSpans.Some? then
        FirstHitKeeps(p.detailSpans.value, SpanStep, (s: string) => '(' !in s);
        FirstHit(p.detailSpans.value, SpanStep)
      else None
  }

  /**
   * The first header naming the Best Sellers Rank decides: its rank cell read as RankText, or
   * nothing when it has none, whatever the detail-bullets section holds.
   */
  lemma BsrFromHeader(p: Page, i: nat)
    requires i < |p.bsrHeaders| && Contains(p.bsrHeaders[i].text, "Best Sellers Rank")
    requires forall j :: 0 <= j < i ==> !Contains(p.bsrHeaders[j].text, "Best Sellers Rank")
    ensures p.bsrHeaders[i].firstRank.None? ==> BestSellersRank(p) == None
    ensures p.bsrHeaders[i].firstRank.Some? ==> BestSellersRank(p) == Some(RankText(p.bsrHeaders[i].firstRank.value))
  {
    FirstHitAt(p.bsrHeaders, HeaderStep, i);
  }

  /** Without such a header, the detail-bullets section is scanned, and nothing is found without it. */
  lemma BsrFromSpans(p: Page)
    requires forall j :: 0 <= j < |p.bsrHeaders| ==> !Contains(p.bsrHeaders[j].text, "Best Sellers Rank")
    ensures p.detailSpans.None? ==> BestSellersRank(p) == None
    ensures p.detailSpans.Some? ==> BestSellersRank(p) == FirstHit(p.detailSpans.value, SpanStep)
  {
    assert forall j :: 0 <= j < |p.bsrHeaders| ==> HeaderStep(p.bsrHeaders[j]).Skip?;
  }

  /**
   * Without such a header, the first span that starts with '#' and contains "in" gives the
   * rank: its stripped text up to its first '('.
   */
  lemma BsrFromSpan(p: Page, i: nat)
    requires forall j :: 0 <= j < |p.bsrHeaders| ==> !Contains(p.bsrHeaders[j].text, "Best Sellers Rank")
    requires p.detailSpans.Some? && i < |p.detailSpans.value|
    requires var t := Strip(p.detailSpans.value[i]); StartsWith(t, "#") && Contains(t, "in")
    requires forall j :: 0 <= j < i ==>
      var t := Strip(p.detailSpans.value[j]); !(StartsWith(t, "#") && Contains(t, "in"))
    ensures BestSellersRank(p) == Some(Strip(BeforeFirst(Strip(p.detailSpans.value[i]), '(')))
  {
    BsrFromSpans(p);
    FirstHitAt(p.detailSpans.value, SpanStep, i);
  }
}
