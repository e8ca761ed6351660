/**
 * The fixed regular expressions scraper.py passes to `re.search` and `re.sub`, each written
 * out as a scanner over `seq<char>`.
 *
 * `MatchAt(p, s, i)` is the match Python's backtracking engine finds when it tries pattern `p`
 * at position `i`, and `Search(p, s, i)` is the leftmost position at or after `i` where a
 * match exists. For every pattern here the greedy reading is the one the engine settles on:
 * wherever a repetition is followed by something its own characters cannot start, giving
 * characters back cannot make the rest match. The one place where it can (`\s+` before
 * `[^(]+` in RankIn) is written out.
 */
module Regex {
  import opened Optional
  import opened Text

  datatype Span = Span(lo: nat, hi: nat)

  /** The span of the whole match and the spans of its capture groups, in group order. */
  datatype Match = Match(whole: Span, groups: seq<Span>)

  datatype Pattern =
    | NoisePrefix      // ^(Price|From|Save|Limited time deal|List Price|List:)[\s:]*  (IGNORECASE)
    | CurrencySign     // ([\$£€¥])
    | SignThenNumber   // [\$£€¥]\s*([\d,]+\.?\d*)
    | NumberThenSign   // ([\d,]+\.?\d*)\s*[\$£€¥]
    | Number           // ([\d,]+\.?\d*)
    | OptionsFrom      // \d+\s+options?\s+from\s+\$\s*([\d,]+\.?\d*)  (IGNORECASE)
    | DigitsAndDots    // ([\d.]+)
    | DigitsAndCommas  // ([\d,]+)
    | RankIn           // #(\d+)\s+in\s+([^(]+)

  /** The alternatives of NoisePrefix, in the order the engine tries them. */
  const NoiseWords: seq<string> := ["Price", "From", "Save", "Limited time deal", "List Price", "List:"]

  /** `[\$£€¥]` */
  predicate IsSign(c: char) {
    c == '$' || c == '\U{a3}' || c == '\U{20ac}' || c == '\U{a5}'
  }

  /** `[\d,]` */
  predicate IsNumberChar(c: char) {
    IsDigit(c) || c == ','
  }

  /** `[\d.]` */
  predicate IsDigitOrDot(c: char) {
    IsDigit(c) || c == '.'
  }

  /** `[\s:]` */
  predicate IsSpaceOrColon(c: char) {
    IsSpace(c) || c == ':'
  }

  /** `[^(]` */
  predicate NotOpenParen(c: char) {
    c != '('
  }

  /** The characters a capture group of a price-like number `[\d,]+\.?\d*` is made of. */
  predicate IsNumberTextChar(c: char) {
    IsNumberChar(c) || c == '.'
  }

  /** The end of the longest run of characters satisfying `p` that starts at `i`. */
  function RunEnd(s: string, i: nat, p: char -> bool): (j: nat)
    requires i <= |s|
    ensures i <= j <= |s|
    ensures forall k :: i <= k < j ==> p(s[k])
    ensures j == |s| || !p(s[j])
    decreases |s| - i
  {
    if i < |s| && p(s[i]) then RunEnd(s, i + 1, p) else i
  }

  /** The end of the greedy match of `[\d,]+\.?\d*` that starts at `i`. */
  function NumberEnd(s: string, i: nat): (j: nat)
    requires i < |s| && IsNumberChar(s[i])
    ensures i < j <= |s|
    ensures forall k :: i <= k < j ==> IsNumberTextChar(s[k])
  {
    var r := RunEnd(s, i, IsNumberChar);
    if r < |s| && s[r] == '.' then RunEnd(s, r + 1, IsDigit) else r
  }

  /** The greedy number `[\d,]+\.?\d*` holds at most one '.'. */
  lemma NumberOneDot(s: string, i: nat, a: nat, b: nat)
    requires i < |s| && IsNumberChar(s[i])
    requires i <= a < b < NumberEnd(s, i)
    ensures !(s[a] == '.' && s[b] == '.')
  {
    var r := RunEnd(s, i, IsNumberChar);
    if r < |s| && s[r] == '.' {
      assert forall k :: r + 1 <= k < NumberEnd(s, i) ==> IsDigit(s[k]);
    }
  }

  /** The first of `words` that `s` starts with, ignoring case, and its length. */
  function FirstWordPrefix(s: string, words: seq<string>): (n: Option<nat>)
    ensures n.Some? ==> n.value <= |s|
  {
    if words == [] then None
    else if StartsWithIgnoringCase(s, words[0]) then Some(|words[0]|)
    else FirstWordPrefix(s, words[1..])
  }

  /** The number of capture groups of each pattern. */
  function GroupCount(p: Pattern): nat {
    match p
    case RankIn => 2
    case _ => 1
  }

  /** What every character captured by group `g` of pattern `p` is. */
  predicate GroupChar(p: Pattern, g: nat, c: char) {
    match p
    case NoisePrefix => true
    case CurrencySign => IsSign(c)
    case DigitsAndDots => IsDigitOrDot(c)
    case DigitsAndCommas => IsNumberChar(c)
    case RankIn => if g == 0 then IsDigit(c) else NotOpenParen(c)
    case _ => IsNumberTextChar(c)
  }

  /** The captured characters of `m` are those its pattern's groups admit. */
  predicate GroupsWellFormed(p: Pattern, s: string, m: Match) {
    forall g, k :: 0 <= g < |m.groups| && m.groups[g].lo <= k < m.groups[g].hi && k < |s| ==> GroupChar(p, g, s[k])
  }

  /**
   * A match of `p` attempted at `i` in `s`: it starts at `i` and ends within `s`, it has the
   * pattern's groups, each a non-empty span inside the match, and they capture only
   * characters the pattern admits.
   */
  predicate Placed(p: Pattern, s: string, i: nat, m: Match) {
    && i == m.whole.lo <= m.whole.hi <= |s|
    && |m.groups| == GroupCount(p)
    && (forall g :: g in m.groups ==> i <= g.lo < g.hi <= m.whole.hi)
    && GroupsWellFormed(p, s, m)
  }

  /** A one-group match whose group admits every character it spans is placed. */
  lemma OneGroupPlaced(p: Pattern, s: string, i: nat, lo: nat, hi: nat, end: nat)
    requires GroupCount(p) == 1 && i <= lo < hi <= end <= |s|
    requires forall k :: lo <= k < hi ==> GroupChar(p, 0, s[k])
    ensures Placed(p, s, i, Match(Span(i, end), [Span(lo, hi)]))
  {
  }

  /** The same for the two groups of RankIn: digits, then characters other than '('. */
  lemma TwoGroupsPlaced(s: string, i: nat, lo0: nat, hi0: nat, lo1: nat, hi1: nat, end: nat)
    requires i <= lo0 < hi0 <= end && i <= lo1 < hi1 <= end <= |s|
    requires forall k :: lo0 <= k < hi0 ==> IsDigit(s[k])
    requires forall k :: lo1 <= k < hi1 ==> NotOpenParen(s[k])
    ensures Placed(RankIn, s, i, Match(Span(i, end), [Span(lo0, hi0), Span(lo1, hi1)]))
  {
  }

  /** The match of `p` attempted at position `i` of `s`. */
  function MatchAt(p: Pattern, s: string, i: nat): (m: Option<Match>)
    requires i <= |s|
    ensures m.Some? ==> Placed(p, s, i, m.value)
  {
    match p
    case NoisePrefix =>
      if i != 0 then None
      else (match FirstWordPrefix(s, NoiseWords)
            case None => None
            case Some(n) =>
              if n == 0 then None
              else var e := RunEnd(s, n, IsSpaceOrColon);
              OneGroupPlaced(NoisePrefix, s, 0, 0, n, e);
              Some(Match(Span(0, e), [Span(0, n)])))
    case CurrencySign =>
      if i < |s| && IsSign(s[i]) then OneGroupPlaced(CurrencySign, s, i, i, i + 1, i + 1); Some(Match(Span(i, i + 1), [Span(i, i + 1)]))
      else None
    case SignThenNumber =>
      if i < |s| && IsSign(s[i]) then
        var w := RunEnd(s, i + 1, IsSpace);
        if w < |s| && IsNumberChar(s[w]) then
          var e := NumberEnd(s, w);
          OneGroupPlaced(SignThenNumber, s, i, w, e, e);
          Some(Match(Span(i, e), [Span(w, e)]))
        else None
      else None
    case NumberThenSign =>
      if i < |s| && IsNumberChar(s[i]) then
        var e := NumberEnd(s, i);
        var w := RunEnd(s, e, IsSpace);
        if w < |s| && IsSign(s[w]) then OneGroupPlaced(NumberThenSign, s, i, i, e, w + 1); Some(Match(Span(i, w + 1), [Span(i, e)]))
        else None
      else None
    case Number =>
      if i < |s| && IsNumberChar(s[i]) then
        var e := NumberEnd(s, i);
        OneGroupPlaced(Number, s, i, i, e, e);
        Some(Match(Span(i, e), [Span(i, e)]))
      else None
    case OptionsFrom =>
      OptionsFromAt(s, i)
    case DigitsAndDots =>
      if i < |s| && IsDigitOrDot(s[i]) then
        var e := RunEnd(s, i, IsDigitOrDot);
        OneGroupPlaced(DigitsAndDots, s, i, i, e, e);
        Some(Match(Span(i, e), [Span(i, e)]))
      else None
    case DigitsAndCommas =>
      if i < |s| && IsNumberChar(s[i]) then
        var e := RunEnd(s, i, IsNumberChar);
        OneGroupPlaced(DigitsAndCommas, s, i, i, e, e);
        Some(Match(Span(i, e), [Span(i, e)]))
      else None
    case RankIn =>
      RankInAt(s, i)
  }

  /** `\d+\s+options?\s+from\s+\$\s*([\d,]+\.?\d*)`, ignoring case, at position `i`. */
  function OptionsFromAt(s: string, i: nat): (m: Option<Match>)
    requires i <= |s|
    ensures m.Some? ==> Placed(OptionsFrom, s, i, m.value)
  {
    if !(i < |s| && IsDigit(s[i])) then None
    else
      var d := RunEnd(s, i, IsDigit);
      var w1 := RunEnd(s, d, IsSpace);
      if w1 == d || !StartsWithIgnoringCase(s[w1..], "option") then None
      else
        var o := if w1 + 6 < |s| && LowerChar(s[w1 + 6]) == 's' then w1 + 7 else w1 + 6;
        var w2 := RunEnd(s, o, IsSpace);
        if w2 == o || !StartsWithIgnoringCase(s[w2..], "from") then None
        else OptionsPrice(s, i, w2 + 4)
  }

  /** The `\s+\$\s*([\d,]+\.?\d*)` that ends OptionsFrom, from position `a` just after "from". */
  function OptionsPrice(s: string, i: nat, a: nat): (m: Option<Match>)
    requires i < a <= |s|
    ensures m.Some? ==> Placed(OptionsFrom, s, i, m.value)
  {
    var w3 := RunEnd(s, a, IsSpace);
    if w3 == a || w3 == |s| || s[w3] != '$' then None
    else
      var w4 := RunEnd(s, w3 + 1, IsSpace);
      if w4 == |s| || !IsNumberChar(s[w4]) then None
      else
        var e := NumberEnd(s, w4);
        OneGroupPlaced(OptionsFrom, s, i, w4, e, e);
        Some(Match(Span(i, e), [Span(w4, e)]))
  }

  /**
   * `#(\d+)\s+in\s+([^(]+)` at position `i`. When the whitespace after "in" runs into a '('
   * or the end of the text, the engine gives back its last whitespace character, which
   * `[^(]+` then matches on its own.
   */
  function RankInAt(s: string, i: nat): (m: Option<Match>)
    requires i <= |s|
    ensures m.Some? ==> Placed(RankIn, s, i, m.value)
  {
    if !(i < |s| && s[i] == '#') then None
    else
      var d := RunEnd(s, i + 1, IsDigit);
      var w1 := RunEnd(s, d, IsSpace);
      if d == i + 1 || w1 == d || !StartsWith(s[w1..], "in") then None
      else RankCategory(s, i, d, w1 + 2)
  }

  /**
   * The `\s+([^(]+)` that ends RankIn, from position `a` just after "in", for a match that
   * began at `i` with the digits `i + 1 .. d`. The category starts where the whitespace
   * ends, or, when that is at a '(' or the end of `s`, at the last whitespace character,
   * which needs a whitespace character before it.
   */
  function RankCategory(s: string, i: nat, d: nat, a: nat): (m: Option<Match>)
    requires i + 1 < d <= a <= |s|
    requires forall k :: i + 1 <= k < d ==> IsDigit(s[k])
    ensures m.Some? ==> Placed(RankIn, s, i, m.value)
  {
    var w := RunEnd(s, a, IsSpace);
    var lo := if w < |s| && s[w] != '(' then w else w - 1;
    if w == a || (lo < w && w - a < 2) then None
    else
      assert lo < w ==> IsSpace(s[lo]);
      var c := RunEnd(s, lo, NotOpenParen);
      TwoGroupsPlaced(s, i, i + 1, d, lo, c, c);
      Some(Match(Span(i, c), [Span(i + 1, d), Span(lo, c)]))
  }

  /** The leftmost position from `from` to `end` at which `hit` holds. */
  function Leftmost(hit: nat -> bool, from: nat, end: nat): (k: Option<nat>)
    requires from <= end
    ensures k.Some? ==> from <= k.value <= end && hit(k.value)
    ensures k.Some? ==> forall j :: from <= j < k.value ==> !hit(j)
    ensures k.None? ==> forall j :: from <= j <= end ==> !hit(j)
    decreases end - from
  {
    if hit(from) then Some(from)
    else if from == end then None
    else Leftmost(hit, from + 1, end)
  }

  /** `re.search` from position `from`: the leftmost position where `p` matches. */
  function Search(p: Pattern, s: string, from: nat): (k: Option<nat>)
    requires from <= |s|
    ensures k.Some? ==> from <= k.value <= |s| && MatchAt(p, s, k.value).Some?
    ensures k.Some? ==> forall j :: from <= j < k.value ==> MatchAt(p, s, j).None?
    ensures k.None? ==> forall j :: from <= j <= |s| ==> MatchAt(p, s, j).None?
  {
    var hit := (j: nat) => j <= |s| && MatchAt(p, s, j).Some?;
    assert forall j: nat :: hit(j) == (j <= |s| && MatchAt(p, s, j).Some?);
    Leftmost(hit, from, |s|)
  }

  /** The match `re.search(p, s)` returns. */
  function Find(p: Pattern, s: string): (m: Option<Match>)
    ensures m.Some? ==> Placed(p, s, m.value.whole.lo, m.value)
  {
    match Search(p, s, 0)
    case None => None
    case Some(k) => MatchAt(p, s, k)
  }

  /** The text of capture group `g` of a match found in `s`. */
  function GroupText(s: string, m: Match, g: nat): string
    requires g < |m.groups| && m.groups[g].lo <= m.groups[g].hi <= |s|
  {
    s[m.groups[g].lo..m.groups[g].hi]
  }

  /** Every character a group of a found match captures is one its pattern admits there. */
  lemma GroupTextChars(p: Pattern, s: string, g: nat)
    requires Find(p, s).Some? && g < GroupCount(p)
    ensures forall k :: 0 <= k < |GroupText(s, Find(p, s).value, g)| ==>
      GroupChar(p, g, GroupText(s, Find(p, s).value, g)[k])
    ensures forall c :: c in GroupText(s, Find(p, s).value, g) ==> GroupChar(p, g, c)
  {
    var m := Find(p, s).value;
    assert m.groups[g] in m.groups;
    WellFormedGroup(p, s, m, g);
  }

  /** The same for any well-formed match. */
  lemma WellFormedGroup(p: Pattern, s: string, m: Match, g: nat)
    requires GroupsWellFormed(p, s, m)
    requires g < |m.groups| && m.groups[g].lo <= m.groups[g].hi <= |s|
    ensures forall k :: 0 <= k < |GroupText(s, m, g)| ==> GroupChar(p, g, GroupText(s, m, g)[k])
    ensures forall c :: c in GroupText(s, m, g) ==> GroupChar(p, g, c)
  {
    var t := GroupText(s, m, g);
    forall k | 0 <= k < |t| ensures GroupChar(p, g, t[k]) {
      assert t[k] == s[m.groups[g].lo + k];
    }
  }

  /** A run of `p` ends at the first position that does not satisfy `p`. */
  lemma RunStops(s: string, i: nat, j: nat, p: char -> bool)
    requires i <= j <= |s|
    requires forall k :: i <= k < j ==> p(s[k])
    requires j == |s| || !p(s[j])
    ensures RunEnd(s, i, p) == j
  {
  }
}
