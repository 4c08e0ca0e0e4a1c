/** Best-effort numeric extraction from a free-text "value and unit" cell
    (`extract_numeric_concentration` in Merge-Cross/Merge-Cross.py) and the
    closeness test the agreement check applies to two extracted values.

    The cell is searched for the pattern
        [+-]?(\d+(\.\d*)?([eE][+-]?\d+)?|[<>]\s*\d+(\.\d*)?)
    A `Match` records, like a regex match object, where each part of the
    pattern begins and ends in the searched text; `IsMatch` says when such
    boundaries are a match. The scanner `ScanAt` computes the match the
    backtracking engine picks at one position: the lemmas show it is the longest
    match starting there, and `Search` takes the leftmost position where a match
    exists. */
module Numeric {
  import opened Wrappers
  import opened Text

  predicate IsSign(c: char) {
    c == '+' || c == '-'
  }

  predicate IsMarker(c: char) {
    c == '<' || c == '>'
  }

  predicate IsExpLetter(c: char) {
    c == 'e' || c == 'E'
  }

  /** `s[a..b]` is a run of digits (`\d*`). */
  predicate DigitsIn(s: string, a: nat, b: nat) {
    a <= b <= |s| && forall i :: a <= i < b ==> IsDigit(s[i])
  }

  /** `s[a..b]` is a run of whitespace (`\s*`). */
  predicate SpacesIn(s: string, a: nat, b: nat) {
    a <= b <= |s| && forall i :: a <= i < b ==> IsSpace(s[i])
  }

  /** `s[a..b]` is an optional sign (`[+-]?`). */
  predicate OptSignIn(s: string, a: nat, b: nat) {
    (b == a && a <= |s|) || (b == a + 1 && a < |s| && IsSign(s[a]))
  }

  /** `s[a..f]` is `\d+(\.\d*)?`: the integer digits end at `w`, the point (if
      any) ends at `p`, and the digits after it end at `f`. */
  predicate DecimalIn(s: string, a: nat, w: nat, p: nat, f: nat) {
    && a < w && DigitsIn(s, a, w)
    && (p == w || (p == w + 1 && w < |s| && s[w] == '.'))
    && DigitsIn(s, p, f)
    && (p == w ==> f == p)
  }

  /** `s[a..e]` is `([eE][+-]?\d+)?`: the letter (if any) ends at `l`, the
      exponent's sign at `g`, and its digits at `e`. */
  predicate ExponentIn(s: string, a: nat, l: nat, g: nat, e: nat) {
    || (l == a && g == a && e == a && a <= |s|)
    || (l == a + 1 && a < |s| && IsExpLetter(s[a]) && OptSignIn(s, l, g) && g < e && DigitsIn(s, g, e))
  }

  /** The boundaries of one match: each field is the index where a part of the
      pattern ends (`start` is where the sign, if any, begins). */
  datatype Match = Match(
    start: nat,       // beginning of `[+-]?`
    signEnd: nat,     // end of `[+-]?`
    markerEnd: nat,   // end of `[<>]` (second alternative only)
    gapEnd: nat,      // end of `\s*` (second alternative only)
    wholeEnd: nat,    // end of `\d+`
    pointEnd: nat,    // end of `\.`
    fracEnd: nat,     // end of the `\d*` after the point
    letterEnd: nat,   // end of `[eE]` (first alternative only)
    expSignEnd: nat,  // end of the exponent's `[+-]?`
    end: nat)         // end of the exponent's `\d+`: the end of the match

  /** `s[m.start..m.end]` matches the pattern with the parts `m` records. */
  predicate IsMatch(s: string, m: Match) {
    && OptSignIn(s, m.start, m.signEnd)
    && DecimalIn(s, m.gapEnd, m.wholeEnd, m.pointEnd, m.fracEnd)
    && (|| (m.markerEnd == m.signEnd && m.gapEnd == m.signEnd
            && ExponentIn(s, m.fracEnd, m.letterEnd, m.expSignEnd, m.end))
        || (m.markerEnd == m.signEnd + 1 && m.signEnd < |s| && IsMarker(s[m.signEnd])
            && SpacesIn(s, m.markerEnd, m.gapEnd)
            && m.letterEnd == m.fracEnd && m.expSignEnd == m.fracEnd && m.end == m.fracEnd))
  }

  /** The match uses the second alternative, `[<>]\s*\d+(\.\d*)?`. */
  predicate Bounded(m: Match) {
    m.markerEnd != m.signEnd
  }

  // ---------------------------------------------------------------------------
  // The scanner.

  /** The end of the run of digits starting at `i`. */
  function DigitsFrom(s: string, i: nat): (j: nat)
    requires i <= |s|
    decreases |s| - i
    ensures DigitsIn(s, i, j) && (j < |s| ==> !IsDigit(s[j]))
  {
    if i < |s| && IsDigit(s[i]) then DigitsFrom(s, i + 1) else i
  }

  /** The end of the run of whitespace starting at `i`. */
  function SpacesFrom(s: string, i: nat): (j: nat)
    requires i <= |s|
    decreases |s| - i
    ensures SpacesIn(s, i, j) && (j < |s| ==> !IsSpace(s[j]))
  {
    if i < |s| && IsSpace(s[i]) then SpacesFrom(s, i + 1) else i
  }

  /** `\d+(\.\d*)?` taken greedily from a digit at `a`. */
  function ScanDecimal(s: string, a: nat): (r: (nat, nat, nat))
    requires a < |s| && IsDigit(s[a])
    ensures DecimalIn(s, a, r.0, r.1, r.2)
  {
    var w := DigitsFrom(s, a);
    if w < |s| && s[w] == '.' then (w, w + 1, DigitsFrom(s, w + 1)) else (w, w, w)
  }

  /** `([eE][+-]?\d+)?` taken greedily at `a`: the engine backs out of the
      letter when no digit follows it. */
  function ScanExponent(s: string, a: nat): (r: (nat, nat, nat))
    requires a <= |s|
    ensures ExponentIn(s, a, r.0, r.1, r.2)
  {
    if a < |s| && IsExpLetter(s[a]) then
      if a + 2 < |s| && IsSign(s[a + 1]) && IsDigit(s[a + 2]) then (a + 1, a + 2, DigitsFrom(s, a + 2))
      else if a + 1 < |s| && IsDigit(s[a + 1]) then (a + 1, a + 1, DigitsFrom(s, a + 1))
      else (a, a, a)
    else (a, a, a)
  }

  /** The match the engine reports when it tries the pattern at position `p`:
      the first alternative when a digit follows the optional sign, the second
      when a marker does, and the greedy choice inside each. */
  function ScanAt(s: string, p: nat): Option<Match>
    requires p <= |s|
  {
    var q := if p < |s| && IsSign(s[p]) then p + 1 else p;
    if q < |s| && IsDigit(s[q]) then
      var (w, pt, f) := ScanDecimal(s, q);
      var (l, g, e) := ScanExponent(s, f);
      Some(Match(p, q, q, q, w, pt, f, l, g, e))
    else if q < |s| && IsMarker(s[q]) then
      var h := SpacesFrom(s, q + 1);
      if h < |s| && IsDigit(s[h]) then
        var (w, pt, f) := ScanDecimal(s, h);
        Some(Match(p, q, q + 1, h, w, pt, f, f, f, f))
      else None
    else None
  }

  /** What the scanner reports is a match, starting where it was asked to look. */
  lemma ScanSound(s: string, p: nat)
    requires p <= |s|
    ensures ScanAt(s, p).Some? ==> IsMatch(s, ScanAt(s, p).value) && ScanAt(s, p).value.start == p
  {
  }

  lemma {:induction false} DigitsMaximal(s: string, i: nat, j: nat)
    requires DigitsIn(s, i, j)
    ensures j <= DigitsFrom(s, i)
    decreases |s| - i
  {
    if i < j {
      DigitsMaximal(s, i + 1, j);
    }
  }

  lemma {:induction false} SpacesMaximal(s: string, i: nat, j: nat)
    requires SpacesIn(s, i, j)
    ensures j <= SpacesFrom(s, i)
    decreases |s| - i
  {
    if i < j {
      SpacesMaximal(s, i + 1, j);
    }
  }

  /** Any `\d+(\.\d*)?` at `a` ends no later than the scanner's; when it ends
      earlier, a digit or a point follows it. */
  lemma DecimalLongest(s: string, a: nat, w: nat, p: nat, f: nat)
    requires DecimalIn(s, a, w, p, f)
    ensures a < |s| && IsDigit(s[a])
    ensures var r := ScanDecimal(s, a);
      && f <= r.2
      && ((w, p, f) == r || (f < |s| && (IsDigit(s[f]) || s[f] == '.')))
  {
    DigitsMaximal(s, a, w);
    var w' := DigitsFrom(s, a);
    if w == w' && p == w + 1 {
      DigitsMaximal(s, p, f);
    }
  }

  /** Any `([eE][+-]?\d+)?` at `a` ends no later than the scanner's, and one
      that ends where the scanner's does is the scanner's. */
  lemma ExponentLongest(s: string, a: nat, l: nat, g: nat, e: nat)
    requires ExponentIn(s, a, l, g, e)
    ensures var r := ScanExponent(s, a);
      e <= r.2 && (e == r.2 ==> l == r.0 && g == r.1)
  {
    if l == a + 1 {
      DigitsMaximal(s, g, e);
    }
  }

  /** The scanner takes the sign and chooses the alternative as the match does. */
  lemma ScanHead(s: string, m: Match)
    requires IsMatch(s, m)
    ensures m.start <= |s| && m.signEnd < |s|
    ensures m.signEnd == if m.start < |s| && IsSign(s[m.start]) then m.start + 1 else m.start
    ensures Bounded(m) <==> IsMarker(s[m.signEnd])
    ensures !Bounded(m) <==> IsDigit(s[m.signEnd])
  {
  }

  lemma ScanLongestBounded(s: string, m: Match)
    requires IsMatch(s, m) && Bounded(m)
    ensures ScanAt(s, m.start).Some?
    ensures var r := ScanAt(s, m.start).value;
      m.end <= r.end && (m.end == r.end ==> m == r)
  {
    BoundedShape(s, m);
    BoundedLongest(s, m);
  }

  /** The facts about a match of the second alternative that the scanner relies on. */
  lemma BoundedShape(s: string, m: Match)
    requires IsMatch(s, m) && Bounded(m)
    ensures m.start <= |s| && m.signEnd < |s|
    ensures m.signEnd == if m.start < |s| && IsSign(s[m.start]) then m.start + 1 else m.start
    ensures IsMarker(s[m.signEnd]) && m.markerEnd == m.signEnd + 1
    ensures SpacesFrom(s, m.markerEnd) == m.gapEnd
    ensures DecimalIn(s, m.gapEnd, m.wholeEnd, m.pointEnd, m.fracEnd)
    ensures m.letterEnd == m.fracEnd && m.expSignEnd == m.fracEnd && m.end == m.fracEnd
  {
    ScanHead(s, m);
    SpacesMaximal(s, m.markerEnd, m.gapEnd);
    assert IsDigit(s[m.gapEnd]) && !IsSpace(s[m.gapEnd]);
  }

  lemma BoundedLongest(s: string, m: Match)
    requires m.start <= |s| && m.signEnd < |s|
    requires m.signEnd == if m.start < |s| && IsSign(s[m.start]) then m.start + 1 else m.start
    requires IsMarker(s[m.signEnd]) && m.markerEnd == m.signEnd + 1
    requires SpacesFrom(s, m.markerEnd) == m.gapEnd
    requires DecimalIn(s, m.gapEnd, m.wholeEnd, m.pointEnd, m.fracEnd)
    requires m.letterEnd == m.fracEnd && m.expSignEnd == m.fracEnd && m.end == m.fracEnd
    ensures ScanAt(s, m.start).Some?
    ensures var r := ScanAt(s, m.start).value;
      m.end <= r.end && (m.end == r.end ==> m == r)
  {
    DecimalLongest(s, m.gapEnd, m.wholeEnd, m.pointEnd, m.fracEnd);
    ScanAtBounded(s, m.start, m.signEnd);
    var d := ScanDecimal(s, m.gapEnd);
    assert ScanAt(s, m.start) == Some(Match(m.start, m.signEnd, m.markerEnd, m.gapEnd, d.0, d.1, d.2, d.2, d.2, d.2));
  }

  /** The scanner's match at a position where the second alternative applies. */
  lemma ScanAtBounded(s: string, p: nat, q: nat)
    requires p <= |s| && q == (if p < |s| && IsSign(s[p]) then p + 1 else p)
    requires q < |s| && IsMarker(s[q])
    ensures var h := SpacesFrom(s, q + 1);
      h < |s| && IsDigit(s[h]) ==>
        var d := ScanDecimal(s, h);
        ScanAt(s, p) == Some(Match(p, q, q + 1, h, d.0, d.1, d.2, d.2, d.2, d.2))
  {
  }

  lemma ScanLongestPlain(s: string, m: Match)
    requires IsMatch(s, m) && !Bounded(m)
    ensures ScanAt(s, m.start).Some?
    ensures var r := ScanAt(s, m.start).value;
      m.end <= r.end && (m.end == r.end ==> m == r)
  {
    ScanHead(s, m);
    DecimalLongest(s, m.gapEnd, m.wholeEnd, m.pointEnd, m.fracEnd);
    if (m.wholeEnd, m.pointEnd, m.fracEnd) == ScanDecimal(s, m.gapEnd) {
      PlainSameDecimal(s, m);
    } else {
      PlainShorterDecimal(s, m);
    }
  }

  /** The scanner's match at a position where the first alternative applies. */
  lemma ScanAtPlain(s: string, p: nat, q: nat)
    requires p <= |s| && q == (if p < |s| && IsSign(s[p]) then p + 1 else p)
    requires q < |s| && IsDigit(s[q])
    ensures var d := ScanDecimal(s, q);
      var e := ScanExponent(s, d.2);
      ScanAt(s, p) == Some(Match(p, q, q, q, d.0, d.1, d.2, e.0, e.1, e.2))
  {
  }

  lemma PlainSameDecimal(s: string, m: Match)
    requires IsMatch(s, m) && !Bounded(m)
    requires m.signEnd == (if m.start < |s| && IsSign(s[m.start]) then m.start + 1 else m.start)
    requires m.signEnd < |s| && IsDigit(s[m.signEnd])
    requires (m.wholeEnd, m.pointEnd, m.fracEnd) == ScanDecimal(s, m.gapEnd)
    ensures ScanAt(s, m.start).Some?
    ensures var r := ScanAt(s, m.start).value;
      m.end <= r.end && (m.end == r.end ==> m == r)
  {
    ScanAtPlain(s, m.start, m.signEnd);
    ExponentLongest(s, m.fracEnd, m.letterEnd, m.expSignEnd, m.end);
  }

  lemma PlainShorterDecimal(s: string, m: Match)
    requires IsMatch(s, m) && !Bounded(m)
    requires m.signEnd == (if m.start < |s| && IsSign(s[m.start]) then m.start + 1 else m.start)
    requires m.signEnd < |s| && IsDigit(s[m.signEnd])
    requires m.fracEnd < |s| && (IsDigit(s[m.fracEnd]) || s[m.fracEnd] == '.')
    requires m.fracEnd <= ScanDecimal(s, m.gapEnd).2
    requires (m.wholeEnd, m.pointEnd, m.fracEnd) != ScanDecimal(s, m.gapEnd)
    ensures ScanAt(s, m.start).Some?
    ensures var r := ScanAt(s, m.start).value;
      m.end < r.end
  {
    ScanAtPlain(s, m.start, m.signEnd);
    assert m.end == m.fracEnd;
    var d := ScanDecimal(s, m.gapEnd);
    assert ScanExponent(s, d.2).2 >= d.2;
  }

  /** The scanner finds a match wherever one starts, and no match starting
      there is longer than the scanner's; one as long is the scanner's. */
  lemma ScanLongest(s: string, m: Match)
    requires IsMatch(s, m)
    ensures ScanAt(s, m.start).Some?
    ensures var r := ScanAt(s, m.start).value;
      m.end <= r.end && (m.end == r.end ==> m == r)
  {
    if Bounded(m) {
      ScanLongestBounded(s, m);
    } else {
      ScanLongestPlain(s, m);
    }
  }

  // ---------------------------------------------------------------------------
  // `re.search`.

  /** The first position at or after `from` where the pattern matches, with its match. */
  function SearchFrom(s: string, from: nat): (r: Option<Match>)
    requires from <= |s|
    decreases |s| - from
    ensures r.Some? ==> from <= r.value.start <= |s| && ScanAt(s, r.value.start) == r
  {
    match ScanAt(s, from)
    case Some(m) => Some(m)
    case None => if from == |s| then None else SearchFrom(s, from + 1)
  }

  /** `SearchFrom` skips only positions where the pattern does not match. */
  lemma {:induction false} SearchFromFirst(s: string, from: nat)
    requires from <= |s|
    decreases |s| - from
    ensures var r := SearchFrom(s, from);
      forall k :: from <= k <= |s| && (r.None? || k < r.value.start) ==> ScanAt(s, k).None?
  {
    var r := SearchFrom(s, from);
    if ScanAt(s, from).Some? {
      ScanSound(s, from);
      assert r == ScanAt(s, from) && r.value.start == from;
    } else if from < |s| {
      SearchFromFirst(s, from + 1);
      assert r == SearchFrom(s, from + 1);
      forall k | from <= k <= |s| && (r.None? || k < r.value.start)
        ensures ScanAt(s, k).None?
      {
        if k != from {
          assert from + 1 <= k;
        }
      }
    }
  }

  /** `re.search(pattern, s)`. */
  function Search(s: string): Option<Match> {
    SearchFrom(s, 0)
  }

  /** `Search` reports nothing only when the text holds no match at all;
      otherwise it reports a match that starts no later than any other, and no
      match starting at the same place is longer. */
  lemma SearchLeftmostLongest(s: string)
    ensures Search(s).None? ==> forall m :: !IsMatch(s, m)
    ensures Search(s).Some? ==>
      var r := Search(s).value;
      && IsMatch(s, r)
      && (forall m :: IsMatch(s, m) ==> r.start <= m.start)
      && (forall m :: IsMatch(s, m) && m.start == r.start ==> m.end <= r.end)
  {
    SearchFromFirst(s, 0);
    if Search(s).Some? {
      ScanSound(s, Search(s).value.start);
    }
    forall m | IsMatch(s, m)
      ensures Search(s).Some? && Search(s).value.start <= m.start
    {
      ScanLongest(s, m);
    }
    if Search(s).Some? {
      var r := Search(s).value;
      forall m | IsMatch(s, m) && m.start == r.start
        ensures m.end <= r.end
      {
        ScanLongest(s, m);
      }
    }
  }

  // ---------------------------------------------------------------------------
  // `float()` of the matched text.

  function Pow10(n: nat): (r: nat)
    ensures r >= 1
  {
    if n == 0 then 1 else 10 * Pow10(n - 1)
  }

  /** `m * 10^e` as an exact rational. */
  function Scale(m: nat, e: int): real {
    if e >= 0 then (m * Pow10(e)) as real else (m as real) / (Pow10(-e) as real)
  }

  /** What a match says about a number: its sign, its digits without the point,
      how many of them follow the point, and the exponent's sign and digits. */
  datatype Parts = Parts(negative: bool, digits: string, fracLen: nat, expNegative: bool, expDigits: string)

  /** The boundaries are in order inside `s`. */
  predicate Ordered(s: string, m: Match) {
    m.start <= m.signEnd <= m.gapEnd <= m.wholeEnd <= m.pointEnd <= m.fracEnd <= m.letterEnd <= m.expSignEnd <= m.end <= |s|
  }

  function PartsOf(s: string, m: Match): Parts
    requires Ordered(s, m)
  {
    Parts(
      m.signEnd > m.start && s[m.start] == '-',
      s[m.gapEnd..m.wholeEnd] + s[m.pointEnd..m.fracEnd],
      m.fracEnd - m.pointEnd,
      m.expSignEnd > m.letterEnd && s[m.letterEnd] == '-',
      s[m.expSignEnd..m.end])
  }

  /** The digit parts of a match hold digits only. */
  lemma PartsDigits(s: string, m: Match)
    requires IsMatch(s, m)
    ensures Ordered(s, m)
    ensures AllDigits(PartsOf(s, m).digits) && AllDigits(PartsOf(s, m).expDigits)
  {
    var p := PartsOf(s, m);
    var a, b := s[m.gapEnd..m.wholeEnd], s[m.pointEnd..m.fracEnd];
    forall i | 0 <= i < |a + b| ensures IsDigit((a + b)[i]) {
      if i < |a| {
        assert (a + b)[i] == s[m.gapEnd + i];
      } else {
        assert (a + b)[i] == s[m.pointEnd + (i - |a|)];
      }
    }
  }

  /** An exact decimal number, `(-1)^negative * mantissa * 10^exponent`: what
      `float` reads from a decimal text before rounding it to binary. */
  datatype Number = Number(negative: bool, mantissa: nat, exponent: int)

  /** The number as a real. */
  function Real(n: Number): real {
    var magnitude := Scale(n.mantissa, n.exponent);
    if n.negative then -magnitude else magnitude
  }

  /** The number the parts denote: the digits read as an integer, scaled by the
      exponent less the count of digits after the point. */
  function PartsNumber(p: Parts): Number
    requires AllDigits(p.digits) && AllDigits(p.expDigits)
  {
    var e: int := DigitsValue(p.expDigits);
    Number(p.negative, DigitsValue(p.digits), (if p.expNegative then -e else e) - p.fracLen)
  }

  function NumberOf(s: string, m: Match): Number
    requires IsMatch(s, m)
  {
    PartsDigits(s, m);
    PartsNumber(PartsOf(s, m))
  }

  /** Python's `float(x)` on the decimal forms the pattern's first alternative
      produces: surrounding whitespace is ignored and the rest must be exactly a
      sign, a decimal and an optional exponent. */
  function ParseFloat(x: string): Option<Number> {
    var y := Strip(x);
    match ScanAt(y, 0)
    case Some(u) =>
      ScanSound(y, 0);
      if !Bounded(u) && u.end == |y| then Some(NumberOf(y, u)) else None
    case None => None
  }

  /** `match.group(0).replace('<', '').replace('>', '').strip()`. */
  function NumericPart(s: string, m: Match): string
    requires m.start <= m.end <= |s|
  {
    Strip(RemoveChar(RemoveChar(s[m.start..m.end], '<'), '>'))
  }

  /** `extract_numeric_concentration`: absent for a missing cell, for a text with
      no match, and for a match that `float` refuses. */
  function ExtractNumeric(cell: Option<string>): Option<Number> {
    match cell
    case None => None
    case Some(text) =>
      var s := Strip(text);
      match Search(s)
      case None => None
      case Some(m) =>
        ScanSound(s, m.start);
        ParseFloat(NumericPart(s, m))
  }

  /** The text holds neither marker. */
  predicate NoMarkers(t: string) {
    '<' !in t && '>' !in t
  }

  lemma NoMarkerIn(s: string, a: nat, b: nat)
    requires a <= b <= |s|
    requires forall i :: a <= i < b ==> !IsMarker(s[i])
    ensures NoMarkers(s[a..b])
  {
    forall c | c in s[a..b] ensures !IsMarker(c) {
      var k :| 0 <= k < b - a && s[a..b][k] == c;
      assert s[a + k] == c;
    }
  }

  /** From its integer digits on, a match holds no marker, starts with a digit
      and does not end in whitespace. */
  lemma TailTrimmed(s: string, m: Match)
    requires IsMatch(s, m)
    ensures m.gapEnd < m.end <= |s|
    ensures IsDigit(s[m.gapEnd]) && !IsSpace(s[m.end - 1])
    ensures NoMarkers(s[m.gapEnd..m.end])
  {
    forall i | m.gapEnd <= i < m.end
      ensures !IsMarker(s[i])
    {
      if i < m.wholeEnd || m.pointEnd <= i < m.fracEnd || m.expSignEnd <= i {
        assert IsDigit(s[i]);
      }
    }
    NoMarkerIn(s, m.gapEnd, m.end);
  }

  /** A match's text is its sign, its marker, the whitespace after the marker and
      the rest, each of the shape the pattern gives it. */
  lemma Pieces(s: string, m: Match)
    requires IsMatch(s, m)
    ensures m.start <= m.signEnd <= m.markerEnd <= m.gapEnd < m.end <= |s|
    ensures var sign, marker, gap, rest :=
        s[m.start..m.signEnd], s[m.signEnd..m.markerEnd], s[m.markerEnd..m.gapEnd], s[m.gapEnd..m.end];
      && s[m.start..m.end] == sign + (marker + (gap + rest))
      && |sign| <= 1 && (sign != [] ==> IsSign(sign[0]))
      && (marker == [] || (|marker| == 1 && IsMarker(marker[0])))
      && (marker == [] ==> gap == [])
      && AllSpace(gap)
      && rest != [] && IsDigit(rest[0]) && !IsSpace(rest[|rest| - 1]) && NoMarkers(rest)
  {
    TailTrimmed(s, m);
    HeadPieces(s, m);
    SliceFour(s, m.start, m.signEnd, m.markerEnd, m.gapEnd, m.end);
  }

  lemma SliceFour(s: string, a: nat, b: nat, c: nat, d: nat, e: nat)
    requires a <= b <= c <= d <= e <= |s|
    ensures s[a..e] == s[a..b] + (s[b..c] + (s[c..d] + s[d..e]))
  {
    assert s[c..e] == s[c..d] + s[d..e];
    assert s[b..e] == s[b..c] + s[c..e];
    assert s[a..e] == s[a..b] + s[b..e];
  }

  /** The sign, marker and whitespace pieces of a match. */
  lemma HeadPieces(s: string, m: Match)
    requires IsMatch(s, m)
    ensures m.start <= m.signEnd <= m.markerEnd <= m.gapEnd <= |s|
    ensures var sign, marker, gap := s[m.start..m.signEnd], s[m.signEnd..m.markerEnd], s[m.markerEnd..m.gapEnd];
      && |sign| <= 1 && (sign != [] ==> IsSign(sign[0]))
      && (marker == [] || (|marker| == 1 && IsMarker(marker[0])))
      && (marker == [] ==> gap == [])
      && AllSpace(gap)
  {
  }

  /** Removing a character the sign, the whitespace and the rest do not hold
      removes it from the marker part alone. */
  lemma RemovedMarkers(sign: string, marker: string, gap: string, rest: string, c: char)
    requires c !in sign && c !in gap && c !in rest
    ensures RemoveChar(sign + (marker + (gap + rest)), c) == sign + (RemoveChar(marker, c) + (gap + rest))
  {
    RemoveCharAppend(sign, marker + (gap + rest), c);
    RemoveCharAppend(marker, gap + rest, c);
    RemoveCharAppend(gap, rest, c);
    RemoveCharAbsent(sign, c);
    RemoveCharAbsent(gap, c);
    RemoveCharAbsent(rest, c);
  }

  lemma NoMarkersInPieces(sign: string, gap: string)
    requires |sign| <= 1 && (sign != [] ==> IsSign(sign[0]))
    requires AllSpace(gap)
    ensures NoMarkers(sign) && NoMarkers(gap)
  {
    assert NoMarkers(sign) by {
      if sign != [] {
        assert sign == [sign[0]];
      }
    }
    forall i | 0 <= i < |gap| ensures !IsMarker(gap[i]) {
      assert IsSpace(gap[i]);
    }
  }

  /** Removing both markers from pieces of those shapes drops the marker alone. */
  lemma MarkersGone(sign: string, marker: string, gap: string, rest: string)
    requires NoMarkers(sign) && NoMarkers(gap) && NoMarkers(rest)
    requires marker == [] || (|marker| == 1 && IsMarker(marker[0]))
    ensures RemoveChar(RemoveChar(sign + (marker + (gap + rest)), '<'), '>') == sign + (gap + rest)
  {
    RemovedMarkers(sign, marker, gap, rest, '<');
    RemovedMarkers(sign, RemoveChar(marker, '<'), gap, rest, '>');
    assert RemoveChar(RemoveChar(marker, '<'), '>') == [] by {
      if marker != [] {
        assert marker == [marker[0]];
      }
    }
    assert [] + (gap + rest) == gap + rest;
  }

  /** `strip` drops the whitespace in front of the rest unless a sign stands before it. */
  lemma StripPieces(sign: string, gap: string, rest: string)
    requires |sign| <= 1 && (sign != [] ==> IsSign(sign[0]))
    requires AllSpace(gap)
    requires rest != [] && !IsSpace(rest[0]) && !IsSpace(rest[|rest| - 1])
    ensures sign == [] ==> Strip(sign + (gap + rest)) == rest
    ensures sign != [] ==> Strip(sign + (gap + rest)) == sign + gap + rest
  {
    if sign != [] {
      var x := sign + (gap + rest);
      assert x == sign + gap + rest;
      assert x[0] == sign[0] && x[|x| - 1] == rest[|rest| - 1];
      StripTrimmed(x);
    } else {
      assert sign + (gap + rest) == gap + rest;
      StripAfterGap(gap, rest);
    }
  }

  /** Cleaning pieces of those shapes drops the marker, and `strip` drops the
      whitespace unless a sign stands in front of it. */
  lemma CleanPieces(sign: string, marker: string, gap: string, rest: string)
    requires |sign| <= 1 && (sign != [] ==> IsSign(sign[0]))
    requires marker == [] || (|marker| == 1 && IsMarker(marker[0]))
    requires AllSpace(gap)
    requires rest != [] && IsDigit(rest[0]) && !IsSpace(rest[|rest| - 1]) && NoMarkers(rest)
    ensures sign == [] ==> Strip(RemoveChar(RemoveChar(sign + (marker + (gap + rest)), '<'), '>')) == rest
    ensures sign != [] ==> Strip(RemoveChar(RemoveChar(sign + (marker + (gap + rest)), '<'), '>')) == sign + gap + rest
  {
    NoMarkersInPieces(sign, gap);
    MarkersGone(sign, marker, gap, rest);
    StripPieces(sign, gap, rest);
  }

  /** Removing the markers and stripping leaves the sign, the whitespace after
      the marker (kept only when a sign precedes it) and the rest of the match. */
  lemma NumericPartShape(s: string, m: Match)
    requires IsMatch(s, m)
    ensures m.start <= m.signEnd <= m.markerEnd <= m.gapEnd < m.end <= |s|
    ensures m.signEnd == m.start ==> NumericPart(s, m) == s[m.gapEnd..m.end]
    ensures m.signEnd > m.start ==>
      NumericPart(s, m) == s[m.start..m.signEnd] + s[m.markerEnd..m.gapEnd] + s[m.gapEnd..m.end]
  {
    Pieces(s, m);
    CleanPieces(s[m.start..m.signEnd], s[m.signEnd..m.markerEnd], s[m.markerEnd..m.gapEnd], s[m.gapEnd..m.end]);
  }

  /** The match read again in `x == sign + rest`, where `rest` is the match's
      text from its integer digits on: the same parts shifted, and no marker. */
  function Shifted(m: Match, off: nat): Match
    requires m.gapEnd <= m.wholeEnd <= m.pointEnd <= m.fracEnd <= m.letterEnd <= m.expSignEnd <= m.end
  {
    var g := m.gapEnd;
    Match(0, off, off, off, off + (m.wholeEnd - g), off + (m.pointEnd - g), off + (m.fracEnd - g),
          off + (m.letterEnd - g), off + (m.expSignEnd - g), off + (m.end - g))
  }

  /** The characters of `x == sign + rest` are those of the match. */
  lemma ShiftedChars(s: string, m: Match, x: string)
    requires Ordered(s, m)
    requires x == s[m.start..m.signEnd] + s[m.gapEnd..m.end]
    ensures m.start <= m.signEnd <= m.gapEnd <= m.wholeEnd <= m.pointEnd <= m.fracEnd <= m.letterEnd <= m.expSignEnd <= m.end <= |s|
    ensures |x| == (m.signEnd - m.start) + (m.end - m.gapEnd)
    ensures m.signEnd > m.start ==> x[0] == s[m.start]
    ensures forall i :: m.signEnd - m.start <= i < |x| ==> x[i] == s[m.gapEnd + (i - (m.signEnd - m.start))]
  {
  }

  /** A slice of `sign + s[g..e]` past the sign is a slice of `s`. */
  lemma SliceOfJoin(x: string, sign: string, s: string, g: nat, e: nat, a: nat, b: nat)
    requires g <= e <= |s| && a <= b <= e - g
    requires x == sign + s[g..e]
    ensures x[|sign| + a..|sign| + b] == s[g + a..g + b]
  {
    var l, r := x[|sign| + a..|sign| + b], s[g + a..g + b];
    forall k | 0 <= k < |l|
      ensures l[k] == r[k]
    {
      assert l[k] == x[|sign| + (a + k)] == s[g..e][a + k];
    }
    assert l == r;
  }

  /** Digits of `s` carried over to `x`. */
  lemma DigitsShift(s: string, x: string, off: nat, g: nat, a: nat, b: nat)
    requires DigitsIn(s, g + a, g + b) && a <= b && off + b <= |x| && off <= |x| && g + (|x| - off) <= |s|
    requires forall i :: off <= i < |x| ==> x[i] == s[g + (i - off)]
    ensures DigitsIn(x, off + a, off + b)
  {
    forall i | off + a <= i < off + b ensures IsDigit(x[i]) {
      assert x[i] == s[g + (i - off)];
    }
  }

  /** `x == sign + rest` matches with the shifted parts. */
  lemma ShiftedIsMatch(s: string, m: Match, x: string)
    requires IsMatch(s, m)
    requires x == s[m.start..m.signEnd] + s[m.gapEnd..m.end]
    ensures m.gapEnd <= m.wholeEnd <= m.pointEnd <= m.fracEnd <= m.letterEnd <= m.expSignEnd <= m.end
    ensures var u := Shifted(m, m.signEnd - m.start);
      IsMatch(x, u) && !Bounded(u) && u.end == |x|
  {
    ShiftedDecimal(s, m, x);
    ShiftedExponent(s, m, x);
    ShiftedSigns(s, m, x);
  }

  lemma ShiftedDecimal(s: string, m: Match, x: string)
    requires Ordered(s, m) && DecimalIn(s, m.gapEnd, m.wholeEnd, m.pointEnd, m.fracEnd)
    requires x == s[m.start..m.signEnd] + s[m.gapEnd..m.end]
    ensures var u := Shifted(m, m.signEnd - m.start);
      DecimalIn(x, u.gapEnd, u.wholeEnd, u.pointEnd, u.fracEnd)
  {
    ShiftedChars(s, m, x);
    var off, g := m.signEnd - m.start, m.gapEnd;
    DigitsShift(s, x, off, g, 0, m.wholeEnd - g);
    DigitsShift(s, x, off, g, m.pointEnd - g, m.fracEnd - g);
    ShiftedMarks(s, m, x);
  }

  lemma ShiftedExponent(s: string, m: Match, x: string)
    requires Ordered(s, m) && ExponentIn(s, m.fracEnd, m.letterEnd, m.expSignEnd, m.end)
    requires x == s[m.start..m.signEnd] + s[m.gapEnd..m.end]
    ensures var u := Shifted(m, m.signEnd - m.start);
      ExponentIn(x, u.fracEnd, u.letterEnd, u.expSignEnd, u.end)
  {
    if m.letterEnd != m.fracEnd {
      ShiftedChars(s, m, x);
      var off, g := m.signEnd - m.start, m.gapEnd;
      DigitsShift(s, x, off, g, m.expSignEnd - g, m.end - g);
      ShiftedMarks(s, m, x);
      ShiftedSigns(s, m, x);
    }
  }

  /** The point and the exponent letter are where the shift puts them. */
  lemma ShiftedMarks(s: string, m: Match, x: string)
    requires Ordered(s, m)
    requires x == s[m.start..m.signEnd] + s[m.gapEnd..m.end]
    ensures var u := Shifted(m, m.signEnd - m.start);
      && (m.wholeEnd < m.end ==> x[u.wholeEnd] == s[m.wholeEnd])
      && (m.fracEnd < m.end ==> x[u.fracEnd] == s[m.fracEnd])
  {
  }

  /** ... and has the same parts, so the same value. */
  lemma ShiftedParts(s: string, m: Match, x: string)
    requires Ordered(s, m)
    requires x == s[m.start..m.signEnd] + s[m.gapEnd..m.end]
    ensures var u := Shifted(m, m.signEnd - m.start);
      Ordered(x, u) && PartsOf(x, u) == PartsOf(s, m)
  {
    ShiftedDigits(s, m, x);
    ShiftedSigns(s, m, x);
  }

  lemma ShiftedDigits(s: string, m: Match, x: string)
    requires Ordered(s, m)
    requires x == s[m.start..m.signEnd] + s[m.gapEnd..m.end]
    ensures var u := Shifted(m, m.signEnd - m.start);
      && Ordered(x, u)
      && x[u.gapEnd..u.wholeEnd] == s[m.gapEnd..m.wholeEnd]
      && x[u.pointEnd..u.fracEnd] == s[m.pointEnd..m.fracEnd]
      && x[u.expSignEnd..u.end] == s[m.expSignEnd..m.end]
  {
    var sign, g, e := s[m.start..m.signEnd], m.gapEnd, m.end;
    SliceOfJoin(x, sign, s, g, e, 0, m.wholeEnd - g);
    SliceOfJoin(x, sign, s, g, e, m.pointEnd - g, m.fracEnd - g);
    SliceOfJoin(x, sign, s, g, e, m.expSignEnd - g, e - g);
  }

  lemma ShiftedSigns(s: string, m: Match, x: string)
    requires Ordered(s, m)
    requires x == s[m.start..m.signEnd] + s[m.gapEnd..m.end]
    ensures var u := Shifted(m, m.signEnd - m.start);
      && (m.signEnd > m.start ==> x[0] == s[m.start])
      && (m.letterEnd < m.expSignEnd ==> x[u.letterEnd] == s[m.letterEnd])
  {
  }

  /** `float` accepts the cleaned text of a match unless the match had a sign
      and whitespace between its marker and its digits (as in `-< 3`); when it
      accepts, the number is the match's value: the sign applies to both kinds
      of match and a marker is dropped. */
  lemma ConvertMatch(s: string, m: Match)
    requires IsMatch(s, m)
    ensures ParseFloat(NumericPart(s, m)) ==
      if m.signEnd > m.start && m.gapEnd > m.markerEnd then None else Some(NumberOf(s, m))
  {
    if m.signEnd > m.start && m.gapEnd > m.markerEnd {
      ConvertRefused(s, m);
    } else {
      ConvertAccepted(s, m);
    }
  }

  /** `SearchFrom` reports the first position where the scanner matches. */
  lemma {:induction false} SearchFromSkip(s: string, from: nat, m: Match)
    requires from <= m.start <= |s| && ScanAt(s, m.start) == Some(m)
    requires forall k :: from <= k < m.start ==> ScanAt(s, k).None?
    ensures SearchFrom(s, from) == Some(m)
    decreases m.start - from
  {
    if from < m.start {
      SearchFromSkip(s, from + 1, m);
    }
  }

  /** The extraction of a cell whose stripped text has its leftmost match `m`:
      the match's value, unless `float` refuses what is left of it. */
  lemma ExtractFound(text: string, m: Match)
    requires IsMatch(Strip(text), m) && ScanAt(Strip(text), m.start) == Some(m)
    requires forall k :: 0 <= k < m.start ==> ScanAt(Strip(text), k).None?
    ensures ExtractNumeric(Some(text)) ==
      if m.signEnd > m.start && m.gapEnd > m.markerEnd then None else Some(NumberOf(Strip(text), m))
  {
    var s := Strip(text);
    SearchFromSkip(s, 0, m);
    assert Search(s) == Some(m);
    assert ExtractNumeric(Some(text)) == ParseFloat(NumericPart(s, m));
    ConvertMatch(s, m);
  }

  /** A text without an ASCII digit has no number. */
  lemma ExtractNoDigit(text: string)
    requires forall i :: 0 <= i < |text| ==> !IsDigit(text[i])
    ensures ExtractNumeric(Some(text)).None?
  {
    var s := Strip(text);
    SearchLeftmostLongest(s);
    if Search(s).Some? {
      assert false;
    }
  }

  /** A text that is exactly one unbounded match parses to that match's value. */
  lemma ParseExact(x: string, u: Match)
    requires IsMatch(x, u) && !Bounded(u) && u.start == 0 && u.end == |x|
    requires !IsSpace(x[0]) && !IsSpace(x[|x| - 1])
    ensures ParseFloat(x) == Some(NumberOf(x, u))
  {
    StripTrimmed(x);
    ScanLongest(x, u);
  }

  /** The first and last characters of the sign and of the rest of a match. */
  lemma Ends(s: string, m: Match)
    requires IsMatch(s, m)
    ensures m.start <= m.signEnd <= m.markerEnd <= m.gapEnd < m.end <= |s|
    ensures var sign, rest := s[m.start..m.signEnd], s[m.gapEnd..m.end];
      && |sign| <= 1 && (sign != [] ==> IsSign(sign[0]))
      && rest != [] && IsDigit(rest[0]) && !IsSpace(rest[|rest| - 1])
  {
    TailTrimmed(s, m);
  }

  /** Without the refused combination, the cleaned text is the sign followed by
      the match from its integer digits on. */
  lemma AcceptedText(s: string, m: Match) returns (x: string)
    requires IsMatch(s, m)
    requires !(m.signEnd > m.start && m.gapEnd > m.markerEnd)
    ensures m.start <= m.signEnd <= m.gapEnd < m.end <= |s|
    ensures x == NumericPart(s, m) && x == s[m.start..m.signEnd] + s[m.gapEnd..m.end]
  {
    NumericPartShape(s, m);
    x := NumericPart(s, m);
    var sign, rest := s[m.start..m.signEnd], s[m.gapEnd..m.end];
    if m.signEnd == m.start {
      DropEmpty(sign, [], rest);
    } else {
      DropEmpty(sign, s[m.markerEnd..m.gapEnd], rest);
    }
  }

  lemma DropEmpty(a: string, e: string, b: string)
    requires e == []
    ensures a + e + b == a + b
    ensures a == [] ==> a + b == b
  {
    assert a + e == a;
  }

  lemma SignedEnds(sign: string, rest: string)
    requires |sign| <= 1 && (sign != [] ==> IsSign(sign[0]))
    requires rest != [] && IsDigit(rest[0]) && !IsSpace(rest[|rest| - 1])
    ensures var x := sign + rest; x != [] && !IsSpace(x[0]) && !IsSpace(x[|x| - 1])
  {
    var x := sign + rest;
    assert x[|x| - 1] == rest[|rest| - 1];
    assert x[0] == if sign != [] then sign[0] else rest[0];
  }

  /** Equal parts, equal values. */
  lemma SameParts(s: string, m: Match, x: string, u: Match)
    requires IsMatch(s, m) && IsMatch(x, u) && PartsOf(x, u) == PartsOf(s, m)
    ensures NumberOf(x, u) == NumberOf(s, m)
  {
  }

  /** The text `sign + rest` is exactly one unbounded match, with trimmed ends
      and the same number as the match it comes from. */
  lemma ShiftedText(s: string, m: Match, x: string) returns (u: Match)
    requires IsMatch(s, m)
    requires x == s[m.start..m.signEnd] + s[m.gapEnd..m.end]
    ensures IsMatch(x, u) && !Bounded(u) && u.start == 0 && u.end == |x|
    ensures !IsSpace(x[0]) && !IsSpace(x[|x| - 1])
    ensures NumberOf(x, u) == NumberOf(s, m)
  {
    Ends(s, m);
    SignedEnds(s[m.start..m.signEnd], s[m.gapEnd..m.end]);
    u := Shifted(m, m.signEnd - m.start);
    PartsDigits(s, m);
    ShiftedParts(s, m, x);
    ShiftedIsMatch(s, m, x);
    SameParts(s, m, x, u);
  }

  lemma ConvertAccepted(s: string, m: Match)
    requires IsMatch(s, m)
    requires !(m.signEnd > m.start && m.gapEnd > m.markerEnd)
    ensures ParseFloat(NumericPart(s, m)) == Some(NumberOf(s, m))
  {
    var x := AcceptedText(s, m);
    var u := ShiftedText(s, m, x);
    ParseExact(x, u);
  }

  /** The pieces of a match with a sign and whitespace after its marker. */
  lemma RefusedFacts(s: string, m: Match)
    requires IsMatch(s, m)
    requires m.signEnd > m.start && m.gapEnd > m.markerEnd
    ensures m.start <= m.signEnd <= m.markerEnd <= m.gapEnd < m.end <= |s|
    ensures var sign, gap, rest := s[m.start..m.signEnd], s[m.markerEnd..m.gapEnd], s[m.gapEnd..m.end];
      && |sign| == 1 && IsSign(sign[0]) && gap != [] && AllSpace(gap)
      && rest != [] && !IsSpace(rest[|rest| - 1])
  {
    Ends(s, m);
    GapSpaces(s, m);
  }

  lemma GapSpaces(s: string, m: Match)
    requires IsMatch(s, m)
    ensures m.markerEnd <= m.gapEnd <= |s| && AllSpace(s[m.markerEnd..m.gapEnd])
  {
  }

  /** `float` refuses a sign followed by whitespace. */
  lemma SignThenSpaceRefused(x: string)
    requires |x| >= 2 && IsSign(x[0]) && IsSpace(x[1]) && !IsSpace(x[|x| - 1])
    ensures ParseFloat(x) == None
  {
    StripTrimmed(x);
  }

  lemma ConvertRefused(s: string, m: Match)
    requires IsMatch(s, m)
    requires m.signEnd > m.start && m.gapEnd > m.markerEnd
    ensures ParseFloat(NumericPart(s, m)) == None
  {
    NumericPartShape(s, m);
    RefusedFacts(s, m);
    RefusedCombine(s, m);
  }

  lemma RefusedCombine(s: string, m: Match)
    requires m.start <= m.signEnd <= m.markerEnd <= m.gapEnd < m.end <= |s|
    requires NumericPart(s, m) == s[m.start..m.signEnd] + s[m.markerEnd..m.gapEnd] + s[m.gapEnd..m.end]
    requires var sign, gap, rest := s[m.start..m.signEnd], s[m.markerEnd..m.gapEnd], s[m.gapEnd..m.end];
      && |sign| == 1 && IsSign(sign[0]) && gap != [] && AllSpace(gap)
      && rest != [] && !IsSpace(rest[|rest| - 1])
    ensures ParseFloat(NumericPart(s, m)) == None
  {
    RefusedPieces(s[m.start..m.signEnd], s[m.markerEnd..m.gapEnd], s[m.gapEnd..m.end]);
  }

  lemma RefusedPieces(sign: string, gap: string, rest: string)
    requires |sign| == 1 && IsSign(sign[0]) && gap != [] && AllSpace(gap)
    requires rest != [] && !IsSpace(rest[|rest| - 1])
    ensures ParseFloat(sign + gap + rest) == None
  {
    var x := sign + gap + rest;
    assert x[0] == sign[0] && x[1] == gap[0] && x[|x| - 1] == rest[|rest| - 1];
    SignThenSpaceRefused(x);
  }

  // ---------------------------------------------------------------------------
  // `np.isclose(c, first, atol=1e-9)` with its default `rtol=1e-5`.

  function Abs(x: real): real {
    if x < 0.0 then -x else x
  }

  const AbsoluteTolerance: real := 0.000000001
  const RelativeTolerance: real := 0.00001

  /** `np.isclose(c, first, atol=1e-9)`: the tolerance grows with the magnitude of
      the reference value `first`, so the test is not symmetric. */
  predicate IsClose(c: real, first: real) {
    Abs(c - first) <= AbsoluteTolerance + RelativeTolerance * Abs(first)
  }
}
