/** The numbers the extraction reads from some typical concentration texts. */
module NumericExamples {
  import opened Wrappers
  import opened Text
  import opened Numeric

  /** The extraction of a trimmed text whose scan at position 0 succeeds. */
  lemma Leading(s: string, m: Match)
    requires Strip(s) == s && m.start == 0 && ScanAt(s, 0) == Some(m)
    ensures IsMatch(s, m)
    ensures ExtractNumeric(Some(s)) ==
      if m.signEnd > m.start && m.gapEnd > m.markerEnd then None else Some(NumberOf(s, m))
  {
    ScanSound(s, 0);
    ExtractFound(s, m);
  }

  /** The same, for a match that `float` refuses once its marker is removed. */
  lemma LeadingRefused(s: string, m: Match)
    requires Strip(s) == s && m.start == 0 && ScanAt(s, 0) == Some(m)
    requires m.signEnd > m.start && m.gapEnd > m.markerEnd
    ensures ExtractNumeric(Some(s)).None?
  {
    Leading(s, m);
  }

  /** The number a match denotes, read off its digit pieces. */
  lemma NumberOfPieces(s: string, m: Match, whole: string, frac: string, exp: string)
    requires IsMatch(s, m)
    requires s[m.gapEnd..m.wholeEnd] == whole && s[m.pointEnd..m.fracEnd] == frac && s[m.expSignEnd..m.end] == exp
    ensures AllDigits(whole + frac) && AllDigits(exp)
    ensures NumberOf(s, m) ==
      PartsNumber(Parts(m.signEnd > m.start && s[m.start] == '-', whole + frac, |frac|, m.expSignEnd > m.letterEnd && s[m.letterEnd] == '-', exp))
  {
    PartsDigits(s, m);
  }

  lemma Piece1(s: string, i: nat, a: char)
    requires i < |s| && s[i] == a
    ensures s[i..i + 1] == [a]
  {
  }

  lemma Piece2(s: string, i: nat, a: char, b: char)
    requires i + 1 < |s| && s[i] == a && s[i + 1] == b
    ensures s[i..i + 2] == [a, b]
  {
  }

  // `12.5 mg/L`: a plain decimal before its unit.

  const Plain: string := "12.5 mg/L"
  const PlainMatch := Match(0, 0, 0, 0, 2, 3, 4, 4, 4, 4)

  lemma PlainTrimmed()
    ensures Strip(Plain) == Plain
  {
    StripTrimmed(Plain);
  }

  lemma PlainScan()
    ensures ScanAt(Plain, 0) == Some(PlainMatch)
  {
    var s := Plain;
    assert DigitsFrom(s, 2) == 2 && DigitsFrom(s, 0) == 2;
    assert DigitsFrom(s, 4) == 4 && DigitsFrom(s, 3) == 4;
    ScanAtPlain(s, 0, 0);
  }

  lemma PlainValue()
    requires IsMatch(Plain, PlainMatch)
    ensures NumberOf(Plain, PlainMatch) == Number(false, 125, -1)
  {
    Piece2(Plain, 0, '1', '2');
    Piece1(Plain, 3, '5');
    NumberOfPieces(Plain, PlainMatch, ['1', '2'], ['5'], []);
    assert ['1', '2'] + ['5'] == ['1', '2', '5'];
    assert DigitsValue(['1', '2', '5']) == 125;
  }

  lemma PlainExtract()
    ensures ExtractNumeric(Some(Plain)) == Some(Number(false, 125, -1))
  {
    PlainTrimmed();
    PlainScan();
    Leading(Plain, PlainMatch);
    PlainValue();
  }

  // `< 0.1 ng/L`: a bound, with a space between the marker and the digits.

  const Bound: string := "< 0.1 ng/L"
  const BoundMatch := Match(0, 0, 1, 2, 3, 4, 5, 5, 5, 5)

  lemma BoundTrimmed()
    ensures Strip(Bound) == Bound
  {
    StripTrimmed(Bound);
  }

  lemma BoundScan()
    ensures ScanAt(Bound, 0) == Some(BoundMatch)
  {
    var s := Bound;
    assert SpacesFrom(s, 2) == 2 && SpacesFrom(s, 1) == 2;
    assert DigitsFrom(s, 3) == 3 && DigitsFrom(s, 2) == 3;
    assert DigitsFrom(s, 5) == 5 && DigitsFrom(s, 4) == 5;
    ScanAtBounded(s, 0, 0);
  }

  lemma BoundValue()
    requires IsMatch(Bound, BoundMatch)
    ensures NumberOf(Bound, BoundMatch) == Number(false, 1, -1)
  {
    Piece1(Bound, 2, '0');
    Piece1(Bound, 4, '1');
    NumberOfPieces(Bound, BoundMatch, ['0'], ['1'], []);
    assert ['0'] + ['1'] == ['0', '1'];
    assert DigitsValue(['0', '1']) == 1;
  }

  lemma BoundExtract()
    ensures ExtractNumeric(Some(Bound)) == Some(Number(false, 1, -1))
  {
    BoundTrimmed();
    BoundScan();
    Leading(Bound, BoundMatch);
    BoundValue();
  }

  // `1.2-3.4 μg/L`: a range gives its first number.

  const Range: string := "1.2-3.4 μg/L"
  const RangeMatch := Match(0, 0, 0, 0, 1, 2, 3, 3, 3, 3)

  lemma RangeTrimmed()
    ensures Strip(Range) == Range
  {
    StripTrimmed(Range);
  }

  lemma RangeScan()
    ensures ScanAt(Range, 0) == Some(RangeMatch)
  {
    var s := Range;
    assert DigitsFrom(s, 1) == 1 && DigitsFrom(s, 0) == 1;
    assert DigitsFrom(s, 3) == 3 && DigitsFrom(s, 2) == 3;
    ScanAtPlain(s, 0, 0);
  }

  lemma RangeValue()
    requires IsMatch(Range, RangeMatch)
    ensures NumberOf(Range, RangeMatch) == Number(false, 12, -1)
  {
    Piece1(Range, 0, '1');
    Piece1(Range, 2, '2');
    NumberOfPieces(Range, RangeMatch, ['1'], ['2'], []);
    assert ['1'] + ['2'] == ['1', '2'];
    assert DigitsValue(['1', '2']) == 12;
  }

  lemma RangeExtract()
    ensures ExtractNumeric(Some(Range)) == Some(Number(false, 12, -1))
  {
    RangeTrimmed();
    RangeScan();
    Leading(Range, RangeMatch);
    RangeValue();
  }

  // `<1.5e3`: the bounded alternative takes no exponent, so the value is 1.5.

  const BoundExp: string := "<1.5e3"
  const BoundExpMatch := Match(0, 0, 1, 1, 2, 3, 4, 4, 4, 4)

  lemma BoundExpTrimmed()
    ensures Strip(BoundExp) == BoundExp
  {
    StripTrimmed(BoundExp);
  }

  lemma BoundExpScan()
    ensures ScanAt(BoundExp, 0) == Some(BoundExpMatch)
  {
    var s := BoundExp;
    assert SpacesFrom(s, 1) == 1;
    assert DigitsFrom(s, 2) == 2 && DigitsFrom(s, 1) == 2;
    assert DigitsFrom(s, 4) == 4 && DigitsFrom(s, 3) == 4;
    ScanAtBounded(s, 0, 0);
  }

  lemma BoundExpValue()
    requires IsMatch(BoundExp, BoundExpMatch)
    ensures NumberOf(BoundExp, BoundExpMatch) == Number(false, 15, -1)
  {
    Piece1(BoundExp, 1, '1');
    Piece1(BoundExp, 3, '5');
    NumberOfPieces(BoundExp, BoundExpMatch, ['1'], ['5'], []);
    assert ['1'] + ['5'] == ['1', '5'];
    assert DigitsValue(['1', '5']) == 15;
  }

  lemma BoundExpExtract()
    ensures ExtractNumeric(Some(BoundExp)) == Some(Number(false, 15, -1))
  {
    BoundExpTrimmed();
    BoundExpScan();
    Leading(BoundExp, BoundExpMatch);
    BoundExpValue();
  }

  // `1.5E-3 μg/L`: the plain alternative takes a signed exponent.

  const Scientific: string := "1.5E-3 μg/L"
  const ScientificMatch := Match(0, 0, 0, 0, 1, 2, 3, 4, 5, 6)

  lemma ScientificTrimmed()
    ensures Strip(Scientific) == Scientific
  {
    StripTrimmed(Scientific);
  }

  lemma ScientificScan()
    ensures ScanAt(Scientific, 0) == Some(ScientificMatch)
  {
    var s := Scientific;
    assert DigitsFrom(s, 1) == 1 && DigitsFrom(s, 0) == 1;
    assert DigitsFrom(s, 3) == 3 && DigitsFrom(s, 2) == 3;
    assert DigitsFrom(s, 6) == 6 && DigitsFrom(s, 5) == 6;
    ScanAtPlain(s, 0, 0);
  }

  lemma ScientificValue()
    requires IsMatch(Scientific, ScientificMatch)
    ensures NumberOf(Scientific, ScientificMatch) == Number(false, 15, -4)
  {
    Piece1(Scientific, 0, '1');
    Piece1(Scientific, 2, '5');
    Piece1(Scientific, 5, '3');
    NumberOfPieces(Scientific, ScientificMatch, ['1'], ['5'], ['3']);
    assert ['1'] + ['5'] == ['1', '5'];
    assert DigitsValue(['1', '5']) == 15 && DigitsValue(['3']) == 3;
  }

  lemma ScientificExtract()
    ensures ExtractNumeric(Some(Scientific)) == Some(Number(false, 15, -4))
  {
    ScientificTrimmed();
    ScientificScan();
    Leading(Scientific, ScientificMatch);
    ScientificValue();
  }

  // `-< 3`: after the marker is removed, `- 3` is not a number.

  const SignedBound: string := "-< 3"
  const SignedBoundMatch := Match(0, 1, 2, 3, 4, 4, 4, 4, 4, 4)

  lemma SignedBoundTrimmed()
    ensures Strip(SignedBound) == SignedBound
  {
    StripTrimmed(SignedBound);
  }

  lemma SignedBoundScan()
    ensures ScanAt(SignedBound, 0) == Some(SignedBoundMatch)
  {
    var s := SignedBound;
    assert SpacesFrom(s, 3) == 3 && SpacesFrom(s, 2) == 3;
    assert DigitsFrom(s, 4) == 4 && DigitsFrom(s, 3) == 4;
    ScanAtBounded(s, 0, 1);
  }

  lemma SignedBoundExtract()
    ensures ExtractNumeric(Some(SignedBound)).None?
  {
    SignedBoundTrimmed();
    SignedBoundScan();
    LeadingRefused(SignedBound, SignedBoundMatch);
  }
}
