/** The Python `str` operations that the reconciliation script and the record
    flattener rely on, over `seq<char>`: whitespace, `strip`, `lower`, `in`,
    `find`, `replace`, `split(sep, 1)`, `rsplit(sep, 1)`, `lstrip(chars)`,
    `sep.join` and the decimal rendering of a natural number. */
module Text {
  import opened Wrappers

  /** Python's `str.isspace()` for one character; a `\s` in a `str` regex matches the same set. */
  predicate IsSpace(c: char) {
    || c == ' '
    || ('\t' <= c <= '\r')
    || ('\U{1C}' <= c <= '\U{1F}')
    || c == '\U{85}' || c == '\U{A0}' || c == '\U{1680}'
    || ('\U{2000}' <= c <= '\U{200A}')
    || c == '\U{2028}' || c == '\U{2029}' || c == '\U{202F}' || c == '\U{205F}' || c == '\U{3000}'
  }

  /** An ASCII digit (what `\d` is restricted to in this model). */
  predicate IsDigit(c: char) {
    '0' <= c <= '9'
  }

  predicate AllSpace(s: string) {
    forall i :: 0 <= i < |s| ==> IsSpace(s[i])
  }

  predicate AllDigits(s: string) {
    forall i :: 0 <= i < |s| ==> IsDigit(s[i])
  }

  /** `s.lstrip()`: the longest suffix of `s` that does not start with whitespace. */
  function StripLeft(s: string): (r: string)
    ensures |r| <= |s| && r == s[|s| - |r|..]
    ensures AllSpace(s[..|s| - |r|])
    ensures r == [] || !IsSpace(r[0])
  {
    if s != [] && IsSpace(s[0]) then
      var r := StripLeft(s[1..]);
      assert s[..|s| - |r|] == [s[0]] + s[1..][..|s| - 1 - |r|];
      r
    else s
  }

  /** `s.rstrip()`: the longest prefix of `s` that does not end with whitespace. */
  function StripRight(s: string): (r: string)
    ensures |r| <= |s| && r == s[..|r|]
    ensures AllSpace(s[|r|..])
    ensures r == [] || !IsSpace(r[|r| - 1])
  {
    if s != [] && IsSpace(s[|s| - 1]) then
      var r := StripRight(s[..|s| - 1]);
      assert s[|r|..] == s[..|s| - 1][|r|..] + [s[|s| - 1]];
      r
    else s
  }

  /** `s.strip()`. */
  function Strip(s: string): (r: string)
    ensures r == [] || (!IsSpace(r[0]) && !IsSpace(r[|r| - 1]))
  {
    StripRight(StripLeft(s))
  }

  /** Stripping only removes whitespace: a string with non-space ends is unchanged. */
  lemma StripTrimmed(s: string)
    requires s != [] && !IsSpace(s[0]) && !IsSpace(s[|s| - 1])
    ensures Strip(s) == s
  {
  }

  /** Leading whitespace in front of a trimmed text is all that `strip` removes. */
  lemma StripAfterGap(gap: string, s: string)
    requires AllSpace(gap)
    requires s != [] && !IsSpace(s[0]) && !IsSpace(s[|s| - 1])
    ensures Strip(gap + s) == s
  {
    StripLeftGap(gap, s);
  }

  lemma {:induction false} StripLeftGap(gap: string, s: string)
    requires AllSpace(gap)
    requires s != [] && !IsSpace(s[0])
    ensures StripLeft(gap + s) == s
  {
    if gap == [] {
      assert gap + s == s;
    } else {
      assert (gap + s)[1..] == gap[1..] + s;
      StripLeftGap(gap[1..], s);
    }
  }

  /** Whitespace in front is all that `lstrip` removes from it. */
  lemma {:induction false} StripLeftSpaces(gap: string, s: string)
    requires AllSpace(gap)
    ensures StripLeft(gap + s) == StripLeft(s)
  {
    if gap == [] {
      assert gap + s == s;
    } else {
      assert (gap + s)[1..] == gap[1..] + s;
      StripLeftSpaces(gap[1..], s);
    }
  }

  /** Whitespace at the end is all that `rstrip` removes from it. */
  lemma {:induction false} StripRightSpaces(s: string, gap: string)
    requires AllSpace(gap)
    ensures StripRight(s + gap) == StripRight(s)
  {
    if gap == [] {
      assert s + gap == s;
    } else {
      var g := gap[..|gap| - 1];
      assert (s + gap)[..|s + gap| - 1] == s + g;
      StripRightSpaces(s, g);
    }
  }

  /** `lstrip` of a text with something left in it keeps whatever follows. */
  lemma {:induction false} StripLeftAppend(s: string, t: string)
    requires StripLeft(s) != []
    ensures StripLeft(s + t) == StripLeft(s) + t
  {
    assert (s + t)[0] == s[0];
    if IsSpace(s[0]) {
      assert StripLeft(s) == StripLeft(s[1..]);
      assert (s + t)[1..] == s[1..] + t;
      assert StripLeft(s + t) == StripLeft(s[1..] + t);
      StripLeftAppend(s[1..], t);
    } else {
      assert StripLeft(s) == s;
    }
  }

  /** `strip` ignores any whitespace added on either side. */
  lemma StripSurrounded(left: string, s: string, right: string)
    requires AllSpace(left) && AllSpace(right)
    ensures Strip(left + s + right) == Strip(s)
  {
    assert left + s + right == left + (s + right);
    StripLeftSpaces(left, s + right);
    if StripLeft(s) != [] {
      StripLeftAppend(s, right);
      StripRightSpaces(StripLeft(s), right);
    } else {
      assert s[..|s|] == s;
      assert AllSpace(s + right);
      StripLeftSpaces(s + right, []);
      assert (s + right) + [] == s + right;
    }
  }

  /** Python's `str.lower()` on one character, restricted to ASCII letters. */
  function LowerChar(c: char): char {
    if 'A' <= c <= 'Z' then (c as int + 32) as char else c
  }

  /** `s.lower()` (ASCII letters only). */
  function Lower(s: string): string {
    seq(|s|, i requires 0 <= i < |s| => LowerChar(s[i]))
  }

  /** `sub` starts at index `i` of `s`. */
  predicate OccursAt(s: string, sub: string, i: nat) {
    i + |sub| <= |s| && s[i..i + |sub|] == sub
  }

  /** `s.find(sub, from)`, as an option: the first index at or after `from` where `sub` occurs. */
  function FindFrom(s: string, sub: string, from: nat): (r: Option<nat>)
    decreases |s| - from
    ensures r.Some? ==> from <= r.value && OccursAt(s, sub, r.value)
    ensures r.Some? ==> forall k: nat :: from <= k < r.value ==> !OccursAt(s, sub, k)
    ensures r.None? ==> forall k: nat :: from <= k ==> !OccursAt(s, sub, k)
  {
    if from + |sub| > |s| then None
    else if OccursAt(s, sub, from) then Some(from)
    else FindFrom(s, sub, from + 1)
  }

  /** `s.find(sub)`. */
  function Find(s: string, sub: string): (r: Option<nat>)
    ensures r.Some? ==> OccursAt(s, sub, r.value) && forall k: nat :: k < r.value ==> !OccursAt(s, sub, k)
    ensures r.None? ==> forall k: nat :: !OccursAt(s, sub, k)
  {
    FindFrom(s, sub, 0)
  }

  /** Python's `sub in s`. */
  predicate Contains(s: string, sub: string) {
    Find(s, sub).Some?
  }

  /** `s.rfind(c)` for one character, as an option. */
  function LastIndexOf(s: string, c: char): (r: Option<nat>)
    ensures r.Some? ==> r.value < |s| && s[r.value] == c
    ensures r.Some? ==> forall k :: r.value < k < |s| ==> s[k] != c
    ensures r.None? ==> c !in s
  {
    if s == [] then None
    else if s[|s| - 1] == c then Some(|s| - 1)
    else LastIndexOf(s[..|s| - 1], c)
  }

  /** `s.rsplit(sep, 1)` for a one-character separator: one part when `sep` does
      not occur, otherwise the text before and after its last occurrence. */
  function RSplitOnce(s: string, sep: char): (parts: seq<string>)
    ensures |parts| == 1 <==> sep !in s
    ensures |parts| == 1 ==> parts[0] == s
    ensures |parts| != 1 ==> |parts| == 2 && parts[0] + [sep] + parts[1] == s && sep !in parts[1]
  {
    match LastIndexOf(s, sep)
    case None => [s]
    case Some(p) =>
      assert s[..p] + [sep] + s[p + 1..] == s;
      [s[..p], s[p + 1..]]
  }

  /** `s.split(sep, 1)`: one part when `sep` does not occur, otherwise the text
      before and after its first occurrence. */
  function SplitOnce(s: string, sep: string): (parts: seq<string>)
    requires sep != []
    ensures |parts| == 1 <==> !Contains(s, sep)
    ensures |parts| == 1 ==> parts[0] == s
    ensures |parts| != 1 ==> |parts| == 2 && parts[0] + sep + parts[1] == s
    ensures |parts| != 1 ==> forall k: nat :: k < |parts[0]| ==> !OccursAt(s, sep, k)
  {
    match Find(s, sep)
    case None => [s]
    case Some(p) =>
      assert s[..p] + sep + s[p + |sep|..] == s by {
        assert s[p..p + |sep|] == sep;
        assert s == s[..p] + s[p..p + |sep|] + s[p + |sep|..];
      }
      [s[..p], s[p + |sep|..]]
  }

  /** `s.replace(a, b)` for one-character `a` and `b`. */
  function ReplaceChar(s: string, a: char, b: char): string {
    seq(|s|, i requires 0 <= i < |s| => if s[i] == a then b else s[i])
  }

  /** `s.replace(c, '')`. */
  function RemoveChar(s: string, c: char): (r: string)
    ensures c !in r
    ensures |r| <= |s|
  {
    if s == [] then [] else (if s[0] == c then [] else [s[0]]) + RemoveChar(s[1..], c)
  }

  lemma {:induction false} RemoveCharAppend(a: string, b: string, c: char)
    ensures RemoveChar(a + b, c) == RemoveChar(a, c) + RemoveChar(b, c)
  {
    if a != [] {
      assert (a + b)[1..] == a[1..] + b;
      RemoveCharAppend(a[1..], b, c);
    } else {
      assert a + b == b;
    }
  }

  lemma {:induction false} RemoveCharAbsent(s: string, c: char)
    requires c !in s
    ensures RemoveChar(s, c) == s
  {
    if s != [] {
      RemoveCharAbsent(s[1..], c);
    }
  }

  /** `s.lstrip(c)` for one character: drops every leading `c`. */
  function LStripChar(s: string, c: char): (r: string)
    ensures r == [] || r[0] != c
    ensures |r| <= |s| && r == s[|s| - |r|..]
    ensures forall i :: 0 <= i < |s| - |r| ==> s[i] == c
  {
    if s != [] && s[0] == c then LStripChar(s[1..], c) else s
  }

  /** `sep.join(parts)` for a one-character separator. */
  function Join(parts: seq<string>, sep: char): string
  {
    if parts == [] then []
    else if |parts| == 1 then parts[0]
    else Join(parts[..|parts| - 1], sep) + [sep] + parts[|parts| - 1]
  }

  /** `s.split(sep)` for a one-character separator; `"".split(",")` is `[""]`. */
  function Split(s: string, sep: char): (parts: seq<string>)
    ensures |parts| >= 1
    decreases |s|
  {
    match LastIndexOf(s, sep)
    case None => [s]
    case Some(p) => Split(s[..p], sep) + [s[p + 1..]]
  }

  /** `Split` undoes `Join` when no part contains the separator. */
  lemma {:induction false} SplitJoin(parts: seq<string>, sep: char)
    requires parts != []
    requires forall k :: 0 <= k < |parts| ==> sep !in parts[k]
    ensures Split(Join(parts, sep), sep) == parts
  {
    if |parts| > 1 {
      var init, last := parts[..|parts| - 1], parts[|parts| - 1];
      var j := Join(init, sep);
      var s := j + [sep] + last;
      assert s == Join(parts, sep);
      assert s[|j|] == sep;
      assert forall k :: |j| < k < |s| ==> s[k] == last[k - |j| - 1];
      assert LastIndexOf(s, sep) == Some(|j|);
      assert s[..|j|] == j && s[|j| + 1..] == last;
      SplitJoin(init, sep);
      assert parts == init + [last];
    }
  }

  /** The character of a decimal digit. */
  function DigitChar(d: nat): (c: char)
    requires d < 10
    ensures IsDigit(c)
  {
    ('0' as int + d) as char
  }

  /** The value of an ASCII digit. */
  function DigitValue(c: char): (d: nat)
    requires IsDigit(c)
    ensures d < 10 && DigitChar(d) == c
  {
    c as int - '0' as int
  }

  /** The number a run of ASCII digits denotes, read most significant first. */
  function DigitsValue(s: string): nat
    requires AllDigits(s)
  {
    if s == [] then 0 else DigitsValue(s[..|s| - 1]) * 10 + DigitValue(s[|s| - 1])
  }

  /** Python's `str(n)` for a natural number. */
  function NatToString(n: nat): (s: string)
    ensures s != [] && AllDigits(s)
  {
    if n < 10 then [DigitChar(n)] else NatToString(n / 10) + [DigitChar(n % 10)]
  }

  /** Reading back the decimal rendering gives the number: so the rendering is injective. */
  lemma {:induction false} NatToStringValue(n: nat)
    ensures DigitsValue(NatToString(n)) == n
  {
    if n >= 10 {
      var s := NatToString(n);
      assert s[..|s| - 1] == NatToString(n / 10);
      NatToStringValue(n / 10);
    }
  }

  lemma NatToStringInjective(m: nat, n: nat)
    requires NatToString(m) == NatToString(n)
    ensures m == n
  {
    NatToStringValue(m);
    NatToStringValue(n);
  }
}
