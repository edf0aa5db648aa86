/** Character-level helpers the ledger needs: Python's whitespace stripping,
    Python's string ordering and fixed-width decimal digits. */
module Text {

  /** The code points Python's str.isspace() accepts; str.strip() removes exactly these. */
  predicate IsSpace(c: char) {
    || ('\t' <= c <= '\r')
    || ('\U{1C}' <= c <= '\U{1F}')
    || c == ' ' || c == '\U{85}' || c == '\U{A0}' || c == '\U{1680}'
    || ('\U{2000}' <= c <= '\U{200A}')
    || c == '\U{2028}' || c == '\U{2029}' || c == '\U{202F}' || c == '\U{205F}' || c == '\U{3000}'
  }

  /** A string with no whitespace at either end. */
  predicate Stripped(s: string) {
    s == [] || (!IsSpace(s[0]) && !IsSpace(s[|s| - 1]))
  }

  /** How many whitespace characters s starts with: what str.lstrip() cuts. */
  function LeadingSpaces(s: string): (n: nat)
    ensures n <= |s|
    ensures forall k :: 0 <= k < n ==> IsSpace(s[k])
    ensures n < |s| ==> !IsSpace(s[n])
  {
    if s != [] && IsSpace(s[0]) then 1 + LeadingSpaces(s[1..]) else 0
  }

  /** How many whitespace characters s ends with: what str.rstrip() cuts. */
  function TrailingSpaces(s: string): (n: nat)
    ensures n <= |s|
    ensures forall k :: |s| - n <= k < |s| ==> IsSpace(s[k])
    ensures n < |s| ==> !IsSpace(s[|s| - n - 1])
  {
    if s != [] && IsSpace(s[|s| - 1]) then 1 + TrailingSpaces(s[..|s| - 1]) else 0
  }

  /** str.strip(): s without its leading and trailing whitespace. The result is
      the infix of s that starts after the leading whitespace, has no whitespace
      at either end, and has only whitespace after it. */
  function Strip(s: string): (r: string)
    ensures Stripped(r)
    ensures var i := LeadingSpaces(s);
      i + |r| <= |s| && r == s[i..i + |r|]
      && (forall k :: 0 <= k < i ==> IsSpace(s[k]))
      && (forall k :: i + |r| <= k < |s| ==> IsSpace(s[k]))
  {
    var i := LeadingSpaces(s);
    var rest := s[i..];
    var n := TrailingSpaces(rest);
    assert forall k :: i + |rest| - n <= k < |s| ==> s[k] == rest[k - i];
    assert n < |rest| ==> s[i] == rest[0] && s[|s| - n - 1] == rest[|rest| - n - 1];
    s[i..|s| - n]
  }

  /** Stripping a string that has no whitespace at either end changes nothing. */
  lemma StripStripped(s: string)
    requires Stripped(s)
    ensures Strip(s) == s
  {
  }

  /** Stripping twice is stripping once. */
  lemma StripIdempotent(s: string)
    ensures Strip(Strip(s)) == Strip(s)
  {
  }

  /** A string strips to nothing exactly when it is all whitespace. */
  lemma StripEmptyIff(s: string)
    ensures Strip(s) == [] <==> forall k :: 0 <= k < |s| ==> IsSpace(s[k])
  {
  }

  /** Python's `<` on str: lexicographic by code point, a proper prefix being smaller. */
  predicate Less(a: string, b: string) {
    if a == [] then b != []
    else if b == [] then false
    else a[0] < b[0] || (a[0] == b[0] && Less(a[1..], b[1..]))
  }

  /** A string is never smaller than itself. */
  lemma {:induction false} LessIrreflexive(a: string)
    ensures !Less(a, a)
  {
    if a != [] {
      LessIrreflexive(a[1..]);
    }
  }

  /** Python's string order is a strict total order: of two strings exactly one
      is smaller, or they are equal. */
  lemma {:induction false} LessTrichotomy(a: string, b: string)
    ensures a == b || Less(a, b) || Less(b, a)
    ensures !(Less(a, b) && Less(b, a))
    ensures Less(a, b) ==> a != b
  {
    if a != [] && b != [] {
      LessTrichotomy(a[1..], b[1..]);
      if a[0] == b[0] && a[1..] == b[1..] {
        assert a == [a[0]] + a[1..] && b == [b[0]] + b[1..];
      }
    }
    if a == b {
      LessIrreflexive(a);
    }
  }

  /** Comparing two strings whose first parts have equal length: the first parts
      decide, and only when they are equal do the second parts. */
  lemma {:induction false} LessAppend(a1: string, a2: string, b1: string, b2: string)
    requires |a1| == |b1|
    ensures Less(a1 + a2, b1 + b2) <==> Less(a1, b1) || (a1 == b1 && Less(a2, b2))
  {
    if a1 == [] {
      assert a1 + a2 == a2 && b1 + b2 == b2;
    } else {
      assert (a1 + a2)[0] == a1[0] && (a1 + a2)[1..] == a1[1..] + a2;
      assert (b1 + b2)[0] == b1[0] && (b1 + b2)[1..] == b1[1..] + b2;
      LessAppend(a1[1..], a2, b1[1..], b2);
      LessIrreflexive(a1[1..]);
      if a1[0] == b1[0] && a1[1..] == b1[1..] {
        assert a1 == b1 by { assert a1 == [a1[0]] + a1[1..] && b1 == [b1[0]] + b1[1..]; }
      }
    }
  }

  function Pow10(n: nat): (p: nat)
    ensures p >= 1
  {
    if n == 0 then 1 else 10 * Pow10(n - 1)
  }

  predicate IsDigit(c: char) {
    '0' <= c <= '9'
  }

  predicate AllDigits(s: string) {
    forall k :: 0 <= k < |s| ==> IsDigit(s[k])
  }

  function DigitChar(d: nat): (c: char)
    requires d < 10
    ensures IsDigit(c)
  {
    ('0' as int + d) as char
  }

  function DigitValue(c: char): (d: nat)
    requires IsDigit(c)
    ensures d < 10 && DigitChar(d) == c
  {
    c as int - '0' as int
  }

  /** x written with exactly `width` decimal digits, left-padded with zeros
      (what `%Y`, `%m` and `%d` of strftime produce). */
  function ZeroPad(x: nat, width: nat): (s: string)
    requires x < Pow10(width)
    ensures |s| == width && AllDigits(s)
  {
    if width == 0 then "" else ZeroPad(x / 10, width - 1) + [DigitChar(x % 10)]
  }

  /** The value of a string of decimal digits. */
  function DigitsValue(s: string): (v: nat)
    requires AllDigits(s)
    ensures v < Pow10(|s|)
  {
    if s == [] then 0 else 10 * DigitsValue(s[..|s| - 1]) + DigitValue(s[|s| - 1])
  }

  /** Reading back a zero-padded number gives the number. */
  lemma {:induction false} DigitsValueZeroPad(x: nat, width: nat)
    requires x < Pow10(width)
    ensures DigitsValue(ZeroPad(x, width)) == x
  {
    if width > 0 {
      var s := ZeroPad(x, width);
      assert s[..width - 1] == ZeroPad(x / 10, width - 1);
      DigitsValueZeroPad(x / 10, width - 1);
    }
  }

  /** Zero-padding the value of a digit string gives the string back. */
  lemma {:induction false} ZeroPadDigitsValue(s: string)
    requires AllDigits(s)
    ensures ZeroPad(DigitsValue(s), |s|) == s
  {
    if s != [] {
      var init := s[..|s| - 1];
      var x := DigitsValue(s);
      assert x / 10 == DigitsValue(init) && x % 10 == DigitValue(s[|s| - 1]);
      ZeroPadDigitsValue(init);
      assert s == init + [s[|s| - 1]];
    }
  }

  /** Single digits compare as strings exactly as their values compare. */
  lemma DigitCharOrder(a: nat, b: nat)
    requires a < 10 && b < 10
    ensures Less([DigitChar(a)], [DigitChar(b)]) <==> a < b
  {
  }

  /** Equal-width zero-padded numbers compare as strings exactly as the numbers compare. */
  lemma {:induction false} ZeroPadLess(x: nat, y: nat, width: nat)
    requires x < Pow10(width) && y < Pow10(width)
    ensures Less(ZeroPad(x, width), ZeroPad(y, width)) <==> x < y
  {
    if width > 0 {
      var hx, hy := ZeroPad(x / 10, width - 1), ZeroPad(y / 10, width - 1);
      LessAppend(hx, [DigitChar(x % 10)], hy, [DigitChar(y % 10)]);
      ZeroPadLess(x / 10, y / 10, width - 1);
      DigitCharOrder(x % 10, y % 10);
      DigitsValueZeroPad(x / 10, width - 1);
      DigitsValueZeroPad(y / 10, width - 1);
    }
  }
}
