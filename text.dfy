/** The pieces of java.lang.String, java.lang.Long and android.text.TextUtils that the
    application relies on: trim, case-insensitive comparison, lower-casing, joining,
    and the decimal text of a long. */
module Text {
  import opened Wrappers

  const MIN_LONG: int := -0x8000_0000_0000_0000
  const MAX_LONG: int := 0x7FFF_FFFF_FFFF_FFFF

  /** A Java long. */
  type Long = x: int | MIN_LONG <= x <= MAX_LONG

  // ---------------------------------------------------------------------------------
  // String.trim: strips every character whose code is at most U+0020 from both ends.

  predicate IsBlank(c: char) {
    c <= ' '
  }

  /** The string holds at least one character that trim keeps. */
  predicate HasVisible(s: string) {
    exists k :: 0 <= k < |s| && !IsBlank(s[k])
  }

  /** Number of blank characters at the front of s (the first loop of String.trim). */
  function LeadingBlanks(s: string): (n: nat)
    ensures n <= |s|
    ensures forall k :: 0 <= k < n ==> IsBlank(s[k])
    ensures n < |s| ==> !IsBlank(s[n])
  {
    if |s| == 0 || !IsBlank(s[0]) then 0 else 1 + LeadingBlanks(s[1..])
  }

  /** End index once the blank characters at the back of s, down to index lo, are
      dropped (the second loop of String.trim). */
  function TrailingStart(s: string, lo: nat): (m: nat)
    requires lo <= |s|
    ensures lo <= m <= |s|
    ensures forall k :: m <= k < |s| ==> IsBlank(s[k])
    ensures lo < m ==> !IsBlank(s[m - 1])
    decreases |s|
  {
    if |s| == lo || !IsBlank(s[|s| - 1]) then |s| else TrailingStart(s[..|s| - 1], lo)
  }

  /** String.trim. */
  function Trim(s: string): (r: string)
    ensures |r| <= |s|
    ensures r != [] ==> !IsBlank(r[0]) && !IsBlank(r[|r| - 1])
  {
    var lo := LeadingBlanks(s);
    s[lo..TrailingStart(s, lo)]
  }

  /** Trim removes exactly a blank prefix and a blank suffix, and what is left
      neither starts nor ends with a blank character. */
  lemma TrimIsInnerSlice(s: string)
    ensures exists i, j ::
      && 0 <= i <= j <= |s| && Trim(s) == s[i..j]
      && (forall k :: 0 <= k < i ==> IsBlank(s[k]))
      && (forall k :: j <= k < |s| ==> IsBlank(s[k]))
    ensures Trim(s) != [] ==> !IsBlank(Trim(s)[0]) && !IsBlank(Trim(s)[|Trim(s)| - 1])
  {
    var lo := LeadingBlanks(s);
    var hi := TrailingStart(s, lo);
    if lo < hi {
      assert Trim(s)[0] == s[lo];
      assert Trim(s)[|Trim(s)| - 1] == s[hi - 1];
    }
  }

  /** TextUtils.isEmpty(s.trim()) holds exactly when s has no visible character. */
  lemma TrimEmptyIffBlank(s: string)
    ensures Trim(s) == [] <==> !HasVisible(s)
  {
    var lo := LeadingBlanks(s);
    var hi := TrailingStart(s, lo);
    if Trim(s) == [] {
      assert lo == hi;
      assert lo == |s|;
    } else {
      assert !IsBlank(s[lo]);
    }
  }

  /** A string that neither starts nor ends with a blank character is its own trim. */
  lemma TrimRemovesNothing(s: string)
    requires s != [] && !IsBlank(s[0]) && !IsBlank(s[|s| - 1])
    ensures Trim(s) == s
  {
  }

  /** Trimming twice is trimming once. */
  lemma TrimIdempotent(s: string)
    ensures Trim(Trim(s)) == Trim(s)
  {
    var t := Trim(s);
    TrimIsInnerSlice(s);
    if t != [] {
      assert LeadingBlanks(t) == 0;
      assert TrailingStart(t, 0) == |t|;
    }
  }

  // ---------------------------------------------------------------------------------
  // Case handling, restricted to ASCII letters.

  function FoldCase(c: char): (f: char)
    ensures !('A' <= f <= 'Z')
  {
    if 'A' <= c <= 'Z' then (c as int + 32) as char else c
  }

  /** String.compareToIgnoreCase(a, b) == 0. */
  predicate EqualsIgnoreCase(a: string, b: string)
    ensures a == b ==> EqualsIgnoreCase(a, b)
  {
    |a| == |b| && forall k :: 0 <= k < |a| ==> FoldCase(a[k]) == FoldCase(b[k])
  }

  /** String.toLowerCase. */
  function ToLower(s: string): (r: string)
    ensures |r| == |s|
    ensures forall k :: 0 <= k < |s| ==> r[k] == FoldCase(s[k])
  {
    if s == [] then [] else [FoldCase(s[0])] + ToLower(s[1..])
  }

  /** Two strings compare equal ignoring case exactly when their lower-case forms
      are equal. */
  lemma EqualsIgnoreCaseIffSameLower(a: string, b: string)
    ensures EqualsIgnoreCase(a, b) <==> ToLower(a) == ToLower(b)
  {
    if ToLower(a) == ToLower(b) {
      forall k | 0 <= k < |a| ensures FoldCase(a[k]) == FoldCase(b[k]) {
        assert ToLower(a)[k] == ToLower(b)[k];
      }
    }
  }

  // ---------------------------------------------------------------------------------
  // Joining and counting.

  /** TextUtils.join(sep, parts). */
  function Join(sep: string, parts: seq<string>): (r: string)
    ensures |parts| > 0 ==> parts[0] <= r
  {
    if parts == [] then ""
    else if |parts| == 1 then parts[0]
    else parts[0] + sep + Join(sep, parts[1..])
  }

  /** A character that is neither in the separator nor in any part is not in the
      joined text. */
  lemma {:induction false} JoinAbsent(sep: string, parts: seq<string>, c: char)
    requires c !in sep
    requires forall i :: 0 <= i < |parts| ==> c !in parts[i]
    ensures c !in Join(sep, parts)
  {
    if |parts| > 1 {
      JoinAbsent(sep, parts[1..], c);
    }
  }

  function CountChar(s: string, c: char): nat {
    if s == [] then 0 else (if s[0] == c then 1 else 0) + CountChar(s[1..], c)
  }

  lemma {:induction false} CountCharAppend(a: string, b: string, c: char)
    ensures CountChar(a + b, c) == CountChar(a, c) + CountChar(b, c)
  {
    if a == [] {
      assert a + b == b;
    } else {
      assert (a + b)[1..] == a[1..] + b;
      CountCharAppend(a[1..], b, c);
    }
  }

  lemma {:induction false} CountCharAbsent(s: string, c: char)
    requires c !in s
    ensures CountChar(s, c) == 0
  {
    if s != [] {
      CountCharAbsent(s[1..], c);
    }
  }

  // ---------------------------------------------------------------------------------
  // Long.toString and Long.parseLong (ASCII digits only).

  predicate IsDigit(c: char) {
    '0' <= c <= '9'
  }

  function DigitChar(d: nat): (c: char)
    requires d < 10
    ensures IsDigit(c)
  {
    ('0' as int + d) as char
  }

  function DigitValue(c: char): (d: nat)
    requires IsDigit(c)
    ensures d < 10
  {
    c as int - '0' as int
  }

  /** Decimal digits of n, most significant first, without leading zeros. */
  function Digits(n: nat): (s: string)
    ensures |s| > 0
    ensures forall k :: 0 <= k < |s| ==> IsDigit(s[k])
  {
    if n < 10 then [DigitChar(n)] else Digits(n / 10) + [DigitChar(n % 10)]
  }

  /** Long.toString(n). */
  function LongToString(n: Long): (s: string)
    ensures |s| > 0
    ensures forall k :: 0 <= k < |s| ==> IsDigit(s[k]) || s[k] == '-'
  {
    if n < 0 then "-" + Digits(-(n as int)) else Digits(n)
  }

  function DigitsValue(s: string): nat
    requires forall k :: 0 <= k < |s| ==> IsDigit(s[k])
  {
    if s == [] then 0 else 10 * DigitsValue(s[..|s| - 1]) + DigitValue(s[|s| - 1])
  }

  /** Long.parseLong(s): an optional sign, at least one digit, and a value that fits
      in a long; anything else throws NumberFormatException (None). */
  function ParseLong(s: string): (r: Option<Long>)
    ensures r.Some? ==> |s| > 0
    ensures r.Some? && r.value < 0 ==> s[0] == '-'
    ensures r.Some? && s[0] != '-' ==> r.value >= 0
  {
    var neg := |s| > 0 && s[0] == '-';
    var body := if |s| > 0 && (s[0] == '-' || s[0] == '+') then s[1..] else s;
    if body == [] || exists k :: 0 <= k < |body| && !IsDigit(body[k]) then None
    else
      var v: int := if neg then -(DigitsValue(body) as int) else DigitsValue(body);
      if MIN_LONG <= v <= MAX_LONG then Some(v) else None
  }

  lemma {:induction false} DigitsRoundTrip(n: nat)
    ensures DigitsValue(Digits(n)) == n
  {
    var s := Digits(n);
    if n >= 10 {
      assert s[..|s| - 1] == Digits(n / 10);
      DigitsRoundTrip(n / 10);
    }
  }

  /** The text Long.toString gives for a long is parsed back by Long.parseLong to
      the same long. */
  lemma LongRoundTrip(n: Long)
    ensures ParseLong(LongToString(n)) == Some(n)
  {
    DigitsRoundTrip(if n < 0 then -(n as int) else n);
    if n < 0 {
      var s := LongToString(n);
      assert s[1..] == Digits(-(n as int));
    }
  }
}
