/** String helpers: JavaScript truthiness of optional strings, ASCII case
    folding, `String.prototype.includes`, decimal rendering of integers (as
    in a template literal) and splitting on a separator character. */
module Text {
  import opened Wrappers

  /** JavaScript truthiness of an optional string: present and non-empty. */
  predicate Truthy(s: Option<string>) {
    s.Some? && s.value != ""
  }

  /** The string when it is present and non-empty, and `fallback` otherwise. */
  function OrElse(s: Option<string>, fallback: string): string {
    if Truthy(s) then s.value else fallback
  }

  /** A missing or empty string becomes absent; any other string is kept. */
  function NonEmpty(s: Option<string>): (r: Option<string>)
    ensures r.Some? <==> Truthy(s)
    ensures r.Some? ==> r == s
  {
    if Truthy(s) then s else None
  }

  /** ASCII lower-casing of one character. */
  function LowerChar(c: char): char {
    if 'A' <= c <= 'Z' then (c as int + 32) as char else c
  }

  /** Lower-casing, restricted to the ASCII letters. */
  function Lower(s: string): (r: string)
    ensures |r| == |s|
  {
    seq(|s|, i requires 0 <= i < |s| => LowerChar(s[i]))
  }

  /** Lower-casing a second time changes nothing. */
  lemma LowerIdempotent(s: string)
    ensures Lower(Lower(s)) == Lower(s)
  {
  }

  /** `t` occurs in `s` at position `i`. */
  ghost predicate OccursAt(s: string, t: string, i: int) {
    0 <= i && i + |t| <= |s| && s[i..i + |t|] == t
  }

  lemma OccursShift(s: string, t: string)
    requires |s| > 0
    requires !OccursAt(s, t, 0)
    ensures (exists i :: OccursAt(s[1..], t, i)) <==> (exists i :: OccursAt(s, t, i))
  {
    if i :| OccursAt(s[1..], t, i) {
      assert s[1..][i..i + |t|] == s[i + 1..i + 1 + |t|];
      assert OccursAt(s, t, i + 1);
    }
    if i :| OccursAt(s, t, i) {
      assert s[1..][i - 1..i - 1 + |t|] == s[i..i + |t|];
      assert OccursAt(s[1..], t, i - 1);
    }
  }

  /** Substring search: true exactly when `t` occurs somewhere in `s`. */
  function Includes(s: string, t: string): (b: bool)
    ensures b <==> exists i :: OccursAt(s, t, i)
    decreases |s|
  {
    if |t| <= |s| && s[..|t|] == t then
      assert OccursAt(s, t, 0);
      true
    else if |s| == 0 then
      false
    else
      OccursShift(s, t);
      Includes(s[1..], t)
  }

  /** A witnessed occurrence makes `includes` true. */
  lemma IncludesAt(s: string, t: string, i: int)
    requires 0 <= i && i + |t| <= |s| && s[i..i + |t|] == t
    ensures Includes(s, t)
  {
    assert OccursAt(s, t, i);
  }

  predicate IsDigit(c: char) {
    '0' <= c <= '9'
  }

  predicate AllDigits(s: string) {
    forall i :: 0 <= i < |s| ==> IsDigit(s[i])
  }

  function DigitChar(d: nat): (c: char)
    requires d < 10
    ensures IsDigit(c)
  {
    ('0' as int + d) as char
  }

  function DigitValue(c: char): (d: nat)
    requires IsDigit(c)
    ensures d < 10
  {
    c as int - '0' as int
  }

  /** Decimal digits of a natural number, most significant first, no leading zeros. */
  function NatToDecimal(n: nat): (s: string)
    ensures |s| > 0 && AllDigits(s)
    ensures n == 0 ==> s == "0"
    ensures n > 0 ==> s[0] != '0'
  {
    if n < 10 then [DigitChar(n)] else NatToDecimal(n / 10) + [DigitChar(n % 10)]
  }

  /** An integer as a template literal prints it: a minus sign for negatives,
      then the decimal digits without leading zeros. */
  function IntToDecimal(n: int): (s: string)
    ensures |s| > 0
    ensures n < 0 ==> |s| > 1 && s[0] == '-' && s[1] != '0'
    ensures n >= 0 ==> s[0] != '-' && (s[0] == '0' ==> s == "0")
    ensures forall i :: 0 <= i < |s| ==> s[i] == '-' || IsDigit(s[i])
  {
    if n < 0 then "-" + NatToDecimal(-n) else NatToDecimal(n)
  }

  /** The number a string of decimal digits denotes. */
  function DigitsValue(s: string): nat
    requires AllDigits(s)
  {
    if |s| == 0 then 0 else DigitsValue(s[..|s| - 1]) * 10 + DigitValue(s[|s| - 1])
  }

  /** Decimal digits in canonical form: non-empty, and no leading zero
      unless the number is zero itself. */
  predicate CanonicalDigits(s: string) {
    |s| > 0 && AllDigits(s) && (s[0] == '0' ==> |s| == 1)
  }

  /** Reads back an integer in canonical form: an optional minus sign
      followed by canonical digits, with no negative zero. */
  function ParseInt(s: string): Option<int> {
    if |s| > 1 && s[0] == '-' && CanonicalDigits(s[1..]) && s[1] != '0' then Some(-(DigitsValue(s[1..]) as int))
    else if CanonicalDigits(s) then Some(DigitsValue(s))
    else None
  }

  lemma {:induction false} NatToDecimalRoundTrip(n: nat)
    ensures DigitsValue(NatToDecimal(n)) == n
  {
    if n >= 10 {
      NatToDecimalRoundTrip(n / 10);
      var s := NatToDecimal(n);
      assert s[..|s| - 1] == NatToDecimal(n / 10);
    }
  }

  /** Rendering an integer in decimal loses nothing. */
  lemma IntToDecimalRoundTrip(n: int)
    ensures ParseInt(IntToDecimal(n)) == Some(n)
  {
    if n < 0 {
      NatToDecimalRoundTrip(-n);
      var s := IntToDecimal(n);
      assert s[1..] == NatToDecimal(-n);
    } else {
      NatToDecimalRoundTrip(n);
    }
  }

  /** Digits that do not start with a zero denote a positive number. */
  lemma {:induction false} LeadingNonZeroPositive(s: string)
    requires |s| > 0 && AllDigits(s) && s[0] != '0'
    ensures DigitsValue(s) > 0
  {
    if |s| > 1 {
      LeadingNonZeroPositive(s[..|s| - 1]);
    }
  }

  /** Canonical digits are exactly what `NatToDecimal` writes for their value. */
  lemma {:induction false} CanonicalDigitsWritten(s: string)
    requires CanonicalDigits(s)
    ensures NatToDecimal(DigitsValue(s)) == s
  {
    if |s| > 1 {
      var p := s[..|s| - 1];
      LeadingNonZeroPositive(p);
      CanonicalDigitsWritten(p);
      assert s == p + [s[|s| - 1]];
    }
  }

  /** The only text that reads back as an integer is its own rendering, so
      no other spelling of the number (leading zeros, `-0`) is accepted. */
  lemma {:induction false} ParseIntOnlyRendering(s: string, n: int)
    requires ParseInt(s) == Some(n)
    ensures IntToDecimal(n) == s
  {
    if |s| > 1 && s[0] == '-' && CanonicalDigits(s[1..]) && s[1] != '0' {
      CanonicalDigitsWritten(s[1..]);
      LeadingNonZeroPositive(s[1..]);
      assert s == "-" + s[1..];
    } else {
      CanonicalDigitsWritten(s);
    }
  }

  /** The pieces of `s` between occurrences of `sep`, like `s.split(sep)`. */
  function Split(s: string, sep: char): (parts: seq<string>)
    ensures |parts| > 0
  {
    if |s| == 0 then [""]
    else
      var rest := Split(s[1..], sep);
      if s[0] == sep then [""] + rest else [[s[0]] + rest[0]] + rest[1..]
  }

  lemma {:induction false} SplitWithoutSeparator(a: string, sep: char)
    requires sep !in a
    ensures Split(a, sep) == [a]
  {
    if |a| > 0 {
      SplitWithoutSeparator(a[1..], sep);
      assert [a[0]] + a[1..] == a;
    }
  }

  lemma {:induction false} SplitAtFirstSeparator(a: string, b: string, sep: char)
    requires sep !in a
    ensures Split(a + [sep] + b, sep) == [a] + Split(b, sep)
  {
    var s := a + [sep] + b;
    if |a| == 0 {
      assert s[1..] == b;
    } else {
      assert s[1..] == a[1..] + [sep] + b;
      SplitAtFirstSeparator(a[1..], b, sep);
      assert [a[0]] + a[1..] == a;
    }
  }
}
