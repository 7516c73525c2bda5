/** String helpers shared by the PHP side of the plugin: PHP's notion of an
    "empty" string, ASCII lower-casing (the model's reading of mb_strtolower),
    substring search, PHP's substr, and decimal formatting and parsing of
    integers (sprintf("%d") and the (int) cast). */
module Text {

  /** PHP's `empty()` (and the falsiness of `if ($s)`) on a string: only the
      empty string and "0" are falsy. */
  predicate Falsy(s: string) {
    s == "" || s == "0"
  }

  predicate IsUpper(c: char) {
    'A' <= c <= 'Z'
  }

  /** Two characters that are the same letter up to ASCII case, or the
      same character. */
  predicate SameCharIgnoringCase(a: char, b: char) {
    a == b || (IsUpper(a) && b as int == a as int + 32) || (IsUpper(b) && a as int == b as int + 32)
  }

  /** Two strings that differ at most in the ASCII case of their letters. */
  predicate SameIgnoringAsciiCase(s: string, t: string) {
    |s| == |t| && forall i :: 0 <= i < |s| ==> SameCharIgnoringCase(s[i], t[i])
  }

  /** The lower-case form of a character: the one character that is not
      upper case and equals `c` up to case. */
  function LowerChar(c: char): (r: char)
    ensures !IsUpper(r) && SameCharIgnoringCase(c, r)
  {
    if IsUpper(c) then (c as int + 32) as char else c
  }

  /** ASCII lower-casing; letters outside A-Z are left alone. */
  function Lower(s: string): (r: string)
    ensures SameIgnoringAsciiCase(s, r)
    ensures forall i :: 0 <= i < |r| ==> !IsUpper(r[i])
  {
    seq(|s|, i requires 0 <= i < |s| => LowerChar(s[i]))
  }

  /** Two characters lower-case alike exactly when they are equal up to
      case. */
  lemma LowerCharAlike(a: char, b: char)
    ensures LowerChar(a) == LowerChar(b) <==> SameCharIgnoringCase(a, b)
  {
  }

  /** Two strings lower-case alike exactly when they differ only in the
      ASCII case of their letters, so "SEO Tips" and "seo tips" share one
      key. */
  lemma LowerAlike(s: string, t: string)
    ensures Lower(s) == Lower(t) <==> SameIgnoringAsciiCase(s, t)
  {
    if Lower(s) == Lower(t) {
      forall i | 0 <= i < |s| ensures SameCharIgnoringCase(s[i], t[i]) {
        assert Lower(s)[i] == Lower(t)[i];
        LowerCharAlike(s[i], t[i]);
      }
    }
    if SameIgnoringAsciiCase(s, t) {
      forall i | 0 <= i < |s| ensures Lower(s)[i] == Lower(t)[i] {
        LowerCharAlike(s[i], t[i]);
      }
    }
  }

  /** Lower-casing twice is lower-casing once. */
  lemma LowerIdempotent(s: string)
    ensures Lower(Lower(s)) == Lower(s)
  {
    forall i | 0 <= i < |s| ensures Lower(Lower(s))[i] == Lower(s)[i] {
      assert !IsUpper(Lower(s)[i]);
    }
  }

  predicate StartsWith(s: string, prefix: string) {
    |prefix| <= |s| && s[..|prefix|] == prefix
  }

  /** `strpos($s, $needle) !== false`: PHP 8 finds the empty needle at 0. */
  predicate Contains(s: string, needle: string) {
    exists i | 0 <= i <= |s| - |needle| :: OccursAt(s, needle, i)
  }

  predicate OccursAt(s: string, needle: string, i: nat) {
    i + |needle| <= |s| && s[i..i + |needle|] == needle
  }

  /** PHP's `substr($s, 0, $n)` on a string of single-byte characters. */
  function Prefix(s: string, n: nat): (r: string)
    ensures |r| == if n <= |s| then n else |s|
    ensures StartsWith(s, r)
  {
    if n <= |s| then s[..n] else s
  }

  /** PHP 8's `substr($s, -$n)`: the last n characters, or all of s when it
      is shorter than n. */
  function Suffix(s: string, n: nat): (r: string)
    ensures |r| == if n <= |s| then n else |s|
    ensures r == s[|s| - |r|..]
  {
    if n <= |s| then s[|s| - n..] else s
  }

  predicate IsDigit(c: char) {
    '0' <= c <= '9'
  }

  function DigitChar(d: nat): (c: char)
    requires d < 10
    ensures IsDigit(c) && c as int - '0' as int == d
  {
    ('0' as int + d) as char
  }

  /** sprintf("%d", n) for a non-negative n. */
  function NatToString(n: nat): (r: string)
    ensures |r| > 0
    ensures forall i :: 0 <= i < |r| ==> IsDigit(r[i])
  {
    if n < 10 then [DigitChar(n)] else NatToString(n / 10) + [DigitChar(n % 10)]
  }

  /** sprintf("%d", i) for any integer. */
  function IntToString(i: int): (r: string)
    ensures |r| > 0
  {
    if i < 0 then "-" + NatToString(-i) else NatToString(i)
  }

  function DigitOf(c: char): (d: nat)
    requires IsDigit(c)
    ensures d < 10 && DigitChar(d) == c
  {
    c as int - '0' as int
  }

  /** The value of a string of decimal digits. */
  function DigitsValue(s: string): nat
    requires forall i :: 0 <= i < |s| ==> IsDigit(s[i])
  {
    if s == [] then 0
    else DigitsValue(s[..|s| - 1]) * 10 + DigitOf(s[|s| - 1])
  }

  /** The number of leading decimal digits of s. */
  function LeadingDigits(s: string): (n: nat)
    ensures n <= |s|
    ensures forall i :: 0 <= i < n ==> IsDigit(s[i])
    ensures n < |s| ==> !IsDigit(s[n])
  {
    if s == [] || !IsDigit(s[0]) then 0 else 1 + LeadingDigits(s[1..])
  }

  /** The number that a string starts with, 0 when it starts with no digit. */
  function LeadingNumber(s: string): nat {
    DigitsValue(s[..LeadingDigits(s)])
  }

  /** PHP's `(int)` cast of a string: an optional sign followed by the
      leading digits; anything after them is ignored and a string without
      leading digits gives 0. */
  function StringToInt(s: string): int {
    if |s| > 0 && s[0] == '-' then -(LeadingNumber(s[1..]) as int)
    else if |s| > 0 && s[0] == '+' then LeadingNumber(s[1..])
    else LeadingNumber(s)
  }

  lemma {:induction false} DigitsValueOfNatToString(n: nat)
    ensures DigitsValue(NatToString(n)) == n
  {
    if n >= 10 {
      var s := NatToString(n);
      DigitsValueOfNatToString(n / 10);
      assert s[..|s| - 1] == NatToString(n / 10);
    }
  }

  lemma {:induction false} LeadingDigitsOfDigits(s: string, t: string)
    requires forall i :: 0 <= i < |s| ==> IsDigit(s[i])
    requires t == [] || !IsDigit(t[0])
    ensures LeadingDigits(s + t) == |s|
  {
    if s != [] {
      assert (s + t)[1..] == s[1..] + t;
      LeadingDigitsOfDigits(s[1..], t);
    } else {
      assert s + t == t;
    }
  }

  /** The number printed at the head of a string is read back by the
      leading-number parse, whatever follows it (as long as it does not start
      with a digit). */
  lemma LeadingNumberOfNatToString(n: nat, rest: string)
    requires rest == [] || !IsDigit(rest[0])
    ensures LeadingNumber(NatToString(n) + rest) == n
  {
    var s := NatToString(n);
    LeadingDigitsOfDigits(s, rest);
    assert (s + rest)[..|s|] == s;
    DigitsValueOfNatToString(n);
  }

  /** Printing an integer and casting it back gives the same integer. */
  lemma StringToIntOfIntToString(i: int)
    ensures StringToInt(IntToString(i)) == i
  {
    if i < 0 {
      var s := "-" + NatToString(-i);
      assert s[1..] + [] == NatToString(-i);
      LeadingNumberOfNatToString(-i, []);
    } else {
      var s := NatToString(i);
      assert s + [] == s;
      LeadingNumberOfNatToString(i, []);
    }
  }
}
