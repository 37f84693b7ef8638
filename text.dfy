/**
  The two string operations expression building relies on: stripping a
  property name down to its ASCII letters (`key.replace(/[^A-Za-z]/gi, '')`)
  and writing a placeholder index in decimal (template-literal `${index}`).
 */
module Text {

  predicate IsLetter(c: char)
  {
    'A' <= c <= 'Z' || 'a' <= c <= 'z'
  }

  predicate IsLetters(s: string)
  {
    forall i :: 0 <= i < |s| ==> IsLetter(s[i])
  }

  /** Removes every character outside `A-Z` and `a-z`, keeping the order of the rest. */
  function Sanitize(s: string): (r: string)
    ensures IsLetters(r)
    ensures |r| <= |s|
    ensures IsLetters(s) ==> r == s
  {
    if s == [] then []
    else (if IsLetter(s[0]) then [s[0]] else []) + Sanitize(s[1..])
  }

  /** Sanitising a second time changes nothing. */
  lemma SanitizeIdempotent(s: string)
    ensures Sanitize(Sanitize(s)) == Sanitize(s)
  {
  }

  /** A character survives sanitising exactly when it is a letter of the input. */
  lemma {:induction false} SanitizeKeeps(s: string, c: char)
    ensures c in Sanitize(s) <==> c in s && IsLetter(c)
  {
    if s != [] {
      SanitizeKeeps(s[1..], c);
      assert s == [s[0]] + s[1..];
    }
  }

  /** Sanitising works character by character, so it distributes over concatenation. */
  lemma {:induction false} SanitizeConcat(a: string, b: string)
    ensures Sanitize(a + b) == Sanitize(a) + Sanitize(b)
  {
    if a != [] {
      assert (a + b)[0] == a[0] && (a + b)[1..] == a[1..] + b;
      SanitizeConcat(a[1..], b);
    } else {
      assert a + b == b;
    }
  }

  predicate IsDigit(c: char)
  {
    '0' <= c <= '9'
  }

  function Digit(d: nat): (c: char)
    requires d < 10
    ensures IsDigit(c) && c as int == 48 + d
  {
    (48 + d) as char
  }

  /** The number a string of decimal digits denotes, most significant digit first. */
  function DigitsValue(s: string): int
  {
    if s == [] then 0 else 10 * DigitsValue(s[..|s| - 1]) + (s[|s| - 1] as int - 48)
  }

  /** The decimal numeral of `n`, without leading zeros, as `${n}` prints it. */
  function Decimal(n: nat): (r: string)
    ensures 1 <= |r|
    ensures forall i :: 0 <= i < |r| ==> IsDigit(r[i])
    ensures (n < 10) == (|r| == 1)
    ensures n >= 1 ==> r[0] != '0'
    ensures DigitsValue(r) == n
  {
    if n < 10 then
      assert [Digit(n)][..0] == [];
      [Digit(n)]
    else
      var prefix := Decimal(n / 10);
      assert (prefix + [Digit(n % 10)])[..|prefix|] == prefix;
      prefix + [Digit(n % 10)]
  }

  /** Distinct indices have distinct numerals: a numeral denotes its index. */
  lemma DecimalInjective(a: nat, b: nat)
    requires Decimal(a) == Decimal(b)
    ensures a == b
  {
  }
}
