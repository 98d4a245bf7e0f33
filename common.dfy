/** Small value types and string helpers shared by the client, the store and the templates. */
module Common {

  /** Python's `None` / a present value. */
  datatype Option<+T> = None | Some(value: T)

  /** A value or the text of the exception that was raised instead. */
  datatype Result<+T> = Ok(value: T) | Err(error: string)
  {
    predicate IsFailure()
    {
      Err?
    }

    function PropagateFailure<U>(): Result<U>
      requires Err?
    {
      Err(error)
    }

    function Extract(): T
      requires Ok?
    {
      value
    }
  }

  /**
   * A floating-point value that is carried from the caller to a request or a row and
   * never computed with (the temperature, the fixed sampling constants). Its decimal
   * literal stands for it.
   */
  datatype Float = Float(literal: string)

  /** Python truthiness of an optional string: `None` and `""` are both false. */
  predicate IsTruthy(s: Option<string>)
  {
    s.Some? && s.value != ""
  }

  predicate IsDigit(c: char)
  {
    '0' <= c <= '9'
  }

  predicate AllDigits(s: string)
  {
    forall k :: 0 <= k < |s| ==> IsDigit(s[k])
  }

  function DigitChar(d: nat): (c: char)
    requires d < 10
    ensures IsDigit(c)
  {
    ('0' as int + d) as char
  }

  function DigitValue(c: char): (d: nat)
    requires IsDigit(c)
    ensures d < 10
  {
    c as int - '0' as int
  }

  /** The number a string of decimal digits denotes (read left to right, most significant first). */
  function ReadDigits(s: string): nat
    requires AllDigits(s)
  {
    if s == [] then 0 else ReadDigits(s[..|s| - 1]) * 10 + DigitValue(s[|s| - 1])
  }

  lemma ReadDigitsSnoc(s: string, c: char)
    requires AllDigits(s) && IsDigit(c)
    ensures AllDigits(s + [c])
    ensures ReadDigits(s + [c]) == ReadDigits(s) * 10 + DigitValue(c)
  {
    assert (s + [c])[..|s|] == s;
  }

  /** Python's `str(n)` for a non-negative integer: shortest decimal form, no leading zeros. */
  function NatToString(n: nat): (r: string)
    ensures |r| >= 1 && AllDigits(r)
    ensures ReadDigits(r) == n
    ensures |r| > 1 ==> r[0] != '0'
  {
    if n < 10 then
      [DigitChar(n)]
    else
      var prefix := NatToString(n / 10);
      ReadDigitsSnoc(prefix, DigitChar(n % 10));
      prefix + [DigitChar(n % 10)]
  }

  function Pow10(w: nat): (p: nat)
    ensures p >= 1
  {
    if w == 0 then 1 else 10 * Pow10(w - 1)
  }

  /** `n` written with exactly `w` digits, zero-padded on the left (strftime's `%02d` and `%Y`). */
  function PaddedDigits(n: nat, w: nat): (r: string)
    requires n < Pow10(w)
    ensures |r| == w && AllDigits(r)
    ensures ReadDigits(r) == n
  {
    if w == 0 then
      []
    else
      var prefix := PaddedDigits(n / 10, w - 1);
      ReadDigitsSnoc(prefix, DigitChar(n % 10));
      prefix + [DigitChar(n % 10)]
  }

  /** `p` is a prefix of `s` (Python's `s.startswith(p)`). */
  predicate StartsWith(s: string, p: string)
  {
    |p| <= |s| && s[..|p|] == p
  }

  /** `q` occurs in `s` at position `i`. */
  predicate OccursAt(s: string, q: string, i: nat)
  {
    i + |q| <= |s| && s[i..i + |q|] == q
  }

  /** Python's `q in s` on strings: a plain, case-sensitive substring test. */
  predicate Contains(s: string, q: string)
  {
    exists i: nat | i <= |s| :: OccursAt(s, q, i)
  }

  /** A character that does not occur in `s` rules out every substring that starts with it. */
  lemma AbsentCharRulesOutSubstring(s: string, q: string)
    requires |q| > 0 && q[0] !in s
    ensures !Contains(s, q)
  {
    forall i: nat | i <= |s|
      ensures !OccursAt(s, q, i)
    {
      if i + |q| <= |s| {
        assert s[i..i + |q|][0] == s[i];
      }
    }
  }

  /** A string occurs in any concatenation that has it as a middle part. */
  lemma OccursInMiddle(a: string, q: string, b: string)
    ensures OccursAt(a + q + b, q, |a|)
  {
    assert (a + q + b)[|a|..|a| + |q|] == q;
  }

  /** Regrouping a concatenation of five parts. */
  lemma Regroup(a: string, b: string, c: string, d: string, e: string)
    ensures a + (b + c + d + e) == a + b + c + d + e
    ensures a + b + c + d + e == ((a + b) + c) + (d + e)
  {
  }
}
