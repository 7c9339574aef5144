/** The spellings of numbers in `${fn:...}` expressions, and the ranges of int64 and float64. */
module ExprNumbers {
  import opened Arithmetic

  predicate IsDigit(c: char) {
    '0' <= c <= '9'
  }

  predicate AllDigits(s: string) {
    s != "" && forall i :: 0 <= i < |s| ==> IsDigit(s[i])
  }

  /** Digits, the only point at position `k`, and digits. */
  predicate IsFraction(s: string, k: nat) {
    k < |s| && s[k] == '.' && AllDigits(s[..k]) && AllDigits(s[k + 1..])
  }

  function Unsigned(s: string): string {
    if s != "" && s[0] == '-' then s[1..] else s
  }

  /** What the lexer can read as a number: an optional minus, digits, and optionally a point with more digits. */
  ghost predicate IsNumberText(s: string) {
    var t := Unsigned(s);
    AllDigits(t) || exists k: nat :: IsFraction(t, k)
  }

  /** What strconv.ParseInt takes for a decimal integer: an optional sign and digits. */
  predicate IsInteger(s: string) {
    AllDigits(Magnitude(s))
  }

  function Magnitude(s: string): string {
    if s != "" && (s[0] == '-' || s[0] == '+') then s[1..] else s
  }

  function DigitsValue(s: string): int {
    if s == "" then 0 else 10 * DigitsValue(s[..|s| - 1]) + (s[|s| - 1] as int - '0' as int)
  }

  /** The position of the first '.', or the length. */
  function Dot(s: string): (n: nat)
    ensures n <= |s|
  {
    if s == "" || s[0] == '.' then 0 else 1 + Dot(s[1..])
  }

  /** strconv.ParseInt with 64 bits: anything outside int64 is an error. */
  predicate FitsInt64(s: string) {
    if s != "" && s[0] == '-' then DigitsValue(Magnitude(s)) <= Pow(2, 63) else DigitsValue(Magnitude(s)) < Pow(2, 63)
  }

  /** strconv.ParseFloat reports a range error exactly when the value rounds to an infinity. */
  predicate FitsFloat64(s: string) {
    var t := Unsigned(s);
    var dot := Dot(t);
    var fraction := if dot < |t| then t[dot + 1..] else "";
    DigitsValue(t[..dot] + fraction) < (Pow(2, 1024) - Pow(2, 970)) * Pow(10, |fraction|)
  }

  /** A text with two points is no float. */
  predicate HasTwoPoints(s: string) {
    exists i, j :: 0 <= i < j < |s| && s[i] == '.' && s[j] == '.'
  }

  lemma FractionHasPoint(s: string, k: nat)
    requires IsFraction(Unsigned(s), k)
    ensures '.' in s && !HasTwoPoints(s)
  {
    var t, d := Unsigned(s), |s| - |Unsigned(s)|;
    assert s[d + k] == t[k] == '.';
    forall i | 0 <= i < |s| && i != d + k ensures s[i] != '.' {
      if d <= i < d + k {
        assert t[..k][i - d] == s[i];
      } else if i > d + k {
        assert t[k + 1..][i - d - k - 1] == s[i];
      }
    }
  }

  lemma DigitsHaveNoPoint(s: string)
    requires AllDigits(Unsigned(s))
    ensures '.' !in s && IsInteger(s)
  {
    var t, d := Unsigned(s), |s| - |Unsigned(s)|;
    forall i | 0 <= i < |s| ensures s[i] != '.' {
      if d <= i {
        assert s[i] == t[i - d];
      }
    }
    assert t[0] == s[d];
  }
}
