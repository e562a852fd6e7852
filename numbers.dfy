/**
 * JavaScript numbers as the parser uses them: the values `parseFloat` and
 * `parseInt` read from captured digit strings (with NaN kept explicit),
 * `Math.round`, and the digit strings `toFixed` writes.
 */
module Numbers {
  import opened Text

  /** A number produced by the parser: a finite value, or NaN when `parseFloat` finds no number. */
  datatype Num = Value(v: real) | NaN

  /** The characters of the `[\d.]` class. */
  predicate IsNumChar(c: char)
  {
    IsDigit(c) || c == '.'
  }

  predicate AllDigits(s: string)
  {
    forall i :: 0 <= i < |s| ==> IsDigit(s[i])
  }

  function DigitValue(c: char): nat
    requires IsDigit(c)
  {
    c as int - '0' as int
  }

  function DigitChar(d: nat): (c: char)
    requires d < 10
    ensures IsDigit(c) && DigitValue(c) == d
  {
    ('0' as int + d) as char
  }

  /** The value of a decimal digit string. */
  function DigitsValue(ds: string): nat
    requires AllDigits(ds)
  {
    if ds == [] then 0 else DigitsValue(ds[..|ds| - 1]) * 10 + DigitValue(ds[|ds| - 1])
  }

  function Pow10(n: nat): (r: nat)
    ensures r >= 1
  {
    if n == 0 then 1 else 10 * Pow10(n - 1)
  }

  /** The end of the run of decimal digits that starts at `i`. */
  function DigitRun(s: string, i: nat): (j: nat)
    requires i <= |s|
    ensures i <= j <= |s|
    ensures AllDigits(s[i..j])
    ensures j < |s| ==> !IsDigit(s[j])
    decreases |s| - i
  {
    if i < |s| && IsDigit(s[i]) then DigitRun(s, i + 1) else i
  }

  /** Whether `parseFloat` finds a number at the front of `s`: a digit, or a dot followed by a digit. */
  predicate StartsNumber(s: string)
  {
    (|s| > 0 && IsDigit(s[0])) || (|s| > 1 && s[0] == '.' && IsDigit(s[1]))
  }

  /**
   * `parseFloat` on the strings the parser captures (digits and dots): the
   * value of the longest prefix of the form `digits[.digits]` or `.digits`,
   * and NaN when there is none, as for a lone ".".
   */
  function ParseFloat(s: string): (r: Num)
    ensures r.NaN? <==> !StartsNumber(s)
    ensures r.Value? ==> r.v >= 0.0
  {
    var i := DigitRun(s, 0);
    if !StartsNumber(s) then NaN
    else
      var whole := DigitsValue(s[..i]) as real;
      if i < |s| && s[i] == '.' then
        var j := DigitRun(s, i + 1);
        Value(whole + DigitsValue(s[i + 1..j]) as real / Pow10(j - i - 1) as real)
      else
        Value(whole)
  }

  /** `parseInt(s, 10)` on a captured digit string: the value of its leading digits. */
  function ParseInt(s: string): (r: Num)
    ensures r.NaN? <==> !(|s| > 0 && IsDigit(s[0]))
    ensures r.Value? ==> r.v >= 0.0 && r.v == r.v.Floor as real
  {
    var i := DigitRun(s, 0);
    if i == 0 then NaN else Value(DigitsValue(s[..i]) as real)
  }

  /** The decimal digits of `n`, without leading zeros. */
  function NatToString(n: nat): (s: string)
    ensures |s| > 0 && AllDigits(s)
  {
    if n < 10 then [DigitChar(n)] else NatToString(n / 10) + [DigitChar(n % 10)]
  }

  lemma {:induction false} NatToStringValue(n: nat)
    ensures DigitsValue(NatToString(n)) == n
  {
    var s := NatToString(n);
    if n >= 10 {
      assert s[..|s| - 1] == NatToString(n / 10);
      NatToStringValue(n / 10);
    } else {
      assert s[..|s| - 1] == [];
    }
  }

  lemma DigitRunAll(s: string, i: nat)
    requires i <= |s| && AllDigits(s[i..])
    ensures DigitRun(s, i) == |s|
    decreases |s| - i
  {
    if i < |s| {
      assert s[i] == s[i..][0];
      var t, u := s[i..], s[i + 1..];
      assert AllDigits(u) by {
        forall k | 0 <= k < |u| ensures IsDigit(u[k]) {
          assert u[k] == t[k + 1];
        }
      }
      DigitRunAll(s, i + 1);
    }
  }

  /** Reading back the digits written for a whole number gives that number. */
  lemma ParseFloatOfNat(n: nat)
    ensures ParseFloat(NatToString(n)) == Value(n as real)
    ensures ParseInt(NatToString(n)) == Value(n as real)
  {
    var s := NatToString(n);
    DigitRunAll(s, 0);
    assert s[..|s|] == s;
    NatToStringValue(n);
  }

  /** The digits `toFixed(1)` writes for a non-negative number that rounds to `tenths` tenths. */
  function TenthsToString(tenths: nat): (s: string)
    ensures |s| >= 3
  {
    NatToString(tenths / 10) + "." + [DigitChar(tenths % 10)]
  }

  /** Reading back a one-decimal rendering gives the number of tenths it was written from. */
  lemma ParseFloatOfTenths(tenths: nat)
    ensures ParseFloat(TenthsToString(tenths)) == Value(tenths as real / 10.0)
  {
    var w := NatToString(tenths / 10);
    var s := TenthsToString(tenths);
    assert s[..|w|] == w;
    assert AllDigits(s[..|w|]);
    DigitRunAll(s[..|w|], 0);
    assert DigitRun(s, 0) == |w| by {
      DigitRunPrefix(s, |w|, 0);
    }
    NatToStringValue(tenths / 10);
    assert s[|w|] == '.';
    assert s[|w| + 1..] == [DigitChar(tenths % 10)];
    DigitRunAll(s, |w| + 1);
    assert s[|w| + 1..|s|] == [DigitChar(tenths % 10)];
    assert DigitsValue([DigitChar(tenths % 10)]) == tenths % 10;
    assert Pow10(1) == 10;
  }

  /** A digit run inside a prefix that is all digits ends where the prefix ends if the next character is not a digit. */
  lemma DigitRunPrefix(s: string, k: nat, i: nat)
    requires i <= k < |s| && AllDigits(s[i..k]) && !IsDigit(s[k])
    ensures DigitRun(s, i) == k
    decreases k - i
  {
    if i < k {
      assert s[i] == s[i..k][0];
      var t, u := s[i..k], s[i + 1..k];
      assert AllDigits(u) by {
        forall m | 0 <= m < |u| ensures IsDigit(u[m]) {
          assert u[m] == t[m + 1];
        }
      }
      DigitRunPrefix(s, k, i + 1);
    }
  }

  /** `Math.round`: the nearest integer, halves rounded up. */
  function Round(x: real): (r: int)
    ensures x - 0.5 < r as real <= x + 0.5
  {
    (x + 0.5).Floor
  }

  lemma RoundMonotone(x: real, y: real)
    requires x <= y
    ensures Round(x) <= Round(y)
  {
  }

  /** `n > 0`; false for NaN. */
  predicate IsPositive(n: Num)
  {
    n.Value? && n.v > 0.0
  }

  /** `a > b`, the test `b - a < 0` behind a descending sort; false whenever NaN is involved. */
  predicate Greater(a: Num, b: Num)
  {
    a.Value? && b.Value? && a.v > b.v
  }

  /** Multiplication by a unit factor; NaN stays NaN. */
  function Scale(n: Num, factor: real): (r: Num)
    ensures r.NaN? <==> n.NaN?
    ensures n.Value? ==> r.v == n.v * factor
  {
    match n
    case Value(v) => Value(v * factor)
    case NaN => NaN
  }
}
