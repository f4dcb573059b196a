/**
 * The Python numeric built-ins the core relies on, over exact `real`s:
 * `float(str)` for decimal literals, `abs`, and `round(x, n)`.
 */
module PyNum {
  import opened Options
  import opened PyStr

  function Pow10(n: nat): (r: nat)
    ensures r >= 1
  {
    if n == 0 then 1 else 10 * Pow10(n - 1)
  }

  predicate AllDigits(s: string) {
    forall i | 0 <= i < |s| :: IsDigit(s[i])
  }

  /** The value of a string of decimal digits, most significant first ("" is 0). */
  function DigitsValue(s: string): (r: nat)
    requires AllDigits(s)
  {
    if |s| == 0 then 0
    else DigitsValue(s[..|s| - 1]) * 10 + (s[|s| - 1] as int - '0' as int)
  }

  /** n digits hold a value below 10^n. */
  lemma {:induction false} DigitsValueBound(s: string)
    requires AllDigits(s)
    ensures DigitsValue(s) < Pow10(|s|)
  {
    if |s| > 0 {
      DigitsValueBound(s[..|s| - 1]);
    }
  }

  /** The index of the first occurrence of `c` in `s`, if any. */
  function IndexOf(s: string, c: char): (r: Option<nat>)
    ensures r.Some? ==> r.value < |s|
  {
    if |s| == 0 then None
    else if s[0] == c then Some(0)
    else match IndexOf(s[1..], c)
      case None => None
      case Some(k) => Some(k + 1)
  }

  /** IndexOf finds the first occurrence, and finds none exactly when `c` does not occur. */
  lemma {:induction false} IndexOfFirst(s: string, c: char)
    ensures IndexOf(s, c).None? <==> c !in s
    ensures IndexOf(s, c).Some? ==> s[IndexOf(s, c).value] == c && c !in s[..IndexOf(s, c).value]
  {
    if |s| > 0 && s[0] != c {
      IndexOfFirst(s[1..], c);
      if IndexOf(s[1..], c).Some? {
        var k := IndexOf(s[1..], c).value;
        assert s[..k + 1] == [s[0]] + s[1..][..k];
      }
      assert s == [s[0]] + s[1..];
    }
  }

  /**
   * An unsigned decimal literal: digits, optionally one '.', at least one digit
   * in all ("12", "12.", ".5", "12.50"). Anything else is rejected.
   */
  function ParseUnsignedDecimal(t: string): (r: Option<real>)
    ensures r.Some? ==> r.value >= 0.0
  {
    var dot := IndexOf(t, '.');
    var k := if dot.Some? then dot.value else |t|;
    var whole, frac := t[..k], if dot.Some? then t[k + 1..] else "";
    if AllDigits(whole) && AllDigits(frac) && |whole| + |frac| > 0 then
      Some(DigitsValue(whole) as real + DigitsValue(frac) as real / Pow10(|frac|) as real)
    else None
  }

  lemma QuotientBelowOne(a: real, b: real)
    requires 0.0 <= a < b
    ensures 0.0 <= a / b < 1.0
  {
  }

  /** The digits after the point contribute less than one. */
  lemma FractionBelowOne(frac: string)
    requires AllDigits(frac)
    ensures 0.0 <= DigitsValue(frac) as real / Pow10(|frac|) as real < 1.0
  {
    DigitsValueBound(frac);
    QuotientBelowOne(DigitsValue(frac) as real, Pow10(|frac|) as real);
  }

  /**
   * The digits before the point are the integer part of the value: an accepted
   * literal reads as its whole part plus a fraction below one.
   */
  lemma ParseUnsignedDecimalWholePart(t: string, k: nat)
    requires ParseUnsignedDecimal(t).Some?
    requires k <= |t| && '.' !in t[..k] && (k == |t| || t[k] == '.')
    ensures AllDigits(t[..k])
    ensures ParseUnsignedDecimal(t).value.Floor == DigitsValue(t[..k])
  {
    IndexOfFirst(t, '.');
    var dot := IndexOf(t, '.');
    if dot.Some? {
      assert forall j | 0 <= j < dot.value :: t[..dot.value][j] == t[j];
      assert forall j | 0 <= j < k :: t[..k][j] == t[j];
      assert k == dot.value;
      FractionBelowOne(t[k + 1..]);
    } else {
      assert t[..k] == t;
    }
  }

  /** Only digits and '.' occur in an accepted unsigned decimal literal. */
  lemma UnsignedDecimalChars(t: string, i: nat)
    requires ParseUnsignedDecimal(t).Some? && i < |t|
    ensures |t| > 0 && (IsDigit(t[i]) || t[i] == '.')
  {
    var dot := IndexOf(t, '.');
    IndexOfFirst(t, '.');
    if dot.None? {
      assert t[..|t|][i] == t[i];
    } else if i < dot.value {
      assert t[..dot.value][i] == t[i];
    } else if i > dot.value {
      var frac := t[dot.value + 1..];
      assert t[i] == frac[i - dot.value - 1];
    }
  }

  /** A leading sign: whether it is '-', and the text after it. */
  function SplitSign(t: string): (bool, string) {
    if |t| > 0 && t[0] == '-' then (true, t[1..])
    else if |t| > 0 && t[0] == '+' then (false, t[1..])
    else (false, t)
  }

  /**
   * float(s) for a decimal literal: surrounding whitespace is ignored and one
   * leading '+' or '-' is allowed; None stands for the ValueError float() raises.
   */
  function ParseFloat(s: string): (r: Option<real>)
  {
    var (negative, digits) := SplitSign(Strip(s));
    match ParseUnsignedDecimal(digits)
    case Some(v) => Some(if negative then -v else v)
    case None => None
  }

  /** A character that cannot occur in a decimal literal makes float() fail, unless it is whitespace at either end. */
  lemma ParseFloatRejects(s: string, i: nat)
    requires i < |s| && !IsSpace(s[i])
    requires !IsDigit(s[i]) && s[i] !in {'.', '+', '-'}
    ensures ParseFloat(s) == None
  {
    var x := s[i];
    StripKeeps(s, i);
    var t := Strip(s);
    var digits := SplitSign(t).1;
    var k :| 0 <= k < |t| && t[k] == x;
    if digits != t {
      assert k > 0 && digits[k - 1] == x;
    }
    var j :| 0 <= j < |digits| && digits[j] == x;
    if ParseUnsignedDecimal(digits).Some? {
      UnsignedDecimalChars(digits, j);
    }
  }

  /** Without a '-' in the text, float() yields no negative value. */
  lemma ParseFloatNonNegative(s: string)
    requires '-' !in s
    ensures ParseFloat(s).Some? ==> ParseFloat(s).value >= 0.0
  {
    var t := Strip(s);
    if |t| > 0 && t[0] == '-' {
      StripSubset(s, '-');
    }
  }

  /** float() ignores surrounding whitespace: stripping first changes nothing. */
  lemma ParseFloatStrip(s: string)
    ensures ParseFloat(Strip(s)) == ParseFloat(s)
  {
    StripIdempotent(s);
  }

  /** abs(x) */
  function Abs(x: real): (r: real)
    ensures r >= 0.0 && (r == x || r == -x)
  {
    if x < 0.0 then -x else x
  }

  /**
   * round(x, places): the multiple of 10^-places nearest to `x`, a tie going to
   * the even multiple.
   */
  function Round(x: real, places: nat): (r: real)
    ensures -0.5 / Pow10(places) as real <= r - x <= 0.5 / Pow10(places) as real
  {
    var scale := Pow10(places) as real;
    var y := x * scale;
    var f := y.Floor;
    var d := y - f as real;
    var n := if d > 0.5 then f + 1 else if d < 0.5 then f else if f % 2 == 0 then f else f + 1;
    RoundError(x, scale, n as real);
    n as real / scale
  }

  lemma RoundError(x: real, scale: real, n: real)
    requires scale >= 1.0 && -0.5 <= n - x * scale <= 0.5
    ensures -0.5 / scale <= n / scale - x <= 0.5 / scale
  {
    var e := n - x * scale;
    assert n / scale - x == e / scale;
    assert e / scale <= 0.5 / scale by {
      assert (0.5 - e) / scale >= 0.0;
    }
    assert -0.5 / scale <= e / scale by {
      assert (e + 0.5) / scale >= 0.0;
    }
  }
}
