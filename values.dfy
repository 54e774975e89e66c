/** Values held in spreadsheet cells, the `%s` rendering the trace log uses,
    and decimal rendering of counters (`%d`). */
module Values {

  datatype Option<+T> = None | Some(value: T)

  datatype Result<+T, +E> = Success(value: T) | Failure(error: E)

  /** A cell value as the spreadsheet library hands it over. */
  datatype Value =
    | Empty                  // a cell without a value (Python's None)
    | Text(s: string)
    | Integer(i: int)
    | Boolean(b: bool)
    | Other(shown: string)   // a float, date or time, carried with its own `%s` rendering

  predicate IsDigit(c: char) {
    '0' <= c <= '9'
  }

  predicate AllDigits(s: string) {
    forall i :: 0 <= i < |s| ==> IsDigit(s[i])
  }

  function DigitChar(d: nat): (c: char)
    requires d < 10
    ensures IsDigit(c) && c as int - '0' as int == d
  {
    ('0' as int + d) as char
  }

  /** `%d` of a non-negative integer: its shortest decimal spelling. */
  function NatToDecimal(n: nat): (r: string)
    ensures |r| >= 1
  {
    if n < 10 then [DigitChar(n)] else NatToDecimal(n / 10) + [DigitChar(n % 10)]
  }

  /** The spelling is all digits, with a leading zero only for zero itself. */
  lemma {:induction false} NatToDecimalDigits(n: nat)
    ensures AllDigits(NatToDecimal(n))
    ensures NatToDecimal(n)[0] == '0' ==> n == 0 && |NatToDecimal(n)| == 1
  {
    if n >= 10 {
      NatToDecimalDigits(n / 10);
      assert NatToDecimal(n)[0] == NatToDecimal(n / 10)[0];
    }
  }

  function Pow10(k: nat): (p: nat)
    ensures p >= 1
  {
    if k == 0 then 1 else 10 * Pow10(k - 1)
  }

  /** The spelling of `n` fits in `k` characters exactly when `n` is below 10^k. */
  lemma {:induction false} NatToDecimalWidth(n: nat, k: nat)
    requires k >= 1
    ensures |NatToDecimal(n)| <= k <==> n < Pow10(k)
  {
    if n < 10 {
      if k > 1 {
        NatToDecimalWidth(n, k - 1);
      }
    } else if k > 1 {
      NatToDecimalWidth(n / 10, k - 1);
    }
  }

  /** The number a string of decimal digits spells. */
  function DecimalValue(s: string): nat
    requires AllDigits(s)
  {
    if s == [] then 0 else DecimalValue(s[..|s| - 1]) * 10 + (s[|s| - 1] as int - '0' as int)
  }

  lemma {:induction false} DecimalRoundTrip(n: nat)
    ensures AllDigits(NatToDecimal(n)) && DecimalValue(NatToDecimal(n)) == n
  {
    NatToDecimalDigits(n);
    if n >= 10 {
      DecimalRoundTrip(n / 10);
      var s := NatToDecimal(n);
      assert s[..|s| - 1] == NatToDecimal(n / 10);
    }
  }

  lemma {:induction false} DecimalValuePositive(s: string)
    requires |s| >= 1 && AllDigits(s) && s[0] != '0'
    ensures DecimalValue(s) > 0
  {
    if |s| > 1 {
      DecimalValuePositive(s[..|s| - 1]);
    }
  }

  /** Every canonical digit string (no leading zero) is the spelling of its value. */
  lemma {:induction false} DecimalCanonical(s: string)
    requires |s| >= 1 && AllDigits(s) && (s[0] == '0' ==> |s| == 1)
    ensures NatToDecimal(DecimalValue(s)) == s
  {
    if |s| > 1 {
      var p := s[..|s| - 1];
      DecimalValuePositive(p);
      DecimalCanonical(p);
    }
    NatToDecimalDigits(DecimalValue(s));
  }

  /** `%d` of any integer: a minus sign before negative numbers. */
  function IntToDecimal(i: int): string {
    if i < 0 then "-" + NatToDecimal(-i) else NatToDecimal(i)
  }

  /** The spelling starts with a minus sign exactly for negative numbers. */
  lemma IntToDecimalSign(i: int)
    ensures |IntToDecimal(i)| >= 1
    ensures IntToDecimal(i)[0] == '-' <==> i < 0
  {
    NatToDecimalDigits(if i < 0 then -i else i);
  }

  /** `'%s' % value` for the values the model knows how to render. */
  function ToString(v: Value): string {
    match v
    case Empty => "None"
    case Text(s) => s
    case Integer(i) => IntToDecimal(i)
    case Boolean(b) => if b then "True" else "False"
    case Other(shown) => shown
  }
}
