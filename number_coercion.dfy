/**
 * JavaScript's string-to-number conversion, as `value * 1` applies it to a
 * query parameter in `APIFeatures.paginate`, restricted to integers: NaN is
 * `None`.
 */
module NumberCoercion {
  import opened Wrappers

  predicate IsDigit(c: char) {
    '0' <= c <= '9'
  }

  predicate AllDigits(s: string) {
    forall i :: 0 <= i < |s| ==> IsDigit(s[i])
  }

  /** The value of a decimal numeral, most significant digit first. */
  function DigitsValue(d: string): nat
    requires AllDigits(d)
    decreases |d|
  {
    if d == [] then 0
    else DigitsValue(d[..|d| - 1]) * 10 + (d[|d| - 1] as int - '0' as int)
  }

  /** The decimal numeral of `n`, without leading zeros. */
  function ShowNat(n: nat): (s: string)
    ensures |s| >= 1 && AllDigits(s)
    decreases n
  {
    if n < 10 then [('0' as int + n) as char]
    else ShowNat(n / 10) + [('0' as int + n % 10) as char]
  }

  /** The decimal numeral of `n`, with a leading `-` when it is negative. */
  function ShowInt(n: int): string {
    if n < 0 then "-" + ShowNat(-n) else ShowNat(n)
  }

  /**
   * `Number(s)` on the integer forms: the empty string is 0; an optional `+`
   * or `-` followed by at least one decimal digit is that integer; anything
   * else is NaN.
   */
  function StringToNumber(s: string): Option<int> {
    if s == [] then Some(0)
    else if (s[0] == '-' || s[0] == '+') && |s| > 1 && AllDigits(s[1..]) then
      var magnitude: int := DigitsValue(s[1..]);
      Some(if s[0] == '-' then -magnitude else magnitude)
    else if AllDigits(s) then Some(DigitsValue(s))
    else None
  }

  lemma {:induction false} DigitsValueShowNat(n: nat)
    ensures DigitsValue(ShowNat(n)) == n
    decreases n
  {
    if n >= 10 {
      var d := ShowNat(n);
      DigitsValueShowNat(n / 10);
      assert d[..|d| - 1] == ShowNat(n / 10);
    }
  }

  /** Reading back the numeral of any integer gives that integer. */
  lemma StringToNumberShowInt(n: int)
    ensures StringToNumber(ShowInt(n)) == Some(n)
  {
    if n < 0 {
      var d := ShowNat(-n);
      DigitsValueShowNat(-n);
      assert ShowInt(n) == "-" + d;
      assert ("-" + d)[0] == '-' && ("-" + d)[1..] == d;
    } else {
      var d := ShowNat(n);
      DigitsValueShowNat(n);
      assert IsDigit(d[0]);
    }
  }

  /** A string holding a character that is neither a digit nor a sign is NaN. */
  lemma StringToNumberNaN(s: string, i: nat)
    requires i < |s| && !IsDigit(s[i]) && s[i] != '-' && s[i] != '+'
    ensures StringToNumber(s) == None
  {
    if |s| > 1 && i > 0 {
      assert s[1..][i - 1] == s[i];
    }
  }
}
