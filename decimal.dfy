/** Python's `int()` applied to a `bytes` value holding a decimal number. */
module Decimal {
  import opened ByteStrings
  import opened Results

  predicate IsDigit(b: byte) { 48 <= b <= 57 }

  predicate AllDigits(s: Bytes) { forall i :: 0 <= i < |s| ==> IsDigit(s[i]) }

  /** The value of a run of ASCII digits, most significant first. */
  function DigitsValue(s: Bytes): nat
    requires AllDigits(s)
  {
    if s == [] then 0 else DigitsValue(s[..|s| - 1]) * 10 + (s[|s| - 1] - 48) as int
  }

  /** The texts `int()` accepts here: an optional `+` or `-`, then at least one digit. */
  predicate IsIntText(s: Bytes)
  {
    if |s| > 0 && (s[0] == 43 || s[0] == 45) then |s| > 1 && AllDigits(s[1..])
    else |s| > 0 && AllDigits(s)
  }

  /** `int(s)`; `None` stands for the `ValueError` it raises on anything else. */
  function ParseInt(s: Bytes): (r: Option<int>)
    ensures r.Some? <==> IsIntText(s)
    ensures r.Some? && s[0] == 45 ==> r.value <= 0
    ensures r.Some? && s[0] != 45 ==> r.value >= 0
  {
    if |s| > 0 && (s[0] == 43 || s[0] == 45) then
      if |s| > 1 && AllDigits(s[1..]) then
        Some(if s[0] == 45 then -(DigitsValue(s[1..]) as int) else DigitsValue(s[1..]) as int)
      else None
    else if |s| > 0 && AllDigits(s) then Some(DigitsValue(s))
    else None
  }

  /** `str(n).encode()`: the decimal digits of `n` without leading zeros. */
  function ShowNat(n: nat): (r: Bytes)
    ensures |r| > 0 && AllDigits(r)
    ensures r[0] == 48 ==> n == 0
  {
    if n < 10 then [(48 + n) as byte] else ShowNat(n / 10) + [(48 + n % 10) as byte]
  }

  lemma {:induction false} DigitsValueShowNat(n: nat)
    ensures DigitsValue(ShowNat(n)) == n
  {
    if n >= 10 {
      var s := ShowNat(n);
      assert s[..|s| - 1] == ShowNat(n / 10);
      DigitsValueShowNat(n / 10);
    }
  }

  /** Parsing the decimal text of a natural number gives the number back. */
  lemma ParseShowNat(n: nat)
    ensures ParseInt(ShowNat(n)) == Some(n)
  {
    DigitsValueShowNat(n);
  }

  /** A leading `-` negates the value. */
  lemma ParseShowNegative(n: nat)
    ensures ParseInt([45] + ShowNat(n)) == Some(-(n as int))
  {
    var s := [45 as byte] + ShowNat(n);
    assert s[1..] == ShowNat(n);
    DigitsValueShowNat(n);
  }

  /** Leading zeros do not change the value. */
  lemma {:induction false} LeadingZero(s: Bytes)
    requires AllDigits(s)
    ensures AllDigits([48 as byte] + s) && DigitsValue([48 as byte] + s) == DigitsValue(s)
  {
    var t := [48 as byte] + s;
    if s != [] {
      assert t[..|t| - 1] == [48 as byte] + s[..|s| - 1];
      LeadingZero(s[..|s| - 1]);
    }
  }
}
