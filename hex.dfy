/** `bytes.hex()` and `bytes.fromhex()`. */
module Hex {
  import opened ByteStrings
  import opened Results

  /** The lower-case hexadecimal digit for a value below 16. */
  function HexDigit(v: int): char
    requires 0 <= v < 16
  {
    if v < 10 then ('0' as int + v) as char else ('a' as int + v - 10) as char
  }

  /** The value of a hexadecimal digit in either case. */
  function DigitValue(c: char): Option<int>
  {
    if '0' <= c <= '9' then Some(c as int - '0' as int)
    else if 'a' <= c <= 'f' then Some(c as int - 'a' as int + 10)
    else if 'A' <= c <= 'F' then Some(c as int - 'A' as int + 10)
    else None
  }

  predicate IsHexDigit(c: char) { DigitValue(c).Some? }

  /** `b.hex()`: two lower-case digits per byte, high nibble first. */
  function ToHex(b: Bytes): (r: string)
    ensures |r| == 2 * |b|
    ensures forall i :: 0 <= i < |r| ==> IsHexDigit(r[i])
  {
    if b == [] then [] else [HexDigit(b[0] as int / 16), HexDigit(b[0] as int % 16)] + ToHex(b[1..])
  }

  /** `bytes.fromhex(s)`; `None` stands for the `ValueError` on odd length or a non-digit. */
  function FromHex(s: string): (r: Option<Bytes>)
    ensures r.Some? ==> 2 * |r.value| == |s|
    ensures |s| % 2 == 1 ==> r.None?
  {
    if s == [] then Some([])
    else if |s| == 1 then None
    else match (DigitValue(s[0]), DigitValue(s[1]), FromHex(s[2..]))
      case (Some(hi), Some(lo), Some(rest)) => Some([(hi * 16 + lo) as byte] + rest)
      case _ => None
  }

  /** Parsing the hex form of some bytes gives the bytes back. */
  lemma {:induction false} FromHexToHex(b: Bytes)
    ensures FromHex(ToHex(b)) == Some(b)
  {
    if b != [] {
      var h := ToHex(b);
      assert h[2..] == ToHex(b[1..]);
      FromHexToHex(b[1..]);
      assert (b[0] as int / 16) * 16 + b[0] as int % 16 == b[0] as int;
      assert [b[0]] + b[1..] == b;
    }
  }

  /** Distinct byte strings have distinct hex forms. */
  lemma ToHexInjective(a: Bytes, b: Bytes)
    requires ToHex(a) == ToHex(b)
    ensures a == b
  {
    FromHexToHex(a);
    FromHexToHex(b);
  }
}
