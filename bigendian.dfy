/** `int.from_bytes(b, "big")`: bytes read as an unsigned big-endian integer. */
module BigEndian {
  import opened ByteStrings

  function FromBytes(b: Bytes): nat
  {
    if b == [] then 0 else FromBytes(b[..|b| - 1]) * 256 + b[|b| - 1] as int
  }

  function Pow256(n: nat): nat
  {
    if n == 0 then 1 else 256 * Pow256(n - 1)
  }

  /** The shortest big-endian form of `n` (`[]` for zero). */
  function ToBytes(n: nat): (r: Bytes)
    ensures r == [] || r[0] != 0
  {
    if n == 0 then [] else ToBytes(n / 256) + [(n % 256) as byte]
  }

  /** A value read from `k` bytes is below 256 to the power `k`. */
  lemma {:induction false} FromBytesBound(b: Bytes)
    ensures FromBytes(b) < Pow256(|b|)
  {
    if b != [] {
      FromBytesBound(b[..|b| - 1]);
    }
  }

  /** Leading zero bytes do not change the value. */
  lemma {:induction false} LeadingZero(b: Bytes)
    ensures FromBytes([0 as byte] + b) == FromBytes(b)
  {
    if b != [] {
      var z := [0 as byte] + b;
      assert z[..|z| - 1] == [0 as byte] + b[..|b| - 1];
      LeadingZero(b[..|b| - 1]);
    }
  }

  /** Reading the shortest form of `n` gives `n` back. */
  lemma {:induction false} FromToBytes(n: nat)
    ensures FromBytes(ToBytes(n)) == n
  {
    if n != 0 {
      var r := ToBytes(n);
      assert r[..|r| - 1] == ToBytes(n / 256);
      FromToBytes(n / 256);
    }
  }
}
