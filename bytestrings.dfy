/** Python `bytes` values and the few operations the examples apply to them. */
module ByteStrings {

  newtype byte = x: int | 0 <= x < 256

  type Bytes = seq<byte>

  /** The bytes of an ASCII literal such as `b"content-length"`. */
  function Ascii(s: string): Bytes
  {
    seq(|s|, i requires 0 <= i < |s| => ((s[i] as int) % 256) as byte)
  }

  /** `bytes.lower()` on one byte: only A-Z change. */
  function LowerByte(b: byte): byte
  {
    if 65 <= b <= 90 then b + 32 else b
  }

  /** `bytes.lower()`. */
  function Lower(s: Bytes): (r: Bytes)
    ensures |r| == |s|
    ensures forall i :: 0 <= i < |s| ==> r[i] == LowerByte(s[i])
  {
    seq(|s|, i requires 0 <= i < |s| => LowerByte(s[i]))
  }

  /** `s.startswith(prefix)`. */
  predicate StartsWith(s: Bytes, prefix: Bytes)
  {
    |prefix| <= |s| && s[..|prefix|] == prefix
  }

  /** `b"".join(chunks)`: the payload a sequence of body chunks carries. */
  function Concat(chunks: seq<Bytes>): Bytes
  {
    if chunks == [] then [] else Concat(chunks[..|chunks| - 1]) + chunks[|chunks| - 1]
  }

  /** The sum of the lengths of the chunks. */
  function TotalLength(chunks: seq<Bytes>): nat
  {
    if chunks == [] then 0 else TotalLength(chunks[..|chunks| - 1]) + |chunks[|chunks| - 1]|
  }

  lemma {:induction false} ConcatLength(chunks: seq<Bytes>)
    ensures |Concat(chunks)| == TotalLength(chunks)
  {
    if chunks != [] {
      ConcatLength(chunks[..|chunks| - 1]);
    }
  }

  /** Growing a prefix of the chunks by one adds that chunk's length. */
  lemma TotalLengthStep(chunks: seq<Bytes>, i: nat)
    requires i < |chunks|
    ensures TotalLength(chunks[..i + 1]) == TotalLength(chunks[..i]) + |chunks[i]|
  {
    assert chunks[..i + 1][..i] == chunks[..i];
  }

  /** Growing a prefix of the chunks by one appends that chunk to the payload. */
  lemma ConcatStep(chunks: seq<Bytes>, i: nat)
    requires i < |chunks|
    ensures Concat(chunks[..i + 1]) == Concat(chunks[..i]) + chunks[i]
  {
    assert chunks[..i + 1][..i] == chunks[..i];
  }

  /** The total length of a longer prefix is never smaller. */
  lemma {:induction false} TotalLengthMonotone(chunks: seq<Bytes>, i: nat, j: nat)
    requires i <= j <= |chunks|
    ensures TotalLength(chunks[..i]) <= TotalLength(chunks[..j])
    decreases j - i
  {
    if i < j {
      TotalLengthMonotone(chunks, i, j - 1);
      TotalLengthStep(chunks, j - 1);
    }
  }
}
