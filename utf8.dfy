/**
 * Python's strict UTF-8 codec: `str.encode("utf-8")` and `bytes.decode()`.
 * A Dafny `char` is a Unicode scalar value, so encoding never fails here.
 */
module Utf8 {
  import opened ByteStrings
  import opened Results

  predicate IsContinuation(b: byte) { 0x80 <= b <= 0xBF }

  /** The one to four bytes that encode one scalar value. */
  function EncodeChar(c: char): (r: Bytes)
    ensures 1 <= |r| <= 4
  {
    var cp := c as int;
    if cp < 0x80 then [cp as byte]
    else if cp < 0x800 then [(0xC0 + cp / 64) as byte, (0x80 + cp % 64) as byte]
    else if cp < 0x10000 then
      [(0xE0 + cp / 4096) as byte, (0x80 + (cp / 64) % 64) as byte, (0x80 + cp % 64) as byte]
    else
      [(0xF0 + cp / 262144) as byte, (0x80 + (cp / 4096) % 64) as byte,
       (0x80 + (cp / 64) % 64) as byte, (0x80 + cp % 64) as byte]
  }

  /** `s.encode("utf-8")`. */
  function Encode(s: string): Bytes
  {
    if s == [] then [] else EncodeChar(s[0]) + Encode(s[1..])
  }

  /**
   * The scalar value at the start of `b` and the number of bytes it takes, or `None`
   * when the bytes there are not well-formed UTF-8 (a stray continuation byte, a
   * truncated sequence, an overlong form, a surrogate, or a value above U+10FFFF).
   */
  function DecodeFirst(b: Bytes): (r: Option<(char, nat)>)
    requires |b| > 0
    ensures r.Some? ==> 1 <= r.value.1 <= |b|
  {
    var b0 := b[0] as int;
    if b0 < 0x80 then Some((b0 as char, 1))
    else if 0xC2 <= b0 <= 0xDF then
      if 2 <= |b| && IsContinuation(b[1]) then
        Some((((b0 - 0xC0) * 64 + (b[1] as int - 0x80)) as char, 2))
      else None
    else if 0xE0 <= b0 <= 0xEF then
      if 3 <= |b| && IsContinuation(b[1]) && IsContinuation(b[2]) then
        var cp := (b0 - 0xE0) * 4096 + (b[1] as int - 0x80) * 64 + (b[2] as int - 0x80);
        if cp < 0x800 || 0xD800 <= cp < 0xE000 then None else Some((cp as char, 3))
      else None
    else if 0xF0 <= b0 <= 0xF4 then
      if 4 <= |b| && IsContinuation(b[1]) && IsContinuation(b[2]) && IsContinuation(b[3]) then
        var cp := (b0 - 0xF0) * 262144 + (b[1] as int - 0x80) * 4096
                  + (b[2] as int - 0x80) * 64 + (b[3] as int - 0x80);
        if cp < 0x10000 || cp > 0x10FFFF then None else Some((cp as char, 4))
      else None
    else None
  }

  /** `b.decode()`; `None` stands for the `UnicodeDecodeError` it raises. */
  function Decode(b: Bytes): Option<string>
    decreases |b|
  {
    if b == [] then Some([])
    else match DecodeFirst(b)
      case None => None
      case Some((c, n)) =>
        match Decode(b[n..])
        case None => None
        case Some(rest) => Some([c] + rest)
  }

  lemma DecodeFirstEncodeChar(c: char, rest: Bytes)
    ensures DecodeFirst(EncodeChar(c) + rest) == Some((c, |EncodeChar(c)|))
  {
    var cp := c as int;
    if cp < 0x80 {
    } else if cp < 0x800 {
      EncodeTwo(c, rest);
    } else if cp < 0x10000 {
      EncodeThree(c, rest);
    } else {
      EncodeFour(c, rest);
    }
  }

  lemma EncodeTwo(c: char, rest: Bytes)
    requires 0x80 <= c as int < 0x800
    ensures DecodeFirst(EncodeChar(c) + rest) == Some((c, 2))
  {
    var cp := c as int;
    assert (cp / 64) * 64 + cp % 64 == cp;
  }

  lemma EncodeThree(c: char, rest: Bytes)
    requires 0x800 <= c as int < 0x10000
    ensures DecodeFirst(EncodeChar(c) + rest) == Some((c, 3))
  {
    var cp := c as int;
    var b := EncodeChar(c) + rest;
    assert cp / 64 == (cp / 4096) * 64 + (cp / 64) % 64;
    assert (cp / 64) * 64 + cp % 64 == cp;
    assert (b[0] as int - 0xE0) * 4096 + (b[1] as int - 0x80) * 64 + (b[2] as int - 0x80) == cp;
  }

  lemma EncodeFour(c: char, rest: Bytes)
    requires 0x10000 <= c as int
    ensures DecodeFirst(EncodeChar(c) + rest) == Some((c, 4))
  {
    var cp := c as int;
    var b := EncodeChar(c) + rest;
    assert cp / 4096 == (cp / 262144) * 64 + (cp / 4096) % 64;
    assert cp / 64 == (cp / 4096) * 64 + (cp / 64) % 64;
    assert (cp / 64) * 64 + cp % 64 == cp;
    assert (b[0] as int - 0xF0) * 262144 + (b[1] as int - 0x80) * 4096
           + (b[2] as int - 0x80) * 64 + (b[3] as int - 0x80) == cp;
  }

  /** How `Decode` proceeds on a non-empty input. */
  lemma DecodeUnfold(b: Bytes)
    requires |b| > 0
    ensures DecodeFirst(b).None? ==> Decode(b).None?
    ensures DecodeFirst(b).Some? ==>
      var n := DecodeFirst(b).value.1;
      Decode(b) == if Decode(b[n..]).None? then None
                   else Some([DecodeFirst(b).value.0] + Decode(b[n..]).value)
  {
  }

  /** Decoding what was encoded gives the text back. */
  lemma {:induction false} DecodeEncode(s: string)
    ensures Decode(Encode(s)) == Some(s)
  {
    if s != [] {
      var e := Encode(s);
      var head := EncodeChar(s[0]);
      assert e == head + Encode(s[1..]);
      DecodeFirstEncodeChar(s[0], Encode(s[1..]));
      assert e[|head|..] == Encode(s[1..]);
      DecodeEncode(s[1..]);
      DecodeUnfold(e);
      assert [s[0]] + s[1..] == s;
    }
  }

  /** Division by 64 undoes appending a six-bit group. */
  lemma SixBits(q: int, r: int)
    requires 0 <= q && 0 <= r < 64
    ensures (q * 64 + r) / 64 == q && (q * 64 + r) % 64 == r
  {
  }

  lemma DecodeFirstExact(b: Bytes)
    requires |b| > 0 && DecodeFirst(b).Some?
    ensures EncodeChar(DecodeFirst(b).value.0) == b[..DecodeFirst(b).value.1]
  {
    var b0 := b[0] as int;
    if b0 < 0x80 {
    } else if b0 <= 0xDF {
      ExactTwo(b);
    } else if b0 <= 0xEF {
      ExactThree(b);
    } else {
      ExactFour(b);
    }
  }

  lemma ExactTwo(b: Bytes)
    requires |b| > 0 && DecodeFirst(b).Some? && 0xC2 <= b[0] <= 0xDF
    ensures EncodeChar(DecodeFirst(b).value.0) == b[..2]
  {
    SixBits(b[0] as int - 0xC0, b[1] as int - 0x80);
  }

  lemma ExactThree(b: Bytes)
    requires |b| > 0 && DecodeFirst(b).Some? && 0xE0 <= b[0] <= 0xEF
    ensures EncodeChar(DecodeFirst(b).value.0) == b[..3]
  {
    var x, y, z := b[0] as int - 0xE0, b[1] as int - 0x80, b[2] as int - 0x80;
    var cp := (x * 64 + y) * 64 + z;
    assert cp == x * 4096 + y * 64 + z;
    SixBits(x * 64 + y, z);
    SixBits(x, y);
    assert cp / 4096 == (cp / 64) / 64;
  }

  lemma ExactFour(b: Bytes)
    requires |b| > 0 && DecodeFirst(b).Some? && 0xF0 <= b[0] <= 0xF4
    ensures EncodeChar(DecodeFirst(b).value.0) == b[..4]
  {
    var w, x, y, z := b[0] as int - 0xF0, b[1] as int - 0x80, b[2] as int - 0x80, b[3] as int - 0x80;
    var cp := ((w * 64 + x) * 64 + y) * 64 + z;
    assert cp == w * 262144 + x * 4096 + y * 64 + z;
    SixBits((w * 64 + x) * 64 + y, z);
    SixBits(w * 64 + x, y);
    SixBits(w, x);
    assert cp / 4096 == (cp / 64) / 64;
    assert cp / 262144 == ((cp / 64) / 64) / 64;
  }

  /** Whatever decodes re-encodes to exactly the same bytes: the codec is a bijection. */
  lemma {:induction false} EncodeDecode(b: Bytes)
    requires Decode(b).Some?
    ensures Encode(Decode(b).value) == b
    decreases |b|
  {
    if b != [] {
      DecodeUnfold(b);
      var c := DecodeFirst(b).value.0;
      var n := DecodeFirst(b).value.1;
      var rest := Decode(b[n..]).value;
      DecodeFirstExact(b);
      EncodeDecode(b[n..]);
      var s := [c] + rest;
      assert s[0] == c && s[1..] == rest;
      assert Encode(s) == EncodeChar(c) + Encode(rest);
      assert b == b[..n] + b[n..];
    }
  }

  /** An ASCII text encodes to one byte per character, equal to its code. */
  lemma {:induction false} EncodeAscii(s: string)
    requires forall i :: 0 <= i < |s| ==> s[i] as int < 0x80
    ensures Encode(s) == Ascii(s)
  {
    if s != [] {
      EncodeAscii(s[1..]);
    }
  }
}
