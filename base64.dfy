/**
 * `base64.urlsafe_b64decode`: the URL-safe alphabet of section 5 of RFC 4648 is mapped
 * onto the standard one and the result goes through CPython's non-strict base64
 * decoder, a small state machine over the input bytes.
 */
module Base64 {
  import opened ByteStrings
  import opened Results

  const PAD: byte := 61

  /** The value of an alphabet character (`-` and `+` both 62, `_` and `/` both 63), else -1. */
  function Sextet(c: byte): int
  {
    if 65 <= c <= 90 then c as int - 65
    else if 97 <= c <= 122 then c as int - 71
    else if 48 <= c <= 57 then c as int + 4
    else if c == 43 || c == 45 then 62
    else if c == 47 || c == 95 then 63
    else -1
  }

  /** The decoder's state: position in the current quad, leftover bits, pads seen, output. */
  datatype State = State(quadPos: nat, leftChar: int, pads: nat, out: Bytes)

  function Init(out: Bytes): State { State(0, 0, 0, out) }

  /** Consuming one alphabet character. */
  function Step(st: State, v: int): State
    requires 0 <= v < 64
  {
    if st.quadPos == 0 then State(1, v, 0, st.out)
    else if st.quadPos == 1 then State(2, v % 16, 0, st.out + [((st.leftChar * 4 + v / 16) % 256) as byte])
    else if st.quadPos == 2 then State(3, v % 4, 0, st.out + [((st.leftChar * 16 + v / 4) % 256) as byte])
    else State(0, 0, 0, st.out + [((st.leftChar * 64 + v) % 256) as byte])
  }

  /**
   * The decoder loop. A pad that completes a quad ends decoding; other pads and every
   * byte outside the alphabet are skipped; input that ends inside a quad is an error.
   */
  function A2b(s: Bytes, st: State): Option<Bytes>
    decreases |s|
  {
    if s == [] then (if st.quadPos == 0 then Some(st.out) else None)
    else if s[0] == PAD then
      if st.quadPos >= 2 && st.quadPos + st.pads + 1 >= 4 then Some(st.out)
      else A2b(s[1..], if st.quadPos >= 2 then st.(pads := st.pads + 1) else st)
    else if Sextet(s[0]) < 0 then A2b(s[1..], st)
    else A2b(s[1..], Step(st, Sextet(s[0])))
  }

  /** `base64.urlsafe_b64decode(s)`; `None` stands for the `binascii.Error` it raises. */
  function UrlSafeDecode(s: Bytes): Option<Bytes>
  {
    A2b(s, Init([]))
  }

  /** The URL-safe alphabet character for a six-bit value. */
  function UrlChar(v: int): (c: byte)
    requires 0 <= v < 64
    ensures Sextet(c) == v
  {
    if v < 26 then (v + 65) as byte
    else if v < 52 then (v + 71) as byte
    else if v < 62 then (v - 4) as byte
    else if v == 62 then 45
    else 95
  }

  /** The four characters of three bytes. */
  function Quad(x: byte, y: byte, z: byte): Bytes
  {
    [UrlChar(x as int / 4), UrlChar(x as int % 4 * 16 + y as int / 16),
     UrlChar(y as int % 16 * 4 + z as int / 64), UrlChar(z as int % 64)]
  }

  /** The two characters of a one-byte tail. */
  function Duo(x: byte): Bytes
  {
    [UrlChar(x as int / 4), UrlChar(x as int % 4 * 16)]
  }

  /** The three characters of a two-byte tail. */
  function Trio(x: byte, y: byte): Bytes
  {
    [UrlChar(x as int / 4), UrlChar(x as int % 4 * 16 + y as int / 16), UrlChar(y as int % 16 * 4)]
  }

  /** Unpadded base64url, the form JWK members use: three bytes to four characters. */
  function UrlEncode(b: Bytes): Bytes
    decreases |b|
  {
    if |b| == 0 then []
    else if |b| == 1 then Duo(b[0])
    else if |b| == 2 then Trio(b[0], b[1])
    else Quad(b[0], b[1], b[2]) + UrlEncode(b[3..])
  }

  predicate AllSextets(s: Bytes) { forall i :: 0 <= i < |s| ==> 0 <= Sextet(s[i]) }

  /** The state after consuming a run of alphabet characters. */
  function Feed(st: State, s: Bytes): State
    requires AllSextets(s)
    decreases |s|
  {
    if s == [] then st else Feed(Step(st, Sextet(s[0])), s[1..])
  }

  lemma {:induction false} A2bFeed(s: Bytes, t: Bytes, st: State)
    requires AllSextets(s)
    ensures A2b(s + t, st) == A2b(t, Feed(st, s))
    decreases |s|
  {
    if s != [] {
      assert (s + t)[0] == s[0] && (s + t)[1..] == s[1..] + t;
      assert 0 <= Sextet(s[0]);
      assert s[0] != PAD;
      A2bFeed(s[1..], t, Step(st, Sextet(s[0])));
    } else {
      assert s + t == t;
    }
  }

  lemma {:induction false} FeedQuadPos(st: State, s: Bytes)
    requires AllSextets(s) && st.quadPos < 4
    ensures Feed(st, s).quadPos == (st.quadPos + |s|) % 4
    decreases |s|
  {
    if s != [] {
      FeedQuadPos(Step(st, Sextet(s[0])), s[1..]);
    }
  }

  lemma {:induction false} FeedAppend(st: State, s: Bytes, t: Bytes)
    requires AllSextets(s) && AllSextets(t)
    ensures AllSextets(s + t) && Feed(st, s + t) == Feed(Feed(st, s), t)
    decreases |s|
  {
    if s != [] {
      assert (s + t)[0] == s[0] && (s + t)[1..] == s[1..] + t;
      FeedAppend(Step(st, Sextet(s[0])), s[1..], t);
    } else {
      assert s + t == t;
    }
  }

  /** Where the decoder stands after the encoding of `b`, appended to `out`. */
  function AfterEncoding(out: Bytes, b: Bytes): State
  {
    if |b| % 3 == 0 then Init(out + b)
    else if |b| % 3 == 1 then State(2, 0, 0, out + b)
    else State(3, 0, 0, out + b)
  }

  lemma FeedCons(st: State, s: Bytes)
    requires AllSextets(s) && s != []
    ensures Feed(st, s) == Feed(Step(st, Sextet(s[0])), s[1..])
  {
  }

  lemma FirstByteOfGroup(x: int, y: int)
    requires 0 <= x < 256 && 0 <= y < 256
    ensures (x / 4 * 4 + (x % 4 * 16 + y / 16) / 16) % 256 == x
    ensures (x % 4 * 16 + y / 16) % 16 == y / 16
  {
    assert (x % 4 * 16 + y / 16) / 16 == x % 4;
  }

  lemma SecondByteOfGroup(y: int, z: int)
    requires 0 <= y < 256 && 0 <= z < 256
    ensures (y / 16 * 16 + (y % 16 * 4 + z / 64) / 4) % 256 == y
    ensures (y % 16 * 4 + z / 64) % 4 == z / 64
  {
    assert (y % 16 * 4 + z / 64) / 4 == y % 16;
  }

  lemma ThirdByteOfGroup(z: int)
    requires 0 <= z < 256
    ensures (z / 64 * 64 + z % 64) % 256 == z
  {
  }

  lemma StepsOfFirstByte(out: Bytes, x: int, y: int)
    requires 0 <= x < 256 && 0 <= y < 256
    ensures Step(Step(Init(out), x / 4), x % 4 * 16 + y / 16) == State(2, y / 16, 0, out + [x as byte])
  {
    FirstByteOfGroup(x, y);
  }

  lemma StepOfSecondByte(out: Bytes, y: int, z: int)
    requires 0 <= y < 256 && 0 <= z < 256
    ensures Step(State(2, y / 16, 0, out), y % 16 * 4 + z / 64) == State(3, z / 64, 0, out + [y as byte])
  {
    SecondByteOfGroup(y, z);
  }

  lemma StepOfThirdByte(out: Bytes, z: int)
    requires 0 <= z < 256
    ensures Step(State(3, z / 64, 0, out), z % 64) == Init(out + [z as byte])
  {
    ThirdByteOfGroup(z);
  }

  /** The four characters of a full group take the decoder from one quad start to the next. */
  lemma FeedQuad(out: Bytes, x: byte, y: byte, z: byte)
    ensures AllSextets(Quad(x, y, z)) && Feed(Init(out), Quad(x, y, z)) == Init(out + [x, y, z])
  {
    var g := Quad(x, y, z);
    var st1 := Step(Init(out), x as int / 4);
    var st2 := Step(st1, x as int % 4 * 16 + y as int / 16);
    var st3 := Step(st2, y as int % 16 * 4 + z as int / 64);
    StepsOfFirstByte(out, x as int, y as int);
    StepOfSecondByte(out + [x], y as int, z as int);
    StepOfThirdByte(out + [x] + [y], z as int);
    FeedCons(Init(out), g);
    FeedCons(st1, g[1..]);
    FeedCons(st2, g[1..][1..]);
    FeedCons(st3, g[1..][1..][1..]);
    assert g[1..][1..][1..][1..] == [];
    AppendThree(out, x, y, z);
  }

  lemma AppendThree(out: Bytes, x: byte, y: byte, z: byte)
    ensures out + [x] + [y] + [z] == out + [x, y, z]
  {
  }

  /** The two characters of a one-byte tail leave the decoder two sextets into a quad. */
  lemma FeedDuo(out: Bytes, x: byte)
    ensures AllSextets(Duo(x)) && Feed(Init(out), Duo(x)) == State(2, 0, 0, out + [x])
  {
    var g := Duo(x);
    var st1 := Step(Init(out), x as int / 4);
    StepsOfFirstByte(out, x as int, 0);
    FeedCons(Init(out), g);
    FeedCons(st1, g[1..]);
    assert g[1..][1..] == [];
  }

  /** The three characters of a two-byte tail leave the decoder three sextets into a quad. */
  lemma FeedTrio(out: Bytes, x: byte, y: byte)
    ensures AllSextets(Trio(x, y)) && Feed(Init(out), Trio(x, y)) == State(3, 0, 0, out + [x, y])
  {
    var g := Trio(x, y);
    var st1 := Step(Init(out), x as int / 4);
    var st2 := Step(st1, x as int % 4 * 16 + y as int / 16);
    StepsOfFirstByte(out, x as int, y as int);
    StepOfSecondByte(out + [x], y as int, 0);
    FeedCons(Init(out), g);
    FeedCons(st1, g[1..]);
    FeedCons(st2, g[1..][1..]);
    assert g[1..][1..][1..] == [];
    assert out + [x] + [y] == out + [x, y];
  }

  lemma SplitThree(b: Bytes)
    requires |b| >= 3
    ensures b[..3] == [b[0], b[1], b[2]] && b[..3] + b[3..] == b
  {
  }

  /** Feeding a run that completes whole quads, then the rest. */
  lemma FeedWholeQuadsThen(out: Bytes, g: Bytes, mid: Bytes, rest: Bytes, t: Bytes)
    requires AllSextets(g) && AllSextets(rest) && |mid| == 3
    requires Feed(Init(out), g) == Init(out + mid)
    requires Feed(Init(out + mid), rest) == AfterEncoding(out + mid, t)
    ensures AllSextets(g + rest)
    ensures Feed(Init(out), g + rest) == AfterEncoding(out, mid + t)
  {
    FeedAppend(Init(out), g, rest);
    assert out + mid + t == out + (mid + t);
    assert |mid + t| % 3 == |t| % 3;
  }

  /** The encoding of any bytes is all alphabet, and leaves the decoder holding exactly those bytes. */
  lemma {:induction false} FeedUrlEncode(out: Bytes, b: Bytes)
    ensures AllSextets(UrlEncode(b))
    ensures Feed(Init(out), UrlEncode(b)) == AfterEncoding(out, b)
    decreases |b|
  {
    if |b| == 0 {
      assert out + b == out;
    } else if |b| == 1 {
      FeedDuo(out, b[0]);
      assert b == [b[0]];
    } else if |b| == 2 {
      FeedTrio(out, b[0], b[1]);
      assert b == [b[0], b[1]];
    } else {
      SplitThree(b);
      FeedUrlEncode(out + b[..3], b[3..]);
      FeedQuad(out, b[0], b[1], b[2]);
      FeedWholeQuadsThen(out, Quad(b[0], b[1], b[2]), b[..3], UrlEncode(b[3..]), b[3..]);
    }
  }

  /** Two pads end the input cleanly wherever an encoding leaves the decoder. */
  lemma FinishWithPadding(out: Bytes, b: Bytes)
    ensures A2b([PAD, PAD], AfterEncoding(out, b)) == Some(out + b)
  {
    var p: Bytes := [PAD, PAD];
    assert p[0] == PAD && p[1..] == [PAD];
    assert [PAD][1..] == [];
    if |b| % 3 == 0 {
      assert A2b(p, Init(out + b)) == A2b([PAD], Init(out + b));
    }
  }

  /** Two pads after a single leftover sextet do not complete anything. */
  lemma PaddingAfterOneSextet(st: State)
    requires st.quadPos == 1
    ensures A2b([PAD, PAD], st) == None
  {
    var p: Bytes := [PAD, PAD];
    assert p[0] == PAD && p[1..] == [PAD];
    assert [PAD][1..] == [];
    assert A2b(p, st) == A2b([PAD], st);
  }

  /** Decoding a JWK member after appending `==`, as the validator does, gives the bytes back. */
  lemma DecodeEncodedWithPadding(b: Bytes)
    ensures UrlSafeDecode(UrlEncode(b) + [PAD, PAD]) == Some(b)
  {
    FeedUrlEncode([], b);
    A2bFeed(UrlEncode(b), [PAD, PAD], Init([]));
    FinishWithPadding([], b);
    assert [] + b == b;
  }

  /** A run of alphabet characters one longer than a multiple of four cannot be decoded. */
  lemma RejectsOneMoreThanMultipleOfFour(s: Bytes)
    requires AllSextets(s) && |s| % 4 == 1
    ensures UrlSafeDecode(s + [PAD, PAD]) == None
  {
    A2bFeed(s, [PAD, PAD], Init([]));
    FeedQuadPos(Init([]), s);
    PaddingAfterOneSextet(Feed(Init([]), s));
  }
}
