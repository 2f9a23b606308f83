/** Python `uuid.UUID` values as the OAuth example writes them into tokens and parses them back. */
module Uuids {
  import opened ByteStrings
  import opened Results
  import opened Hex

  /** A UUID, held as its bytes (sixteen of them when well formed). */
  datatype Uuid = Uuid(bytes: Bytes)

  predicate WellFormed(u: Uuid) { |u.bytes| == 16 }

  /** What pydantic's `UUID4` accepts: version 4 of the RFC 4122 variant. */
  predicate IsVersion4(u: Uuid)
  {
    WellFormed(u) && u.bytes[6] as int / 16 == 4 && u.bytes[8] as int / 64 == 2
  }

  /** `u.hex`: the 32 lower-case hex digits, the form tokens carry. */
  function HexOf(u: Uuid): (r: string)
    ensures |r| == 2 * |u.bytes|
    ensures '-' !in r
  {
    var r := ToHex(u.bytes);
    assert forall i :: 0 <= i < |r| ==> IsHexDigit(r[i]);
    r
  }

  /** The text with its hyphens removed. */
  function Unhyphenated(s: string): (r: string)
    ensures '-' !in s ==> r == s
  {
    if s == [] then []
    else (if s[0] == '-' then [] else [s[0]]) + Unhyphenated(s[1..])
  }

  /** `UUID(s)`: hyphens are ignored, then exactly 32 hex digits; `None` is the `ValueError`. */
  function Parse(s: string): (r: Option<Uuid>)
    ensures r.Some? ==> WellFormed(r.value)
  {
    var digits := Unhyphenated(s);
    if |digits| != 32 then None
    else match FromHex(digits)
      case Some(b) => Some(Uuid(b))
      case None => None
  }

  /** Parsing the hex form of a UUID gives it back. */
  lemma ParseHexOf(u: Uuid)
    requires WellFormed(u)
    ensures Parse(HexOf(u)) == Some(u)
  {
    FromHexToHex(u.bytes);
  }

  /** Distinct UUIDs have distinct hex forms. */
  lemma HexOfInjective(u: Uuid, v: Uuid)
    requires HexOf(u) == HexOf(v)
    ensures u == v
  {
    ToHexInjective(u.bytes, v.bytes);
  }

  /** `str(u)`: the hex digits grouped 8-4-4-4-12 and joined by hyphens. */
  function Canonical(u: Uuid): (r: string)
    requires WellFormed(u)
    ensures |r| == 36
  {
    var h := HexOf(u);
    h[..8] + ['-'] + (h[8..12] + ['-'] + (h[12..16] + ['-'] + (h[16..20] + ['-'] + h[20..])))
  }

  lemma {:induction false} DropHyphen(a: string, b: string)
    requires '-' !in a
    ensures Unhyphenated(a + ['-'] + b) == a + Unhyphenated(b)
  {
    var s := a + ['-'] + b;
    if a == [] {
      assert s == ['-'] + b && s[1..] == b;
    } else {
      assert s[0] == a[0] && s[0] != '-';
      assert s[1..] == a[1..] + ['-'] + b;
      calc {
        Unhyphenated(s);
        [a[0]] + Unhyphenated(s[1..]);
        { DropHyphen(a[1..], b); }
        [a[0]] + (a[1..] + Unhyphenated(b));
        { assert [a[0]] + a[1..] == a; }
        a + Unhyphenated(b);
      }
    }
  }

  /** Dropping the four hyphens of a grouped text leaves its groups run together. */
  lemma UngroupFive(g1: string, g2: string, g3: string, g4: string, g5: string)
    requires '-' !in g1 && '-' !in g2 && '-' !in g3 && '-' !in g4 && '-' !in g5
    ensures Unhyphenated(g1 + ['-'] + (g2 + ['-'] + (g3 + ['-'] + (g4 + ['-'] + g5))))
      == g1 + (g2 + (g3 + (g4 + g5)))
  {
    DropHyphen(g4, g5);
    DropHyphen(g3, g4 + ['-'] + g5);
    DropHyphen(g2, g3 + ['-'] + (g4 + ['-'] + g5));
    DropHyphen(g1, g2 + ['-'] + (g3 + ['-'] + (g4 + ['-'] + g5)));
  }

  /** `UUID(str(u)) == u`: the canonical text parses back to the same UUID. */
  lemma ParseCanonical(u: Uuid)
    requires WellFormed(u)
    ensures Parse(Canonical(u)) == Some(u)
  {
    var h := HexOf(u);
    assert '-' !in h[..8] && '-' !in h[8..12] && '-' !in h[12..16] && '-' !in h[16..20] && '-' !in h[20..] by {
      forall i | 0 <= i < |h| ensures h[i] != '-' {
        assert h[i] in h;
      }
    }
    UngroupFive(h[..8], h[8..12], h[12..16], h[16..20], h[20..]);
    assert h[..8] + (h[8..12] + (h[12..16] + (h[16..20] + h[20..]))) == h;
    ParseHexOf(u);
  }
}
