/** The `str` methods the examples call: `split`, `rstrip`, and `lower` on ASCII letters. */
module Texts {

  /** The position of the first `d` in `s`. */
  function IndexOf(s: string, d: char): (i: nat)
    requires d in s
    ensures i < |s| && s[i] == d && d !in s[..i]
  {
    if s[0] == d then 0 else assert d in s[1..]; 1 + IndexOf(s[1..], d)
  }

  /** `s.split(d)` for a one-character separator. */
  function Split(s: string, d: char): (r: seq<string>)
    ensures |r| >= 1
    decreases |s|
  {
    if d !in s then [s]
    else
      var i := IndexOf(s, d);
      [s[..i]] + Split(s[i + 1..], d)
  }

  /** A piece free of the separator, then the separator, splits off as the first piece. */
  lemma SplitCons(a: string, b: string, d: char)
    requires d !in a
    ensures Split(a + [d] + b, d) == [a] + Split(b, d)
  {
    var s := a + [d] + b;
    assert s[|a|] == d;
    var i := IndexOf(s, d);
    assert s[..i] == a && s[i + 1..] == b;
  }

  /** Two pieces joined by a separator that neither contains split back into those pieces. */
  lemma SplitJoined(a: string, b: string, d: char)
    requires d !in a && d !in b
    ensures Split(a + [d] + b, d) == [a, b]
  {
    SplitCons(a, b, d);
  }

  /** `s.rstrip(c)` for one character: every trailing `c` is removed. */
  function RStrip(s: string, c: char): (r: string)
    ensures |r| <= |s| && r == s[..|r|]
    ensures r == [] || r[|r| - 1] != c
    ensures forall i :: |r| <= i < |s| ==> s[i] == c
  {
    if s != [] && s[|s| - 1] == c then RStrip(s[..|s| - 1], c) else s
  }

  /** Stripping is idempotent, and extra trailing characters make no difference. */
  lemma {:induction false} RStripAppend(s: string, c: char)
    ensures RStrip(s + [c], c) == RStrip(s, c)
    ensures RStrip(RStrip(s, c), c) == RStrip(s, c)
  {
    assert (s + [c])[..|s|] == s;
  }

  predicate IsUpper(c: char) { 'A' <= c <= 'Z' }

  /** `str.lower()` restricted to ASCII letters. */
  function LowerChar(c: char): char
  {
    if IsUpper(c) then (c as int + 32) as char else c
  }

  function LowerText(s: string): (r: string)
    ensures |r| == |s| && forall i :: 0 <= i < |s| ==> r[i] == LowerChar(s[i])
  {
    seq(|s|, i requires 0 <= i < |s| => LowerChar(s[i]))
  }
}
