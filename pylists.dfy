/** Python lists as the core uses them: `list.remove` over lists without repeats. */
module PyLists {
  /** No element is listed twice. */
  predicate Distinct<T(==)>(s: seq<T>)
  {
    forall i, j :: 0 <= i < j < |s| ==> s[i] != s[j]
  }

  /** `list.remove(x)` for a present `x`: its first occurrence dropped, the rest in order. */
  function RemoveFirst<T(==)>(s: seq<T>, x: T): (r: seq<T>)
    requires x in s
    ensures |r| == |s| - 1
    ensures forall y :: y in r ==> y in s
    ensures forall y :: y in s && y != x ==> y in r
  {
    if s[0] == x then s[1..] else [s[0]] + RemoveFirst(s[1..], x)
  }

  /** From a list without repeats the removed element is gone for good, and nothing else is. */
  lemma {:induction false} RemoveFirstDistinct<T>(s: seq<T>, x: T)
    requires x in s && Distinct(s)
    ensures x !in RemoveFirst(s, x) && Distinct(RemoveFirst(s, x))
    ensures forall y :: y in RemoveFirst(s, x) <==> y in s && y != x
  {
    if s[0] != x {
      RemoveFirstDistinct(s[1..], x);
      assert s[0] !in RemoveFirst(s[1..], x) by {
        assert s[0] !in s[1..];
      }
    } else {
      assert x !in s[1..];
    }
  }
}
