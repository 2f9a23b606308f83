/**
 * BlackSheep header lists: ordered `(name, value)` byte pairs whose names compare
 * case-insensitively, as `Headers.get_first` and the proxies' list comprehensions read them.
 */
module HttpHeaders {
  import opened ByteStrings
  import opened Results

  type Header = (Bytes, Bytes)

  /** `key.lower() == name.lower()`. */
  predicate NameIs(h: Header, name: Bytes)
  {
    Lower(h.0) == Lower(name)
  }

  /** `Headers.get_first(name)`: the value of the first header with that name, if any. */
  function GetFirst(hs: seq<Header>, name: Bytes): (r: Option<Bytes>)
    ensures r.None? <==> forall i :: 0 <= i < |hs| ==> !NameIs(hs[i], name)
    ensures r.Some? ==> exists i :: 0 <= i < |hs| && NameIs(hs[i], name) && hs[i].1 == r.value
                                    && forall j :: 0 <= j < i ==> !NameIs(hs[j], name)
  {
    if hs == [] then None
    else if NameIs(hs[0], name) then Some(hs[0].1)
    else
      var r := GetFirst(hs[1..], name);
      if r.Some? then
        var i :| 0 <= i < |hs[1..]| && NameIs(hs[1..][i], name) && hs[1..][i].1 == r.value
                 && forall j :: 0 <= j < i ==> !NameIs(hs[1..][j], name);
        assert NameIs(hs[i + 1], name) && forall j :: 0 <= j < i + 1 ==> !NameIs(hs[j], name);
        r
      else r
  }

  /** `[(k, v) for k, v in hs if k.lower() not in names]`. */
  function WithoutNames(hs: seq<Header>, names: set<Bytes>): (r: seq<Header>)
    ensures |r| <= |hs|
    ensures forall h :: h in r ==> h in hs && Lower(h.0) !in names
    ensures forall h :: h in hs && Lower(h.0) !in names ==> h in r
  {
    if hs == [] then []
    else (if Lower(hs[0].0) in names then [] else [hs[0]]) + WithoutNames(hs[1..], names)
  }

  /** Filtering works piece by piece, so the surviving headers keep their relative order. */
  lemma {:induction false} WithoutNamesAppend(a: seq<Header>, b: seq<Header>, names: set<Bytes>)
    ensures WithoutNames(a + b, names) == WithoutNames(a, names) + WithoutNames(b, names)
  {
    if a == [] {
      assert a + b == b;
    } else {
      assert (a + b)[0] == a[0] && (a + b)[1..] == a[1..] + b;
      WithoutNamesAppend(a[1..], b, names);
    }
  }

  /** A list holding none of the filtered names passes through unchanged. */
  lemma {:induction false} WithoutNamesKeepsAll(hs: seq<Header>, names: set<Bytes>)
    requires forall i :: 0 <= i < |hs| ==> Lower(hs[i].0) !in names
    ensures WithoutNames(hs, names) == hs
  {
    if hs != [] {
      WithoutNamesKeepsAll(hs[1..], names);
    }
  }

  /** Filtering twice with the same names is filtering once. */
  lemma WithoutNamesIdempotent(hs: seq<Header>, names: set<Bytes>)
    ensures WithoutNames(WithoutNames(hs, names), names) == WithoutNames(hs, names)
  {
    var r := WithoutNames(hs, names);
    assert forall i :: 0 <= i < |r| ==> r[i] in r;
    WithoutNamesKeepsAll(r, names);
  }

  /**
   * After filtering, a filtered name is never found, and every other name is found with
   * the same first value as before.
   */
  lemma {:induction false} GetFirstWithoutNames(hs: seq<Header>, names: set<Bytes>, name: Bytes)
    ensures Lower(name) in names ==> GetFirst(WithoutNames(hs, names), name) == None
    ensures Lower(name) !in names ==> GetFirst(WithoutNames(hs, names), name) == GetFirst(hs, name)
  {
    if hs != [] {
      GetFirstWithoutNames(hs[1..], names, name);
      var rest := WithoutNames(hs[1..], names);
      if Lower(hs[0].0) !in names {
        assert WithoutNames(hs, names) == [hs[0]] + rest;
        assert ([hs[0]] + rest)[1..] == rest;
      } else {
        assert WithoutNames(hs, names) == rest;
      }
    }
  }
}
