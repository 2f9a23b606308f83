/** Python's `dict`: a finite map that remembers the order in which its keys were first inserted. */
module PyDicts {
  import opened Results

  datatype Dict<K(==,!new), V> = Dict(keys: seq<K>, items: map<K, V>)
  {
    /** The key order lists every key exactly once. */
    predicate Valid()
    {
      (forall i, j :: 0 <= i < j < |keys| ==> keys[i] != keys[j])
      && (forall k :: k in items ==> k in keys)
      && (forall i :: 0 <= i < |keys| ==> keys[i] in items)
    }

    /** `d.get(k)`. */
    function Get(k: K): (r: Option<V>)
      ensures r.Some? <==> k in items
      ensures r.Some? ==> r.value == items[k]
    {
      if k in items then Some(items[k]) else None
    }

    /** `list(d.values())`: one value per key, in insertion order. */
    function Values(): (r: seq<V>)
      requires Valid()
      ensures |r| == |keys|
      ensures forall i :: 0 <= i < |keys| ==> r[i] == items[keys[i]]
    {
      seq(|keys|, i requires 0 <= i < |keys| => items[keys[i]])
    }

    /** `d[k] = v`: a new key goes last, an existing key keeps its place. */
    function Set(k: K, v: V): (r: Dict<K, V>)
      requires Valid()
      ensures r.Valid()
      ensures r.items == items[k := v]
      ensures k in items ==> r.keys == keys
      ensures k !in items ==> r.keys == keys + [k]
    {
      Dict(if k in items then keys else keys + [k], items[k := v])
    }

    /** `del d[k]` for a present key: the others keep their order. */
    function Remove(k: K): (r: Dict<K, V>)
      requires Valid()
      ensures r.Valid()
      ensures r.items == items - {k}
      ensures forall i :: 0 <= i < |r.keys| ==> r.keys[i] in keys
      ensures r.keys == Without(keys, k)
    {
      var ks := Without(keys, k);
      assert forall i :: 0 <= i < |ks| ==> ks[i] in ks;
      Dict(ks, items - {k})
    }
  }

  /** The empty dict `{}`. */
  function Empty<K(==,!new), V>(): (d: Dict<K, V>)
    ensures d.Valid() && d.items == map[] && d.keys == []
  {
    Dict([], map[])
  }

  /** The sequence with every occurrence of `k` dropped, the rest in order. */
  function Without<K(==,!new)>(s: seq<K>, k: K): (r: seq<K>)
    ensures k !in r
    ensures forall x :: x in r <==> x in s && x != k
    ensures (forall i, j :: 0 <= i < j < |s| ==> s[i] != s[j]) ==> forall i, j :: 0 <= i < j < |r| ==> r[i] != r[j]
  {
    if s == [] then []
    else if s[0] == k then Without(s[1..], k)
    else
      var t := Without(s[1..], k);
      assert forall i :: 0 <= i < |t| ==> t[i] in t;
      [s[0]] + t
  }

  /** Removing a key that was appended last gives the keys as they were before it. */
  lemma {:induction false} WithoutAppended<K(!new)>(s: seq<K>, k: K)
    requires k !in s
    ensures Without(s + [k], k) == s
  {
    if s == [] {
      assert s + [k] == [k];
      assert Without([k], k) == Without([], k);
    } else {
      assert (s + [k])[1..] == s[1..] + [k];
      WithoutAppended(s[1..], k);
      assert [s[0]] + s[1..] == s;
    }
  }

  /** Setting a key and reading it back gives the value, and reads of other keys are unchanged. */
  lemma SetThenGet<K(!new), V>(d: Dict<K, V>, k: K, v: V, other: K)
    requires d.Valid()
    ensures d.Set(k, v).Get(k) == Some(v)
    ensures other != k ==> d.Set(k, v).Get(other) == d.Get(other)
  {
  }

  /** After `del d[k]` the key is gone and the others are unchanged. */
  lemma RemoveThenGet<K(!new), V>(d: Dict<K, V>, k: K, other: K)
    requires d.Valid()
    ensures d.Remove(k).Get(k) == None
    ensures other != k ==> d.Remove(k).Get(other) == d.Get(other)
  {
  }
}
