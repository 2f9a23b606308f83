/**
 * The to-do items of the testing API and the dictionary updates both of its stores make:
 * an `int`-keyed, insertion-ordered dict of items.
 */
module ToDoDomain {
  import opened Results
  import opened PyDicts

  datatype ToDo = ToDo(id: int, title: string, description: string)

  datatype CreateToDoInput = CreateToDoInput(title: string, description: string)

  type Store = Dict<int, ToDo>

  /** Every item is stored under its own id, and the key order lists each key once. */
  predicate WellKeyed(d: Store)
  {
    d.Valid() && forall id :: id in d.items ==> d.items[id].id == id
  }

  /** `d[item.id] = item`. */
  function Stored(d: Store, item: ToDo): (r: Store)
    requires WellKeyed(d)
    ensures WellKeyed(r)
    ensures r.Get(item.id) == Some(item)
    ensures forall id :: id != item.id ==> r.Get(id) == d.Get(id)
    ensures item.id in d.items ==> r.keys == d.keys
    ensures item.id !in d.items ==> r.keys == d.keys + [item.id]
  {
    d.Set(item.id, item)
  }

  /** `del d[id]`, with the `KeyError` of a missing id swallowed. */
  function Deleted(d: Store, id: int): (r: Store)
    requires WellKeyed(d)
    ensures WellKeyed(r)
    ensures r.Get(id) == None
    ensures forall other :: other != id ==> r.Get(other) == d.Get(other)
    ensures id in d.items ==> r.keys == Without(d.keys, id)
    ensures id !in d.items ==> r == d
  {
    if id in d.items then d.Remove(id) else d
  }
}
