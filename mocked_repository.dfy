/** `MockedToDosRepository`: the in-memory to-do repository the tests register. */
module MockedRepository {
  import opened Results
  import opened PyDicts
  import opened ToDoDomain

  class MockedToDosRepository {
    var todos: Store

    predicate Valid()
      reads this
    {
      WellKeyed(todos)
    }

    /** A new repository holds nothing. */
    constructor ()
      ensures Valid() && todos == Empty()
    {
      todos := Empty();
    }

    /** `get_todos`: exactly the stored items, in insertion order. */
    method GetTodos() returns (r: seq<ToDo>)
      requires Valid()
      ensures |r| == |todos.keys|
      ensures forall i :: 0 <= i < |r| ==> r[i] == todos.items[todos.keys[i]]
      ensures forall item: ToDo :: item in r <==> item.id in todos.items && todos.items[item.id] == item
    {
      r := todos.Values();
      forall item: ToDo | item.id in todos.items && todos.items[item.id] == item
        ensures item in r
      {
        var i :| 0 <= i < |todos.keys| && todos.keys[i] == item.id;
        assert r[i] == item;
      }
      forall item: ToDo | item in r
        ensures item.id in todos.items && todos.items[item.id] == item
      {
        var i :| 0 <= i < |r| && r[i] == item;
        var id := todos.keys[i];
        assert id in todos.items && item == todos.items[id];
        assert todos.items[id].id == id;
      }
    }

    /** `store_todo`: inserts the item, or replaces the one with the same id. */
    method StoreTodo(item: ToDo)
      requires Valid()
      modifies this
      ensures Valid()
      ensures todos == Stored(old(todos), item)
    {
      todos := Stored(todos, item);
    }

    /** `delete_todo`: removes the item's id, and does nothing when it is absent. */
    method DeleteTodo(item: ToDo)
      requires Valid()
      modifies this
      ensures Valid()
      ensures todos == Deleted(old(todos), item.id)
    {
      todos := Deleted(todos, item.id);
    }
  }

  /**
   * Storing then deleting an item with a new id leaves the repository as it was, the order
   * in which `get_todos` lists the items included.
   */
  lemma StoreThenDelete(d: Store, item: ToDo)
    requires WellKeyed(d) && item.id !in d.items
    ensures Deleted(Stored(d, item), item.id) == d
  {
    var stored := Stored(d, item);
    WithoutAppended(d.keys, item.id);
    assert stored.items - {item.id} == d.items;
  }

  /** Deleting an item that was never stored changes nothing. */
  lemma DeleteMissing(d: Store, item: ToDo)
    requires WellKeyed(d) && item.id !in d.items
    ensures Deleted(d, item.id) == d
  {
  }
}
