/**
 * The to-do routes of the testing API: a module-level dict `_MOCKED` that the POST route
 * inserts into and the DELETE route removes from.
 */
module ToDoRoutes {
  import opened Results
  import opened PyDicts
  import opened ToDoDomain

  /** The three items the store starts with, under ids 1, 2 and 3 in that order. */
  function Initial(): (d: Store)
    ensures WellKeyed(d) && d.keys == [1, 2, 3]
  {
    Dict([1, 2, 3], map[
      1 := ToDo(1, "BlackSheep Documentation", "Update the documentation with information about the new features."),
      2 := ToDo(2, "Transfer the documentation", "Transfer the documentation from Azure DevOps to GitHub."),
      3 := ToDo(3, "Mow the grass", "Like in title.")])
  }

  /** The number of distinct keys of a well-formed dict is its length: `len(d)`. */
  lemma {:induction false} DistinctCount(s: seq<int>)
    requires forall i, j :: 0 <= i < j < |s| ==> s[i] != s[j]
    ensures |set x | x in s| == |s|
  {
    if s != [] {
      DistinctCount(s[1..]);
      var rest := set x | x in s[1..];
      assert s[0] !in rest;
      assert (set x | x in s) == rest + {s[0]};
    }
  }

  lemma Length(d: Store)
    requires d.Valid()
    ensures |d.items| == |d.keys|
  {
    DistinctCount(d.keys);
    assert d.items.Keys == set x | x in d.keys;
  }

  /** The item `create_todo` builds: the id is one more than the number of stored items. */
  function NewItem(d: Store, data: CreateToDoInput): (item: ToDo)
    requires WellKeyed(d)
    ensures item.id == |d.items| + 1 && item.title == data.title && item.description == data.description
  {
    Length(d);
    ToDo(|d.keys| + 1, data.title, data.description)
  }

  /** `get_todo`'s outcome: the stored item, or `not_found()`. */
  datatype Response = Found(item: ToDo) | NotFound

  class ToDoRoutes {
    var mocked: Store

    predicate Valid()
      reads this
    {
      WellKeyed(mocked)
    }

    constructor ()
      ensures Valid() && mocked == Initial()
    {
      mocked := Initial();
    }

    /** `get_todos`: every stored item, in insertion order. */
    method GetTodos() returns (r: seq<ToDo>)
      requires Valid()
      ensures |r| == |mocked.keys|
      ensures forall i :: 0 <= i < |r| ==> r[i] == mocked.items[mocked.keys[i]] && r[i].id == mocked.keys[i]
    {
      return mocked.Values();
    }

    /** `get_todo`: the item stored under the id, or not found. */
    method GetTodo(id: int) returns (r: Response)
      requires Valid()
      ensures r.Found? <==> id in mocked.items
      ensures r.Found? ==> r.item == mocked.items[id] && r.item.id == id
    {
      if id in mocked.items {
        return Found(mocked.items[id]);
      }
      return NotFound;
    }

    /** `create_todo`: stores the new item under its id, replacing any item already there. */
    method CreateTodo(data: CreateToDoInput) returns (item: ToDo)
      requires Valid()
      modifies this
      ensures Valid()
      ensures item == NewItem(old(mocked), data)
      ensures mocked == Stored(old(mocked), item)
    {
      item := NewItem(mocked, data);
      mocked := Stored(mocked, item);
    }

    /** `delete_todo`: removes the id if present and otherwise does nothing. */
    method DeleteTodo(id: int)
      requires Valid()
      modifies this
      ensures Valid()
      ensures mocked == Deleted(old(mocked), id)
    {
      mocked := Deleted(mocked, id);
    }
  }

  /** The ids are 1 to n in order. */
  predicate Dense(d: Store)
  {
    forall i :: 0 <= i < |d.keys| ==> d.keys[i] == i + 1
  }

  /**
   * While nothing is deleted the ids stay 1 to n, so a created item gets a fresh id and
   * lands last.
   */
  lemma CreateKeepsDense(d: Store, data: CreateToDoInput)
    requires WellKeyed(d) && Dense(d)
    ensures NewItem(d, data).id !in d.items
    ensures Dense(Stored(d, NewItem(d, data)))
    ensures Stored(d, NewItem(d, data)).keys == d.keys + [|d.keys| + 1]
  {
    Length(d);
  }

  /**
   * Creating then fetching by the returned id gives back the posted title and description,
   * starting from the initial store.
   */
  lemma CreateThenGet(data: CreateToDoInput)
    ensures var item := NewItem(Initial(), data);
      item.id == 4
      && Stored(Initial(), item).Get(item.id) == Some(ToDo(4, data.title, data.description))
  {
    Length(Initial());
  }

  /**
   * After a deletion the next id can be taken: deleting item 1 from the initial store and
   * then creating an item gives it id 3, which replaces "Mow the grass" and leaves two items.
   */
  lemma CreateAfterDeleteReplaces(data: CreateToDoInput)
    ensures var afterDelete := Deleted(Initial(), 1);
      var item := NewItem(afterDelete, data);
      item.id == 3 && 3 in afterDelete.items
      && Stored(afterDelete, item).items[3] == ToDo(3, data.title, data.description)
      && |Stored(afterDelete, item).keys| == 2
  {
    var afterDelete := Deleted(Initial(), 1);
    DeleteFirstInitial();
    Length(afterDelete);
  }

  /** Deleting item 1 from the initial store leaves ids 2 and 3, in that order. */
  lemma DeleteFirstInitial()
    ensures Deleted(Initial(), 1).keys == [2, 3] && 3 in Deleted(Initial(), 1).items
  {
    assert Without([1, 2, 3], 1) == [2, 3] by {
      assert [1, 2, 3][1..] == [2, 3];
      assert Without([3], 1) == [3] by { assert [3][1..] == []; }
      assert [2, 3][1..] == [3];
    }
  }
}
