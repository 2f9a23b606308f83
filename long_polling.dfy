/**
 * The long-polling server's `MessageManager`: a closing flag, the queues of the waiting
 * subscribers and their tasks. A queue is named by its subscriber's id and its contents are
 * the messages put into it that the subscriber has not taken.
 */
module LongPolling {
  import opened Results
  import opened PyLists

  /** The responses a subscriber can get: `text(...)` or `no_content()`. */
  datatype Response = Text(body: string) | NoContent

  /** The outcome of the first half of `subscribe`: answered at once, or waiting on a queue. */
  datatype Subscription = Answered(response: Response) | Waiting(id: int)

  /** Every queue named in `ids` with `m` put at its end, the others as they were. */
  function PutInto(buffers: map<int, seq<string>>, ids: seq<int>, m: string): (r: map<int, seq<string>>)
    ensures r.Keys == buffers.Keys
    ensures forall q :: q in buffers && q in ids ==> r[q] == buffers[q] + [m]
    ensures forall q :: q in buffers && q !in ids ==> r[q] == buffers[q]
  {
    map q | q in buffers :: if q in ids then buffers[q] + [m] else buffers[q]
  }

  lemma PutIntoStep(buffers: map<int, seq<string>>, ids: seq<int>, q: int, m: string)
    requires q in buffers && q !in ids
    ensures q in PutInto(buffers, ids, m)
    ensures PutInto(buffers, ids + [q], m) == PutInto(buffers, ids, m)[q := PutInto(buffers, ids, m)[q] + [m]]
  {
  }

  /**
   * A subscriber's queue, registered after `before` and with `after` registered since, is
   * removed without disturbing anyone else's place: the registry is as if it had never been.
   */
  lemma {:induction false} RemoveRegistered(before: seq<int>, id: int, after: seq<int>)
    requires id !in before
    ensures RemoveFirst(before + [id] + after, id) == before + after
  {
    var s := before + [id] + after;
    if before == [] {
      assert s == [id] + after;
      assert s[1..] == after;
    } else {
      assert s[0] == before[0] && s[0] != id;
      assert s[1..] == before[1..] + [id] + after;
      RemoveRegistered(before[1..], id, after);
      assert before == [before[0]] + before[1..];
      assert RemoveFirst(s, id) == [s[0]] + RemoveFirst(s[1..], id);
    }
  }

  /** The `for queue in self._queues` loop: each listed queue gets `m` at its end. */
  method PutAll(buffers: map<int, seq<string>>, ids: seq<int>, m: string) returns (updated: map<int, seq<string>>)
    requires Distinct(ids) && forall q :: q in ids ==> q in buffers
    ensures updated == PutInto(buffers, ids, m)
  {
    updated := buffers;
    for i := 0 to |ids|
      invariant updated == PutInto(buffers, ids[..i], m)
    {
      var q, done := ids[i], ids[..i];
      assert ids[..i + 1] == done + [q];
      assert updated[q := updated[q] + [m]] == PutInto(buffers, done + [q], m) by {
        assert q !in done;
        PutIntoStep(buffers, done, q, m);
      }
      updated := updated[q := updated[q] + [m]];
    }
    assert ids[..|ids|] == ids;
  }

  class MessageManager {
    var closing: bool
    var queues: seq<int>
    var tasks: seq<int>
    var buffers: map<int, seq<string>>
    var nextId: nat

    /** Each waiting subscriber has one queue and one task; each registered queue has contents. */
    ghost predicate Valid()
      reads this
    {
      Distinct(queues) && tasks == queues
      && (forall q :: q in buffers <==> q in queues)
      && forall q :: q in queues ==> 0 <= q < nextId
    }

    /** A new manager is open and has no queues and no tasks. */
    constructor ()
      ensures Valid() && !closing && queues == [] && tasks == [] && buffers == map[]
    {
      closing := false;
      queues := [];
      tasks := [];
      buffers := map[];
      nextId := 0;
    }

    /**
     * `subscribe` up to the `await`: when closing, the empty text at once and nothing
     * registered; otherwise a new empty queue and its task, registered last.
     */
    method Subscribe() returns (r: Subscription)
      requires Valid()
      modifies this
      ensures Valid() && closing == old(closing)
      ensures old(closing) ==> r == Answered(Text("")) && queues == old(queues) && buffers == old(buffers)
      ensures !old(closing) ==> (r.Waiting? && r.id !in old(queues)
        && queues == old(queues) + [r.id] && buffers == old(buffers)[r.id := []])
    {
      if closing {
        return Answered(Text(""));
      }
      var id := nextId;
      assert id !in queues;
      nextId := nextId + 1;
      queues := queues + [id];
      buffers := buffers[id := []];
      tasks := tasks + [id];
      return Waiting(id);
    }

    /**
     * `subscribe` after the `await`: a cancelled task answers `no_content()`, otherwise the
     * first message in the queue is the response (`wait_for_message`); either way the queue
     * and the task are unregistered.
     */
    method Finish(id: int, cancelled: bool) returns (r: Response)
      requires Valid() && id in queues
      requires cancelled || buffers[id] != []
      modifies this
      ensures Valid() && closing == old(closing)
      ensures cancelled ==> r == NoContent
      ensures !cancelled ==> r == Text(old(buffers)[id][0])
      ensures queues == RemoveFirst(old(queues), id) && id !in queues
      ensures buffers == old(buffers) - {id}
    {
      if cancelled {
        r := NoContent;
      } else {
        r := Text(buffers[id][0]);
      }
      RemoveFirstDistinct(queues, id);
      queues := RemoveFirst(queues, id);
      tasks := RemoveFirst(tasks, id);
      buffers := buffers - {id};
    }

    /** The loop shared by `add_message` and `cancel_all_tasks`: `m` put into every registered queue. */
    method PutEach(m: string)
      requires Valid()
      modifies this
      ensures Valid() && closing == old(closing) && queues == old(queues)
      ensures buffers == PutInto(old(buffers), queues, m)
    {
      buffers := PutAll(buffers, queues, m);
    }

    /** `add_message`: every waiting subscriber's queue gets the message at its end. */
    method AddMessage(m: string)
      requires Valid()
      modifies this
      ensures Valid() && closing == old(closing) && queues == old(queues)
      ensures buffers == PutInto(old(buffers), queues, m)
    {
      PutEach(m);
    }

    /** `cancel_all_tasks`: stop taking subscribers and wake every waiting one with the empty text. */
    method CancelAllTasks()
      requires Valid()
      modifies this
      ensures Valid() && closing && queues == old(queues)
      ensures buffers == PutInto(old(buffers), queues, "")
    {
      closing := true;
      PutEach("");
    }

    /** `get_stats`: the number of tasks waiting. */
    function TaskCount(): (n: nat)
      reads this
      requires Valid()
      ensures n == |queues|
    {
      |tasks|
    }
  }

  /** A subscriber waiting on an empty queue gets the next published message as its response. */
  lemma NextMessageAnswers(buffers: map<int, seq<string>>, ids: seq<int>, id: int, m: string)
    requires id in buffers && id in ids && buffers[id] == []
    ensures PutInto(buffers, ids, m)[id] == [m]
    ensures PutInto(buffers, ids, m)[id][0] == m
  {
  }
}
