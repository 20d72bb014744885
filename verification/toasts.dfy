/** The notification queue: short messages shown in FIFO order, each of
    which later removes itself by id. Only the queue operations are modelled;
    the three-second timer that triggers the removal is not. */
module Toasts {

  datatype Toast = Toast(id: int, message: string)

  /** True when some toast in `q` carries `id`. */
  predicate HasId(q: seq<Toast>, id: int) {
    exists i :: 0 <= i < |q| && q[i].id == id
  }

  /** Appends a notification at the end of the queue (`addToast`). */
  function Enqueue(q: seq<Toast>, id: int, message: string): (r: seq<Toast>)
    ensures |r| == |q| + 1
    ensures r[..|q|] == q
    ensures r[|q|].id == id && r[|q|].message == message
  {
    q + [Toast(id, message)]
  }

  /** The expiry step: keeps, in order, exactly the toasts whose id differs
      from `id`. */
  function RemoveById(q: seq<Toast>, id: int): (r: seq<Toast>)
    ensures |r| <= |q|
    ensures forall t :: t in r <==> t in q && t.id != id
    ensures !HasId(r, id)
  {
    if |q| == 0 then []
    else
      var rest := RemoveById(q[..|q| - 1], id);
      var last := q[|q| - 1];
      assert q == q[..|q| - 1] + [last];
      if last.id == id then rest else rest + [last]
  }

  /** Removal distributes over concatenation, so the relative order of the
      surviving toasts is the order they had in the queue. */
  lemma {:induction false} RemoveByIdAppend(a: seq<Toast>, b: seq<Toast>, id: int)
    ensures RemoveById(a + b, id) == RemoveById(a, id) + RemoveById(b, id)
    decreases |b|
  {
    if |b| == 0 {
      assert a + b == a;
    } else {
      var b' := b[..|b| - 1];
      assert (a + b)[..|a + b| - 1] == a + b';
      assert (a + b)[|a + b| - 1] == b[|b| - 1];
      RemoveByIdAppend(a, b', id);
    }
  }

  /** Removing an id that is absent leaves the queue as it was, and only
      then: removal changes nothing exactly when no toast has that id. */
  lemma {:induction false} RemoveByIdNoop(q: seq<Toast>, id: int)
    ensures RemoveById(q, id) == q <==> !HasId(q, id)
    decreases |q|
  {
    if |q| == 0 {
    } else {
      var q' := q[..|q| - 1];
      assert q == q' + [q[|q| - 1]];
      RemoveByIdNoop(q', id);
      if !HasId(q, id) {
        assert !HasId(q', id) by {
          forall i | 0 <= i < |q'| ensures q'[i].id != id {
            assert q'[i] == q[i];
          }
        }
      } else {
        assert RemoveById(q, id) != q by {
          var i :| 0 <= i < |q| && q[i].id == id;
          assert q[i] in q;
        }
      }
    }
  }

  /** Removing the same id twice is the same as removing it once. */
  lemma RemoveByIdIdempotent(q: seq<Toast>, id: int)
    ensures RemoveById(RemoveById(q, id), id) == RemoveById(q, id)
  {
    RemoveByIdNoop(RemoveById(q, id), id);
  }

  /** Two timers may fire in either order: the queue they leave is the
      same. */
  lemma {:induction false} RemoveByIdCommutes(q: seq<Toast>, id1: int, id2: int)
    ensures RemoveById(RemoveById(q, id1), id2) == RemoveById(RemoveById(q, id2), id1)
    decreases |q|
  {
    if |q| == 0 {
    } else {
      var q' := q[..|q| - 1];
      var last := q[|q| - 1];
      assert q == q' + [last];
      RemoveByIdCommutes(q', id1, id2);
      RemoveByIdAppend(RemoveById(q', id1), [last], id2);
      RemoveByIdAppend(RemoveById(q', id2), [last], id1);
      RemoveByIdAppend(q', [last], id1);
      RemoveByIdAppend(q', [last], id2);
      RemoveByIdAppend(RemoveById(q', id1), RemoveById([last], id1), id2);
      RemoveByIdAppend(RemoveById(q', id2), RemoveById([last], id2), id1);
    }
  }

  /** Ids come from the millisecond clock and can collide. Two toasts
      queued under the same id leave together, at the first of their two
      timers, and the rest of the queue is treated as if neither had been
      queued. */
  lemma SharedIdLeaveTogether(q: seq<Toast>, id: int, m1: string, m2: string)
    ensures RemoveById(Enqueue(Enqueue(q, id, m1), id, m2), id) == RemoveById(q, id)
    ensures !HasId(RemoveById(Enqueue(Enqueue(q, id, m1), id, m2), id), id)
  {
    assert Enqueue(Enqueue(q, id, m1), id, m2) == q + [Toast(id, m1), Toast(id, m2)];
    RemoveByIdAppend(q, [Toast(id, m1), Toast(id, m2)], id);
    assert [Toast(id, m1), Toast(id, m2)] == [Toast(id, m1)] + [Toast(id, m2)];
    RemoveByIdAppend([Toast(id, m1)], [Toast(id, m2)], id);
  }

  /** A toast enqueued under a fresh id is removed again by its own timer,
      and the rest of the queue is left exactly as it was. */
  lemma EnqueueThenRemove(q: seq<Toast>, id: int, message: string)
    requires !HasId(q, id)
    ensures RemoveById(Enqueue(q, id, message), id) == q
  {
    RemoveByIdAppend(q, [Toast(id, message)], id);
    RemoveByIdNoop(q, id);
  }

  /** A timer for another id does not touch a toast enqueued later: it is
      still the last one in the queue. */
  lemma RemoveKeepsOthers(q: seq<Toast>, id: int, message: string, other: int)
    requires other != id
    ensures RemoveById(Enqueue(q, id, message), other) == RemoveById(q, other) + [Toast(id, message)]
  {
    RemoveByIdAppend(q, [Toast(id, message)], other);
  }
}
