/** The actions a controller queues for a task, and the task's own record of them
    (user/user.h, kmod/task.c). */
module Control {
  import opened Ring

  datatype Act = NONE | EXIT | PAUSE | BLOCK | CHAN_READ | CHAN_WRITE | YIELD | PARK

  const QUEUE := 8

  /** What taking from a queue of these contents hands over, and what it leaves. */
  function Front(q: seq<Act>): Act { if q == [] then NONE else q[0] }

  function Behind(q: seq<Act>): seq<Act> { if q == [] then [] else q[1..] }

  class TaskRecord {
    const queue: Ring<Act>
    var settled: bool

    ghost predicate Valid()
      reads this, queue, queue.slots
    {
      queue.Valid() && queue.slots.Length == QUEUE
    }

    /** A new record says what its task does first: it parks. */
    constructor ()
      ensures Valid() && !settled && queue.Contents() == [PARK]
      ensures fresh(queue) && fresh(queue.slots)
    {
      queue := new Ring<Act>(QUEUE, NONE);
      settled := false;
      new;
      var ok := queue.Put(PARK);
    }

    /** The task's end. */
    method Take() returns (act: Act)
      requires Valid()
      modifies queue
      ensures Valid()
      ensures act == Front(old(queue.Contents()))
      ensures queue.Contents() == Behind(old(queue.Contents()))
    {
      var x := queue.Take();
      act := if x.Some? then x.value else NONE;
    }

    /** The controller's end; false is the panic over more than eight outstanding. */
    method Put(act: Act) returns (ok: bool)
      requires Valid()
      modifies queue, queue.slots
      ensures Valid()
      ensures ok <==> |old(queue.Contents())| < QUEUE
      ensures queue.Contents() == if ok then old(queue.Contents()) + [act] else old(queue.Contents())
    {
      ok := queue.Put(act);
    }
  }
}
