/** The queue object (nutty/util/BoundedBlockingQueue.h). `put` and `take` are loops around a wait, so each
    is a series of turns inside the mutex: a turn tests the loop's condition and then waits or finishes the
    call. `trace` lists the turns of all threads so far as steps of `BlockingQueueMachine`. */
module BlockingQueueObject {
  import opened Wrappers
  import opened BlockingQueueMachine

  class BoundedBlockingQueue<T> {
    const capacity: nat
    var queue: seq<T>
    ghost var waitingPutters: set<Thread>
    ghost var wokenPutters: set<Thread>
    ghost var waitingTakers: set<Thread>
    ghost var wokenTakers: set<Thread>
    ghost var trace: seq<Event<T>>

    ghost function View(): State<T>
      reads this
    {
      State(capacity, queue, waitingPutters, wokenPutters, waitingTakers, wokenTakers)
    }

    ghost predicate Valid()
      reads this
    {
      Exec(Init(capacity), trace) == Some(View())
    }

    constructor (capacity: nat)
      ensures Valid() && this.capacity == capacity && queue == [] && trace == []
    {
      this.capacity := capacity;
      queue, trace := [], [];
      waitingPutters, wokenPutters, waitingTakers, wokenTakers := {}, {}, {}, {};
    }

    ghost method Record(s: State<T>, e: Event<T>)
      requires Exec(Init(capacity), trace) == Some(s) && Step(s, e).Some?
      requires Step(s, e).value.queue == queue && s.capacity == capacity
      modifies this`waitingPutters, this`wokenPutters, this`waitingTakers, this`wokenTakers, this`trace
      ensures Valid() && trace == old(trace) + [e] && Some(View()) == Step(s, e)
    {
      ExecSnoc(Init(capacity), trace, e);
      var t := Step(s, e).value;
      waitingPutters, wokenPutters := t.waitingPutters, t.wokenPutters;
      waitingTakers, wokenTakers := t.waitingTakers, t.wokenTakers;
      trace := trace + [e];
    }

    /** A turn of thread `t` inside `put(value)`: it stores the value and leaves, or it waits. */
    method PutTurn(t: Thread, value: T) returns (done: bool, ghost e: Event<T>)
      requires Valid() && MayPut(View(), t)
      modifies this
      ensures Valid() && trace == old(trace) + [e] && Step(old(View()), e) == Some(View())
      ensures done <==> |old(queue)| < capacity
      ensures if done then e.Put? && e.t == t && e.value == value && queue == old(queue) + [value]
              else e == PutWaits(t) && queue == old(queue)
    {
      ghost var s := View();
      if |queue| >= capacity {
        e := PutWaits(t);
        done := false;
      } else {
        queue := queue + [value];
        e := Put(t, value, NotifyOne(waitingTakers));
        done := true;
      }
      Record(s, e);
    }

    /** A turn of thread `t` inside `take()`: it removes the front and returns it, or it waits. */
    method TakeTurn(t: Thread) returns (front: Option<T>, ghost e: Event<T>)
      requires Valid() && MayTake(View(), t)
      modifies this
      ensures Valid() && trace == old(trace) + [e] && Step(old(View()), e) == Some(View())
      ensures front.Some? <==> old(queue) != []
      ensures if front.Some? then e.Take? && e.t == t && old(queue) == [front.value] + queue
              else e == TakeWaits(t) && queue == old(queue)
      ensures front.Some? ==> Takes(old(trace)) < |PutValues(old(trace))| &&
                              front.value == PutValues(old(trace))[Takes(old(trace))]
    {
      ghost var s := View();
      QueueIsFifo(capacity, trace, s);
      if queue == [] {
        e := TakeWaits(t);
        front := None;
      } else {
        front := Some(queue[0]);
        queue := queue[1..];
        e := Take(t, NotifyOne(waitingPutters));
      }
      Record(s, e);
    }
  }

  /** Some waiter if there is one. */
  ghost function NotifyOne(waiting: set<Thread>): (notified: Option<Thread>)
    ensures MayNotify(waiting, notified)
  {
    if waiting == {} then None else var w :| w in waiting; Some(w)
  }
}
