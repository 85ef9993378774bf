/** The bounded blocking queue (nutty/util/BoundedBlockingQueue.h) as a step system: a monitor with one
    mutex, two condition variables and `notify_one`. A step is one stay inside the mutex: it ends in a wait
    or in leaving the call. Any thread may take the mutex next, and a waiting thread may wake by itself. */
module BlockingQueueMachine {
  import opened Wrappers

  type Thread = nat

  datatype State<T> = State(
    capacity: nat,
    queue: seq<T>,
    waitingPutters: set<Thread>,   // inside cvnotfull_.wait
    wokenPutters: set<Thread>,     // notified or woken by itself, not yet back in the mutex
    waitingTakers: set<Thread>,    // inside cvnotempty_.wait
    wokenTakers: set<Thread>
  )

  /** `notified` is the waiter that `notify_one` picks, if there is one. */
  datatype Event<T> =
    | Put(t: Thread, value: T, notified: Option<Thread>)
    | PutWaits(t: Thread)
    | Take(t: Thread, notified: Option<Thread>)
    | TakeWaits(t: Thread)
    | WakesByItself(t: Thread)

  function Init<T>(capacity: nat): State<T> {
    State(capacity, [], {}, {}, {}, {})
  }

  /** `notify_one` wakes one waiter if there is any, whichever it likes. */
  predicate MayNotify(waiting: set<Thread>, notified: Option<Thread>) {
    if notified.Some? then notified.value in waiting else waiting == {}
  }

  function Chosen(notified: Option<Thread>): set<Thread> {
    if notified.Some? then {notified.value} else {}
  }

  /** The thread runs and is not inside a call of the other kind. */
  predicate MayPut<T>(s: State<T>, t: Thread) {
    t !in s.waitingPutters && t !in s.waitingTakers && t !in s.wokenTakers
  }

  predicate MayTake<T>(s: State<T>, t: Thread) {
    t !in s.waitingTakers && t !in s.waitingPutters && t !in s.wokenPutters
  }

  function Step<T>(s: State<T>, e: Event<T>): (r: Option<State<T>>) {
    match e
    case Put(t, value, notified) =>
      if MayPut(s, t) && |s.queue| < s.capacity && MayNotify(s.waitingTakers, notified) then
        Some(s.(queue := s.queue + [value], wokenPutters := s.wokenPutters - {t},
                waitingTakers := s.waitingTakers - Chosen(notified),
                wokenTakers := s.wokenTakers + Chosen(notified)))
      else None
    case PutWaits(t) =>
      if MayPut(s, t) && |s.queue| >= s.capacity then
        Some(s.(wokenPutters := s.wokenPutters - {t}, waitingPutters := s.waitingPutters + {t}))
      else None
    case Take(t, notified) =>
      if MayTake(s, t) && s.queue != [] && MayNotify(s.waitingPutters, notified) then
        Some(s.(queue := s.queue[1..], wokenTakers := s.wokenTakers - {t},
                waitingPutters := s.waitingPutters - Chosen(notified),
                wokenPutters := s.wokenPutters + Chosen(notified)))
      else None
    case TakeWaits(t) =>
      if MayTake(s, t) && s.queue == [] then
        Some(s.(wokenTakers := s.wokenTakers - {t}, waitingTakers := s.waitingTakers + {t}))
      else None
    case WakesByItself(t) =>
      if t in s.waitingPutters then
        Some(s.(waitingPutters := s.waitingPutters - {t}, wokenPutters := s.wokenPutters + {t}))
      else if t in s.waitingTakers then
        Some(s.(waitingTakers := s.waitingTakers - {t}, wokenTakers := s.wokenTakers + {t}))
      else None
  }

  function Exec<T>(s: State<T>, es: seq<Event<T>>): (r: Option<State<T>>) {
    if es == [] then Some(s)
    else
      match Exec(s, es[..|es| - 1])
      case None => None
      case Some(p) => Step(p, es[|es| - 1])
  }

  lemma ExecSnoc<T>(s: State<T>, es: seq<Event<T>>, e: Event<T>)
    ensures Exec(s, es + [e]) == match Exec(s, es) case None => None case Some(p) => Step(p, e)
  {
    assert (es + [e])[..|es|] == es;
  }

  /** The values put by the run, in the order in which the puts completed. */
  function PutValues<T>(es: seq<Event<T>>): (values: seq<T>) {
    if es == [] then []
    else PutValues(es[..|es| - 1]) + if es[|es| - 1].Put? then [es[|es| - 1].value] else []
  }

  /** How many takes have completed. */
  function Takes<T>(es: seq<Event<T>>): (n: nat)
    ensures n <= |es|
  {
    if es == [] then 0 else Takes(es[..|es| - 1]) + if es[|es| - 1].Take? then 1 else 0
  }

  ghost predicate Disjoint<T>(s: State<T>) {
    && s.waitingPutters !! s.wokenPutters && s.waitingPutters !! s.waitingTakers
    && s.waitingPutters !! s.wokenTakers && s.wokenPutters !! s.waitingTakers
    && s.wokenPutters !! s.wokenTakers && s.waitingTakers !! s.wokenTakers
  }

  ghost predicate NobodyStranded<T>(s: State<T>) {
    && (s.waitingTakers != {} ==> |s.queue| <= |s.wokenTakers|)
    && (s.waitingPutters != {} ==> s.capacity - |s.queue| <= |s.wokenPutters|)
  }

  lemma AddOne(a: set<Thread>, t: Thread)
    ensures |a + {t}| == |a| + if t in a then 0 else 1
  {
    if t in a {
      assert a + {t} == a;
    }
  }

  lemma RemoveOne(a: set<Thread>, t: Thread)
    ensures |a - {t}| == |a| - if t in a then 1 else 0
  {
    if t in a {
      assert a == (a - {t}) + {t};
    } else {
      assert a - {t} == a;
    }
  }

  ghost predicate Monitor<T>(s: State<T>) {
    Disjoint(s) && NobodyStranded(s) && |s.queue| <= s.capacity
  }

  /** The notified taker makes up for the new item; the putter that used a free slot is one woken putter less. */
  lemma PutKeepsMonitor<T>(s: State<T>, e: Event<T>, t: State<T>)
    requires Monitor(s) && e.Put? && Step(s, e) == Some(t)
    ensures Monitor(t)
  {
    RemoveOne(s.wokenPutters, e.t);
    if e.notified.Some? {
      AddOne(s.wokenTakers, e.notified.value);
    }
  }

  lemma TakeKeepsMonitor<T>(s: State<T>, e: Event<T>, t: State<T>)
    requires Monitor(s) && e.Take? && Step(s, e) == Some(t)
    ensures Monitor(t)
  {
    RemoveOne(s.wokenTakers, e.t);
    if e.notified.Some? {
      AddOne(s.wokenPutters, e.notified.value);
    }
  }

  lemma WaitKeepsMonitor<T>(s: State<T>, e: Event<T>, t: State<T>)
    requires Monitor(s) && (e.PutWaits? || e.TakeWaits?) && Step(s, e) == Some(t)
    ensures Monitor(t)
  {
  }

  lemma WakingKeepsMonitor<T>(s: State<T>, e: Event<T>, t: State<T>)
    requires Monitor(s) && e.WakesByItself? && Step(s, e) == Some(t)
    ensures Monitor(t)
  {
    AddOne(s.wokenPutters, e.t);
    AddOne(s.wokenTakers, e.t);
  }

  /** No stranded waiter, in every run: while takers wait, every queued item has a woken taker coming for it;
      while putters wait, every free slot has a woken putter coming for it; the queue never overflows. */
  lemma {:induction false} NoStrandedWaiter<T>(capacity: nat, es: seq<Event<T>>, s: State<T>)
    requires Exec(Init(capacity), es) == Some(s)
    ensures s.waitingTakers != {} ==> |s.queue| <= |s.wokenTakers|
    ensures s.waitingPutters != {} ==> capacity - |s.queue| <= |s.wokenPutters|
    ensures |s.queue| <= capacity == s.capacity && Disjoint(s)
    decreases |es|
  {
    if es != [] {
      var k := |es| - 1;
      var p := Exec(Init(capacity), es[..k]).value;
      NoStrandedWaiter(capacity, es[..k], p);
      match es[k]
      case Put(_, _, _) => PutKeepsMonitor(p, es[k], s);
      case Take(_, _) => TakeKeepsMonitor(p, es[k], s);
      case WakesByItself(_) => WakingKeepsMonitor(p, es[k], s);
      case _ => WaitKeepsMonitor(p, es[k], s);
    }
  }

  /** First in, first out, nothing lost or duplicated: the takes have received the first `Takes(es)` of the
      values put, and the queue holds the rest. */
  lemma {:induction false} QueueIsFifo<T>(capacity: nat, es: seq<Event<T>>, s: State<T>)
    requires Exec(Init(capacity), es) == Some(s)
    ensures Takes(es) <= |PutValues(es)| && s.queue == PutValues(es)[Takes(es)..]
    decreases |es|
  {
    if es != [] {
      var k := |es| - 1;
      QueueIsFifo(capacity, es[..k], Exec(Init(capacity), es[..k]).value);
    }
  }

  /** The last stay of thread `t` inside the mutex. */
  function LastTurn<T>(es: seq<Event<T>>, t: Thread): Option<Event<T>> {
    if es == [] then None
    else if !es[|es| - 1].WakesByItself? && es[|es| - 1].t == t then Some(es[|es| - 1])
    else LastTurn(es[..|es| - 1], t)
  }

  /** The step wakes a waiting taker, or putter. */
  predicate WakesTaker<T>(s: State<T>, e: Event<T>) {
    (e.Put? && e.notified.Some?) || (e.WakesByItself? && e.t !in s.waitingPutters)
  }

  predicate WakesPutter<T>(s: State<T>, e: Event<T>) {
    (e.Take? && e.notified.Some?) || (e.WakesByItself? && e.t in s.waitingPutters)
  }

  /** The sleeps of takers, or putters, less their wakeups. */
  function TakersAsleep<T>(capacity: nat, es: seq<Event<T>>): int {
    if es == [] || Exec(Init<T>(capacity), es[..|es| - 1]).None? then 0
    else
      var p, e := Exec(Init<T>(capacity), es[..|es| - 1]).value, es[|es| - 1];
      TakersAsleep(capacity, es[..|es| - 1]) + (if e.TakeWaits? then 1 else 0) - if WakesTaker(p, e) then 1 else 0
  }

  function PuttersAsleep<T>(capacity: nat, es: seq<Event<T>>): int {
    if es == [] || Exec(Init<T>(capacity), es[..|es| - 1]).None? then 0
    else
      var p, e := Exec(Init<T>(capacity), es[..|es| - 1]).value, es[|es| - 1];
      PuttersAsleep(capacity, es[..|es| - 1]) + (if e.PutWaits? then 1 else 0) - if WakesPutter(p, e) then 1 else 0
  }

  lemma StepMovesThread<T>(s: State<T>, e: Event<T>, u: State<T>, t: Thread)
    requires Disjoint(s) && Step(s, e) == Some(u)
    ensures t in u.waitingPutters + u.wokenPutters <==>
              if !e.WakesByItself? && e.t == t then e.PutWaits? else t in s.waitingPutters + s.wokenPutters
    ensures t in u.waitingTakers + u.wokenTakers <==>
              if !e.WakesByItself? && e.t == t then e.TakeWaits? else t in s.waitingTakers + s.wokenTakers
  {
  }

  lemma StepMovesOne<T>(s: State<T>, e: Event<T>, u: State<T>)
    requires Disjoint(s) && Step(s, e) == Some(u)
    ensures |u.waitingTakers| ==
            |s.waitingTakers| + (if e.TakeWaits? then 1 else 0) - if WakesTaker(s, e) then 1 else 0
    ensures |u.waitingPutters| ==
            |s.waitingPutters| + (if e.PutWaits? then 1 else 0) - if WakesPutter(s, e) then 1 else 0
  {
    match e
    case Put(_, _, notified) => RemoveChosen(s.waitingTakers, notified);
    case Take(_, notified) => RemoveChosen(s.waitingPutters, notified);
    case PutWaits(t) => AddOne(s.waitingPutters, t);
    case TakeWaits(t) => AddOne(s.waitingTakers, t);
    case WakesByItself(t) =>
      RemoveOne(s.waitingPutters, t);
      RemoveOne(s.waitingTakers, t);
  }

  lemma RemoveChosen(waiting: set<Thread>, notified: Option<Thread>)
    requires MayNotify(waiting, notified)
    ensures |waiting - Chosen(notified)| == |waiting| - if notified.Some? then 1 else 0
  {
    if notified.Some? {
      RemoveOne(waiting, notified.value);
    } else {
      assert waiting - {} == waiting;
    }
  }

  /** In every run a thread is inside `put`, or `take`, if and only if its last stay in the mutex ended in a wait
      there; each notification and each spurious wakeup ends one wait, and nothing else does. */
  lemma {:induction false} ThreadsAreWhereTheyWaited<T>(capacity: nat, es: seq<Event<T>>, s: State<T>, t: Thread)
    requires Exec(Init(capacity), es) == Some(s)
    ensures t in s.waitingPutters + s.wokenPutters <==> LastTurn(es, t).Some? && LastTurn(es, t).value.PutWaits?
    ensures t in s.waitingTakers + s.wokenTakers <==> LastTurn(es, t).Some? && LastTurn(es, t).value.TakeWaits?
    ensures |s.waitingTakers| == TakersAsleep(capacity, es) && |s.waitingPutters| == PuttersAsleep(capacity, es)
    decreases |es|
  {
    if es != [] {
      hide Step, WakesTaker, WakesPutter, Disjoint;
      var k := |es| - 1;
      var p := Exec(Init(capacity), es[..k]).value;
      NoStrandedWaiter(capacity, es[..k], p);
      ThreadsAreWhereTheyWaited(capacity, es[..k], p, t);
      StepMovesThread(p, es[k], s, t);
      StepMovesOne(p, es[k], s);
    }
  }

  /** Every thread inside the queue is asleep, with no notification on its way. */
  predicate AllAsleep<T>(s: State<T>) {
    s.wokenTakers == {} && s.wokenPutters == {}
  }

  /** Deadlock: putters and takers asleep on the same queue. */
  predicate Deadlocked<T>(s: State<T>) {
    AllAsleep(s) && s.waitingTakers != {} && s.waitingPutters != {}
  }

  lemma DeadlockNeedsNoCapacity<T>(capacity: nat, es: seq<Event<T>>, s: State<T>)
    requires Exec(Init(capacity), es) == Some(s) && Deadlocked(s)
    ensures capacity == 0
  {
    NoStrandedWaiter(capacity, es, s);
  }

  lemma ZeroCapacityDeadlocks<T>()
    ensures exists es: seq<Event<T>> :: Exec(Init<T>(0), es).Some? && Deadlocked(Exec(Init<T>(0), es).value)
  {
    var e1: seq<Event<T>> := [PutWaits(1)];
    var es: seq<Event<T>> := [PutWaits(1), TakeWaits(2)];
    ExecSnoc<T>(Init<T>(0), [], e1[0]);
    ExecSnoc<T>(Init<T>(0), e1, es[1]);
    assert e1 + [es[1]] == es && [] + [e1[0]] == e1;
    var s := Exec(Init<T>(0), es).value;
    assert 2 in s.waitingTakers && 1 in s.waitingPutters;
  }

  /** The queue can deadlock exactly when it was made with capacity 0. */
  lemma DeadlockExactly<T>(capacity: nat)
    ensures (exists es: seq<Event<T>> ::
               Exec(Init<T>(capacity), es).Some? && Deadlocked(Exec(Init<T>(capacity), es).value))
            <==> capacity == 0
  {
    if es: seq<Event<T>> :| Exec(Init<T>(capacity), es).Some? && Deadlocked(Exec(Init<T>(capacity), es).value) {
      DeadlockNeedsNoCapacity(capacity, es, Exec(Init<T>(capacity), es).value);
    }
    if capacity == 0 {
      ZeroCapacityDeadlocks<T>();
    }
  }

  /** When everybody left inside is asleep, the sleepers are right to be: takers only on an empty queue,
      putters only on a full one. */
  lemma SleepersAreRight<T>(capacity: nat, es: seq<Event<T>>, s: State<T>)
    requires Exec(Init(capacity), es) == Some(s) && AllAsleep(s)
    ensures s.waitingTakers != {} ==> s.queue == []
    ensures s.waitingPutters != {} ==> |s.queue| == capacity
  {
    NoStrandedWaiter(capacity, es, s);
  }
}
