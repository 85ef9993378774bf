/** The logging back end and its front ends (nutty/log/AsyncLogging.cpp) as interleaved steps: any thread appends
    a line to any logger under the lock; the back end waits, takes the queued loggers under the lock, and writes
    and recycles their buffers outside it, one buffer a step. */
module AsyncLoggingMachine {
  import opened Wrappers
  import opened Buffers
  import opened AsyncLoggerMachine
  import opened Sequences

  datatype State<B(==)> = State(
    loggers: seq<Logger<B>>,
    queue: seq<nat>,       // asyncLoggers_
    batch: seq<nat>,       // asyncLoggersToWrite, from the logger being written on
    waiting: bool,         // the back end sleeps on the condition variable
    notified: bool         // and has been notified
  )

  datatype Event<B> =
    | Append(id: nat, line: seq<byte>, made: B)   // a front end; `made` is the buffer it may allocate
    | Enter                                       // the back end takes the lock
    | Wake                                        // it is woken, by a notification or for no reason
    | WriteOne(roll: bool)
    | RecycleOne

  predicate Currents<B(==)>(ls: seq<Logger<B>>) {
    forall l | l in ls :: l.current in l.mem
  }

  /** The queued loggers swap their buffers. */
  function SwapThese<B(==)>(ls: seq<Logger<B>>, queue: seq<nat>): (r: seq<Logger<B>>)
    requires Currents(ls)
    ensures |r| == |ls| && forall i | 0 <= i < |ls| :: r[i] == if i in queue then Swap(ls[i]) else ls[i]
  {
    seq(|ls|, i requires 0 <= i < |ls| => if i in queue then Swap(ls[i]) else ls[i])
  }

  /** `swapAsyncLoggersToWrite` from the swap on. */
  function Take<B(==)>(s: State<B>): State<B>
    requires Currents(s.loggers)
  {
    s.(loggers := SwapThese(s.loggers, s.queue), queue := [], batch := s.queue, waiting := false, notified := false)
  }

  /** `AsyncLogging::append`. */
  function AppendTo<B(==)>(s: State<B>, id: nat, line: seq<byte>, made: B): State<B>
    requires id < |s.loggers| && Usable(s.loggers[id])
  {
    var l := s.loggers[id];
    var t := s.(loggers := s.loggers[id := AppendLine(l, line, made)]);
    if l.notEmpty then t else t.(queue := t.queue + [id], notified := t.notified || t.waiting)
  }

  predicate Usable<B(==)>(l: Logger<B>) {
    && l.current in l.mem && (l.next.Some? ==> l.next.value in l.mem) && l.files != []
    && l.done <= |l.toWrite| && forall i | l.done <= i < |l.toWrite| :: l.toWrite[i] in l.mem
  }

  /** The references that steps follow are there; in every run they are. */
  predicate Runnable<B(==)>(s: State<B>) {
    (forall l | l in s.loggers :: Usable(l)) && (forall i | i in s.batch :: i < |s.loggers|)
  }

  function Step<B(==)>(s: State<B>, e: Event<B>): Option<State<B>> {
    if !Runnable(s) then None
    else match e
      case Append(id, line, made) =>
        if id >= |s.loggers| then None
        else
          assert s.loggers[id] in s.loggers;
          if MadeIfNeeded(s.loggers[id], line, made) then Some(AppendTo(s, id, line, made)) else None
      case Enter =>
        if s.batch != [] || s.waiting then None
        else if s.queue == [] then Some(s.(waiting := true))
        else Some(Take(s))
      case Wake => if s.waiting then Some(Take(s)) else None
      case WriteOne(roll) =>
        if s.batch == [] then None
        else
          var i := s.batch[0];
          assert i in s.batch && s.loggers[i] in s.loggers;
          if s.loggers[i].done == |s.loggers[i].toWrite| then None
          else Some(s.(loggers := s.loggers[i := WriteNext(s.loggers[i], roll)]))
      case RecycleOne =>
        if s.batch == [] then None
        else
          var i := s.batch[0];
          assert i in s.batch;
          if s.loggers[i].done != |s.loggers[i].toWrite| then None
          else Some(s.(loggers := s.loggers[i := Recycle(s.loggers[i])], batch := s.batch[1..]))
  }

  function Exec<B(==)>(s: State<B>, es: seq<Event<B>>): Option<State<B>> {
    if es == [] then Some(s)
    else match Exec(s, es[..|es| - 1])
      case Some(t) => Step(t, es[|es| - 1])
      case None => None
  }

  lemma ExecSnoc<B>(s: State<B>, es: seq<Event<B>>, e: Event<B>)
    ensures Exec(s, es + [e]) == match Exec(s, es) case Some(t) => Step(t, e) case None => None
  {
    assert (es + [e])[..|es + [e]| - 1] == es;
  }

  lemma StepIsAppend<B>(s: State<B>, id: nat, line: seq<byte>, made: B)
    requires Runnable(s) && id < |s.loggers| && Usable(s.loggers[id]) && MadeIfNeeded(s.loggers[id], line, made)
    ensures Step(s, Append(id, line, made)) == Some(AppendTo(s, id, line, made))
  {
    hide Runnable, AppendTo;
  }

  lemma StepIsTake<B>(s: State<B>, e: Event<B>)
    requires Runnable(s) && s.batch == [] && (e == Enter || e == Wake) && (s.waiting <==> e == Wake)
    requires s.waiting || s.queue != []
    ensures Step(s, e) == Some(Take(s))
  {
    hide Take;
  }

  lemma StepIsSleep<B>(s: State<B>)
    requires Runnable(s) && s.batch == [] && !s.waiting && s.queue == []
    ensures Step(s, Enter) == Some(s.(waiting := true))
  {
  }

  predicate CanWrite<B(==)>(l: Logger<B>) {
    l.done < |l.toWrite| && l.toWrite[l.done] in l.mem && l.files != []
  }

  lemma StepIsWrite<B>(s: State<B>, roll: bool)
    requires Runnable(s) && s.batch != [] && s.batch[0] < |s.loggers| && CanWrite(s.loggers[s.batch[0]])
    ensures Step(s, WriteOne(roll)) ==
            Some(s.(loggers := s.loggers[s.batch[0] := WriteNext(s.loggers[s.batch[0]], roll)]))
  {
    hide WriteNext;
  }

  lemma StepIsRecycle<B>(s: State<B>)
    requires Runnable(s) && s.batch != [] && s.batch[0] < |s.loggers| && Done(s.loggers[s.batch[0]])
    ensures Step(s, RecycleOne) ==
            Some(s.(loggers := s.loggers[s.batch[0] := Recycle(s.loggers[s.batch[0]])], batch := s.batch[1..]))
  {
    hide Recycle;
  }

  ghost predicate Init<B>(s: State<B>) {
    (forall l | l in s.loggers :: Fresh(l)) && s.queue == [] && s.batch == [] && !s.waiting && !s.notified
  }

  /* ---- what every step keeps ---- */

  ghost predicate LoggersOk<B>(s: State<B>) {
    forall i | 0 <= i < |s.loggers| ::
      Whole(s.loggers[i]) && if i in s.batch then Busy(s.loggers[i]) else Resting(s.loggers[i])
  }

  function Once(s: seq<nat>, i: nat): nat {
    multiset(s)[i]
  }

  /** A logger is queued once if it has news and not at all otherwise; the back end does not sleep over work
      without having been notified. */
  ghost predicate QueuesOk<B>(s: State<B>) {
    && (forall i | i in s.queue :: i < |s.loggers|) && (forall i | i in s.batch :: i < |s.loggers|)
    && (forall i: nat | i < |s.loggers| ::
          Once(s.queue, i) == (if s.loggers[i].notEmpty then 1 else 0) && Once(s.batch, i) <= 1)
    && (s.waiting ==> s.batch == []) && (s.notified ==> s.waiting)
    && (s.waiting && s.queue != [] ==> s.notified)
  }

  /** What the event adds to logger `i`'s stream: a line shorter than a buffer. */
  function Line<B>(e: Event<B>, i: nat): seq<byte> {
    match e
    case Append(id, line, _) => if id == i && |line| < 4_194_304 then line else []
    case _ => []
  }

  /** The lines accepted for logger `i`, in lock order. */
  function Accepted<B>(es: seq<Event<B>>, i: nat): seq<byte> {
    if es == [] then [] else Accepted(es[..|es| - 1], i) + Line(es[|es| - 1], i)
  }

  ghost predicate Grows<B>(s: State<B>, e: Event<B>, t: State<B>)
    requires LoggersOk(s) && LoggersOk(t)
  {
    |t.loggers| == |s.loggers| &&
    forall i | 0 <= i < |s.loggers| :: Stream(t.loggers[i]) == Stream(s.loggers[i]) + Line(e, i)
  }

  /** A step on one logger. */
  lemma ReplaceKeeps<B>(s: State<B>, j: nat, l: Logger<B>, t: State<B>, e: Event<B>)
    requires LoggersOk(s) && j < |s.loggers| && t.loggers == s.loggers[j := l]
    requires Whole(l) && if j in t.batch then Busy(l) else Resting(l)
    requires forall i: nat | i != j :: i in t.batch <==> i in s.batch
    requires Stream(l) == Stream(s.loggers[j]) + Line(e, j) && forall i: nat | i != j :: Line(e, i) == []
    ensures LoggersOk(t) && Grows(s, e, t)
  {
    hide Whole, Busy, Resting, Stream;
  }

  lemma AppendStep<B>(s: State<B>, e: Event<B>)
    requires LoggersOk(s) && Step(s, e).Some? && e.Append?
    ensures LoggersOk(Step(s, e).value) && Grows(s, e, Step(s, e).value)
  {
    hide Whole, Stream, AppendLine, MadeIfNeeded;
    var l := s.loggers[e.id];
    assert l in s.loggers;
    AppendKeeps(l, e.line, e.made);
    ReplaceKeeps(s, e.id, AppendLine(l, e.line, e.made), Step(s, e).value, e);
  }

  lemma AppendKeepsQueues<B>(s: State<B>, e: Event<B>)
    requires LoggersOk(s) && QueuesOk(s) && Step(s, e).Some? && e.Append?
    ensures QueuesOk(Step(s, e).value)
  {
    hide Whole, Stream, AppendLine, Busy, Resting;
    AppendKeeps(s.loggers[e.id], e.line, e.made);
  }

  lemma SwapKeeps<B>(l: Logger<B>)
    requires Whole(l) && Resting(l)
    ensures Whole(Swap(l)) && Busy(Swap(l)) && !Swap(l).notEmpty && Stream(Swap(l)) == Stream(l)
  {
    SwapKeepsWhole(l);
    SwapKeepsStream(l);
    hide Whole, Stream, Busy;
  }

  lemma TakeStep<B>(s: State<B>)
    requires LoggersOk(s) && QueuesOk(s) && s.batch == [] && Runnable(s)
    ensures LoggersOk(Take(s)) && Grows(s, Enter, Take(s)) && QueuesOk(Take(s))
  {
    TakeKeepsLoggers(s);
    TakeKeepsQueues(s);
    hide LoggersOk, QueuesOk, Take;
  }

  lemma TakeKeepsLoggers<B>(s: State<B>)
    requires LoggersOk(s) && QueuesOk(s) && s.batch == [] && Runnable(s)
    ensures LoggersOk(Take(s)) && Grows(s, Enter, Take(s))
  {
    hide Whole, Stream, Swap, Busy, Resting, QueuesOk;
    forall i | 0 <= i < |s.loggers| {
      SwapKeeps(s.loggers[i]);
    }
  }

  lemma TakeKeepsQueues<B>(s: State<B>)
    requires LoggersOk(s) && QueuesOk(s) && s.batch == [] && Runnable(s)
    ensures QueuesOk(Take(s))
  {
    hide LoggersOk, PushCurrent, FillNext;
    assert forall i | i in s.queue :: Once(s.queue, i) > 0;
  }

  /** The loop under the lock meets each queued logger once, with its spare buffers in place. */
  ghost predicate Takeable<B>(ls: seq<Logger<B>>, queue: seq<nat>) {
    Currents(ls) && forall i | i in queue :: i < |ls| && Resting(ls[i]) && multiset(queue)[i] <= 1
  }

  /** One turn of that loop. */
  lemma SwapOneMore<B>(ls: seq<Logger<B>>, queue: seq<nat>, k: nat)
    requires Takeable(ls, queue) && k < |queue|
    ensures queue[k] < |ls| && SwapThese(ls, queue[..k])[queue[k]] == ls[queue[k]] && Resting(ls[queue[k]])
    ensures ls[queue[k]].current in ls[queue[k]].mem
    ensures SwapThese(ls, queue[..k + 1]) == SwapThese(ls, queue[..k])[queue[k] := Swap(ls[queue[k]])]
  {
    hide Resting, Swap;
    assert queue[k] in queue && queue == queue[..k] + queue[k..] && queue[k] in queue[k..];
    assert queue[..k + 1] == queue[..k] + [queue[k]];
    assert ls[queue[k]] in ls;
  }

  lemma QueueIsTakeable<B>(s: State<B>)
    requires LoggersOk(s) && QueuesOk(s) && Runnable(s) && s.batch == []
    ensures Takeable(s.loggers, s.queue)
  {
    hide Whole, Resting;
    assert forall i | i in s.queue :: Once(s.queue, i) <= 1;
  }

  lemma WriteKeeps<B>(l: Logger<B>, roll: bool)
    requires Whole(l) && Busy(l) && l.done < |l.toWrite|
    ensures CanWrite(l) && Whole(WriteNext(l, roll)) && Busy(WriteNext(l, roll))
    ensures Stream(WriteNext(l, roll)) == Stream(l) && WriteNext(l, roll).notEmpty == l.notEmpty
  {
    hide Stream, Count, Bytes;
    WriteKeepsWhole(l, roll);
    WriteKeepsStream(l, roll);
  }

  lemma WriteStep<B>(s: State<B>, e: Event<B>)
    requires LoggersOk(s) && QueuesOk(s) && Step(s, e).Some? && e.WriteOne?
    ensures LoggersOk(Step(s, e).value) && Grows(s, e, Step(s, e).value) && QueuesOk(Step(s, e).value)
  {
    hide Whole, Stream, Busy, Resting, WriteNext;
    assert s.batch[0] in s.batch;
    var l := s.loggers[s.batch[0]];
    assert l in s.loggers;
    WriteKeeps(l, e.roll);
    ReplaceKeeps(s, s.batch[0], WriteNext(l, e.roll), Step(s, e).value, e);
  }

  lemma RecycleStep<B>(s: State<B>, e: Event<B>)
    requires LoggersOk(s) && QueuesOk(s) && Step(s, e).Some? && e.RecycleOne?
    ensures LoggersOk(Step(s, e).value) && Grows(s, e, Step(s, e).value) && QueuesOk(Step(s, e).value)
  {
    assert s.batch[0] in s.batch;
    var l := s.loggers[s.batch[0]];
    assert Whole(l) && Busy(l) && Done(l);
    RecycleKeeps(l);
    OneLess(s.batch);
    hide Whole, Stream, Recycle, Busy, Resting;
    RecycledKeeps(s, Recycle(l), e);
  }

  lemma OneLess(batch: seq<nat>)
    requires batch != []
    ensures forall i: nat :: Once(batch, i) == Once(batch[1..], i) + if i == batch[0] then 1 else 0
    ensures forall i: nat | i != batch[0] :: i in batch[1..] <==> i in batch
    ensures Once(batch, batch[0]) <= 1 ==> batch[0] !in batch[1..]
  {
    assert batch == [batch[0]] + batch[1..];
  }

  lemma RecycledKeeps<B>(s: State<B>, l: Logger<B>, e: Event<B>)
    requires LoggersOk(s) && QueuesOk(s) && s.batch != [] && s.batch[0] < |s.loggers| && e.RecycleOne?
    requires Whole(l) && Resting(l) && l.notEmpty == s.loggers[s.batch[0]].notEmpty
    requires Stream(l) == Stream(s.loggers[s.batch[0]])
    ensures var t := s.(loggers := s.loggers[s.batch[0] := l], batch := s.batch[1..]);
            LoggersOk(t) && Grows(s, e, t) && QueuesOk(t)
  {
    hide Whole, Stream, Busy, Resting, Once;
    OneLess(s.batch);
    ReplaceKeeps(s, s.batch[0], l, s.(loggers := s.loggers[s.batch[0] := l], batch := s.batch[1..]), e);
  }

  /* ---- runs ---- */

  lemma WholeIsUsable<B>(s: State<B>)
    requires LoggersOk(s) && QueuesOk(s)
    ensures Runnable(s)
  {
    forall l | l in s.loggers ensures Usable(l) {
      assert Whole(l);
    }
  }

  lemma StepKeeps<B>(s: State<B>, e: Event<B>)
    requires LoggersOk(s) && QueuesOk(s) && Step(s, e).Some?
    ensures LoggersOk(Step(s, e).value) && Grows(s, e, Step(s, e).value) && QueuesOk(Step(s, e).value)
  {
    match e
    case Append(_, _, _) =>
      AppendStep(s, e);
      AppendKeepsQueues(s, e);
    case WriteOne(_) => WriteStep(s, e);
    case RecycleOne => RecycleStep(s, e);
    case _ => SleepOrTake(s, e);
  }

  lemma SleepOrTake<B>(s: State<B>, e: Event<B>)
    requires LoggersOk(s) && QueuesOk(s) && Step(s, e).Some? && (e.Enter? || e.Wake?)
    ensures LoggersOk(Step(s, e).value) && Grows(s, e, Step(s, e).value) && QueuesOk(Step(s, e).value)
  {
    hide Whole, Stream, Swap, Busy, Resting, Take;
    if s.batch == [] {
      TakeStep(s);
    }
  }

  /** In every interleaving: each logger's files, then what is left of the buffers being written, then the
      buffers and the current one hold exactly the accepted lines in lock order. No buffer is held twice, no
      spare holds anything, nothing was taken from an empty vector; and no step is ever held up for want of a
      buffer. */
  lemma {:induction false} LogIsConserved<B>(s0: State<B>, es: seq<Event<B>>, s: State<B>)
    requires Init(s0) && Exec(s0, es) == Some(s)
    ensures |s.loggers| == |s0.loggers| && LoggersOk(s) && QueuesOk(s) && Runnable(s)
    ensures forall i | 0 <= i < |s.loggers| :: Stream(s.loggers[i]) == Accepted(es, i)
    decreases |es|
  {
    if es == [] {
      InitIsOk(s0);
    } else {
      hide LoggersOk, QueuesOk, Step, Whole, Stream;
      var p := Exec(s0, es[..|es| - 1]).value;
      LogIsConserved(s0, es[..|es| - 1], p);
      StepKeeps(p, es[|es| - 1]);
    }
    WholeIsUsable(s);
  }

  lemma InitIsOk<B>(s: State<B>)
    requires Init(s)
    ensures LoggersOk(s) && QueuesOk(s)
    ensures forall i | 0 <= i < |s.loggers| :: Stream(s.loggers[i]) == []
  {
    forall i | 0 <= i < |s.loggers| ensures Fresh(s.loggers[i]) && Stream(s.loggers[i]) == [] {
      assert s.loggers[i] in s.loggers;
      assert Joined([[]][..0]) == [];
    }
  }

  /** The files never hold anything but a prefix of the accepted lines, and they hold all of them as soon as the
      logger is neither queued nor being written. */
  lemma FilesCatchUp<B>(s0: State<B>, es: seq<Event<B>>, s: State<B>, i: nat)
    requires Init(s0) && Exec(s0, es) == Some(s) && i < |s.loggers|
    ensures Joined(s.loggers[i].files) <= Accepted(es, i)
    ensures i !in s.queue && i !in s.batch ==> Joined(s.loggers[i].files) == Accepted(es, i)
  {
    LogIsConserved(s0, es, s);
    var l := s.loggers[i];
    assert Whole(l) && Stream(l) == Accepted(es, i);
    if i !in s.queue && i !in s.batch {
      assert Once(s.queue, i) == 0;
      assert l.toWrite[l.done..] == [];
    }
  }

  /** A logger is in the queue exactly once if it has news and otherwise not at all, and in the batch at most
      once; a back end asleep over a queue that is not empty has been notified. */
  lemma QueuedExactlyOnce<B>(s0: State<B>, es: seq<Event<B>>, s: State<B>, i: nat)
    requires Init(s0) && Exec(s0, es) == Some(s) && i < |s.loggers|
    ensures multiset(s.queue)[i] == if s.loggers[i].notEmpty then 1 else 0
    ensures multiset(s.batch)[i] <= 1
    ensures s.waiting && s.queue != [] ==> s.notified
  {
    LogIsConserved(s0, es, s);
    assert Once(s.queue, i) == multiset(s.queue)[i] && Once(s.batch, i) == multiset(s.batch)[i];
  }

  /** Every buffer of a logger has one owner, its spares are empty and distinct, and while the back end is at
      work it holds a written buffer for each spare it still owes. */
  lemma RecyclingIsSound<B>(s0: State<B>, es: seq<Event<B>>, s: State<B>, i: nat, b: B)
    requires Init(s0) && Exec(s0, es) == Some(s) && i < |s.loggers|
    ensures var l := s.loggers[i];
            && !l.fault && Count(l, b) <= 1
            && (Count(l, b) == 1 && (l.next == Some(b) || l.spare1 == Some(b) || l.spare2 == Some(b)) ==>
                  b in l.mem && l.mem[b] == [])
            && (if i in s.batch then Busy(l) else Resting(l))
  {
    LogIsConserved(s0, es, s);
    assert Whole(s.loggers[i]);
    if b !in s.loggers[i].mem {
      NotHeld(s.loggers[i], b);
    }
  }

  lemma NotHeld<B>(l: Logger<B>, b: B)
    requires Whole(l) && b !in l.mem
    ensures Count(l, b) == 0
  {
  }

  /* ---- the order of service, and how soon ---- */

  /** The loggers that a step queues, and the one it is done with. */
  function QueuedBy<B(==)>(s: State<B>, e: Event<B>): seq<nat> {
    match e
    case Append(id, _, _) => if id < |s.loggers| && !s.loggers[id].notEmpty then [id] else []
    case _ => []
  }

  function Queued<B(==)>(s0: State<B>, es: seq<Event<B>>): seq<nat> {
    if es == [] || Exec(s0, es[..|es| - 1]).None? then []
    else Queued(s0, es[..|es| - 1]) + QueuedBy(Exec(s0, es[..|es| - 1]).value, es[|es| - 1])
  }

  function Served<B(==)>(s0: State<B>, es: seq<Event<B>>): seq<nat> {
    if es == [] || Exec(s0, es[..|es| - 1]).None? then []
    else
      var batch := Exec(s0, es[..|es| - 1]).value.batch;
      Served(s0, es[..|es| - 1]) + if es[|es| - 1].RecycleOne? && batch != [] then [batch[0]] else []
  }

  lemma StepKeepsOrder<B>(s: State<B>, e: Event<B>, t: State<B>)
    requires Step(s, e) == Some(t) && (s.waiting ==> s.batch == [])
    ensures (if e.RecycleOne? then [s.batch[0]] else []) + (t.batch + t.queue) == (s.batch + s.queue) + QueuedBy(s, e)
    ensures e.RecycleOne? ==> s.batch != []
  {
    match e
    case RecycleOne =>
      hide Recycle;
      assert s.batch == [s.batch[0]] + s.batch[1..];
    case Append(_, _, _) => hide AppendLine;
    case _ => hide SwapThese, WriteNext;
  }

  /** The back end serves the loggers in the order in which they were queued, each once for each time. */
  lemma {:induction false} LoggersAreFifo<B>(s0: State<B>, es: seq<Event<B>>, s: State<B>)
    requires Init(s0) && Exec(s0, es) == Some(s)
    ensures Served(s0, es) + (s.batch + s.queue) == Queued(s0, es)
    decreases |es|
  {
    if es != [] {
      hide Step, QueuedBy, LoggersOk;
      var p, e := Exec(s0, es[..|es| - 1]).value, es[|es| - 1];
      LogIsConserved(s0, es[..|es| - 1], p);
      LoggersAreFifo(s0, es[..|es| - 1], p);
      StepKeepsOrder(p, e, s);
      Regroup(Served(s0, es[..|es| - 1]), if e.RecycleOne? then [p.batch[0]] else [], s.batch + s.queue);
      Regroup(Served(s0, es[..|es| - 1]), p.batch + p.queue, QueuedBy(p, e));
    }
  }

  /** A step on one logger keeps what is committed of it. */
  lemma OneStaysCommitted<B>(s: State<B>, e: Event<B>, t: State<B>, i: nat)
    requires LoggersOk(s) && QueuesOk(s) && Step(s, e) == Some(t) && LoggersOk(t) && i < |s.loggers| == |t.loggers|
    requires e.Append? || e.WriteOne? || e.RecycleOne?
    ensures Committed(t.loggers[i]) == Committed(s.loggers[i])
  {
    hide Whole, Committed, AppendLine, WriteNext, Recycle, MadeIfNeeded;
    assert Whole(s.loggers[i]) && Whole(t.loggers[i]);
    match e
    case Append(id, line, made) =>
      assert s.loggers[id] in s.loggers;
      if i == id {
        AppendKeepsCommitted(s.loggers[i], line, made);
      }
    case WriteOne(roll) =>
      assert s.batch[0] in s.batch && s.loggers[s.batch[0]] in s.loggers;
      if i == s.batch[0] {
        WriteKeepsCommitted(s.loggers[i], roll);
      }
    case RecycleOne =>
      assert s.batch[0] in s.batch && s.loggers[s.batch[0]] in s.loggers;
      if i == s.batch[0] {
        RecycleKeepsCommitted(s.loggers[i]);
      }
  }

  /** When the back end gets the lock, everything appended so far is committed. */
  lemma EnteringCommits<B>(s: State<B>, e: Event<B>, t: State<B>, i: nat)
    requires LoggersOk(s) && QueuesOk(s) && Step(s, e) == Some(t) && i < |s.loggers| && (e.Enter? || e.Wake?)
    ensures |t.loggers| == |s.loggers| && LoggersOk(t)
    ensures Committed(t.loggers[i]) == Stream(s.loggers[i]) && Committed(s.loggers[i]) <= Stream(s.loggers[i])
  {
    StepKeeps(s, e);
    assert Whole(s.loggers[i]) && Whole(t.loggers[i]) && Resting(s.loggers[i]);
    assert i in s.queue <==> Once(s.queue, i) > 0;
    assert Stream(t.loggers[i]) == Stream(s.loggers[i]) + Line(e, i);
    CommittedIsFirst(s.loggers[i]);
    NewsIsSwapped(s, e, t, i);
    hide Whole, Stream, Committed, Step, LoggersOk, QueuesOk;
    SwappedIsCommitted(t.loggers[i]);
  }

  lemma CommittedIsFirst<B>(l: Logger<B>)
    requires Whole(l)
    ensures Committed(l) <= Stream(l)
  {
  }

  lemma NewsIsSwapped<B>(s: State<B>, e: Event<B>, t: State<B>, i: nat)
    requires LoggersOk(s) && QueuesOk(s) && Step(s, e) == Some(t) && i < |s.loggers| == |t.loggers|
    requires e.Enter? || e.Wake?
    ensures !t.loggers[i].notEmpty
  {
    assert i in s.queue <==> Once(s.queue, i) > 0;
    hide Whole, Stream, LoggersOk;
  }

  lemma {:induction false} StaysCommitted<B>(s: State<B>, fs: seq<Event<B>>, u: State<B>, i: nat)
    requires LoggersOk(s) && QueuesOk(s) && Exec(s, fs) == Some(u) && i < |s.loggers|
    ensures |u.loggers| == |s.loggers| && LoggersOk(u) && QueuesOk(u)
    ensures Committed(s.loggers[i]) <= Committed(u.loggers[i])
    decreases |fs|
  {
    hide Whole, Committed, Stream, Step, QueuesOk;
    assert Whole(s.loggers[i]);
    if fs != [] {
      var p, e := Exec(s, fs[..|fs| - 1]).value, fs[|fs| - 1];
      StaysCommitted(s, fs[..|fs| - 1], p, i);
      StepKeeps(p, e);
      assert Whole(p.loggers[i]) && Whole(u.loggers[i]);
      if e.Enter? || e.Wake? {
        EnteringCommits(p, e, u, i);
      } else {
        OneStaysCommitted(p, e, u, i);
      }
    }
  }

  /** Promptness: once the back end has the lock, whatever was appended before is in the files by the time it is done
      with the logger, whatever front ends append meanwhile and however long it goes on. */
  lemma OneRoundWritesAll<B>(s0: State<B>, es: seq<Event<B>>, s: State<B>, e: Event<B>, t: State<B>,
                             fs: seq<Event<B>>, u: State<B>, i: nat)
    requires Init(s0) && Exec(s0, es) == Some(s) && i < |s.loggers|
    requires (e.Enter? || e.Wake?) && Step(s, e) == Some(t) && Exec(t, fs) == Some(u)
    ensures |u.loggers| == |s.loggers|
    ensures i !in u.batch ==> Accepted(es, i) <= Joined(u.loggers[i].files)
  {
    hide Step, Committed, Stream, Whole;
    LogIsConserved(s0, es, s);
    StepKeeps(s, e);
    EnteringCommits(s, e, t, i);
    StaysCommitted(t, fs, u, i);
    assert Whole(u.loggers[i]);
    if i !in u.batch {
      RestingIsCommitted(u.loggers[i]);
    }
  }

  /** How often the file of logger `i` has been rolled. */
  function Rolls<B(==)>(s0: State<B>, es: seq<Event<B>>, i: nat): nat {
    if es == [] || Exec(s0, es[..|es| - 1]).None? then 0
    else Rolls(s0, es[..|es| - 1], i) + if RollsFile(Exec(s0, es[..|es| - 1]).value, es[|es| - 1], i) then 1 else 0
  }

  predicate RollsFile<B>(s: State<B>, e: Event<B>, i: nat) {
    e == WriteOne(true) && s.batch != [] && s.batch[0] == i
  }

  lemma StepRolls<B>(s: State<B>, e: Event<B>, t: State<B>, i: nat)
    requires Step(s, e) == Some(t) && i < |s.loggers|
    ensures |t.loggers| == |s.loggers|
    ensures |t.loggers[i].files| == |s.loggers[i].files| + if RollsFile(s, e, i) then 1 else 0
  {
    hide AppendLine, Recycle, Swap;
    assert s.batch != [] ==> s.batch[0] in s.batch && s.loggers[s.batch[0]] in s.loggers;
    match e
    case Append(id, line, made) =>
      assert s.loggers[id] in s.loggers;
      AppendKeepsFiles(s.loggers[id], line, made);
    case WriteOne(_) =>
    case RecycleOne => RecycleKeepsFiles(s.loggers[s.batch[0]]);
    case _ =>
      assert s.loggers[i] in s.loggers;
      SwapKeepsFiles(s.loggers[i]);
  }

  /** Each roll begins one new file and nothing else does. */
  lemma {:induction false} OneFilePerRoll<B>(s0: State<B>, es: seq<Event<B>>, s: State<B>, i: nat)
    requires Init(s0) && Exec(s0, es) == Some(s) && i < |s0.loggers|
    ensures |s.loggers| == |s0.loggers| && |s.loggers[i].files| == 1 + Rolls(s0, es, i)
    decreases |es|
  {
    if es == [] {
      assert Fresh(s.loggers[i]);
    } else {
      hide Step, RollsFile;
      var p := Exec(s0, es[..|es| - 1]).value;
      OneFilePerRoll(s0, es[..|es| - 1], p, i);
      StepRolls(p, es[|es| - 1], s, i);
    }
  }
}
