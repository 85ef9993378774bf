/** The logging object (nutty/log/AsyncLogging.cpp) over real loggers, method by method; each method is what runs
    under one lock, or one buffer's worth of what runs outside it. A logger is named by its place in `loggers`.
    `trace` lists the steps of `AsyncLoggingMachine` taken since `start`. */
module AsyncLoggingObject {
  import opened Wrappers
  import opened Buffers
  import opened AsyncLoggerMachine
  import opened AsyncLoggingMachine
  import opened AsyncLoggerObject

  ghost predicate EachSound(ls: seq<AsyncLogger>)
    reads ls, set l, c | l in ls && c in l.chunks :: c
  {
    forall i | 0 <= i < |ls| :: ls[i].Sound()
  }

  /** The loggers and their buffers are different objects. */
  ghost predicate NoneShared(ls: seq<AsyncLogger>)
    reads ls
  {
    forall i, j | 0 <= i < j < |ls| :: ls[i] != ls[j] && ls[i].chunks !! ls[j].chunks
  }

  ghost predicate AllSound(ls: seq<AsyncLogger>)
    reads ls, set l, c | l in ls && c in l.chunks :: c
  {
    EachSound(ls) && NoneShared(ls)
  }

  ghost function Views(ls: seq<AsyncLogger>): (r: seq<Logger<Chunk>>)
    requires EachSound(ls)
    reads ls, set l, c | l in ls && c in l.chunks :: c
    ensures |r| == |ls| && forall i | 0 <= i < |ls| :: r[i] == ls[i].View()
  {
    if ls == [] then [] else Views(ls[..|ls| - 1]) + [ls[|ls| - 1].View()]
  }

  lemma StartsFresh(ls: seq<AsyncLogger>)
    requires EachSound(ls) && forall i | 0 <= i < |ls| :: Fresh(ls[i].View())
    ensures Init(State(Views(ls), [], [], false, false))
  {
    hide AsyncLogger.Sound, AsyncLogger.View, Fresh;
  }

  class AsyncLogging {
    const loggers: seq<AsyncLogger>
    var asyncLoggers: seq<nat>
    var toWrite: seq<nat>              // asyncLoggersToWrite, from the logger being written on
    ghost var waiting: bool
    ghost var notified: bool
    ghost var start: State<Chunk>
    ghost var trace: seq<Event<Chunk>>

    ghost function View(): State<Chunk>
      requires AllSound(loggers)
      reads this, loggers, set l, c | l in loggers && c in l.chunks :: c
    {
      State(Views(loggers), asyncLoggers, toWrite, waiting, notified)
    }

    ghost predicate Valid()
      reads this, loggers, set l, c | l in loggers && c in l.chunks :: c
    {
      AllSound(loggers) && Init(start) && Exec(start, trace) == Some(View())
    }

    constructor (ls: seq<AsyncLogger>)
      requires AllSound(ls) && forall i | 0 <= i < |ls| :: Fresh(ls[i].View())
      ensures Valid() && loggers == ls && trace == []
    {
      hide EachSound, NoneShared, Views, Fresh, Init;
      loggers, asyncLoggers, toWrite, waiting, notified := ls, [], [], false, false;
      start, trace := State(Views(ls), [], [], false, false), [];
      StartsFresh(ls);
    }

    ghost method Record(s: State<Chunk>, e: Event<Chunk>)
      requires AllSound(loggers) && Init(start) && Exec(start, trace) == Some(s) && Step(s, e) == Some(View())
      modifies this`trace
      ensures Valid() && trace == old(trace) + [e] && View() == old(View())
    {
      hide AllSound, Step, Init;
      ExecSnoc(start, trace, e);
      trace := trace + [e];
    }

    /** One logger has changed. */
    twostate lemma OneChanged(id: nat)
      requires id < |loggers| && old(AllSound(loggers)) && loggers[id].Sound()
      requires old(loggers[id].chunks) <= loggers[id].chunks && fresh(loggers[id].chunks - old(loggers[id].chunks))
      requires forall i | 0 <= i < |loggers| && i != id :: unchanged(loggers[i])
      requires forall i, c | 0 <= i < |loggers| && i != id && c in old(loggers[i].chunks) :: unchanged(c)
      ensures AllSound(loggers) && Views(loggers) == old(Views(loggers))[id := loggers[id].View()]
    {
    }

    /** What the machine proves of runs, for this object. */
    lemma InARun()
      requires Valid()
      ensures LoggersOk(View()) && QueuesOk(View()) && Runnable(View())
      ensures View().queue == asyncLoggers && View().batch == toWrite && View().waiting == waiting
      ensures waiting ==> toWrite == []
    {
      LogIsConserved(start, trace, View());
    }

    lemma FieldsAreViewed(l: AsyncLogger)
      requires l.Sound()
      ensures l.notEmpty == l.View().notEmpty && l.buffersToWrite == l.View().toWrite && l.done == l.View().done
      ensures l.files == l.View().files && l.currentBuffer in l.View().mem
    {
    }

    /* ---- front ends ---- */

    /** `append`. */
    method Append(id: nat, line: seq<byte>) returns (ghost made: Chunk)
      requires Valid() && id < |loggers|
      modifies this, loggers[id], loggers[id].chunks
      ensures Valid() && trace == old(trace) + [Event.Append(id, line, made)]
    {
      hide AllSound, View, Runnable, Usable, AppendTo, Step, Exec, Init;
      ghost var s := View();
      Named(s, id);
      made := AppendLocked(id, line);
      StepIsAppend(s, id, line, made);
      Record(s, Event.Append(id, line, made));
    }

    lemma Named(s: State<Chunk>, id: nat)
      requires Valid() && id < |loggers| && s == View()
      ensures Runnable(s) && |s.loggers| == |loggers| && Usable(s.loggers[id])
    {
      InARun();
      assert s.loggers[id] in s.loggers;
    }

    method AppendLocked(id: nat, line: seq<byte>) returns (ghost made: Chunk)
      requires AllSound(loggers) && id < |loggers| && Runnable(View()) && Usable(View().loggers[id])
      modifies this`asyncLoggers, this`notified, loggers[id], loggers[id].chunks
      ensures AllSound(loggers) && MadeIfNeeded(old(View()).loggers[id], line, made)
      ensures View() == AppendTo(old(View()), id, line, made)
    {
      hide AsyncLogger.Sound, AsyncLogger.View, AppendLine, Runnable;
      var logger := loggers[id];
      FieldsAreViewed(logger);
      var notEmpty := logger.notEmpty;
      made := logger.AppendToBuffer(line);
      OneChanged(id);
      if !notEmpty {
        Queue(id);
      }
    }

    /** The logger is queued, and a sleeping back end notified. */
    method Queue(id: nat)
      requires AllSound(loggers)
      modifies this`asyncLoggers, this`notified
      ensures AllSound(loggers)
      ensures View() == old(View()).(queue := old(View()).queue + [id],
                                     notified := old(View()).notified || old(View()).waiting)
    {
      hide AllSound, Views;
      asyncLoggers := asyncLoggers + [id];
      notified := notified || waiting;
    }

    /* ---- the back end ---- */

    /** `swapAsyncLoggersToWrite` up to the wait. */
    method EnterBackEnd()
      requires Valid() && toWrite == [] && !waiting
      modifies this, loggers
      ensures Valid() && trace == old(trace) + [Enter]
    {
      hide AllSound, View, LoggersOk, QueuesOk, Runnable, Step, Take, Exec, Init;
      ghost var s := View();
      InARun();
      if |asyncLoggers| == 0 {
        StepIsSleep(s);
        Sleep();
      } else {
        TakeFrom(s, Enter);
      }
      Record(s, Enter);
    }

    method Sleep()
      requires AllSound(loggers)
      modifies this`waiting
      ensures AllSound(loggers) && View() == old(View()).(waiting := true)
    {
      hide AllSound, Views;
      waiting := true;
    }

    /** The rest of it, after a wait that ended for whatever reason. */
    method WakeBackEnd()
      requires Valid() && waiting
      modifies this, loggers
      ensures Valid() && trace == old(trace) + [Wake]
    {
      hide AllSound, View, LoggersOk, QueuesOk, Runnable, Step, Exec, Init;
      ghost var s := View();
      InARun();
      TakeFrom(s, Wake);
      Record(s, Wake);
    }

    method TakeFrom(ghost s: State<Chunk>, ghost e: Event<Chunk>)
      requires AllSound(loggers) && s == View() && LoggersOk(s) && QueuesOk(s) && Runnable(s) && s.batch == []
      requires (e == Enter || e == Wake) && (s.waiting <==> e == Wake) && (s.waiting || s.queue != [])
      modifies this`asyncLoggers, this`toWrite, this`waiting, this`notified, loggers
      ensures AllSound(loggers) && Step(s, e) == Some(View())
    {
      hide AllSound, LoggersOk, QueuesOk, Runnable, Step, Take;
      StepIsTake(s, e);
      QueueIsTakeable(s);
      TakeLoggers();
    }

    method TakeLoggers()
      requires AllSound(loggers) && Takeable(Views(loggers), asyncLoggers) && toWrite == []
      modifies this`asyncLoggers, this`toWrite, this`waiting, this`notified, loggers
      ensures AllSound(loggers) && View() == Take(old(View()))
    {
      hide EachSound, NoneShared, Takeable, Views, SwapThese;
      TakeableHasCurrents(Views(loggers), asyncLoggers);
      toWrite, asyncLoggers := asyncLoggers, toWrite;
      waiting, notified := false, false;
      SwapAll();
    }

    lemma TakeableHasCurrents(ls: seq<Logger<Chunk>>, queue: seq<nat>)
      requires Takeable(ls, queue)
      ensures Currents(ls)
    {
    }

    /** The loop under the lock. */
    method SwapAll()
      requires AllSound(loggers) && Takeable(Views(loggers), toWrite)
      modifies loggers
      ensures AllSound(loggers) && Currents(old(Views(loggers)))
      ensures Views(loggers) == SwapThese(old(Views(loggers)), toWrite)
    {
      hide EachSound, NoneShared, Views, Swap, Resting, SwapThese;
      ghost var before := Views(loggers);
      NoneSwapped(before);
      var k := 0;
      while k < |toWrite|
        invariant k <= |toWrite| && AllSound(loggers)
        invariant Views(loggers) == SwapThese(before, toWrite[..k])
      {
        SwapOneMore(before, toWrite, k);
        SwapTurn(toWrite[k]);
        k := k + 1;
      }
      assert toWrite[..k] == toWrite;
    }

    lemma NoneSwapped(ls: seq<Logger<Chunk>>)
      requires Currents(ls)
      ensures SwapThese(ls, []) == ls
    {
    }

    method SwapTurn(i: nat)
      requires AllSound(loggers) && i < |loggers| && Resting(Views(loggers)[i])
      requires Views(loggers)[i].current in Views(loggers)[i].mem
      modifies loggers[i]
      ensures AllSound(loggers) && Views(loggers) == old(Views(loggers))[i := Swap(old(Views(loggers))[i])]
    {
      hide Swap, Resting, AsyncLogger.Sound, AsyncLogger.View;
      loggers[i].SwapBuffersToWrite();
      OneChanged(i);
    }

    /** The first logger of the batch, if there is one, as the machine knows it. */
    lemma Head(s: State<Chunk>)
      requires Valid() && toWrite != [] && s == View()
      ensures toWrite[0] < |loggers| && s.batch == toWrite && |s.loggers| == |loggers| && Runnable(s)
      ensures loggers[toWrite[0]].done <= |loggers[toWrite[0]].buffersToWrite| && loggers[toWrite[0]].files != []
      ensures loggers[toWrite[0]].done < |loggers[toWrite[0]].buffersToWrite| ==> CanWrite(s.loggers[toWrite[0]])
      ensures loggers[toWrite[0]].done == |loggers[toWrite[0]].buffersToWrite| ==> Done(s.loggers[toWrite[0]])
      ensures Busy(s.loggers[toWrite[0]])
    {
      InARun();
      assert toWrite[0] in toWrite;
      ViewedIsWhole(toWrite[0]);
    }

    lemma ViewedIsWhole(i: nat)
      requires AllSound(loggers) && LoggersOk(View()) && QueuesOk(View()) && i < |loggers|
      ensures (i in toWrite ==> Busy(View().loggers[i])) && loggers[i].files != []
      ensures loggers[i].done <= |loggers[i].buffersToWrite|
      ensures loggers[i].done < |loggers[i].buffersToWrite| <==> CanWrite(View().loggers[i])
      ensures loggers[i].done == |loggers[i].buffersToWrite| <==> Done(View().loggers[i])
    {
      FieldsAreViewed(loggers[i]);
      hide AsyncLogger.Sound, AsyncLogger.View;
    }

    /** One buffer of the first logger of the batch. */
    method WriteHead(roll: bool)
      requires Valid() && toWrite != [] && toWrite[0] < |loggers|
      requires loggers[toWrite[0]].done < |loggers[toWrite[0]].buffersToWrite|
      modifies this`trace, loggers[toWrite[0]]
      ensures Valid() && trace == old(trace) + [Event.WriteOne(roll)]
      ensures forall l | l in loggers :: l.chunks == old(l.chunks) && l.buffersToWrite == old(l.buffersToWrite)
      ensures loggers[toWrite[0]].done == old(loggers[toWrite[0]].done) + 1
    {
      hide AllSound, View, Runnable, Step, WriteNext, CanWrite, Busy, Done, Exec, Init;
      ghost var s := View();
      Head(s);
      StepIsWrite(s, roll);
      WriteTurn(toWrite[0], roll);
      Record(s, Event.WriteOne(roll));
    }

    method WriteTurn(i: nat, roll: bool)
      requires AllSound(loggers) && i < |loggers|
      requires loggers[i].done < |loggers[i].buffersToWrite| && loggers[i].files != []
      modifies loggers[i]
      ensures AllSound(loggers) && CanWrite(old(View()).loggers[i])
      ensures View() == old(View()).(loggers := old(View()).loggers[i := WriteNext(old(View()).loggers[i], roll)])
      ensures loggers[i].chunks == old(loggers[i].chunks) && loggers[i].buffersToWrite == old(loggers[i].buffersToWrite)
      ensures loggers[i].done == old(loggers[i].done) + 1
    {
      var logger := loggers[i];
      assert CanWrite(logger.View());
      FieldsAreViewed(logger);
      hide AsyncLogger.Sound, AsyncLogger.View;
      logger.WriteOne(logger.done, roll);
      FieldsAreViewed(logger);
      hide WriteNext;
      OneChanged(i);
    }

    /** The first logger of the batch is written: its buffers are recycled and it leaves the batch. */
    method RecycleHead()
      requires Valid() && toWrite != [] && toWrite[0] < |loggers|
      requires loggers[toWrite[0]].done == |loggers[toWrite[0]].buffersToWrite|
      modifies this`trace, this`toWrite, loggers[toWrite[0]], loggers[toWrite[0]].chunks
      ensures Valid() && trace == old(trace) + [RecycleOne] && toWrite == old(toWrite)[1..]
      ensures forall l | l in loggers :: l.chunks == old(l.chunks)
    {
      hide AllSound, View, Runnable, Step, Recycle, CanWrite, Busy, Done, Exec, Init;
      ghost var s := View();
      Head(s);
      StepIsRecycle(s);
      RecycleTurn();
      Record(s, RecycleOne);
    }

    method RecycleTurn()
      requires AllSound(loggers) && toWrite != [] && toWrite[0] < |loggers| && Busy(View().loggers[toWrite[0]])
      requires loggers[toWrite[0]].done == |loggers[toWrite[0]].buffersToWrite|
      modifies this`toWrite, loggers[toWrite[0]], loggers[toWrite[0]].chunks
      ensures AllSound(loggers) && toWrite == old(toWrite)[1..]
      ensures View() == old(View()).(loggers := old(View()).loggers[old(toWrite[0]) :=
                                                                    Recycle(old(View()).loggers[old(toWrite[0])])],
                                     batch := old(View()).batch[1..])
      ensures loggers[old(toWrite[0])].chunks == old(loggers[toWrite[0]].chunks)
    {
      hide AsyncLogger.Sound, AsyncLogger.View, Recycle, Busy;
      var i := toWrite[0];
      loggers[i].RecycleBuffers();
      OneChanged(i);
      toWrite := toWrite[1..];
    }

    /** The loop of `threadFunc` over one batch, if the back end is not interrupted: it ends, and only it has
        taken steps. */
    method WorkOff()
      requires Valid()
      modifies this`trace, this`toWrite, loggers, set l, c | l in loggers && c in l.chunks :: c
      ensures Valid() && toWrite == [] && old(trace) <= trace
    {
      hide AllSound, View;
      while |toWrite| > 0
        invariant Valid() && old(trace) <= trace && forall l | l in loggers :: l.chunks == old(l.chunks)
        decreases |toWrite|
      {
        Head(View());
        WriteAll();
        RecycleHead();
      }
    }

    /** The loop of `appendBuffers_unlocked` for the first logger. */
    method WriteAll()
      requires Valid() && toWrite != [] && toWrite[0] < |loggers|
      modifies this`trace, loggers
      ensures Valid() && old(trace) <= trace && forall l | l in loggers :: l.chunks == old(l.chunks)
      ensures loggers[toWrite[0]].done == |loggers[toWrite[0]].buffersToWrite|
    {
      hide AllSound, View, Init, Exec, Runnable, CanWrite, Busy, Done;
      var logger := loggers[toWrite[0]];
      assert logger in loggers;
      Head(View());
      while logger.done < |logger.buffersToWrite|
        invariant Valid() && old(trace) <= trace && forall l | l in loggers :: l.chunks == old(l.chunks)
        invariant logger.done <= |logger.buffersToWrite|
        decreases |logger.buffersToWrite| - logger.done
      {
        var roll: bool := *;
        WriteHead(roll);
      }
    }
  }
}
