/** The event loop object (nutty/base/EventLoop.cpp). Each method is one region that the source executes
    without letting another thread in, or a sequence of them on the loop thread; `trace` lists the steps of
    `EventLoopMachine` taken so far, so every theorem about runs holds of the object between any two calls. */
module EventLoopObject {
  import opened Wrappers
  import opened EventLoopMachine

  /** What `queueInLoop` on the loop thread does for each of `cbs` while a batch runs. */
  function PostSteps(cbs: seq<Functor>): seq<Event> {
    if cbs == [] then [] else PostSteps(cbs[..|cbs| - 1]) + [OwnPush(cbs[|cbs| - 1]), OwnWakeup]
  }

  function CallSteps(cb: Functor): seq<Event> {
    PostSteps(cb.posts) + if cb.quits then [OwnQuit] else []
  }

  function BatchSteps(cbs: seq<Functor>): seq<Event> {
    if cbs == [] then []
    else BatchSteps(cbs[..|cbs| - 1]) + [RunNext] + CallSteps(cbs[|cbs| - 1])
  }

  predicate SomeQuits(cbs: seq<Functor>) {
    exists i :: 0 <= i < |cbs| && cbs[i].quits
  }

  /** Everything that the functors `cbs` enqueue, in order. */
  function PostsOf(cbs: seq<Functor>): seq<Functor> {
    if cbs == [] then [] else PostsOf(cbs[..|cbs| - 1]) + cbs[|cbs| - 1].posts
  }

  class EventLoop {
    var quit: bool
    var callingPendingFunctors: bool
    var pendingFunctors: seq<Functor>
    var wakeupCounter: nat
    ghost var pc: Pc
    ghost var batch: seq<Functor>
    ghost var executed: seq<Functor>
    ghost var ownWakeupDue: bool
    ghost var inFlight: nat
    ghost var trace: seq<Event>

    ghost function View(): State
      reads this
    {
      State(pc, quit, callingPendingFunctors, pendingFunctors, batch, executed, wakeupCounter,
            ownWakeupDue, inFlight)
    }

    ghost predicate Valid()
      reads this
    {
      Exec(Init, trace) == Some(View())
    }

    /** Since the old state, exactly the steps `es` were taken. */
    twostate predicate Took(es: seq<Event>)
      reads this
    {
      trace == old(trace) + es && Exec(old(View()), es) == Some(View())
    }

    twostate predicate Untouched()
      reads this
    {
      pendingFunctors == old(pendingFunctors) && executed == old(executed)
    }

    constructor ()
      ensures Valid() && trace == [] && View() == Init
    {
      quit, callingPendingFunctors, pendingFunctors, wakeupCounter := false, false, [], 0;
      pc, batch, executed, ownWakeupDue, inFlight, trace := BeforeLoop, [], [], false, 0, [];
    }

    /** Records a step that the real fields have just taken. */
    ghost method Record(s: State, e: Event)
      requires Exec(Init, trace) == Some(s) && Step(s, e).Some?
      requires var t := Step(s, e).value;
               t.quit == quit && t.calling == callingPendingFunctors && t.pending == pendingFunctors &&
               t.counter == wakeupCounter
      modifies this`pc, this`batch, this`executed, this`ownWakeupDue, this`inFlight, this`trace
      ensures Valid() && trace == old(trace) + [e] && Some(View()) == Step(s, e)
    {
      hide Step;
      ExecSnoc(Init, trace, e);
      var t := Step(s, e).value;
      pc, batch, executed, ownWakeupDue, inFlight := t.pc, t.batch, t.executed, t.ownWakeupDue, t.inFlight;
      trace := trace + [e];
    }

    /** The critical section of `queueInLoop`. */
    method PushPending(cb: Functor, inLoopThread: bool)
      requires Valid() && (inLoopThread ==> OwnCodeRuns(View()))
      modifies this
      ensures Valid() && Took([if inLoopThread then OwnPush(cb) else OtherPush(cb)])
    {
      ghost var s := View();
      pendingFunctors := pendingFunctors + [cb];
      Record(s, if inLoopThread then OwnPush(cb) else OtherPush(cb));
      ExecSnoc(s, [], trace[|trace| - 1]);
    }

    method Wakeup(inLoopThread: bool)
      requires Valid() && if inLoopThread then ownWakeupDue else inFlight > 0
      modifies this
      ensures Valid() && Took([if inLoopThread then OwnWakeup else OtherWakeup])
      ensures 0 < wakeupCounter <= old(wakeupCounter) + 1 && wakeupCounter >= old(wakeupCounter)
    {
      ghost var s := View();
      if wakeupCounter + 1 <= EVENTFD_MAX {
        wakeupCounter := wakeupCounter + 1;
      }
      Record(s, if inLoopThread then OwnWakeup else OtherWakeup);
      ExecSnoc(s, [], trace[|trace| - 1]);
    }

    /** `quit()`, up to the `wakeup()` that a call from another thread still owes. */
    method RequestQuit(inLoopThread: bool)
      requires Valid() && (inLoopThread ==> OwnCodeRuns(View()))
      modifies this
      ensures Valid() && Took([if inLoopThread then OwnQuit else OtherQuit])
      ensures quit && pc == old(pc) && Untouched() && batch == old(batch) && ownWakeupDue == old(ownWakeupDue)
    {
      ghost var s := View();
      quit := true;
      Record(s, if inLoopThread then OwnQuit else OtherQuit);
      ExecSnoc(s, [], trace[|trace| - 1]);
    }

    /** The start of `loop()`. */
    method BeginLoop()
      requires Valid() && pc.BeforeLoop?
      modifies this
      ensures Valid() && Took([EnterLoop])
    {
      ghost var s := View();
      quit := false;
      Record(s, EnterLoop);
      ExecSnoc(s, [], EnterLoop);
    }

    method HandleWakeup()
      requires Valid() && pc == Handling(true)
      modifies this
      ensures Valid() && Took([EventLoopMachine.HandleWakeup])
      ensures wakeupCounter == 0 && pc == Handling(false) && Untouched() && quit == old(quit)
    {
      ghost var s := View();
      wakeupCounter := 0;
      Record(s, EventLoopMachine.HandleWakeup);
      ExecSnoc(s, [], EventLoopMachine.HandleWakeup);
    }

    /** `queueInLoop`: it wakes the loop if it is called from another thread or while functors are running. */
    method QueueInLoop(cb: Functor, inLoopThread: bool)
      requires Valid() && (inLoopThread ==> OwnCodeRuns(View()))
      modifies this
      ensures Valid() && (inLoopThread ==> OwnCodeRuns(View()))
      ensures Took(if !inLoopThread then [OtherPush(cb), OtherWakeup]
                   else if old(callingPendingFunctors) then [OwnPush(cb), OwnWakeup] else [OwnPush(cb)])
      ensures pendingFunctors == old(pendingFunctors) + [cb]
      ensures pc == old(pc) && batch == old(batch) && executed == old(executed) && quit == old(quit)
      ensures callingPendingFunctors == old(callingPendingFunctors)
    {
      ghost var s := View();
      PushPending(cb, inLoopThread);
      if !inLoopThread || callingPendingFunctors {
        ghost var e := trace[|trace| - 1];
        Wakeup(inLoopThread);
        ghost var f := trace[|trace| - 1];
        ExecConcat(s, [e], [f]);
        assert [e] + [f] == [e, f];
      }
    }

    /** The calls of `queueInLoop` that a functor makes. */
    method Post(cbs: seq<Functor>)
      requires Valid() && pc.RunningBatch? && !ownWakeupDue
      modifies this
      ensures Valid() && Took(PostSteps(cbs))
      ensures pendingFunctors == old(pendingFunctors) + cbs && quit == old(quit)
      ensures pc.RunningBatch? && !ownWakeupDue && batch == old(batch) && executed == old(executed)
    {
      hide Step;
      var i := 0;
      ghost var s := View();
      RunsKeepInvariant(trace);
      while i < |cbs|
        invariant 0 <= i <= |cbs|
        invariant Valid() && pc.RunningBatch? && !ownWakeupDue && callingPendingFunctors
        invariant batch == old(batch) && executed == old(executed) && quit == old(quit)
        invariant pendingFunctors == old(pendingFunctors) + cbs[..i]
        invariant trace == old(trace) + PostSteps(cbs[..i])
        invariant Exec(s, PostSteps(cbs[..i])) == Some(View())
      {
        QueueInLoop(cbs[i], true);
        assert cbs[..i + 1][..i] == cbs[..i];
        ExecConcat(s, PostSteps(cbs[..i]), [OwnPush(cbs[i]), OwnWakeup]);
        i := i + 1;
      }
      assert cbs[..i] == cbs;
    }

    /** `cb()`. */
    method Call(cb: Functor)
      requires Valid() && pc.RunningBatch? && !ownWakeupDue
      modifies this
      ensures Valid() && Took(CallSteps(cb))
      ensures pendingFunctors == old(pendingFunctors) + cb.posts && quit == (old(quit) || cb.quits)
      ensures pc.RunningBatch? && !ownWakeupDue && batch == old(batch) && executed == old(executed)
    {
      ghost var s := View();
      Post(cb.posts);
      if cb.quits {
        RequestQuit(true);
        ExecConcat(s, PostSteps(cb.posts), [OwnQuit]);
      } else {
        assert PostSteps(cb.posts) + [] == PostSteps(cb.posts);
      }
    }

    /** One turn of the loop in `doPendingFunctors`. */
    method RunNextFunctor(cb: Functor)
      requires Valid() && pc.RunningBatch? && !ownWakeupDue && batch != [] && batch[0] == cb
      modifies this
      ensures Valid() && pc.RunningBatch? && !ownWakeupDue
      ensures trace == old(trace) + [RunNext] + CallSteps(cb)
      ensures executed == old(executed) + [cb] && batch == old(batch)[1..]
      ensures pendingFunctors == old(pendingFunctors) + cb.posts && quit == (old(quit) || cb.quits)
    {
      Record(View(), RunNext);
      Call(cb);
    }

    /** The critical section of `doPendingFunctors`. */
    method SwapOut() returns (functors: seq<Functor>)
      requires Valid() && pc == Handling(false)
      modifies this
      ensures Valid() && trace == old(trace) + [SwapPending]
      ensures functors == old(pendingFunctors) && batch == functors && pendingFunctors == []
      ensures pc.RunningBatch? && !ownWakeupDue && executed == old(executed) && quit == old(quit)
    {
      RunsKeepInvariant(trace);
      ghost var s := View();
      callingPendingFunctors := true;
      functors := pendingFunctors;
      pendingFunctors := [];
      Record(s, SwapPending);
    }

    method FinishBatch()
      requires Valid() && pc.RunningBatch? && !ownWakeupDue && batch == []
      modifies this
      ensures Valid() && trace == old(trace) + [EndBatch]
      ensures pc.Checking? && !callingPendingFunctors && executed == old(executed)
      ensures pendingFunctors == old(pendingFunctors) && quit == old(quit)
    {
      ghost var s := View();
      callingPendingFunctors := false;
      Record(s, EndBatch);
    }

    /** One batch without interference: it runs exactly the functors that were pending, in order, leaves pending
        exactly what they enqueued, and asks to quit exactly if one of them does. */
    method DoPendingFunctors()
      requires Valid() && pc == Handling(false)
      modifies this
      ensures Valid() && pc.Checking? && !callingPendingFunctors
      ensures quit == (old(quit) || SomeQuits(old(pendingFunctors)))
      ensures executed == old(executed) + old(pendingFunctors)
      ensures pendingFunctors == PostsOf(old(pendingFunctors))
      ensures trace == old(trace) + [SwapPending] + BatchSteps(old(pendingFunctors)) + [EndBatch]
    {
      hide Valid, Exec, PostsOf, BatchSteps, CallSteps, SomeQuits;
      EmptyBatch();
      var functors := SwapOut();
      var i := 0;
      while i < |functors|
        invariant 0 <= i <= |functors|
        invariant Valid() && pc.RunningBatch? && !ownWakeupDue && batch == functors[i..]
        invariant executed == old(executed) + functors[..i] && quit == (old(quit) || SomeQuits(functors[..i]))
        invariant pendingFunctors == PostsOf(functors[..i])
        invariant trace == old(trace) + [SwapPending] + BatchSteps(functors[..i])
      {
        RunNextFunctor(functors[i]);
        TakeSnoc(functors, i);
        i := i + 1;
      }
      assert functors[..i] == functors;
      FinishBatch();
    }

    /** One turn of `loop()`, with no other thread in between: the poll reports the eventfd or not, the handlers
        queue `queued` and perhaps call `quit`, and the pending functors run. The loop goes on exactly if none of
        them, and nobody before them, called `quit`. */
    method LoopOnce(wakeupReported: bool, queued: seq<Functor>, quits: bool) returns (again: bool)
      requires Valid() && pc.Polling? && (wakeupReported ==> wakeupCounter > 0)
      modifies this
      ensures Valid() && pc == if again then Polling else Returned
      ensures again <==> !old(quit) && !quits && !SomeQuits(old(pendingFunctors) + queued)
      ensures executed == old(executed) + old(pendingFunctors) + queued
      ensures pendingFunctors == PostsOf(old(pendingFunctors) + queued)
    {
      hide PostsOf, SomeQuits, Valid, Exec, Step, Took;
      Poll(wakeupReported);
      if wakeupReported {
        HandleWakeup();
      }
      QueueFromHandlers(queued);
      if quits {
        RequestQuit(true);
      }
      DoPendingFunctors();
      again := TestQuit();
    }

    method Poll(wakeupReported: bool)
      requires Valid() && pc.Polling? && (wakeupReported ==> wakeupCounter > 0)
      modifies this
      ensures Valid() && Took([PollReturns(wakeupReported)])
      ensures pc == Handling(wakeupReported) && Untouched() && quit == old(quit)
    {
      ghost var s := View();
      Record(s, PollReturns(wakeupReported));
      ExecSnoc(s, [], PollReturns(wakeupReported));
    }

    /** The test of `while(!quit_)`. */
    method TestQuit() returns (again: bool)
      requires Valid() && pc.Checking?
      modifies this
      ensures Valid() && Took([CheckQuit]) && again == !old(quit)
      ensures pc == (if again then Polling else Returned) && Untouched()
    {
      ghost var s := View();
      again := !quit;
      Record(s, CheckQuit);
      ExecSnoc(s, [], CheckQuit);
    }

    method QueueFromHandlers(cbs: seq<Functor>)
      requires Valid() && pc == Handling(false)
      modifies this
      ensures Valid() && pc == Handling(false) && !ownWakeupDue && executed == old(executed)
      ensures pendingFunctors == old(pendingFunctors) + cbs && quit == old(quit)
    {
      hide Step;
      var i := 0;
      RunsKeepInvariant(trace);
      while i < |cbs|
        invariant 0 <= i <= |cbs|
        invariant Valid() && pc == Handling(false) && !ownWakeupDue && !callingPendingFunctors
        invariant pendingFunctors == old(pendingFunctors) + cbs[..i] && executed == old(executed)
        invariant quit == old(quit)
      {
        QueueInLoop(cbs[i], true);
        i := i + 1;
      }
    }
  }

  lemma EmptyBatch()
    ensures PostsOf([]) == [] && BatchSteps([]) == [] && !SomeQuits([])
  {
  }

  lemma TakeSnoc(cbs: seq<Functor>, i: nat)
    requires i < |cbs|
    ensures PostsOf(cbs[..i + 1]) == PostsOf(cbs[..i]) + cbs[i].posts
    ensures BatchSteps(cbs[..i + 1]) == BatchSteps(cbs[..i]) + [RunNext] + CallSteps(cbs[i])
    ensures SomeQuits(cbs[..i + 1]) <==> SomeQuits(cbs[..i]) || cbs[i].quits
  {
    hide CallSteps;
    assert cbs[..i + 1][..i] == cbs[..i] && cbs[..i + 1][i] == cbs[i];
  }
}
