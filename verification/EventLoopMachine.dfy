/** The hand-off of functors to an event loop (nutty/base/EventLoop.cpp) as a step system.

    One loop thread and any number of other threads take atomic steps in any order. `queueInLoop` and
    `quit` called from another thread are two steps, the write of the shared field and the write of the
    eventfd; everything may happen in between. */
module EventLoopMachine {
  import opened Arithmetic
  import opened Wrappers

  /** A queued callback. Running it calls `queueInLoop`, on the loop thread, for each of `posts`, and then perhaps
      `quit`. */
  datatype Functor = Functor(id: int, posts: seq<Functor>, quits: bool)

  /** Where the loop thread is. `Handling(true)` means that the poll reported the eventfd as readable
      and its handler has not run yet. */
  datatype Pc = BeforeLoop | Checking | Polling | Handling(wakeupDue: bool) | RunningBatch | Returned

  datatype State = State(
    pc: Pc,
    quit: bool,
    calling: bool,              // callingPendingFunctors_
    pending: seq<Functor>,      // pendingFunctors_
    batch: seq<Functor>,        // the swapped vector, from the next functor to run
    executed: seq<Functor>,
    counter: nat,               // the eventfd's counter
    ownWakeupDue: bool,         // the loop thread is inside queueInLoop, before wakeup()
    inFlight: nat               // other threads between their first step and their wakeup()
  )

  datatype Event =
    | OtherPush(cb: Functor) | OtherQuit | OtherWakeup
    | EnterLoop | CheckQuit | PollReturns(wakeupReported: bool) | HandleWakeup
    | OwnPush(cb: Functor) | OwnQuit | OwnWakeup
    | SwapPending | RunNext | EndBatch

  const Init := State(BeforeLoop, false, false, [], [], [], 0, false, 0)

  /** The largest value an eventfd counter holds; a write that would exceed it changes nothing. */
  const EVENTFD_MAX: nat := 0xFFFF_FFFF_FFFF_FFFE

  function EventfdWrite(counter: nat): nat {
    if counter + 1 <= EVENTFD_MAX then counter + 1 else counter
  }

  /** User code runs on the loop thread: before `loop()`, in event handlers and in functors. */
  predicate OwnCodeRuns(s: State) {
    !s.ownWakeupDue && (s.pc.BeforeLoop? || s.pc.Handling? || s.pc.RunningBatch?)
  }

  function Step(s: State, e: Event): (r: Option<State>) {
    match e
    case OtherPush(cb) => Some(s.(pending := s.pending + [cb], inFlight := s.inFlight + 1))
    case OtherQuit => Some(s.(quit := true, inFlight := s.inFlight + 1))
    case OtherWakeup =>
      if s.inFlight == 0 then None
      else Some(s.(inFlight := s.inFlight - 1, counter := EventfdWrite(s.counter)))
    case EnterLoop => if s.pc.BeforeLoop? then Some(s.(pc := Checking, quit := false)) else None
    case CheckQuit =>
      if s.pc.Checking? then Some(s.(pc := if s.quit then Returned else Polling)) else None
    case PollReturns(reported) =>
      if s.pc.Polling? && (reported ==> s.counter > 0) then Some(s.(pc := Handling(reported))) else None
    case HandleWakeup =>
      if s.pc == Handling(true) then Some(s.(pc := Handling(false), counter := 0)) else None
    case OwnPush(cb) =>
      if OwnCodeRuns(s) then Some(s.(pending := s.pending + [cb], ownWakeupDue := s.calling)) else None
    case OwnQuit => if OwnCodeRuns(s) then Some(s.(quit := true)) else None
    case OwnWakeup =>
      if s.ownWakeupDue then Some(s.(ownWakeupDue := false, counter := EventfdWrite(s.counter))) else None
    case SwapPending =>
      if s.pc == Handling(false) then
        Some(s.(pc := RunningBatch, calling := true, batch := s.pending, pending := []))
      else None
    case RunNext =>
      if s.pc.RunningBatch? && !s.ownWakeupDue && s.batch != [] then
        Some(s.(executed := s.executed + [s.batch[0]], batch := s.batch[1..]))
      else None
    case EndBatch =>
      if s.pc.RunningBatch? && !s.ownWakeupDue && s.batch == [] then
        Some(s.(pc := Checking, calling := false))
      else None
  }

  /** The state after the events in order, if every one of them can happen. */
  function Exec(s: State, es: seq<Event>): (r: Option<State>) {
    if es == [] then Some(s)
    else
      match Exec(s, es[..|es| - 1])
      case None => None
      case Some(p) => Step(p, es[|es| - 1])
  }

  lemma ExecSnoc(s: State, es: seq<Event>, e: Event)
    ensures Exec(s, es + [e]) == match Exec(s, es) case None => None case Some(p) => Step(p, e)
  {
    assert (es + [e])[..|es|] == es;
  }

  lemma {:induction false} ExecConcat(s: State, es: seq<Event>, fs: seq<Event>)
    requires Exec(s, es).Some?
    ensures Exec(s, es + fs) == Exec(Exec(s, es).value, fs)
    decreases |fs|
  {
    if fs == [] {
      assert es + fs == es;
    } else {
      var k := |fs| - 1;
      ExecConcat(s, es, fs[..k]);
      assert es + fs == (es + fs[..k]) + [fs[k]];
      ExecSnoc(s, es + fs[..k], fs[k]);
    }
  }

  /** Every functor enqueued by the run, in mutex order. */
  function Pushed(es: seq<Event>): (cbs: seq<Functor>) {
    if es == [] then []
    else
      var e := es[|es| - 1];
      Pushed(es[..|es| - 1]) + if e.OtherPush? || e.OwnPush? then [e.cb] else []
  }

  /** No poll has returned yet. */
  predicate FirstRound(es: seq<Event>) {
    forall i | 0 <= i < |es| :: !es[i].PollReturns?
  }

  /** Some other thread has begun a `queueInLoop` or a `quit`. */
  predicate OtherThreadCalled(es: seq<Event>) {
    exists i | 0 <= i < |es| :: es[i].OtherPush? || es[i].OtherQuit?
  }

  predicate WakeupComing(s: State) {
    s.counter > 0 || s.inFlight > 0 || s.ownWakeupDue
  }

  /** The loop is blocked, or about to block, with nothing to wake it but the poll's timeout. */
  predicate Sleeping(s: State) {
    s.pc.Polling? && s.counter == 0 && s.inFlight == 0
  }

  ghost predicate Invariant(s: State, es: seq<Event>) {
    && s.executed + s.batch + s.pending == Pushed(es)
    && (s.calling <==> s.pc.RunningBatch?)
    && (!s.pc.RunningBatch? ==> s.batch == [])
    && (s.ownWakeupDue ==> s.calling)
    && (s.pc.BeforeLoop? ==> FirstRound(es))
    && (s.pc.Handling? || s.pc.RunningBatch? ==> !FirstRound(es))
    && (FirstRound(es) ==> (WakeupComing(s) <==> OtherThreadCalled(es)))
    && (!FirstRound(es) && !s.pc.Handling? && s.pending != [] ==> WakeupComing(s))
    && (s.pc.Polling? && s.quit ==> WakeupComing(s))
  }

  lemma HistoriesSnoc(es: seq<Event>, e: Event)
    ensures FirstRound(es + [e]) <==> FirstRound(es) && !e.PollReturns?
    ensures OtherThreadCalled(es + [e]) <==> OtherThreadCalled(es) || e.OtherPush? || e.OtherQuit?
    ensures Pushed(es + [e]) == Pushed(es) + if e.OtherPush? || e.OwnPush? then [e.cb] else []
  {
    var fs := es + [e];
    assert fs[..|es|] == es && fs[|es|] == e;
    assert forall i | 0 <= i < |es| :: fs[i] == es[i];
    if OtherThreadCalled(es) {
      var i :| 0 <= i < |es| && (es[i].OtherPush? || es[i].OtherQuit?);
      assert fs[i] == es[i];
    }
  }

  lemma StepKeepsInvariant(s: State, es: seq<Event>, e: Event)
    requires Invariant(s, es) && Step(s, e).Some?
    ensures Invariant(Step(s, e).value, es + [e])
  {
    HistoriesSnoc(es, e);
    hide FirstRound, OtherThreadCalled, Pushed;
    var t := Step(s, e).value;
    match e
    case RunNext => assert s.batch == [s.batch[0]] + s.batch[1..];
    case OtherPush(cb) => assert t.executed + t.batch + t.pending == s.executed + s.batch + s.pending + [cb];
    case OwnPush(cb) => assert t.executed + t.batch + t.pending == s.executed + s.batch + s.pending + [cb];
    case _ =>
  }

  lemma {:induction false} RunsKeepInvariant(es: seq<Event>)
    requires Exec(Init, es).Some?
    ensures Invariant(Exec(Init, es).value, es)
  {
    if es != [] {
      var k := |es| - 1;
      RunsKeepInvariant(es[..k]);
      StepKeepsInvariant(Exec(Init, es[..k]).value, es[..k], es[k]);
      assert es[..k] + [es[k]] == es;
    }
  }

  /** Functors run once each, in the order in which they were enqueued, at every point of every run. */
  lemma FunctorsAreFifo(es: seq<Event>, s: State)
    requires Exec(Init, es) == Some(s)
    ensures s.executed + s.batch + s.pending == Pushed(es)
    ensures s.pc.Polling? ==> s.executed + s.pending == Pushed(es)
  {
    RunsKeepInvariant(es);
  }

  /** No lost wakeup, and exactly when there is one: the loop can sleep on a non-empty queue only in its
      first poll, and only when the queue was filled by the loop's own thread before `loop()` and no other
      thread has called in. */
  lemma LostWakeupExactly(es: seq<Event>, s: State)
    requires Exec(Init, es) == Some(s) && s.pc.Polling?
    ensures Sleeping(s) && s.pending != [] <==>
            s.pending != [] && FirstRound(es) && !OtherThreadCalled(es)
    ensures s.quit ==> !Sleeping(s)
  {
    RunsKeepInvariant(es);
  }

  /** The run that loses a wakeup: the loop's thread queues a functor and then enters `loop()`. */
  lemma QueueBeforeLoopIsLost(cb: Functor)
    ensures exists s :: Exec(Init, [OwnPush(cb), EnterLoop, CheckQuit]) == Some(s) && Sleeping(s) && s.pending == [cb]
  {
    var s1 := Step(Init, OwnPush(cb)).value;
    var s2 := Step(s1, EnterLoop).value;
    var s3 := Step(s2, CheckQuit).value;
    var e1, e2, e3 := [OwnPush(cb)], [OwnPush(cb), EnterLoop], [OwnPush(cb), EnterLoop, CheckQuit];
    ExecSnoc(Init, [], OwnPush(cb));
    assert [] + [OwnPush(cb)] == e1;
    ExecSnoc(Init, e1, EnterLoop);
    assert e1 + [EnterLoop] == e2;
    ExecSnoc(Init, e2, CheckQuit);
    assert e2 + [CheckQuit] == e3;
    assert Exec(Init, e3) == Some(s3) && s3.pending == [cb];
  }

  /** What is still owed, at state `s`, of a promise to execute the first `n` functors that starts when a
      poll returns. */
  ghost predicate Served(s: State, n: nat) {
    match s.pc
    case RunningBatch => n <= |s.executed| + |s.batch|
    case Handling(_) => n <= |s.executed| + |s.pending|
    case _ => n <= |s.executed|
  }

  lemma StepKeepsServed(s: State, es: seq<Event>, e: Event, n: nat)
    requires Invariant(s, es) && Step(s, e).Some? && !s.pc.BeforeLoop? && Served(s, n)
    ensures !Step(s, e).value.pc.BeforeLoop? && Served(Step(s, e).value, n)
  {
    match e
    case RunNext => assert |s.batch| == 1 + |s.batch[1..]|;
    case _ =>
  }

  lemma {:induction false} ServedIsKept(es: seq<Event>, s: State, fs: seq<Event>, t: State, n: nat)
    requires Exec(Init, es) == Some(s) && Exec(s, fs) == Some(t)
    requires !s.pc.BeforeLoop? && Served(s, n)
    ensures !t.pc.BeforeLoop? && Served(t, n)
    decreases |fs|
  {
    if fs != [] {
      var k := |fs| - 1;
      var p := Exec(s, fs[..k]).value;
      ServedIsKept(es, s, fs[..k], p, n);
      ExecConcat(Init, es, fs[..k]);
      RunsKeepInvariant(es + fs[..k]);
      StepKeepsServed(p, es + fs[..k], fs[k], n);
    }
  }

  /** Promptness: whatever was queued when a poll returns has been executed, in order, by the time the
      loop polls again or leaves, whatever the other threads do in between. */
  lemma OnePollServesTheQueue(es: seq<Event>, s: State, reported: bool, fs: seq<Event>, t: State)
    requires Exec(Init, es) == Some(s) && s.pc.Polling?
    requires Step(s, PollReturns(reported)).Some?
    requires Exec(Step(s, PollReturns(reported)).value, fs) == Some(t)
    requires t.pc.Polling? || t.pc.Returned?
    ensures Pushed(es) <= t.executed
  {
    var s1 := Step(s, PollReturns(reported)).value;
    ExecSnoc(Init, es, PollReturns(reported));
    var es1 := es + [PollReturns(reported)];
    RunsKeepInvariant(es);
    RunsKeepInvariant(es1);
    ServedIsKept(es1, s1, fs, t, |Pushed(es)|);
    ExecutedOnlyGrows(s1, fs, t);
    HistoriesSnoc(es, PollReturns(reported));
    PushedOnlyGrows(es1, fs);
    ExecConcat(Init, es1, fs);
    RunsKeepInvariant(es1 + fs);
    assert t.executed <= Pushed(es1 + fs);
  }

  lemma {:induction false} ExecutedOnlyGrows(s: State, fs: seq<Event>, t: State)
    requires Exec(s, fs) == Some(t)
    ensures s.executed <= t.executed
    decreases |fs|
  {
    if fs != [] {
      ExecutedOnlyGrows(s, fs[..|fs| - 1], Exec(s, fs[..|fs| - 1]).value);
    }
  }

  lemma {:induction false} PushedOnlyGrows(es: seq<Event>, fs: seq<Event>)
    ensures Pushed(es) <= Pushed(es + fs)
    decreases |fs|
  {
    if fs == [] {
      assert es + fs == es;
    } else {
      var k := |fs| - 1;
      PushedOnlyGrows(es, fs[..k]);
      assert es + fs == (es + fs[..k]) + [fs[k]];
      HistoriesSnoc(es + fs[..k], fs[k]);
    }
  }

  lemma BatchStep(p: State, e: Event, t: State)
    requires p.pc.RunningBatch? && Step(p, e) == Some(t) && !e.EndBatch?
    ensures t.pc.RunningBatch? && t.executed + t.batch == p.executed + p.batch
    ensures t.pending == p.pending + if e.OtherPush? || e.OwnPush? then [e.cb] else []
  {
    match e
    case RunNext => assert p.batch == [p.batch[0]] + p.batch[1..];
    case _ =>
  }

  /** A batch is closed at its swap: between `SwapPending` and `EndBatch` exactly the swapped functors are
      executed, and everything enqueued meanwhile, by functors or by other threads, stays pending. */
  lemma {:induction false} BatchIsWhatWasSwapped(s: State, fs: seq<Event>, t: State)
    requires s.pc.RunningBatch? && Exec(s, fs) == Some(t)
    requires forall i | 0 <= i < |fs| :: !fs[i].EndBatch?
    ensures t.pc.RunningBatch? && t.executed + t.batch == s.executed + s.batch
    ensures t.pending == s.pending + Pushed(fs)
    decreases |fs|
  {
    if fs != [] {
      var k := |fs| - 1;
      var p := Exec(s, fs[..k]).value;
      BatchIsWhatWasSwapped(s, fs[..k], p);
      BatchStep(p, fs[k], t);
    }
  }

  /* ---- quitting ---- */

  predicate Quits(e: Event) {
    e.OtherQuit? || e.OwnQuit?
  }

  /** `quit()` was called at step `k` and `loop()` not entered after it. */
  predicate QuitStands(es: seq<Event>, k: nat) {
    k < |es| && Quits(es[k]) && forall j | k < j < |es| :: !es[j].EnterLoop?
  }

  ghost predicate SomeQuitStands(es: seq<Event>) {
    exists k: nat :: QuitStands(es, k)
  }

  lemma QuitStandsSnoc(es: seq<Event>, e: Event)
    ensures SomeQuitStands(es + [e]) <==> Quits(e) || (SomeQuitStands(es) && !e.EnterLoop?)
  {
    var fs := es + [e];
    if k: nat :| QuitStands(es, k) {
      assert !e.EnterLoop? ==> QuitStands(fs, k);
    }
    if k: nat :| QuitStands(fs, k) && k < |es| {
      assert fs[|es|] == e;
      assert forall j | k < j < |es| :: fs[j] == es[j];
      assert QuitStands(es, k);
    }
    assert Quits(e) ==> QuitStands(fs, |es|);
  }

  lemma QuitStep(s: State, e: Event, t: State)
    requires Step(s, e) == Some(t)
    ensures t.quit <==> Quits(e) || (s.quit && !e.EnterLoop?)
    ensures !s.pc.BeforeLoop? ==> !t.pc.BeforeLoop? && !e.EnterLoop?
    ensures !s.pc.BeforeLoop? && s.quit ==>
              && (t.pc.Polling? ==> s.pc.Polling? && !e.PollReturns?)
              && (e == CheckQuit || s.pc.Returned? ==> t.pc.Returned?)
  {
  }

  /** In every run the flag is set if and only if some thread called `quit()` after `loop()` was last entered, or
      called it and `loop()` was not entered at all. */
  lemma {:induction false} QuitExactly(es: seq<Event>, s: State)
    requires Exec(Init, es) == Some(s)
    ensures s.quit <==> exists k: nat :: QuitStands(es, k)
    decreases |es|
  {
    if es == [] {
      assert !SomeQuitStands(es);
    } else {
      hide Step, QuitStands;
      var front, e := es[..|es| - 1], es[|es| - 1];
      QuitExactly(front, Exec(Init, front).value);
      QuitStep(Exec(Init, front).value, e, s);
      assert front + [e] == es;
      QuitStandsSnoc(front, e);
    }
  }

  /** Some thread calls `quit()` in these steps. */
  predicate QuitIn(fs: seq<Event>) {
    exists k :: 0 <= k < |fs| && Quits(fs[k])
  }

  lemma QuitInSnoc(fs: seq<Event>, e: Event)
    ensures QuitIn(fs + [e]) <==> QuitIn(fs) || Quits(e)
  {
    assert (fs + [e])[|fs|] == e && forall k | 0 <= k < |fs| :: (fs + [e])[k] == fs[k];
  }

  lemma {:induction false} FlagSince(u: State, fs: seq<Event>, t: State)
    requires !u.pc.BeforeLoop? && Exec(u, fs) == Some(t)
    ensures !t.pc.BeforeLoop? && (t.quit <==> u.quit || QuitIn(fs))
    decreases |fs|
  {
    hide Step;
    if fs == [] {
      assert !QuitIn(fs);
    } else {
      hide QuitIn;
      var front, e := fs[..|fs| - 1], fs[|fs| - 1];
      var p := Exec(u, front).value;
      FlagSince(u, front, p);
      QuitStep(p, e, t);
      QuitInSnoc(front, e);
      assert front + [e] == fs;
    }
  }

  /** A `quit()` before `loop()` is forgotten and one after it is not: whatever came before `loop()` was entered,
      at any point after it the flag tells exactly whether `quit()` was called since. */
  lemma QuitCountsFromLoop(es: seq<Event>, s: State, fs: seq<Event>, t: State)
    requires Exec(Init, es) == Some(s) && Step(s, EnterLoop).Some?
    requires Exec(Step(s, EnterLoop).value, fs) == Some(t)
    ensures t.quit <==> QuitIn(fs)
  {
    FlagSince(Step(s, EnterLoop).value, fs, t);
  }

  /** The run that forgets a `quit()`: it comes before `loop()`, which then polls. */
  lemma QuitBeforeLoopIsForgotten()
    ensures exists t :: Exec(Init, [OwnQuit, EnterLoop, CheckQuit]) == Some(t) && t.pc.Polling? && !t.quit
  {
    var e1, e2, e3 := [OwnQuit], [OwnQuit, EnterLoop], [OwnQuit, EnterLoop, CheckQuit];
    ExecSnoc(Init, [], OwnQuit);
    ExecSnoc(Init, e1, EnterLoop);
    ExecSnoc(Init, e2, CheckQuit);
    assert [] + [OwnQuit] == e1 && e1 + [EnterLoop] == e2 && e2 + [CheckQuit] == e3;
  }

  /** Once `quit()` has been called after `loop()` was entered, no further poll begins in any continuation: the
      loop is polling only while the poll in progress has not returned, and that one has a wakeup coming. */
  lemma {:induction false} QuitEndsTheLoop(es: seq<Event>, s: State, fs: seq<Event>, t: State)
    requires Exec(Init, es) == Some(s) && !s.pc.BeforeLoop? && s.quit && Exec(s, fs) == Some(t)
    ensures t.quit && !t.pc.BeforeLoop?
    ensures t.pc.Polling? ==> s.pc.Polling? && FirstRound(fs) && WakeupComing(t)
    ensures forall k | 0 <= k < |fs| && fs[k] == CheckQuit :: t.pc.Returned?
    decreases |fs|
  {
    hide Step;
    if fs == [] {
      RunsKeepInvariant(es);
    } else {
      var front, e := fs[..|fs| - 1], fs[|fs| - 1];
      var p := Exec(s, front).value;
      QuitEndsTheLoop(es, s, front, p);
      QuitStep(p, e, t);
      assert front + [e] == fs;
      HistoriesSnoc(front, e);
      hide FirstRound, WakeupComing, OtherThreadCalled, Pushed;
      assert es + fs == (es + front) + [e];
      ExecConcat(Init, es, fs);
      RunsKeepInvariant(es + fs);
      assert forall k | 0 <= k < |front| :: fs[k] == front[k];
    }
  }

  /* ---- the eventfd ---- */

  predicate IsWakeup(e: Event) {
    e.OwnWakeup? || e.OtherWakeup?
  }

  /** How often the eventfd was written since it was last read. */
  function WakeupsSinceRead(es: seq<Event>): (n: nat) {
    if es == [] || es[|es| - 1].HandleWakeup? then 0
    else WakeupsSinceRead(es[..|es| - 1]) + if IsWakeup(es[|es| - 1]) then 1 else 0
  }

  /** How many calls from other threads have written the shared field, and how many of them the eventfd too. */
  function OtherCalls(es: seq<Event>): (n: nat) {
    if es == [] then 0
    else OtherCalls(es[..|es| - 1]) + if es[|es| - 1].OtherPush? || es[|es| - 1].OtherQuit? then 1 else 0
  }

  function OtherWakeups(es: seq<Event>): (n: nat) {
    if es == [] then 0 else OtherWakeups(es[..|es| - 1]) + if es[|es| - 1].OtherWakeup? then 1 else 0
  }

  lemma EventfdStep(s: State, e: Event, t: State)
    requires Step(s, e) == Some(t)
    ensures t.counter == if e.HandleWakeup? then 0
                         else if IsWakeup(e) && s.counter < EVENTFD_MAX then s.counter + 1 else s.counter
    ensures t.inFlight + (if e.OtherWakeup? then 1 else 0) ==
            s.inFlight + if e.OtherPush? || e.OtherQuit? then 1 else 0
  {
  }

  /** In every interleaving the eventfd holds the number of writes since its last read, as far as it can count,
      and every call from another thread is on its way to its one write or has made it. */
  lemma {:induction false} CounterExactly(es: seq<Event>, s: State)
    requires Exec(Init, es) == Some(s)
    ensures s.counter == Min(WakeupsSinceRead(es), 0xFFFF_FFFF_FFFF_FFFE)
    ensures s.inFlight + OtherWakeups(es) == OtherCalls(es)
    decreases |es|
  {
    if es != [] {
      hide Step;
      var p := Exec(Init, es[..|es| - 1]).value;
      CounterExactly(es[..|es| - 1], p);
      EventfdStep(p, es[|es| - 1], s);
    }
  }

  /** A poll blocks exactly if nobody has written the eventfd since it was last read and nobody is about to: one
      read stops all that came before it from keeping the loop awake. */
  lemma SleepsExactly(es: seq<Event>, s: State)
    requires Exec(Init, es) == Some(s) && s.pc.Polling?
    ensures Sleeping(s) <==> WakeupsSinceRead(es) == 0 && OtherCalls(es) == OtherWakeups(es)
    ensures s.counter > 0 <==> WakeupsSinceRead(es) > 0
  {
    CounterExactly(es, s);
  }

  function Reports(es: seq<Event>): (n: nat) {
    if es == [] then 0 else Reports(es[..|es| - 1]) + if es[|es| - 1] == PollReturns(true) then 1 else 0
  }

  function Reads(es: seq<Event>): (n: nat) {
    if es == [] then 0 else Reads(es[..|es| - 1]) + if es[|es| - 1].HandleWakeup? then 1 else 0
  }

  lemma ReportStep(s: State, e: Event, t: State)
    requires Step(s, e) == Some(t)
    ensures (if e.HandleWakeup? then 1 else 0) + (if t.pc == Handling(true) then 1 else 0) ==
            (if s.pc == Handling(true) then 1 else 0) + if e == PollReturns(true) then 1 else 0
  {
  }

  /** The eventfd is read once for each poll that reports it, before the batch of that turn. */
  lemma {:induction false} EachReportIsRead(es: seq<Event>, s: State)
    requires Exec(Init, es) == Some(s)
    ensures Reads(es) + (if s.pc == Handling(true) then 1 else 0) == Reports(es)
    decreases |es|
  {
    if es != [] {
      hide Step;
      var p := Exec(Init, es[..|es| - 1]).value;
      EachReportIsRead(es[..|es| - 1], p);
      ReportStep(p, es[|es| - 1], s);
    }
  }

  /** The loop returns only because of a `quit()`. */
  lemma {:induction false} ReturnsOnlyOnQuit(es: seq<Event>, s: State)
    requires Exec(Init, es) == Some(s) && s.pc.Returned?
    ensures s.quit && exists k: nat :: QuitStands(es, k)
    decreases |es|
  {
    var p := Exec(Init, es[..|es| - 1]).value;
    QuitExactly(es, s);
    if p.pc.Returned? {
      ReturnsOnlyOnQuit(es[..|es| - 1], p);
      QuitStep(p, es[|es| - 1], s);
    }
  }
}
