/** What the timer queue promises over whole runs: exact batches, cancellation, the hardware timer, and
    expirations without drift. */
module TimerQueueRuns {
  import opened Wrappers
  import opened TimerQueueMachine

  /* ---- batches ---- */

  function Timers<T>(ts: seq<Entry<T>>): (r: seq<T>) {
    seq(|ts|, i requires 0 <= i < |ts| => ts[i].timer)
  }

  predicate InsideBatch<T>(fs: seq<Event<T>>) {
    forall i | 0 <= i < |fs| :: !fs[i].Finish?
  }

  lemma {:induction false} BatchIsFixed<T>(s: State<T>, fs: seq<Event<T>>, u: State<T>)
    requires s.phase.Calling? && s.phase.next == 0 && Exec(s, fs) == Some(u) && InsideBatch(fs)
    ensures u.phase.Calling? && u.phase.expired == s.phase.expired && u.phase.next <= |s.phase.expired|
    ensures Called(fs) == Timers(s.phase.expired[..u.phase.next])
    decreases |fs|
  {
    if fs != [] {
      var p := Exec(s, fs[..|fs| - 1]).value;
      BatchIsFixed(s, fs[..|fs| - 1], p);
      assert fs[|fs| - 1].RunNext? ==>
          Timers(s.phase.expired[..u.phase.next]) == Timers(s.phase.expired[..p.phase.next]) + [fs[|fs| - 1].timer];
    }
  }

  /** One `handleRead(now)` calls exactly the timers whose expiration is not after `now` at its start, by
      expiration and then by insertion, whatever the callbacks add and cancel on the way. */
  lemma HandleReadCallsExactlyTheDue<T>(es: seq<Event<T>>, s: State<T>, now: int, fs: seq<Event<T>>, u: State<T>)
    requires Exec(Init<T>(), es) == Some(s) && Step(s, Fire(now)).Some?
    requires Exec(Step(s, Fire(now)).value, fs) == Some(u) && InsideBatch(fs) && Step(u, Finish).Some?
    ensures exists n | 0 <= n <= |s.timers| ::
              && Called(fs) == Timers(s.timers[..n])
              && (forall i | 0 <= i < |s.timers| :: i < n <==> s.timers[i].key <= now)
    ensures forall i, j | 0 <= i < j < |s.timers| :: Before(s.timers[i], s.timers[j])
  {
    RunsKeepInvariant(es, s);
    var n := DueCount(s.timers, now);
    BatchIsFixed(Step(s, Fire(now)).value, fs, u);
    assert s.timers[..n][..n] == s.timers[..n];
    forall i | 0 <= i < |s.timers| ensures i < n <==> s.timers[i].key <= now {
      if n < i {
        assert Before(s.timers[n], s.timers[i]);
      }
    }
  }

  /* ---- cancellation ---- */

  /** How many calls of `t` the current batch still holds. */
  function StillDue<T(==)>(s: State<T>, t: T): (n: nat) {
    if s.phase.Calling? && exists i | s.phase.next <= i < |s.phase.expired| :: s.phase.expired[i].timer == t
    then 1 else 0
  }

  /** `t` was added, is not in the map, and will not be put back into it. */
  ghost predicate Doomed<T>(s: State<T>, t: T) {
    && t in s.added
    && !InMap(s.timers, t)
    && (s.phase.Calling? && InMap(s.phase.expired, t) ==> t in s.canceling)
  }

  lemma CancelDooms<T>(s: State<T>, t: T)
    requires Invariant(s) && t in s.added
    ensures Doomed(Step(s, Cancel(t)).value, t) && StillDue(Step(s, Cancel(t)).value, t) == StillDue(s, t)
  {
    if InMap(s.timers, t) {
      WithoutKeepsGood(s.timers, t, s.stamps, s.added);
      InMapMembers(s.timers, t);
      if s.phase.Calling? {
        InMapMembers(s.phase.expired, t);
      }
    }
  }

  lemma FinishKeepsDoomed<T>(s: State<T>, t: T)
    requires Invariant(s) && Doomed(s, t) && Step(s, Finish).Some?
    ensures Doomed(Step(s, Finish).value, t)
  {
    var n := |s.phase.expired|;
    ReinsertedIsGood(s, n);
    var r := Reinserted(s, n).0;
    InMapMembers(s.timers, t);
    InMapMembers(r, t);
    assert forall x | x in r :: x.timer != t;
  }

  lemma AddKeepsDoomed<T>(s: State<T>, ev: Event<T>, t: T)
    requires Invariant(s) && Doomed(s, t) && Step(s, ev).Some? && ev.Add?
    ensures Doomed(Step(s, ev).value, t) && StillDue(s, t) == StillDue(Step(s, ev).value, t)
  {
    var e := Entry(ev.time, ev.timer, s.stamps);
    InMapMembers(s.timers, t);
    InMapMembers(Insert(s.timers, e), t);
    forall x | x in Insert(s.timers, e) ensures x.timer != t {
      InsertMembers(s.timers, e, x);
    }
  }

  lemma CancelKeepsDoomed<T>(s: State<T>, ev: Event<T>, t: T)
    requires Invariant(s) && Doomed(s, t) && Step(s, ev).Some? && ev.Cancel?
    ensures Doomed(Step(s, ev).value, t) && StillDue(s, t) == StillDue(Step(s, ev).value, t)
  {
    WithoutKeepsGood(s.timers, ev.timer, s.stamps, s.added);
    InMapMembers(s.timers, t);
    InMapMembers(Without(s.timers, ev.timer), t);
  }

  lemma FireKeepsDoomed<T>(s: State<T>, ev: Event<T>, t: T)
    requires Invariant(s) && Doomed(s, t) && Step(s, ev).Some? && ev.Fire?
    ensures Doomed(Step(s, ev).value, t) && StillDue(s, t) == StillDue(Step(s, ev).value, t)
  {
    var n := DueCount(s.timers, ev.now);
    assert forall i | 0 <= i < |s.timers[n..]| :: s.timers[n..][i] == s.timers[n + i];
  }

  lemma RunKeepsDoomed<T>(s: State<T>, ev: Event<T>, t: T)
    requires Invariant(s) && Doomed(s, t) && Step(s, ev).Some? && ev.RunNext?
    ensures Doomed(Step(s, ev).value, t)
    ensures StillDue(s, t) == StillDue(Step(s, ev).value, t) + if ev == RunNext(t) then 1 else 0
  {
    if ev.timer == t {
      forall i | s.phase.next < i < |s.phase.expired| ensures s.phase.expired[i].timer != t {
        ExpiredDistinct(s.phase.expired, s.phase.next, i);
      }
    }
  }

  lemma StepKeepsDoomed<T>(s: State<T>, ev: Event<T>, t: T)
    requires Invariant(s) && Doomed(s, t) && Step(s, ev).Some?
    ensures Doomed(Step(s, ev).value, t)
    ensures StillDue(s, t) == StillDue(Step(s, ev).value, t) + if ev == RunNext(t) then 1 else 0
  {
    match ev
    case Add(_, _, _) => AddKeepsDoomed(s, ev, t);
    case Cancel(_) => CancelKeepsDoomed(s, ev, t);
    case Fire(_) => FireKeepsDoomed(s, ev, t);
    case RunNext(_) => RunKeepsDoomed(s, ev, t);
    case Finish =>
      FinishKeepsDoomed(s, t);
      hide Doomed, Invariant;
  }

  lemma {:induction false} DoomedOverRuns<T>(s: State<T>, fs: seq<Event<T>>, u: State<T>, t: T)
    requires Invariant(s) && Doomed(s, t) && Exec(s, fs) == Some(u)
    ensures Invariant(u) && Doomed(u, t) && Runs(fs, t) + StillDue(u, t) == StillDue(s, t)
    decreases |fs|
  {
    if fs != [] {
      var p := Exec(s, fs[..|fs| - 1]).value;
      DoomedOverRuns(s, fs[..|fs| - 1], p, t);
      StepKeepsInvariant(p, fs[|fs| - 1]);
      StepKeepsDoomed(p, fs[|fs| - 1], t);
    }
  }

  /** Cancelling a timer whose add has executed: outside `handleRead` it never runs again; inside, it runs at
      most once more, and only if the current batch holds it and has not reached it; it never gets back into
      the map. This is so in every continuation of every run. */
  lemma CancelledForGood<T>(es: seq<Event<T>>, s: State<T>, t: T, fs: seq<Event<T>>, u: State<T>)
    requires Exec(Init<T>(), es) == Some(s) && t in s.added
    requires Exec(Step(s, Cancel(t)).value, fs) == Some(u)
    ensures Runs(fs, t) <= StillDue(s, t) <= 1
    ensures s.phase.Idle? ==> Runs(fs, t) == 0
    ensures !InMap(u.timers, t)
  {
    RunsKeepInvariant(es, s);
    CancelDooms(s, t);
    StepKeepsInvariant(s, Cancel(t));
    DoomedOverRuns(Step(s, Cancel(t)).value, fs, u, t);
  }

  /** The other half: as long as nobody cancels it, a repeating timer stays in the map, or in the batch and will be
      put back. */
  ghost predicate Alive<T>(s: State<T>, t: T) {
    InMap(s.timers, t) || (s.phase.Calling? && InMap(s.phase.expired, t) && t !in s.canceling)
  }

  lemma StepKeepsAlive<T>(s: State<T>, ev: Event<T>, t: T)
    requires Invariant(s) && Step(s, ev).Some? && ev != Cancel(t)
    requires t in s.added && s.added[t].interval != 0 && Alive(s, t)
    ensures Alive(Step(s, ev).value, t)
  {
    hide Invariant, InMap, Insert, Without, Reinserted;
    MapIsOrdered(s);
    match ev
    case Add(a, time, interval) =>
      if InMap(s.timers, t) {
        InsertKeepsIn(s.timers, Entry(time, a, s.stamps), t);
      }
    case Cancel(c) =>
      if InMap(s.timers, t) {
        WithoutKeepsIn(s.timers, c, t);
      }
    case Fire(now) => SplitKeepsIn(s.timers, DueCount(s.timers, now), t);
    case RunNext(r) =>
    case Finish => FinishKeepsAlive(s, t);
  }

  lemma MapIsOrdered<T>(s: State<T>)
    requires Invariant(s)
    ensures Sorted(s.timers) && OnePerTimer(s.timers)
  {
  }

  lemma InsertKeepsIn<T>(ts: seq<Entry<T>>, e: Entry<T>, t: T)
    requires InMap(ts, t)
    ensures InMap(Insert(ts, e), t)
  {
    InMapMembers(ts, t);
    var x :| x in ts && x.timer == t;
    InsertMembers(ts, e, x);
    InMapMembers(Insert(ts, e), t);
  }

  lemma WithoutKeepsIn<T>(ts: seq<Entry<T>>, c: T, t: T)
    requires Sorted(ts) && OnePerTimer(ts) && InMap(ts, t) && c != t
    ensures InMap(Without(ts, c), t)
  {
    InMapMembers(ts, t);
    var x :| x in ts && x.timer == t;
    WithoutMembers(ts, c, x);
    InMapMembers(Without(ts, c), t);
  }

  lemma SplitKeepsIn<T>(ts: seq<Entry<T>>, n: nat, t: T)
    requires InMap(ts, t) && n <= |ts|
    ensures InMap(ts[..n], t) || InMap(ts[n..], t)
  {
    var i :| 0 <= i < |ts| && ts[i].timer == t;
    if i < n {
      assert ts[..n][i].timer == t;
    } else {
      assert ts[n..][i - n].timer == t;
    }
  }

  lemma FinishKeepsAlive<T>(s: State<T>, t: T)
    requires Invariant(s) && Step(s, Finish).Some?
    requires t in s.added && s.added[t].interval != 0 && Alive(s, t)
    ensures InMap(Step(s, Finish).value.timers, t)
  {
    var n := |s.phase.expired|;
    ReinsertedIsGood(s, n);
    if InMap(s.timers, t) {
      InMapMembers(s.timers, t);
      InMapMembers(Reinserted(s, n).0, t);
    } else {
      var i :| 0 <= i < n && s.phase.expired[i].timer == t;
      assert GoesBack(s, s.phase.expired[i]);
    }
  }

  function Prior<T(==)>(es: seq<Event<T>>): Option<State<T>>
    requires es != []
  {
    Exec(Init<T>(), es[..|es| - 1])
  }

  /** Somebody cancelled `t` after its add had executed. */
  predicate CancelledOnce<T(==)>(es: seq<Event<T>>, t: T) {
    es != [] && Prior(es).Some? &&
    (CancelledOnce(es[..|es| - 1], t) || (es[|es| - 1] == Cancel(t) && t in Prior(es).value.added))
  }

  lemma DoomedIsNotAlive<T>(s: State<T>, t: T)
    requires Doomed(s, t)
    ensures !Alive(s, t)
  {
  }

  lemma AddIsAlive<T>(s: State<T>, e: Event<T>, u: State<T>)
    requires e.Add? && Step(s, e) == Some(u)
    ensures Alive(u, e.timer)
  {
    var entry := Entry(e.time, e.timer, s.stamps);
    InsertMembers(s.timers, entry, entry);
    InMapMembers(Insert(s.timers, entry), e.timer);
  }

  lemma OnlyAddsAdd<T>(s: State<T>, e: Event<T>, u: State<T>)
    requires Step(s, e) == Some(u)
    ensures u.added == if e.Add? then s.added[e.timer := Schedule(e.time, e.interval)] else s.added
    ensures e.Add? ==> e.timer !in s.added
    ensures u.now == if e.Fire? then e.now else s.now
  {
  }

  lemma {:induction false} OnlyAddedAreCancelled<T>(es: seq<Event<T>>, s: State<T>, t: T)
    requires Exec(Init<T>(), es) == Some(s) && t !in s.added
    ensures !CancelledOnce(es, t)
    decreases |es|
  {
    if es != [] {
      hide Step;
      OnlyAddsAdd(Prior(es).value, es[|es| - 1], s);
      OnlyAddedAreCancelled(es[..|es| - 1], Prior(es).value, t);
    }
  }

  /** A repeating timer is in the map, or in the batch and about to return to it, if and only if nobody has cancelled
      it since it was added. */
  lemma {:induction false} RepeatsExactly<T>(es: seq<Event<T>>, s: State<T>, t: T)
    requires Exec(Init<T>(), es) == Some(s)
    requires t in s.added && s.added[t].interval != 0
    ensures if CancelledOnce(es, t) then Doomed(s, t) else Alive(s, t)
    ensures Alive(s, t) <==> !CancelledOnce(es, t)
    decreases |es|
  {
    var p, e := Prior(es).value, es[|es| - 1];
    hide Step, Alive, Doomed, Invariant;
    RunsKeepInvariant(es[..|es| - 1], p);
    OnlyAddsAdd(p, e, s);
    if t !in p.added {
      OnlyAddedAreCancelled(es[..|es| - 1], p, t);
      AddIsAlive(p, e, s);
    } else {
      RepeatsExactly(es[..|es| - 1], p, t);
      if e == Cancel(t) {
        CancelDooms(p, t);
      } else if CancelledOnce(es[..|es| - 1], t) {
        StepKeepsDoomed(p, e, t);
      } else {
        StepKeepsAlive(p, e, t);
      }
    }
    if CancelledOnce(es, t) {
      DoomedIsNotAlive(s, t);
    }
  }

  /** A cancel in the batch under way, or in the last one, came too late for the map. */
  predicate CancelledLate<T(==)>(es: seq<Event<T>>, t: T) {
    es != [] && Prior(es).Some? && !es[|es| - 1].Fire? &&
    (CancelledLate(es[..|es| - 1], t) ||
     (es[|es| - 1] == Cancel(t) && Prior(es).value.phase.Calling? && !InMap(Prior(es).value.timers, t)))
  }

  lemma CancelingStep<T>(s: State<T>, e: Event<T>, u: State<T>, t: T)
    requires Step(s, e) == Some(u)
    ensures t in u.canceling <==>
              !e.Fire? && (t in s.canceling || (e == Cancel(t) && s.phase.Calling? && !InMap(s.timers, t)))
  {
    hide InMap;
  }

  /** The canceling timers are exactly those cancelled since the last `handleRead` began, during its callbacks, when
      they were not in the map. */
  lemma {:induction false} CancelingExactly<T>(es: seq<Event<T>>, s: State<T>, t: T)
    requires Exec(Init<T>(), es) == Some(s)
    ensures t in s.canceling <==> CancelledLate(es, t)
    decreases |es|
  {
    if es != [] {
      hide Step, InMap;
      CancelingExactly(es[..|es| - 1], Prior(es).value, t);
      CancelingStep(Prior(es).value, es[|es| - 1], s, t);
    }
  }

  /* ---- the hardware timer ---- */

  /** Outside `handleRead`: if there are timers, the timerfd is set for no later than the first. */
  predicate FdCovers<T>(s: State<T>) {
    s.phase.Idle? && s.timers != [] ==> s.fd.Armed? && s.fd.time <= s.timers[0].key
  }

  ghost predicate PositiveTimes<T>(es: seq<Event<T>>) {
    forall i | 0 <= i < |es| && es[i].Add? :: es[i].time > 0 && es[i].interval >= 0
  }

  ghost predicate PositiveState<T>(s: State<T>) {
    && (forall t | t in s.added :: s.added[t].interval >= 0)
    && (forall e | e in s.timers :: e.key > 0)
    && (s.phase.Calling? ==> forall e | e in s.phase.expired :: e.key > 0)
  }

  lemma StepKeepsPositive<T>(s: State<T>, ev: Event<T>)
    requires Invariant(s) && PositiveState(s) && Step(s, ev).Some?
    requires ev.Add? ==> ev.time > 0 && ev.interval >= 0
    ensures PositiveState(Step(s, ev).value)
  {
    match ev
    case Add(t, time, interval) =>
      var e := Entry(time, t, s.stamps);
      forall x | x in Insert(s.timers, e) ensures x.key > 0 {
        InsertMembers(s.timers, e, x);
      }
    case Cancel(t) => WithoutKeepsGood(s.timers, t, s.stamps, s.added);
    case Fire(now) =>
    case RunNext(t) =>
    case Finish =>
      var n := |s.phase.expired|;
      ReinsertedIsGood(s, n);
      forall x | x in Reinserted(s, n).0 ensures x.key > 0 {
        if x !in s.timers {
          var i :| 0 <= i < n && x.timer == s.phase.expired[i].timer &&
                   x.key == s.phase.expired[i].key + s.added[x.timer].interval;
          assert s.phase.expired[i] in s.phase.expired;
        }
      }
  }

  lemma WithoutHead<T>(ts: seq<Entry<T>>, t: T)
    requires Sorted(ts) && OnePerTimer(ts) && Without(ts, t) != []
    ensures ts != [] && ts[0].key <= Without(ts, t)[0].key
  {
    WithoutMembers(ts, t, Without(ts, t)[0]);
    SortedTail(ts);
  }

  lemma StepKeepsCover<T>(s: State<T>, ev: Event<T>)
    requires Invariant(s) && PositiveState(s) && FdCovers(s) && Step(s, ev).Some?
    requires ev.Add? ==> ev.time > 0 && ev.interval >= 0
    ensures FdCovers(Step(s, ev).value)
  {
    match ev
    case Add(t, time, interval) => ResetTimerMeaning(s.fd, time);
    case Cancel(t) =>
      if Without(s.timers, t) != [] {
        WithoutHead(s.timers, t);
      }
    case Fire(now) =>
    case RunNext(t) =>
    case Finish =>
      StepKeepsPositive(s, Finish);
      var ts := Reinserted(s, |s.phase.expired|).0;
      if ts != [] {
        assert ts[0] in ts;
        ResetTimerMeaning(s.fd, ts[0].key);
      }
  }

  lemma {:induction false} PositiveRuns<T>(es: seq<Event<T>>, s: State<T>)
    requires Exec(Init<T>(), es) == Some(s) && PositiveTimes(es)
    ensures PositiveState(s) && FdCovers(s)
    decreases |es|
  {
    if es != [] {
      var k := |es| - 1;
      var p := Exec(Init<T>(), es[..k]).value;
      RunsKeepInvariant(es[..k], p);
      PositiveRuns(es[..k], p);
      StepKeepsPositive(p, es[k]);
      StepKeepsCover(p, es[k]);
    }
  }

  /** Cancels do not re-arm, yet outside `handleRead` the hardware timer is never later than the first
      expiration, in every run whose timers have positive times and no negative interval. */
  lemma HardwareTimerIsNeverLate<T>(es: seq<Event<T>>, s: State<T>)
    requires Exec(Init<T>(), es) == Some(s) && PositiveTimes(es)
    requires s.phase.Idle? && s.timers != []
    ensures s.fd.Armed? && forall i | 0 <= i < |s.timers| :: s.fd.time <= s.timers[i].key
  {
    PositiveRuns(es, s);
    RunsKeepInvariant(es, s);
    assert forall i | 0 < i < |s.timers| :: Before(s.timers[0], s.timers[i]);
  }

  /** In such a run, adding one more timer keeps the promise exactly when its time is positive: time zero
      disarms the timerfd and a negative time is refused by it. */
  lemma AddKeepsCoverExactly<T>(es: seq<Event<T>>, s: State<T>, t: T, time: int, interval: int)
    requires Exec(Init<T>(), es) == Some(s) && PositiveTimes(es) && s.phase.Idle? && t !in s.added
    ensures FdCovers(Step(s, Add(t, time, interval)).value) <==> time > 0
  {
    PositiveRuns(es, s);
    RunsKeepInvariant(es, s);
    ResetTimerMeaning(s.fd, time);
    if s.timers != [] {
      assert s.timers[0] in s.timers;
    }
    FdIsPositive(es, s);
  }

  lemma {:induction false} FdIsPositive<T>(es: seq<Event<T>>, s: State<T>)
    requires Exec(Init<T>(), es) == Some(s) && PositiveTimes(es)
    ensures s.fd.Armed? ==> s.fd.time > 0
    decreases |es|
  {
    if es != [] {
      var k := |es| - 1;
      var p := Exec(Init<T>(), es[..k]).value;
      FdIsPositive(es[..k], p);
      PositiveRuns(es, s);
      if es[k].Add? {
        ResetTimerMeaning(p.fd, es[k].time);
      } else if es[k].Finish? {
        ResetTimerMeaning(p.fd, if s.timers == [] then 0 else s.timers[0].key);
      }
    }
  }

  /* ---- what was asked for, and the clock ---- */

  function Asked<T(==)>(es: seq<Event<T>>): map<T, Schedule> {
    if es == [] then map[]
    else match es[|es| - 1]
      case Add(t, time, interval) => Asked(es[..|es| - 1])[t := Schedule(time, interval)]
      case _ => Asked(es[..|es| - 1])
  }

  /** The clock at the last `handleRead`. */
  function Clock<T>(es: seq<Event<T>>): int {
    if es == [] then 0 else if es[|es| - 1].Fire? then es[|es| - 1].now else Clock(es[..|es| - 1])
  }

  lemma {:induction false} SchedulesAreAsAsked<T>(es: seq<Event<T>>, s: State<T>)
    requires Exec(Init<T>(), es) == Some(s)
    ensures s.added == Asked(es) && s.now == Clock(es)
    decreases |es|
  {
    if es != [] {
      hide Step;
      var p, e := Prior(es).value, es[|es| - 1];
      SchedulesAreAsAsked(es[..|es| - 1], p);
      OnlyAddsAdd(p, e, s);
    }
  }

  /* ---- expirations do not drift ---- */

  /** Where timer `t` stands after `n` calls. */
  function DueAfter(sch: Schedule, n: int): int {
    sch.start + n * sch.interval
  }

  lemma DueAfterNext(sch: Schedule, n: int)
    ensures DueAfter(sch, n) + sch.interval == DueAfter(sch, n + 1)
  {
  }

  /** How many calls the expired entry at `i` had had when the batch began. */
  function CallsBefore<T(==)>(s: State<T>, es: seq<Event<T>>, i: nat): int
    requires s.phase.Calling? && i < |s.phase.expired|
  {
    Runs(es, s.phase.expired[i].timer) - if i < s.phase.next then 1 else 0
  }

  ghost predicate OnSchedule<T>(s: State<T>, es: seq<Event<T>>) {
    && (forall e | e in s.timers && e.timer in s.added :: e.key == DueAfter(s.added[e.timer], Runs(es, e.timer)))
    && (s.phase.Calling? ==> forall i | 0 <= i < |s.phase.expired| && s.phase.expired[i].timer in s.added ::
          s.phase.expired[i].key == DueAfter(s.added[s.phase.expired[i].timer], CallsBefore(s, es, i)))
  }

  lemma {:induction false} OnlyAddedTimersRun<T>(es: seq<Event<T>>, s: State<T>, t: T)
    requires Exec(Init<T>(), es) == Some(s) && t !in s.added
    ensures Runs(es, t) == 0
    decreases |es|
  {
    if es != [] {
      var k := |es| - 1;
      var p := Exec(Init<T>(), es[..k]).value;
      OnlyAddedTimersRun(es[..k], p, t);
      RunsKeepInvariant(es[..k], p);
      if es[k].RunNext? {
        assert p.phase.expired[p.phase.next] in p.phase.expired;
      }
    }
  }

  lemma RunsSnoc<T>(es: seq<Event<T>>, ev: Event<T>, t: T)
    ensures Runs(es + [ev], t) == Runs(es, t) + if ev == RunNext(t) then 1 else 0
  {
    assert (es + [ev])[..|es|] == es;
  }

  lemma AddedEntryIsOnSchedule<T>(s: State<T>, es: seq<Event<T>>, ev: Event<T>, x: Entry<T>)
    requires Exec(Init<T>(), es) == Some(s) && Invariant(s) && OnSchedule(s, es) && ev.Add? && Step(s, ev).Some?
    requires x in Insert(s.timers, Entry(ev.time, ev.timer, s.stamps))
    ensures var u := Step(s, ev).value;
            x.timer in u.added && x.key == DueAfter(u.added[x.timer], Runs(es + [ev], x.timer))
  {
    var e := Entry(ev.time, ev.timer, s.stamps);
    InsertMembers(s.timers, e, x);
    RunsSnoc(es, ev, x.timer);
    if x == e {
      OnlyAddedTimersRun(es, s, ev.timer);
    }
  }

  lemma AddIsOnSchedule<T>(s: State<T>, es: seq<Event<T>>, ev: Event<T>)
    requires Exec(Init<T>(), es) == Some(s) && Invariant(s) && OnSchedule(s, es) && ev.Add? && Step(s, ev).Some?
    ensures OnSchedule(Step(s, ev).value, es + [ev])
  {
    var u := Step(s, ev).value;
    forall x | x in u.timers
      ensures x.timer in u.added && x.key == DueAfter(u.added[x.timer], Runs(es + [ev], x.timer))
    {
      AddedEntryIsOnSchedule(s, es, ev, x);
    }
    if s.phase.Calling? {
      forall i | 0 <= i < |s.phase.expired|
        ensures u.added[s.phase.expired[i].timer] == s.added[s.phase.expired[i].timer]
        ensures CallsBefore(u, es + [ev], i) == CallsBefore(s, es, i)
      {
        RunsSnoc(es, ev, s.phase.expired[i].timer);
        assert s.phase.expired[i] in s.phase.expired;
      }
    }
  }

  lemma RunNextIsOnSchedule<T>(s: State<T>, es: seq<Event<T>>, ev: Event<T>)
    requires Invariant(s) && OnSchedule(s, es) && ev.RunNext? && Step(s, ev).Some?
    ensures OnSchedule(Step(s, ev).value, es + [ev])
  {
    var n := s.phase.next;
    var xs := s.phase.expired;
    assert xs[n] in xs;
    forall x | x in s.timers ensures Runs(es + [ev], x.timer) == Runs(es, x.timer) {
      RunsSnoc(es, ev, x.timer);
    }
    var u := Step(s, ev).value;
    forall i | 0 <= i < |xs| ensures CallsBefore(u, es + [ev], i) == CallsBefore(s, es, i) {
      RunsSnoc(es, ev, xs[i].timer);
      if i < n {
        ExpiredDistinct(xs, i, n);
      } else if i > n {
        ExpiredDistinct(xs, n, i);
      }
    }
  }

  lemma FinishIsOnSchedule<T>(s: State<T>, es: seq<Event<T>>)
    requires Invariant(s) && OnSchedule(s, es) && Step(s, Finish).Some?
    ensures OnSchedule(Step(s, Finish).value, es + [Finish])
  {
    var n := |s.phase.expired|;
    ReinsertedIsGood(s, n);
    forall x | x in Reinserted(s, n).0
      ensures x.timer in s.added && x.key == DueAfter(s.added[x.timer], Runs(es + [Finish], x.timer))
    {
      RunsSnoc(es, Finish, x.timer);
      if x !in s.timers {
        var i :| 0 <= i < n && x.timer == s.phase.expired[i].timer &&
                 x.key == s.phase.expired[i].key + s.added[x.timer].interval;
        DueAfterNext(s.added[x.timer], CallsBefore(s, es, i));
      }
    }
  }

  lemma OtherStepIsOnSchedule<T>(s: State<T>, es: seq<Event<T>>, ev: Event<T>)
    requires Invariant(s) && OnSchedule(s, es) && (ev.Cancel? || ev.Fire?) && Step(s, ev).Some?
    ensures OnSchedule(Step(s, ev).value, es + [ev])
  {
    var u := Step(s, ev).value;
    if ev.Cancel? {
      WithoutKeepsGood(s.timers, ev.timer, s.stamps, s.added);
    }
    forall x | x in s.timers ensures Runs(es + [ev], x.timer) == Runs(es, x.timer) {
      RunsSnoc(es, ev, x.timer);
    }
    if u.phase.Calling? {
      forall i | 0 <= i < |u.phase.expired|
        ensures Runs(es + [ev], u.phase.expired[i].timer) == Runs(es, u.phase.expired[i].timer)
      {
        RunsSnoc(es, ev, u.phase.expired[i].timer);
      }
      if ev.Fire? {
        assert forall i | 0 <= i < |u.phase.expired| :: u.phase.expired[i] == s.timers[i] && s.timers[i] in s.timers;
      }
    }
  }

  lemma InitIsOnSchedule<T>()
    ensures OnSchedule(Init<T>(), [])
  {
  }

  lemma {:induction false} RunsStayOnSchedule<T>(es: seq<Event<T>>, s: State<T>)
    requires Exec(Init<T>(), es) == Some(s)
    ensures OnSchedule(s, es)
    decreases |es|
  {
    hide Step, Invariant, OnSchedule, Runs, CallsBefore;
    if es == [] {
      InitIsOnSchedule<T>();
    } else {
      var k := |es| - 1;
      var p := Exec(Init<T>(), es[..k]).value;
      RunsKeepInvariant(es[..k], p);
      RunsStayOnSchedule(es[..k], p);
      assert es[..k] + [es[k]] == es;
      match es[k]
      case Add(_, _, _) => AddIsOnSchedule(p, es[..k], es[k]);
      case RunNext(_) => RunNextIsOnSchedule(p, es[..k], es[k]);
      case Finish => FinishIsOnSchedule(p, es[..k]);
      case _ => OtherStepIsOnSchedule(p, es[..k], es[k]);
    }
  }

  lemma ScheduledTimers<T>(es: seq<Event<T>>, s: State<T>)
    requires Invariant(s) && OnSchedule(s, es)
    ensures forall e | e in s.timers ::
              e.timer in s.added && e.key == s.added[e.timer].start + Runs(es, e.timer) * s.added[e.timer].interval
  {
  }

  /** Every waiting timer expires at its start plus one interval for each call so far: a late `handleRead`
      never shifts later expirations. */
  lemma ExpirationsDoNotDrift<T>(es: seq<Event<T>>, s: State<T>)
    requires Exec(Init<T>(), es) == Some(s)
    ensures OnSchedule(s, es)
    ensures forall e | e in s.timers ::
              e.timer in Asked(es) &&
              e.key == Asked(es)[e.timer].start + Runs(es, e.timer) * Asked(es)[e.timer].interval
  {
    SchedulesAreAsAsked(es, s);
    RunsKeepInvariant(es, s);
    RunsStayOnSchedule(es, s);
    ScheduledTimers(es, s);
  }

  lemma CallIsDue<T>(es: seq<Event<T>>, s: State<T>, t: T)
    requires Invariant(s) && OnSchedule(s, es) && t in s.added && Step(s, RunNext(t)).Some?
    ensures DueAfter(s.added[t], Runs(es, t)) <= s.now
  {
    assert s.phase.expired[s.phase.next] in s.phase.expired;
    assert CallsBefore(s, es, s.phase.next) == Runs(es, t);
  }

  lemma {:induction false} LastCallWasDue<T>(es: seq<Event<T>>, s: State<T>, t: T)
    requires Exec(Init<T>(), es) == Some(s) && t in s.added && Runs(es, t) > 0
    ensures DueAfter(s.added[t], Runs(es, t) - 1) <= s.now
    decreases |es|
  {
    hide Invariant, OnSchedule, Insert, Without, Reinserted;
    var k := |es| - 1;
    var p := Exec(Init<T>(), es[..k]).value;
    RunsKeepInvariant(es[..k], p);
    RunsStayOnSchedule(es[..k], p);
    if t !in p.added {
      OnlyAddedTimersRun(es[..k], p, t);
    } else if es[k] == RunNext(t) {
      CallIsDue(es[..k], p, t);
    } else {
      LastCallWasDue(es[..k], p, t);
    }
  }

  /** A repeating timer is never called ahead of its schedule: by clock time `now` it has been called at most
      once for its start and once for each whole interval since. */
  lemma NeverCalledAhead<T>(es: seq<Event<T>>, s: State<T>, t: T)
    requires Exec(Init<T>(), es) == Some(s) && t in Asked(es)
    requires Asked(es)[t].interval > 0 && Runs(es, t) > 0
    ensures Runs(es, t) <= (Clock(es) - Asked(es)[t].start) / Asked(es)[t].interval + 1
  {
    SchedulesAreAsAsked(es, s);
    LastCallWasDue(es, s, t);
    DivideBound(Runs(es, t) - 1, s.added[t].interval, s.now - s.added[t].start);
  }

  lemma DivideBound(n: int, d: int, a: int)
    requires d > 0 && n * d <= a
    ensures n <= a / d
  {
    assert (n - a / d) * d <= a % d;
    AtLeastOne(n - a / d, d);
  }

  lemma AtLeastOne(n: int, d: int)
    requires d > 0
    ensures n >= 1 ==> n * d >= d
  {
  }

  /** How often a cancel has taken `t` out of the map. */
  function Erasures<T(==)>(es: seq<Event<T>>, t: T): (n: nat) {
    if es == [] || Prior(es).None? then 0
    else Erasures(es[..|es| - 1], t) + if Erases(Prior(es).value, es[|es| - 1], t) then 1 else 0
  }

  predicate Erases<T(==)>(s: State<T>, e: Event<T>, t: T) {
    e == Cancel(t) && InMap(s.timers, t)
  }

  /** How often `t` is still to be called if nobody cancels it and it does not repeat. */
  function Ahead<T(==)>(s: State<T>, t: T): nat {
    StillDue(s, t) + if InMap(s.timers, t) then 1 else 0
  }

  lemma AddKeepsAhead<T>(s: State<T>, e: Event<T>, u: State<T>, t: T)
    requires Invariant(s) && e.Add? && Step(s, e) == Some(u)
    ensures Ahead(u, t) == if t == e.timer then 1 else Ahead(s, t)
  {
    var entry := Entry(e.time, e.timer, s.stamps);
    forall x ensures x in u.timers <==> x in s.timers || x == entry {
      InsertMembers(s.timers, entry, x);
    }
    InMapMembers(s.timers, t);
    InMapMembers(u.timers, t);
    if s.phase.Calling? {
      assert forall i | 0 <= i < |s.phase.expired| :: s.phase.expired[i] in s.phase.expired;
    }
    hide Insert, InMap;
    assert t == e.timer ==> entry in u.timers;
  }

  lemma CancelKeepsAhead<T>(s: State<T>, e: Event<T>, u: State<T>, t: T)
    requires Invariant(s) && e.Cancel? && Step(s, e) == Some(u)
    ensures Ahead(u, t) + (if Erases(s, e, t) then 1 else 0) == Ahead(s, t)
  {
    forall x ensures x in Without(s.timers, e.timer) <==> x in s.timers && x.timer != e.timer {
      WithoutMembers(s.timers, e.timer, x);
    }
    InMapMembers(s.timers, t);
    InMapMembers(Without(s.timers, e.timer), t);
    hide Without, InMap;
  }

  lemma FireKeepsAhead<T>(s: State<T>, e: Event<T>, u: State<T>, t: T)
    requires Invariant(s) && e.Fire? && Step(s, e) == Some(u)
    ensures Ahead(u, t) == Ahead(s, t)
  {
    var n := DueCount(s.timers, e.now);
    SplitIsPartition(s.timers, n, s.stamps, s.added, t);
    hide InMap, Invariant;
    assert InMap(u.phase.expired, t) <==> StillDue(u, t) == 1 by { InMapIsDue(u, t); }
  }

  lemma InMapIsDue<T>(s: State<T>, t: T)
    requires s.phase.Calling? && s.phase.next == 0
    ensures InMap(s.phase.expired, t) <==> StillDue(s, t) == 1
  {
  }

  /** A timer is in just one half of a map that has it. */
  lemma SplitIsPartition<T>(ts: seq<Entry<T>>, n: nat, stamps: nat, added: map<T, Schedule>, t: T)
    requires GoodMap(ts, stamps, added) && n <= |ts|
    ensures InMap(ts, t) <==> InMap(ts[..n], t) || InMap(ts[n..], t)
    ensures !(InMap(ts[..n], t) && InMap(ts[n..], t))
  {
    SplitKeepsGood(ts, n, stamps, added);
    InMapMembers(ts[..n], t);
    InMapMembers(ts[n..], t);
    InMapMembers(ts, t);
    hide InMap, GoodMap;
    assert ts == ts[..n] + ts[n..];
  }

  lemma CallTakesOne<T>(s: State<T>, e: Event<T>, u: State<T>, t: T)
    requires Invariant(s) && e.RunNext? && Step(s, e) == Some(u)
    ensures Ahead(u, t) + (if e == RunNext(t) then 1 else 0) == Ahead(s, t)
  {
    if e.timer == t {
      forall i | s.phase.next < i < |s.phase.expired| ensures s.phase.expired[i].timer != t {
        ExpiredDistinct(s.phase.expired, s.phase.next, i);
      }
    }
  }

  lemma FinishKeepsAhead<T>(s: State<T>, u: State<T>, t: T)
    requires Invariant(s) && Step(s, Finish) == Some(u) && t in s.added && s.added[t].interval == 0
    ensures Ahead(u, t) == Ahead(s, t)
  {
    var n := |s.phase.expired|;
    ReinsertedIsGood(s, n);
    InMapMembers(s.timers, t);
    InMapMembers(u.timers, t);
  }

  lemma StepTakesOne<T>(s: State<T>, e: Event<T>, u: State<T>, t: T)
    requires Invariant(s) && Step(s, e) == Some(u) && t in s.added && s.added[t].interval == 0
    ensures Ahead(u, t) + (if e == RunNext(t) then 1 else 0) + (if Erases(s, e, t) then 1 else 0) == Ahead(s, t)
  {
    match e
    case Add(_, _, _) =>
      AddKeepsAhead(s, e, u, t);
      OnlyAddsAdd(s, e, u);
    case Cancel(_) => CancelKeepsAhead(s, e, u, t);
    case Fire(_) => FireKeepsAhead(s, e, u, t);
    case RunNext(_) => CallTakesOne(s, e, u, t);
    case Finish => FinishKeepsAhead(s, u, t);
    hide Step, Invariant, Ahead, InMap;
  }

  lemma {:induction false} OnlyAddedAreErased<T>(es: seq<Event<T>>, s: State<T>, t: T)
    requires Exec(Init<T>(), es) == Some(s) && t !in s.added
    ensures Erasures(es, t) == 0
    decreases |es|
  {
    if es != [] {
      var p := Prior(es).value;
      OnlyAddsAdd(p, es[|es| - 1], s);
      RunsKeepInvariant(es[..|es| - 1], p);
      OnlyAddedAreErased(es[..|es| - 1], p, t);
      hide Step;
    }
  }

  /** A one-shot timer is waiting, in the map or in the batch, or it has been called once, or a cancel took it out of
      the map: exactly one of the three, at every point of every run. */
  lemma {:induction false} OneShotRunsOnce<T>(es: seq<Event<T>>, s: State<T>, t: T)
    requires Exec(Init<T>(), es) == Some(s) && t in s.added && s.added[t].interval == 0
    ensures Runs(es, t) + Ahead(s, t) + Erasures(es, t) == 1
    decreases |es|
  {
    hide Step, Invariant, Ahead, InMap, Erases;
    var p, e := Prior(es).value, es[|es| - 1];
    RunsKeepInvariant(es[..|es| - 1], p);
    OnlyAddsAdd(p, e, s);
    if t !in p.added {
      OnlyAddedTimersRun(es[..|es| - 1], p, t);
      OnlyAddedAreErased(es[..|es| - 1], p, t);
      AddKeepsAhead(p, e, s, t);
      OnlyCancelsErase(p, e, t);
    } else {
      OneShotRunsOnce(es[..|es| - 1], p, t);
      StepTakesOne(p, e, s, t);
    }
  }

  lemma OnlyCancelsErase<T>(s: State<T>, e: Event<T>, t: T)
    ensures Erases(s, e, t) ==> e == Cancel(t)
  {
  }
}
