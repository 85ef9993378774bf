/** The timer queue object (nutty/base/TimerQueue.cpp, nutty/base/Timer.cpp). `handleRead` is cut where it
    calls out to user code: before, between and after the callbacks. `trace` lists the steps of
    `TimerQueueMachine` taken so far. */
module TimerQueueObject {
  import opened Arithmetic
  import opened Wrappers
  import opened TimerQueueMachine

  class Timer {
    var expiration: int
    const interval: int

    constructor (time: int, interval: int)
      ensures expiration == time && this.interval == interval
    {
      expiration := time;
      this.interval := interval;
    }

    method Restart()
      modifies this
      ensures expiration == old(expiration) + interval
    {
      expiration := expiration + interval;
    }
  }

  /** `find` in the `equal_range` of `key`. */
  function Find(ts: seq<Entry<Timer>>, key: int, t: Timer): (at: Option<nat>)
    ensures at.Some? ==> at.value < |ts| && ts[at.value].key == key && ts[at.value].timer == t
    ensures at.None? ==> forall i | 0 <= i < |ts| :: ts[i].key != key || ts[i].timer != t
  {
    if ts == [] then None
    else if ts[0].key == key && ts[0].timer == t then Some(0)
    else match Find(ts[1..], key, t)
      case None => None
      case Some(i) => Some(i + 1)
  }

  lemma {:induction false} EraseIsWithout(ts: seq<Entry<Timer>>, i: nat, t: Timer)
    requires i < |ts| && ts[i].timer == t && forall j | 0 <= j < i :: ts[j].timer != t
    ensures ts[..i] + ts[i + 1..] == Without(ts, t)
  {
    if i > 0 {
      EraseIsWithout(ts[1..], i - 1, t);
      assert ts[..i] + ts[i + 1..] == [ts[0]] + (ts[1..][..i - 1] + ts[1..][i..]);
    }
  }

  /** When a timer can only lie under `key`, `find` and `erase` remove it, and miss it only if it is absent. */
  lemma FindErases(ts: seq<Entry<Timer>>, key: int, t: Timer, stamps: nat, added: map<Timer, Schedule>)
    requires GoodMap(ts, stamps, added) && forall e | e in ts && e.timer == t :: e.key == key
    ensures Find(ts, key, t).Some? <==> InMap(ts, t)
    ensures Find(ts, key, t).Some? ==>
              var i := Find(ts, key, t).value; ts[..i] + ts[i + 1..] == Without(ts, t)
    ensures forall x | x in Without(ts, t) :: x in ts
  {
    WithoutKeepsGood(ts, t, stamps, added);
    assert forall i | 0 <= i < |ts| :: ts[i] in ts;
    var it := Find(ts, key, t);
    if it.Some? {
      forall j: nat | j < it.value ensures ts[j].timer != t {
        ExpiredDistinct(ts, j, it.value);
      }
      EraseIsWithout(ts, it.value, t);
    }
  }

  class TimerQueue {
    var timers: seq<Entry<Timer>>
    var cancelingTimers: set<Timer>
    var callingExpiredTimers: bool
    var timerfd: TimerFd
    ghost var phase: Phase<Timer>
    ghost var added: map<Timer, Schedule>
    var stamps: nat                   // a multimap keeps the insertion order of equal keys by itself
    ghost var now: int
    ghost var trace: seq<Event<Timer>>

    ghost function View(): State<Timer>
      reads this
    {
      State(timers, phase, cancelingTimers, timerfd, added, stamps, now)
    }

    /** Every timer in the map or in the batch lies under its own current expiration. */
    ghost predicate OwnKeys(ts: seq<Entry<Timer>>)
      reads added.Keys, this
    {
      forall e | e in ts :: e.timer in added && e.key == e.timer.expiration
    }

    ghost predicate Valid()
      reads this, added.Keys
    {
      && Exec(Init(), trace) == Some(View())
      && callingExpiredTimers == phase.Calling?
      && OwnKeys(timers)
      && (phase.Calling? ==> OwnKeys(phase.expired))
      && (forall t | t in added :: added[t].interval == t.interval)
    }

    constructor ()
      ensures Valid() && trace == [] && View() == Init()
    {
      timers, cancelingTimers, callingExpiredTimers, timerfd := [], {}, false, Disarmed;
      phase, added, stamps, now, trace := Idle, map[], 0, 0, [];
    }

    ghost method Record(s: State<Timer>, ev: Event<Timer>)
      requires Exec(Init(), trace) == Some(s) && Step(s, ev).Some?
      requires var u := Step(s, ev).value;
               u.timers == timers && u.canceling == cancelingTimers && u.fd == timerfd && u.stamps == stamps
      modifies this`phase, this`added, this`now, this`trace
      ensures Exec(Init(), trace) == Some(View()) && Some(View()) == Step(s, ev)
      ensures trace == old(trace) + [ev]
    {
      hide Step;
      ExecSnoc(Init(), trace, ev);
      var u := Step(s, ev).value;
      phase, added, now := u.phase, u.added, u.now;
      trace := trace + [ev];
    }

    method ResetTimer(time: int)
      modifies this`timerfd
      ensures timerfd == TimerQueueMachine.ResetTimer(old(timerfd), time)
    {
      var secs := TruncDiv(time, NANOS);
      var nsecs := time - secs * NANOS;
      timerfd := SetTime(timerfd, secs, nsecs);
    }

    method AddTimerInLoop(timer: Timer)
      requires Valid() && timer !in added
      modifies this
      ensures Valid() && trace == old(trace) + [Add(timer, timer.expiration, timer.interval)]
      ensures Some(View()) == Step(old(View()), Add(timer, timer.expiration, timer.interval))
    {
      ghost var s := View();
      var e := Entry(timer.expiration, timer, stamps);
      timers, stamps := Insert(timers, e), stamps + 1;
      if timers[0] == e {
        ResetTimer(timer.expiration);
      }
      Record(s, Add(timer, timer.expiration, timer.interval));
      forall x | x in timers ensures x in s.timers || x == e {
        InsertMembers(s.timers, e, x);
      }
    }

    method CancelInLoop(timer: Timer)
      requires Valid()
      modifies this
      ensures Valid() && trace == old(trace) + [Cancel(timer)]
      ensures Some(View()) == Step(old(View()), Cancel(timer))
    {
      ghost var s := View();
      RunsKeepInvariant(trace, s);
      FindErases(timers, timer.expiration, timer, stamps, added);
      var it := Find(timers, timer.expiration, timer);
      if it.Some? {
        timers := timers[..it.value] + timers[it.value + 1..];
      } else if callingExpiredTimers {
        cancelingTimers := cancelingTimers + {timer};
      }
      Record(s, Cancel(timer));
    }

    /** The loop that copies the timers before `bound`. */
    method Collect(bound: nat) returns (expired: seq<Timer>)
      requires bound <= |timers|
      ensures |expired| == bound && forall i | 0 <= i < bound :: expired[i] == timers[i].timer
    {
      expired := [];
      var it := 0;
      while it != bound
        invariant 0 <= it <= bound && |expired| == it
        invariant forall i | 0 <= i < it :: expired[i] == timers[i].timer
      {
        expired := expired + [timers[it].timer];
        it := it + 1;
      }
    }

    /** `handleRead` up to its first callback. */
    method TakeExpired(time: int) returns (expired: seq<Timer>)
      requires Valid() && phase.Idle? && time >= now
      modifies this
      ensures Valid() && trace == old(trace) + [Fire(time)] && Some(View()) == Step(old(View()), Fire(time))
      ensures |expired| == |phase.expired| && forall i | 0 <= i < |expired| :: expired[i] == phase.expired[i].timer
    {
      ghost var before := timers;
      expired := SplitAtBound(time);
      SliceMembers(before, DueCount(before, time));
    }

    method SplitAtBound(time: int) returns (expired: seq<Timer>)
      requires Exec(Init(), trace) == Some(View()) && phase.Idle? && time >= now
      modifies this
      ensures trace == old(trace) + [Fire(time)] && Some(View()) == Step(old(View()), Fire(time))
      ensures Exec(Init(), trace) == Some(View()) && callingExpiredTimers && added == old(added)
      ensures phase == Calling(old(timers)[..DueCount(old(timers), time)], 0)
      ensures timers == old(timers)[DueCount(old(timers), time)..]
      ensures |expired| == |phase.expired| && forall i | 0 <= i < |expired| :: expired[i] == phase.expired[i].timer
    {
      ghost var s := View();
      if timerfd.Armed? && timerfd.time <= time {
        timerfd := Disarmed;
      }
      var bound := DueCount(timers, time);
      expired := Collect(bound);
      timers := timers[bound..];
      callingExpiredTimers := true;
      cancelingTimers := {};
      Record(s, Fire(time));
    }

    /** The call of one expired timer's callback; what the callback does are the steps that follow. */
    ghost method CallNext(timer: Timer)
      requires Valid() && Step(View(), RunNext(timer)).Some?
      modifies this
      ensures Valid() && trace == old(trace) + [RunNext(timer)] && Some(View()) == Step(old(View()), RunNext(timer))
    {
      Record(View(), RunNext(timer));
    }

    /** One turn of the loop that restarts the expired timers. */
    method RestartAndInsert(ghost s: State<Timer>, ghost i: nat, timer: Timer)
      requires Invariant(s) && s.phase.Calling? && i < |s.phase.expired| && timer == s.phase.expired[i].timer
      requires (timers, stamps) == Reinserted(s, i) && View() == s.(timers := timers, stamps := stamps)
      requires OwnKeys(timers) && timer.expiration == s.phase.expired[i].key
      requires forall t | t in added :: added[t].interval == t.interval
      modifies this`timers, this`stamps, timer
      ensures (timers, stamps) == Reinserted(s, i + 1) && View() == s.(timers := timers, stamps := stamps)
      ensures OwnKeys(timers)
    {
      ReinsertStep(s, i, timers, stamps);
      if timer.interval != 0 && timer !in cancelingTimers {
        timer.Restart();
        timers, stamps := Insert(timers, Entry(timer.expiration, timer, stamps)), stamps + 1;
      }
    }

    /** `handleRead` after its last callback. */
    method PutBackExpired(expired: seq<Timer>)
      requires Valid() && Step(View(), Finish).Some?
      requires |expired| == |phase.expired| && forall i | 0 <= i < |expired| :: expired[i] == phase.expired[i].timer
      modifies this, added.Keys
      ensures Valid() && trace == old(trace) + [Finish] && Some(View()) == Step(old(View()), Finish)
      ensures added == old(added)
    {
      ghost var s := View();
      RunsKeepInvariant(trace, s);
      callingExpiredTimers := false;
      RestartAll(s, expired);
      FinishMeans(s);
      hide Step, Invariant, Reinserted, Exec, TimerQueueMachine.ResetTimer;
      if timers != [] {
        ResetTimer(timers[0].key);
      } else {
        ResetTimer(0);
      }
      Record(s, Finish);
    }

    lemma FinishMeans(s: State<Timer>)
      requires Step(s, Finish).Some?
      ensures s.phase.Calling?
      ensures var (ts, stamp) := Reinserted(s, |s.phase.expired|);
              var u := Step(s, Finish).value;
              u.timers == ts && u.stamps == stamp && u.canceling == s.canceling && u.phase == Idle &&
              u.fd == TimerQueueMachine.ResetTimer(s.fd, if ts == [] then 0 else ts[0].key) && u.added == s.added
    {
      hide Reinserted, TimerQueueMachine.ResetTimer;
    }

    /** The loop that restarts the expired timers. */
    method RestartAll(ghost s: State<Timer>, expired: seq<Timer>)
      requires Invariant(s) && s.phase.Calling? && s == View() && OwnKeys(timers) && OwnKeys(phase.expired)
      requires forall t | t in added :: added[t].interval == t.interval
      requires |expired| == |phase.expired| && forall i | 0 <= i < |expired| :: expired[i] == phase.expired[i].timer
      modifies this`timers, this`stamps, added.Keys
      ensures (timers, stamps) == Reinserted(s, |expired|) && View() == s.(timers := timers, stamps := stamps)
      ensures OwnKeys(timers)
    {
      ExpiredAreAdded(s);
      hide Invariant, Reinserted;
      NoneReinserted(s);
      var i := 0;
      while i < |expired|
        invariant 0 <= i <= |expired|
        invariant (timers, stamps) == Reinserted(s, i)
        invariant View() == s.(timers := timers, stamps := stamps)
        invariant OwnKeys(timers)
        invariant forall j | i <= j < |expired| :: expired[j].expiration == s.phase.expired[j].key
      {
        RestartAndInsert(s, i, expired[i]);
        i := i + 1;
      }
    }

    lemma NoneReinserted(s: State<Timer>)
      requires s.phase.Calling?
      ensures Reinserted(s, 0) == (s.timers, s.stamps)
    {
    }

    lemma ExpiredAreAdded(s: State<Timer>)
      requires Invariant(s) && s.phase.Calling?
      ensures forall i | 0 <= i < |s.phase.expired| :: s.phase.expired[i].timer in s.added
      ensures forall i, j | 0 <= i < j < |s.phase.expired| :: s.phase.expired[i].timer != s.phase.expired[j].timer
    {
      forall i, j | 0 <= i < j < |s.phase.expired| ensures s.phase.expired[i].timer != s.phase.expired[j].timer {
        ExpiredDistinct(s.phase.expired, i, j);
      }
      assert forall i | 0 <= i < |s.phase.expired| :: s.phase.expired[i] in s.phase.expired;
    }
  }

  lemma SliceMembers(ts: seq<Entry<Timer>>, n: nat)
    requires n <= |ts|
    ensures forall e | e in ts[n..] || e in ts[..n] :: e in ts
  {
  }

  lemma ReinsertStep(s: State<Timer>, i: nat, ts: seq<Entry<Timer>>, stamp: nat)
    requires Invariant(s) && s.phase.Calling? && i < |s.phase.expired| && (ts, stamp) == Reinserted(s, i)
    ensures var e := s.phase.expired[i];
            && e.timer in s.added
            && if GoesBack(s, e) then
                 var back := Entry(e.key + s.added[e.timer].interval, e.timer, stamp);
                 && Reinserted(s, i + 1) == (Insert(ts, back), stamp + 1)
                 && (forall x | x in Insert(ts, back) :: x in ts || x == back)
                 && (forall x | x in ts :: x.timer != e.timer)
               else Reinserted(s, i + 1) == (ts, stamp)
  {
    hide Insert, InMap;
    var e := s.phase.expired[i];
    assert e in s.phase.expired;
    if GoesBack(s, e) {
      ReinsertedIsGood(s, i);
      NotYetBack(s, i + 1, ts, stamp);
      InMapMembers(ts, e.timer);
      var back := Entry(e.key + s.added[e.timer].interval, e.timer, stamp);
      forall x | x in Insert(ts, back) ensures x in ts || x == back {
        InsertMembers(ts, back, x);
      }
    }
  }
}
