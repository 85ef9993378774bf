/** When the timerfd of a timer queue (nutty/base/TimerQueue.cpp) is armed, and for when, over whole runs. */
module TimerQueueArming {
  import opened Wrappers
  import opened TimerQueueMachine
  import opened TimerQueueRuns

  /** The step sets the timerfd: it ends a `handleRead`, or adds a timer in front of all others. */
  predicate SetsFd<T(==)>(e: Event<T>, after: State<T>) {
    e.Finish? || (e.Add? && after.timers != [] && after.timers[0].timer == e.timer)
  }

  /** The first entry of the map when the timerfd was last set. */
  function Aim<T(==)>(es: seq<Event<T>>): Option<Entry<T>>
    requires Exec(Init<T>(), es).Some?
  {
    if es == [] then None
    else
      var s := Exec(Init<T>(), es).value;
      if !SetsFd(es[|es| - 1], s) then Aim(es[..|es| - 1])
      else if s.timers == [] then None
      else Some(s.timers[0])
  }

  /** The steps since. */
  function SinceSet<T(==)>(es: seq<Event<T>>): seq<Event<T>>
    requires Exec(Init<T>(), es).Some?
  {
    if es == [] || SetsFd(es[|es| - 1], Exec(Init<T>(), es).value) then []
    else SinceSet(es[..|es| - 1]) + [es[|es| - 1]]
  }

  /** The expiry for `time` was read in these steps. */
  predicate ReadIn<T>(fs: seq<Event<T>>, time: int) {
    exists i | 0 <= i < |fs| :: fs[i].Fire? && time <= fs[i].now
  }

  predicate NoFire<T>(fs: seq<Event<T>>) {
    forall i | 0 <= i < |fs| :: !fs[i].Fire?
  }

  lemma FiresSnoc<T>(fs: seq<Event<T>>, e: Event<T>, time: int)
    ensures ReadIn(fs + [e], time) <==> ReadIn(fs, time) || (e.Fire? && time <= e.now)
    ensures NoFire(fs + [e]) <==> NoFire(fs) && !e.Fire?
  {
    assert (fs + [e])[|fs|] == e && forall i | 0 <= i < |fs| :: (fs + [e])[i] == fs[i];
  }

  /** What the timerfd should be: armed for its aim, until that expiry is read. */
  function Promised<T>(aim: Option<Entry<T>>, since: seq<Event<T>>): TimerFd {
    if aim.None? || ReadIn(since, aim.value.key) then Disarmed else Armed(aim.value.key)
  }

  ghost predicate Aimed<T>(s: State<T>, aim: Option<Entry<T>>, since: seq<Event<T>>) {
    && s.fd == Promised(aim, since)
    && (s.phase.Idle? ==> NoFire(since))
    && (aim.None? ==> s.timers == [])
    && (aim.Some? ==>
          && aim.value.timer in s.added
          && (forall e | e in s.timers :: aim.value.key <= e.key)
          && (s.phase.Idle? ==> (aim.value in s.timers <==> Cancel(aim.value.timer) !in since)))
  }

  /** A step that sets the timerfd. */
  lemma SetAims<T>(s: State<T>, e: Event<T>, t: State<T>)
    requires Invariant(s) && Step(s, e) == Some(t) && Invariant(t) && PositiveState(t) && SetsFd(e, t)
    ensures Aimed(t, if t.timers == [] then None else Some(t.timers[0]), [])
  {
    if t.timers != [] {
      assert t.timers[0] in t.timers;
      ResetTimerMeaning(s.fd, t.timers[0].key);
    }
    if e.Add? {
      AddedInFront(s, e, t);
    } else if t.timers == [] {
      ResetTimerMeaning(s.fd, 0);
    }
    assert forall i | 0 < i < |t.timers| :: Before(t.timers[0], t.timers[i]);
  }

  lemma AddedInFront<T>(s: State<T>, e: Event<T>, t: State<T>)
    requires Invariant(s) && e.Add? && Step(s, e) == Some(t)
    ensures (t.timers[0] == Entry(e.time, e.timer, s.stamps)) <==> t.timers[0].timer == e.timer
    ensures t.timers[0] != Entry(e.time, e.timer, s.stamps) ==> s.timers != [] && t.timers[0] == s.timers[0]
  {
    var entry := Entry(e.time, e.timer, s.stamps);
    assert forall x | x in s.timers :: x.timer != e.timer;
    assert s.timers != [] ==> s.timers[0] in s.timers;
  }

  /** An add behind the first timer, a cancel, the start of a batch or a call. */
  lemma OthersKeepAim<T>(s: State<T>, e: Event<T>, t: State<T>, aim: Option<Entry<T>>, since: seq<Event<T>>)
    requires Invariant(s) && Step(s, e) == Some(t) && !SetsFd(e, t) && Aimed(s, aim, since)
    ensures Aimed(t, aim, since + [e])
  {
    FiresSnoc(since, e, if aim.Some? then aim.value.key else 0);
    match e
    case Add(_, _, _) => AddKeepsAim(s, e, t, aim, since);
    case Cancel(c) => CancelKeepsAim(s, c, t, aim, since);
    case Fire(now) => assert forall x | x in t.timers :: x in s.timers;
    case RunNext(_) =>
  }

  lemma AddKeepsAim<T>(s: State<T>, e: Event<T>, t: State<T>, aim: Option<Entry<T>>, since: seq<Event<T>>)
    requires Invariant(s) && e.Add? && Step(s, e) == Some(t) && !SetsFd(e, t) && Aimed(s, aim, since)
    ensures Aimed(t, aim, since + [e])
  {
    var entry := Entry(e.time, e.timer, s.stamps);
    FiresSnoc(since, e, if aim.Some? then aim.value.key else 0);
    AddedInFront(s, e, t);
    forall x ensures x in t.timers <==> x in s.timers || x == entry {
      InsertMembers(s.timers, entry, x);
    }
    assert s.timers[0] in s.timers;
    assert entry.key >= s.timers[0].key;
    hide Insert;
  }

  lemma CancelKeepsAim<T>(s: State<T>, c: T, t: State<T>, aim: Option<Entry<T>>, since: seq<Event<T>>)
    requires Invariant(s) && Step(s, Cancel(c)) == Some(t) && Aimed(s, aim, since)
    ensures Aimed(t, aim, since + [Cancel(c)])
  {
    FiresSnoc(since, Cancel(c), if aim.Some? then aim.value.key else 0);
    forall x ensures x in Without(s.timers, c) <==> x in s.timers && x.timer != c {
      WithoutMembers(s.timers, c, x);
    }
    InMapMembers(s.timers, c);
    assert !InMap(s.timers, c) ==> forall x | x in s.timers :: x.timer != c;
    hide Without;
  }

  lemma {:induction false} RunsAreAimed<T>(es: seq<Event<T>>, s: State<T>)
    requires Exec(Init<T>(), es) == Some(s) && PositiveTimes(es)
    ensures Aimed(s, Aim(es), SinceSet(es))
    decreases |es|
  {
    if es == [] {
      assert !ReadIn<T>([], 0);
    } else {
      hide Step, Invariant, Aimed, PositiveState, SetsFd;
      var k := |es| - 1;
      var p := Exec(Init<T>(), es[..k]).value;
      RunsKeepInvariant(es[..k], p);
      RunsKeepInvariant(es, s);
      PositiveRuns(es, s);
      RunsAreAimed(es[..k], p);
      if SetsFd(es[k], s) {
        SetAims(p, es[k], s);
      } else {
        OthersKeepAim(p, es[k], s, Aim(es[..k]), SinceSet(es[..k]));
      }
    }
  }

  /** In every run whose timers have positive times and no negative interval, at every point: the timerfd is armed
      for the timer that was first when it was last set, until that expiry is read, and for nothing if there was
      none. Outside `handleRead` it is armed for the first expiration of the map if and only if that timer has not
      been cancelled since or an equal expiration is left. */
  lemma HardwareTimerExactly<T>(es: seq<Event<T>>, s: State<T>)
    requires Exec(Init<T>(), es) == Some(s) && PositiveTimes(es)
    ensures s.fd == Promised(Aim(es), SinceSet(es))
    ensures s.phase.Idle? && s.timers != [] ==>
              && Aim(es).Some?
              && (s.fd == Armed(s.timers[0].key) <==>
                    Cancel(Aim(es).value.timer) !in SinceSet(es) || Aim(es).value.key == s.timers[0].key)
    ensures s.phase.Idle? && s.timers == [] && Aim(es).Some? ==> Cancel(Aim(es).value.timer) in SinceSet(es)
  {
    RunsAreAimed(es, s);
    RunsKeepInvariant(es, s);
    if s.phase.Idle? && s.timers != [] {
      var a := Aim(es).value;
      assert s.timers[0] in s.timers;
      assert !ReadIn(SinceSet(es), a.key);
      if a in s.timers {
        var i :| 0 <= i < |s.timers| && s.timers[i] == a;
        assert i > 0 ==> Before(s.timers[0], s.timers[i]);
      }
    }
  }

  /** Without cancels the timerfd is armed, outside `handleRead`, for exactly the first expiration, and for nothing
      if there is no timer. */
  lemma ArmedForTheFirst<T>(es: seq<Event<T>>, s: State<T>)
    requires Exec(Init<T>(), es) == Some(s) && PositiveTimes(es) && s.phase.Idle?
    requires forall i | 0 <= i < |es| :: !es[i].Cancel?
    ensures s.fd == if s.timers == [] then Disarmed else Armed(s.timers[0].key)
  {
    HardwareTimerExactly(es, s);
    forall e | e in SinceSet(es) ensures !e.Cancel? {
      SinceSetHappened(es, e);
    }
  }

  /** A run whose cancel leaves the timerfd armed for nothing. */
  lemma CancelLeavesItArmed<T>(t: T, time: int)
    requires time > 0
    ensures exists s :: Exec(Init<T>(), [Add(t, time, 0), Cancel(t)]) == Some(s) &&
                        s.phase.Idle? && s.timers == [] && s.fd == Armed(time)
  {
    var e1, e2 := [Add(t, time, 0)], [Add(t, time, 0), Cancel(t)];
    assert [] + [Add(t, time, 0)] == e1 && e1 + [Cancel(t)] == e2;
    ExecSnoc(Init<T>(), [], Add(t, time, 0));
    ExecSnoc(Init<T>(), e1, Cancel(t));
    ResetTimerMeaning(Disarmed, time);
  }

  lemma {:induction false} SinceSetHappened<T>(es: seq<Event<T>>, e: Event<T>)
    requires Exec(Init<T>(), es).Some? && e in SinceSet(es)
    ensures e in es
    decreases |es|
  {
    if e in SinceSet(es[..|es| - 1]) {
      SinceSetHappened(es[..|es| - 1], e);
    }
  }
}
