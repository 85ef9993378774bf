/** The timer queue (nutty/base/TimerQueue.cpp, nutty/base/Timer.cpp) as a step system on the loop thread.

    `handleRead` is the series `Fire`, one `RunNext` for each expired timer, `Finish`. A callback is user
    code, so any number of `Add` and `Cancel` steps may follow each `RunNext`. Times are nanoseconds since
    the clock's epoch. */
module TimerQueueMachine {
  import opened Arithmetic
  import opened Wrappers

  /** One element of the multimap. `stamp` numbers the insertions. */
  datatype Entry<T> = Entry(key: int, timer: T, stamp: nat)

  datatype Schedule = Schedule(start: int, interval: int)

  /** The timerfd: `Armed(t)` from the moment it is set for `t` until its expiry is read. */
  datatype TimerFd = Disarmed | Armed(time: int)

  datatype Phase<T> = Idle | Calling(expired: seq<Entry<T>>, next: nat)

  datatype State<T> = State(
    timers: seq<Entry<T>>,          // timers_, in iteration order
    phase: Phase<T>,                // callingExpiredTimers_ and the locals of handleRead
    canceling: set<T>,              // cancelingTimers_
    fd: TimerFd,
    added: map<T, Schedule>,        // every timer whose add has executed
    stamps: nat,
    now: int                        // the clock at the last handleRead
  )

  datatype Event<T> =
    | Add(timer: T, time: int, interval: int)
    | Cancel(timer: T)
    | Fire(now: int)
    | RunNext(timer: T)
    | Finish

  function Init<T>(): State<T> {
    State([], Idle, {}, Disarmed, map[], 0, 0)
  }

  const NANOS := 1_000_000_000

  /** `timerfd_settime` with an absolute time: invalid times are refused, zero disarms. */
  function SetTime(fd: TimerFd, sec: int, nsec: int): TimerFd {
    if sec < 0 || nsec < 0 || nsec >= NANOS then fd
    else if sec == 0 && nsec == 0 then Disarmed
    else Armed(sec * NANOS + nsec)
  }

  function ResetTimer(fd: TimerFd, time: int): TimerFd {
    var secs := TruncDiv(time, NANOS);
    SetTime(fd, secs, time - secs * NANOS)
  }

  /** The split into seconds and nanoseconds recombines exactly, so a positive time arms the timerfd for
      that time; zero disarms it, and a negative time is refused and leaves it as it was. */
  lemma ResetTimerMeaning(fd: TimerFd, time: int)
    ensures ResetTimer(fd, time) == if time > 0 then Armed(time) else if time == 0 then Disarmed else fd
    ensures time >= 0 ==> 0 <= time - TruncDiv(time, NANOS) * NANOS < NANOS == 1_000_000_000
  {
    if time < 0 {
      assert -time / NANOS * NANOS <= -time < (-time / NANOS + 1) * NANOS;
    }
  }

  function Insert<T>(ts: seq<Entry<T>>, e: Entry<T>): (r: seq<Entry<T>>)
    ensures |r| == |ts| + 1
  {
    if ts == [] || e.key < ts[0].key then [e] + ts else [ts[0]] + Insert(ts[1..], e)
  }

  predicate InMap<T(==)>(ts: seq<Entry<T>>, t: T) {
    exists i | 0 <= i < |ts| :: ts[i].timer == t
  }

  function Without<T(==)>(ts: seq<Entry<T>>, t: T): (r: seq<Entry<T>>) {
    if ts == [] then [] else if ts[0].timer == t then ts[1..] else [ts[0]] + Without(ts[1..], t)
  }

  /** `upper_bound(now)`: how many entries lie before the first key greater than `now`. */
  function DueCount<T>(ts: seq<Entry<T>>, now: int): (n: nat)
    ensures n <= |ts|
    ensures forall i | 0 <= i < n :: ts[i].key <= now
    ensures n < |ts| ==> now < ts[n].key
  {
    if ts == [] || now < ts[0].key then 0 else 1 + DueCount(ts[1..], now)
  }

  predicate GoesBack<T(==)>(s: State<T>, e: Entry<T>) {
    e.timer in s.added && s.added[e.timer].interval != 0 && e.timer !in s.canceling
  }

  /** The map after re-inserting the first `n` expired timers, with the stamps used so far. */
  function Reinserted<T(==)>(s: State<T>, n: nat): (r: (seq<Entry<T>>, nat))
    requires s.phase.Calling? && n <= |s.phase.expired|
  {
    if n == 0 then (s.timers, s.stamps)
    else
      var (ts, stamp) := Reinserted(s, n - 1);
      var e := s.phase.expired[n - 1];
      if GoesBack(s, e) then
        (Insert(ts, Entry(e.key + s.added[e.timer].interval, e.timer, stamp)), stamp + 1)
      else (ts, stamp)
  }

  function Step<T(==)>(s: State<T>, ev: Event<T>): (r: Option<State<T>>) {
    match ev
    case Add(t, time, interval) =>
      if t in s.added then None
      else
        var e := Entry(time, t, s.stamps);
        var ts := Insert(s.timers, e);
        Some(s.(timers := ts, stamps := s.stamps + 1, added := s.added[t := Schedule(time, interval)],
                fd := if ts[0] == e then ResetTimer(s.fd, time) else s.fd))
    case Cancel(t) =>
      if InMap(s.timers, t) then Some(s.(timers := Without(s.timers, t)))
      else if s.phase.Calling? then Some(s.(canceling := s.canceling + {t}))
      else Some(s)
    case Fire(now) =>
      if s.phase.Idle? && now >= s.now then
        var n := DueCount(s.timers, now);
        Some(s.(timers := s.timers[n..], phase := Calling(s.timers[..n], 0), canceling := {}, now := now,
                fd := if s.fd.Armed? && s.fd.time <= now then Disarmed else s.fd))
      else None
    case RunNext(t) =>
      if s.phase.Calling? && s.phase.next < |s.phase.expired| && s.phase.expired[s.phase.next].timer == t then
        Some(s.(phase := Calling(s.phase.expired, s.phase.next + 1)))
      else None
    case Finish =>
      if s.phase.Calling? && s.phase.next == |s.phase.expired| then
        var (ts, stamp) := Reinserted(s, |s.phase.expired|);
        Some(s.(timers := ts, stamps := stamp, phase := Idle,
                fd := ResetTimer(s.fd, if ts == [] then 0 else ts[0].key)))
      else None
  }

  function Exec<T(==)>(s: State<T>, es: seq<Event<T>>): (r: Option<State<T>>) {
    if es == [] then Some(s)
    else
      match Exec(s, es[..|es| - 1])
      case None => None
      case Some(p) => Step(p, es[|es| - 1])
  }

  lemma ExecSnoc<T>(s: State<T>, es: seq<Event<T>>, e: Event<T>)
    ensures Exec(s, es + [e]) == match Exec(s, es) case None => None case Some(p) => Step(p, e)
  {
    assert (es + [e])[..|es|] == es;
  }

  /** How often the run has called timer `t`. */
  function Runs<T(==)>(es: seq<Event<T>>, t: T): (n: nat) {
    if es == [] then 0 else Runs(es[..|es| - 1], t) + if es[|es| - 1] == RunNext(t) then 1 else 0
  }

  /** The timers called by the run, in order. */
  function Called<T>(es: seq<Event<T>>): (ts: seq<T>) {
    if es == [] then [] else Called(es[..|es| - 1]) + if es[|es| - 1].RunNext? then [es[|es| - 1].timer] else []
  }

  /* ---- the multimap ---- */

  predicate Before<T>(a: Entry<T>, b: Entry<T>) {
    a.key < b.key || (a.key == b.key && a.stamp < b.stamp)
  }

  /** In order of key, and among equal keys in order of insertion. */
  ghost predicate Sorted<T>(ts: seq<Entry<T>>) {
    forall i, j | 0 <= i < j < |ts| :: Before(ts[i], ts[j])
  }

  ghost predicate StampsBelow<T>(ts: seq<Entry<T>>, bound: nat) {
    forall e | e in ts :: e.stamp < bound
  }

  lemma SortedCons<T>(a: Entry<T>, rest: seq<Entry<T>>)
    requires Sorted(rest) && forall x | x in rest :: Before(a, x)
    ensures Sorted([a] + rest)
  {
  }

  lemma SortedTail<T>(ts: seq<Entry<T>>)
    requires Sorted(ts) && ts != []
    ensures Sorted(ts[1..]) && forall x | x in ts[1..] :: x in ts && Before(ts[0], x)
    ensures forall x | x in ts :: x == ts[0] || x in ts[1..]
  {
    assert ts == [ts[0]] + ts[1..];
    forall x | x in ts[1..] ensures x in ts && Before(ts[0], x) {
      var j :| 0 <= j < |ts[1..]| && ts[1..][j] == x;
      assert ts[j + 1] == x;
    }
  }

  lemma {:induction false} InsertMembers<T>(ts: seq<Entry<T>>, e: Entry<T>, x: Entry<T>)
    ensures x in Insert(ts, e) <==> x in ts || x == e
    decreases |ts|
  {
    if ts != [] && e.key >= ts[0].key {
      assert ts == [ts[0]] + ts[1..];
      InsertMembers(ts[1..], e, x);
    }
  }

  lemma {:induction false} InsertKeepsOrder<T>(ts: seq<Entry<T>>, e: Entry<T>)
    requires Sorted(ts) && StampsBelow(ts, e.stamp)
    ensures Sorted(Insert(ts, e))
    decreases |ts|
  {
    if ts == [] {
    } else {
      SortedTail(ts);
      var rest := ts[1..];
      assert ts[0] in ts;
      if e.key < ts[0].key {
        SortedCons(e, ts);
      } else {
        InsertKeepsOrder(rest, e);
        forall x | x in Insert(rest, e) ensures Before(ts[0], x) {
          InsertMembers(rest, e, x);
        }
        SortedCons(ts[0], Insert(rest, e));
      }
    }
  }

  /** Each timer occurs at most once. */
  ghost predicate OnePerTimer<T>(ts: seq<Entry<T>>) {
    forall a, b | a in ts && b in ts && a.timer == b.timer :: a == b
  }

  lemma {:induction false} WithoutMembers<T>(ts: seq<Entry<T>>, t: T, e: Entry<T>)
    requires Sorted(ts) && OnePerTimer(ts)
    ensures e in Without(ts, t) <==> e in ts && e.timer != t
    decreases |ts|
  {
    if ts != [] {
      SortedTail(ts);
      assert ts[0] in ts;
      if ts[0].timer != t {
        WithoutMembers(ts[1..], t, e);
      } else if e in ts[1..] {
        assert Before(ts[0], e);
      }
    }
  }

  lemma {:induction false} WithoutKeepsOrder<T>(ts: seq<Entry<T>>, t: T)
    requires Sorted(ts) && OnePerTimer(ts)
    ensures Sorted(Without(ts, t))
    decreases |ts|
  {
    if ts != [] {
      SortedTail(ts);
      if ts[0].timer != t {
        WithoutKeepsOrder(ts[1..], t);
        forall x | x in Without(ts[1..], t) ensures Before(ts[0], x) {
          WithoutMembers(ts[1..], t, x);
        }
        SortedCons(ts[0], Without(ts[1..], t));
      }
    }
  }

  /* ---- what every step keeps ---- */

  ghost predicate Apart<T>(ts: seq<Entry<T>>, us: seq<Entry<T>>) {
    forall a, b | a in ts && b in us :: a.timer != b.timer
  }

  ghost predicate Known<T>(ts: seq<Entry<T>>, added: map<T, Schedule>) {
    forall e | e in ts :: e.timer in added
  }

  ghost predicate GoodMap<T>(ts: seq<Entry<T>>, stamps: nat, added: map<T, Schedule>) {
    Sorted(ts) && StampsBelow(ts, stamps) && OnePerTimer(ts) && Known(ts, added)
  }

  ghost predicate Invariant<T>(s: State<T>) {
    && GoodMap(s.timers, s.stamps, s.added)
    && (s.phase.Calling? ==>
          && s.phase.next <= |s.phase.expired|
          && GoodMap(s.phase.expired, s.stamps, s.added)
          && Apart(s.timers, s.phase.expired)
          && forall e | e in s.phase.expired :: e.key <= s.now)
  }

  lemma InMapMembers<T>(ts: seq<Entry<T>>, t: T)
    ensures InMap(ts, t) <==> exists e :: e in ts && e.timer == t
  {
    if InMap(ts, t) {
      var i :| 0 <= i < |ts| && ts[i].timer == t;
      assert ts[i] in ts;
    }
    if e :| e in ts && e.timer == t {
      var i :| 0 <= i < |ts| && ts[i] == e;
      assert ts[i].timer == t;
    }
  }

  lemma InsertKeepsGood<T>(ts: seq<Entry<T>>, e: Entry<T>, added: map<T, Schedule>)
    requires GoodMap(ts, e.stamp, added) && e.timer in added && !InMap(ts, e.timer)
    ensures GoodMap(Insert(ts, e), e.stamp + 1, added)
  {
    InsertKeepsOrder(ts, e);
    InMapMembers(ts, e.timer);
    forall x | x in Insert(ts, e) ensures x in ts || x == e {
      InsertMembers(ts, e, x);
    }
  }

  lemma WithoutKeepsGood<T>(ts: seq<Entry<T>>, t: T, stamps: nat, added: map<T, Schedule>)
    requires GoodMap(ts, stamps, added)
    ensures GoodMap(Without(ts, t), stamps, added) && !InMap(Without(ts, t), t)
    ensures forall x | x in Without(ts, t) :: x in ts
  {
    WithoutKeepsOrder(ts, t);
    forall x | x in Without(ts, t) ensures x in ts && x.timer != t {
      WithoutMembers(ts, t, x);
    }
    InMapMembers(Without(ts, t), t);
  }

  lemma SplitKeepsGood<T>(ts: seq<Entry<T>>, n: nat, stamps: nat, added: map<T, Schedule>)
    requires GoodMap(ts, stamps, added) && n <= |ts|
    ensures GoodMap(ts[..n], stamps, added) && GoodMap(ts[n..], stamps, added)
    ensures Apart(ts[n..], ts[..n])
  {
    forall a, b | a in ts[n..] && b in ts[..n] ensures a.timer != b.timer {
      var i :| 0 <= i < |ts[n..]| && ts[n..][i] == a;
      var j :| 0 <= j < n && ts[..n][j] == b;
      assert Before(ts[j], ts[n + i]);
      assert ts[j] in ts && ts[n + i] in ts;
    }
  }

  /** Entry `x` is one of the first `n` expired timers, re-inserted one interval later. */
  ghost predicate WentBack<T>(s: State<T>, n: nat, x: Entry<T>)
    requires s.phase.Calling? && n <= |s.phase.expired|
  {
    exists i | 0 <= i < n ::
      GoesBack(s, s.phase.expired[i]) && x.timer == s.phase.expired[i].timer &&
      x.key == s.phase.expired[i].key + s.added[x.timer].interval
  }

  lemma ExpiredDistinct<T>(ts: seq<Entry<T>>, i: nat, j: nat)
    requires Sorted(ts) && OnePerTimer(ts) && i < j < |ts|
    ensures ts[i].timer != ts[j].timer
  {
    assert Before(ts[i], ts[j]) && ts[i] in ts && ts[j] in ts;
  }

  /** `ts` is the map with the first `n` expired timers put back as `Finish` does. */
  ghost predicate PutBack<T>(s: State<T>, n: nat, ts: seq<Entry<T>>, stamp: nat)
    requires s.phase.Calling? && n <= |s.phase.expired|
  {
    && GoodMap(ts, stamp, s.added)
    && (forall x | x in ts :: x in s.timers || WentBack(s, n, x))
    && (forall x | x in s.timers :: x in ts)
    && (forall i | 0 <= i < n && GoesBack(s, s.phase.expired[i]) :: InMap(ts, s.phase.expired[i].timer))
  }

  lemma {:induction false} ReinsertedIsGood<T>(s: State<T>, n: nat)
    requires Invariant(s) && s.phase.Calling? && n <= |s.phase.expired|
    ensures PutBack(s, n, Reinserted(s, n).0, Reinserted(s, n).1)
  {
    if n == 0 {
      assert PutBack(s, 0, s.timers, s.stamps);
    } else {
      ReinsertedIsGood(s, n - 1);
      ReinsertNext(s, n, Reinserted(s, n - 1).0, Reinserted(s, n - 1).1);
    }
  }

  lemma ReinsertNext<T>(s: State<T>, n: nat, ts: seq<Entry<T>>, stamp: nat)
    requires Invariant(s) && s.phase.Calling? && 0 < n <= |s.phase.expired|
    requires PutBack(s, n - 1, ts, stamp) && Reinserted(s, n - 1) == (ts, stamp)
    ensures PutBack(s, n, Reinserted(s, n).0, Reinserted(s, n).1)
  {
    hide Invariant, PutBack, Insert, InMap;
    if GoesBack(s, s.phase.expired[n - 1]) {
      NotYetBack(s, n, ts, stamp);
      ReinsertOne(s, n, ts, stamp);
    } else {
      SkipOne(s, n, ts, stamp);
    }
  }

  lemma SkipOne<T>(s: State<T>, n: nat, ts: seq<Entry<T>>, stamp: nat)
    requires s.phase.Calling? && 0 < n <= |s.phase.expired| && PutBack(s, n - 1, ts, stamp)
    requires !GoesBack(s, s.phase.expired[n - 1])
    ensures PutBack(s, n, ts, stamp)
  {
    assert forall x | WentBack(s, n - 1, x) :: WentBack(s, n, x);
  }

  lemma NotYetBack<T>(s: State<T>, n: nat, ts: seq<Entry<T>>, stamp: nat)
    requires Invariant(s) && s.phase.Calling? && 0 < n <= |s.phase.expired| && PutBack(s, n - 1, ts, stamp)
    ensures !InMap(ts, s.phase.expired[n - 1].timer)
  {
    var e := s.phase.expired[n - 1];
    assert e in s.phase.expired;
    forall i: nat | i < n - 1 ensures s.phase.expired[i].timer != e.timer {
      ExpiredDistinct(s.phase.expired, i, n - 1);
    }
    InMapMembers(ts, e.timer);
    assert forall x | x in ts :: x.timer != e.timer;
  }

  lemma ReinsertOne<T>(s: State<T>, n: nat, ts: seq<Entry<T>>, stamp: nat)
    requires s.phase.Calling? && 0 < n <= |s.phase.expired| && PutBack(s, n - 1, ts, stamp)
    requires GoesBack(s, s.phase.expired[n - 1]) && !InMap(ts, s.phase.expired[n - 1].timer)
    ensures var e := s.phase.expired[n - 1];
            PutBack(s, n, Insert(ts, Entry(e.key + s.added[e.timer].interval, e.timer, stamp)), stamp + 1)
  {
    var e := s.phase.expired[n - 1];
    var back := Entry(e.key + s.added[e.timer].interval, e.timer, stamp);
    var r := Insert(ts, back);
    InsertKeepsGood(ts, back, s.added);
    forall x | x in r ensures x in s.timers || WentBack(s, n, x) {
      InsertMembers(ts, back, x);
    }
    forall x | x in s.timers ensures x in r {
      InsertMembers(ts, back, x);
    }
    forall i | 0 <= i < n && GoesBack(s, s.phase.expired[i]) ensures InMap(r, s.phase.expired[i].timer) {
      var t := s.phase.expired[i].timer;
      InMapMembers(r, t);
      if i == n - 1 {
        InsertMembers(ts, back, back);
      } else {
        InMapMembers(ts, t);
        var x :| x in ts && x.timer == t;
        InsertMembers(ts, back, x);
      }
    }
  }

  lemma AddKeepsInvariant<T>(s: State<T>, t: T, time: int, interval: int)
    requires Invariant(s) && t !in s.added
    ensures Invariant(Step(s, Add(t, time, interval)).value)
  {
    var e := Entry(time, t, s.stamps);
    var added := s.added[t := Schedule(time, interval)];
    InMapMembers(s.timers, t);
    InsertKeepsGood(s.timers, e, added);
    if s.phase.Calling? {
      forall a, b | a in Insert(s.timers, e) && b in s.phase.expired ensures a.timer != b.timer {
        InsertMembers(s.timers, e, a);
      }
    }
  }

  lemma StepKeepsInvariant<T>(s: State<T>, ev: Event<T>)
    requires Invariant(s) && Step(s, ev).Some?
    ensures Invariant(Step(s, ev).value)
  {
    match ev
    case Add(t, time, interval) => AddKeepsInvariant(s, t, time, interval);
    case Cancel(t) => WithoutKeepsGood(s.timers, t, s.stamps, s.added);
    case Fire(now) =>
      var n := DueCount(s.timers, now);
      SplitKeepsGood(s.timers, n, s.stamps, s.added);
    case RunNext(t) =>
    case Finish => ReinsertedIsGood(s, |s.phase.expired|);
  }

  lemma {:induction false} RunsKeepInvariant<T>(es: seq<Event<T>>, s: State<T>)
    requires Exec(Init<T>(), es) == Some(s)
    ensures Invariant(s)
    decreases |es|
  {
    if es != [] {
      var p := Exec(Init<T>(), es[..|es| - 1]).value;
      RunsKeepInvariant(es[..|es| - 1], p);
      StepKeepsInvariant(p, es[|es| - 1]);
    }
  }
}
