/** The poll index (nutty/base/poller/PollPoller.cpp) as values, and the watchers that keep it up to date
    (nutty/base/Watcher.cpp:24-38) as a step system. `W` stands for a watcher. */
module PollMachine {
  import opened Wrappers

  const POLLIN: bv16 := 0x0001
  const POLLPRI: bv16 := 0x0002
  const POLLOUT: bv16 := 0x0004
  const POLLERR: bv16 := 0x0008
  const POLLHUP: bv16 := 0x0010
  const POLLNVAL: bv16 := 0x0020
  const POLLRDHUP: bv16 := 0x2000

  const NONE_EVENT: bv16 := 0
  const READ_EVENT: bv16 := 0x0003    // POLLIN | POLLPRI
  const WRITE_EVENT: bv16 := 0x0004   // POLLOUT

  datatype PollFd = PollFd(fd: int, events: bv16, revents: bv16)

  datatype Poll<W> = Poll(
    fds: seq<PollFd>,          // fds_
    pollfds: map<int, nat>,    // pollfds_: where an fd is in fds_
    watchers: map<int, W>      // watchers_
  )

  function Add<W>(p: Poll<W>, fd: int, events: bv16, w: W): Poll<W> {
    Poll(p.fds + [PollFd(fd, events, 0)], p.pollfds[fd := |p.fds|], p.watchers[fd := w])
  }

  function Update<W>(p: Poll<W>, fd: int, events: bv16): Poll<W> {
    if fd !in p.pollfds || p.pollfds[fd] >= |p.fds| then p
    else
      var i := p.pollfds[fd];
      p.(fds := p.fds[i := p.fds[i].(events := events, revents := 0)])
  }

  /** The last entry takes the place of the one removed. */
  function Remove<W>(p: Poll<W>, fd: int): Poll<W> {
    if fd !in p.pollfds || p.pollfds[fd] >= |p.fds| then p
    else
      var i, last := p.pollfds[fd], p.fds[|p.fds| - 1];
      var key := p.fds[i].fd;
      var pollfds := p.pollfds - {key};
      if key != last.fd then
        Poll(p.fds[i := last][..|p.fds| - 1], pollfds[last.fd := i], p.watchers - {key})
      else
        Poll(p.fds[..|p.fds| - 1], pollfds, p.watchers - {key})
  }

  /** The vector and the two maps agree. */
  predicate Index<W>(p: Poll<W>) {
    && p.watchers.Keys == p.pollfds.Keys
    && (forall fd | fd in p.pollfds :: p.pollfds[fd] < |p.fds| && p.fds[p.pollfds[fd]].fd == fd)
    && (forall i | 0 <= i < |p.fds| :: p.fds[i].fd in p.pollfds && p.pollfds[p.fds[i].fd] == i)
  }

  /** What the index registers: which descriptors, and for which events. */
  function Mask<W>(p: Poll<W>): (m: map<int, bv16>)
    requires Index(p)
  {
    map fd | fd in p.pollfds :: p.fds[p.pollfds[fd]].events
  }

  lemma AddKeepsIndex<W>(p: Poll<W>, fd: int, events: bv16, w: W)
    requires Index(p) && fd !in p.pollfds
    ensures Index(Add(p, fd, events, w))
  {
  }

  lemma AddMeans<W>(p: Poll<W>, fd: int, events: bv16, w: W)
    requires Index(p) && fd !in p.pollfds
    ensures Index(Add(p, fd, events, w)) && Mask(Add(p, fd, events, w)) == Mask(p)[fd := events]
  {
    AddKeepsIndex(p, fd, events, w);
    var t := Add(p, fd, events, w);
    assert forall g | g in p.pollfds :: t.fds[p.pollfds[g]] == p.fds[p.pollfds[g]];
    hide Index;
    assert Mask(t).Keys == Mask(p)[fd := events].Keys;
  }

  /** Adding is only right for a descriptor that is not registered. */
  lemma AddKeepsIndexExactly<W>(p: Poll<W>, fd: int, events: bv16, w: W)
    requires Index(p)
    ensures Index(Add(p, fd, events, w)) <==> fd !in p.pollfds
  {
    var t := Add(p, fd, events, w);
    if fd in p.pollfds {
      assert t.fds[p.pollfds[fd]].fd == fd && t.pollfds[fd] == |p.fds|;
    } else {
      AddMeans(p, fd, events, w);
    }
  }

  lemma UpdateKeepsIndex<W>(p: Poll<W>, fd: int, events: bv16)
    requires Index(p)
    ensures Index(Update(p, fd, events)) && Update(p, fd, events).watchers == p.watchers
    ensures Update(p, fd, events).pollfds == p.pollfds
  {
    assert forall i | 0 <= i < |p.fds| :: Update(p, fd, events).fds[i].fd == p.fds[i].fd;
  }

  lemma UpdateMeans<W>(p: Poll<W>, fd: int, events: bv16)
    requires Index(p)
    ensures Index(Update(p, fd, events)) && Update(p, fd, events).watchers == p.watchers
    ensures Mask(Update(p, fd, events)) == if fd in p.pollfds then Mask(p)[fd := events] else Mask(p)
    ensures fd in p.pollfds ==> Update(p, fd, events).fds[p.pollfds[fd]] == PollFd(fd, events, 0)
  {
    UpdateKeepsIndex(p, fd, events);
    if fd in p.pollfds {
      forall g | g in p.pollfds ensures Mask(Update(p, fd, events))[g] == Mask(p)[fd := events][g] {
        if g != fd {
          assert p.pollfds[g] != p.pollfds[fd];
        }
      }
    }
  }

  /** Removing takes out the one entry and keeps every other, wherever it now stands. */
  lemma RemoveMeans<W>(p: Poll<W>, fd: int)
    requires Index(p)
    ensures Index(Remove(p, fd)) && Remove(p, fd).watchers == p.watchers - {fd}
    ensures Mask(Remove(p, fd)) == Mask(p) - {fd}
  {
    if fd in p.pollfds {
      RemoveKeepsIndex(p, fd);
      RemoveKeepsOthers(p, fd);
      hide Remove;
      var t := Remove(p, fd);
      assert Mask(t).Keys == (Mask(p) - {fd}).Keys;
      assert forall g | g in t.pollfds :: Mask(t)[g] == Mask(p)[g];
    } else {
      assert fd !in Mask(p);
    }
  }

  lemma RemoveKeepsIndex<W>(p: Poll<W>, fd: int)
    requires Index(p) && fd in p.pollfds
    ensures Index(Remove(p, fd))
  {
    var t, i, n := Remove(p, fd), p.pollfds[fd], |p.fds| - 1;
    assert p.fds[n].fd in p.pollfds && p.pollfds[p.fds[n].fd] == n;
    assert forall j | 0 <= j < n :: t.fds[j] == if j == i then p.fds[n] else p.fds[j];
  }

  lemma RemoveKeepsOthers<W>(p: Poll<W>, fd: int)
    requires Index(p) && fd in p.pollfds
    ensures Remove(p, fd).pollfds.Keys == p.pollfds.Keys - {fd} && Remove(p, fd).watchers == p.watchers - {fd}
    ensures forall g | g in p.pollfds && g != fd ::
              Remove(p, fd).pollfds[g] < |p.fds| - 1 &&
              Remove(p, fd).fds[Remove(p, fd).pollfds[g]] == p.fds[p.pollfds[g]]
  {
    var t, i, n := Remove(p, fd), p.pollfds[fd], |p.fds| - 1;
    assert p.fds[n].fd in p.pollfds && p.pollfds[p.fds[n].fd] == n;
    assert forall j | 0 <= j < n :: t.fds[j] == if j == i then p.fds[n] else p.fds[j];
  }

  /* ---- the watchers ---- */

  datatype Interest = Interest(events: bv16, started: bool)

  datatype State = State(poll: Poll<int>, watchers: map<int, Interest>)

  datatype Event =
    | EnableReading(fd: int) | DisableReading(fd: int) | EnableWriting(fd: int) | DisableWriting(fd: int)
    | DisableAll(fd: int)

  function NewEvents(events: bv16, e: Event): bv16 {
    match e
    case EnableReading(_) => events | READ_EVENT
    case DisableReading(_) => events & !READ_EVENT
    case EnableWriting(_) => events | WRITE_EVENT
    case DisableWriting(_) => events & !WRITE_EVENT
    case DisableAll(_) => NONE_EVENT
  }

  /** `Watcher::update`. */
  function UpdateWatcher<W>(p: Poll<W>, fd: int, i: Interest, w: W): (Poll<W>, Interest) {
    if i.started then
      if i.events == NONE_EVENT then (Remove(p, fd), i.(started := false)) else (Update(p, fd, i.events), i)
    else
      if i.events != NONE_EVENT then (Add(p, fd, i.events, w), i.(started := true)) else (p, i)
  }

  function Step(s: State, e: Event): Option<State> {
    if e.fd !in s.watchers then None
    else
      var i := s.watchers[e.fd];
      var (p, j) := UpdateWatcher(s.poll, e.fd, i.(events := NewEvents(i.events, e)), e.fd);
      Some(State(p, s.watchers[e.fd := j]))
  }

  function Exec(s: State, es: seq<Event>): Option<State> {
    if es == [] then Some(s)
    else match Exec(s, es[..|es| - 1])
      case Some(t) => Step(t, es[|es| - 1])
      case None => None
  }

  /** Any number of watchers, on different descriptors, none of them registered. */
  predicate Init(s: State) {
    s.poll == Poll([], map[], map[]) && forall fd | fd in s.watchers :: s.watchers[fd] == Interest(NONE_EVENT, false)
  }

  /** A watcher has started if and only if it is interested in something, and then it is registered for just
      that. */
  predicate Agrees(registered: map<int, bv16>, fd: int, i: Interest) {
    && (i.started <==> i.events != NONE_EVENT)
    && (i.started <==> fd in registered)
    && (i.started ==> registered[fd] == i.events)
  }

  lemma UpdateAgrees<W>(p: Poll<W>, fd: int, i: Interest, events: bv16, w: W)
    requires Index(p) && Agrees(Mask(p), fd, i)
    ensures var (q, j) := UpdateWatcher(p, fd, i.(events := events), w);
            && Index(q) && j.events == events && Agrees(Mask(q), fd, j)
            && Mask(q) - {fd} == Mask(p) - {fd}
            && q.watchers == if events == NONE_EVENT then p.watchers - {fd}
                             else if i.started then p.watchers else p.watchers[fd := w]
  {
    if i.started {
      RemoveMeans(p, fd);
      UpdateMeans(p, fd, events);
    } else {
      AddMeans(p, fd, events, w);
      assert p.watchers - {fd} == p.watchers;
    }
    hide Index, Remove, Update, Add, Mask;
  }

  /** Under any calls on watchers of different descriptors the index stays coherent and registers exactly the
      watchers that are interested in something, each for exactly what it is interested in. */
  lemma {:induction false} PollAgreesWithWatchers(s0: State, es: seq<Event>, s: State)
    requires Init(s0) && Exec(s0, es) == Some(s)
    ensures Index(s.poll) && s.watchers.Keys == s0.watchers.Keys
    ensures forall fd | fd in s.watchers :: Agrees(Mask(s.poll), fd, s.watchers[fd])
    ensures Mask(s.poll) == map fd | fd in s.watchers && s.watchers[fd].events != NONE_EVENT :: s.watchers[fd].events
    ensures forall fd | fd in s.poll.watchers :: s.poll.watchers[fd] == fd
    decreases |es|
  {
    if es == [] {
      assert Mask(s.poll) == map[];
    } else {
      var p := Exec(s0, es[..|es| - 1]).value;
      PollAgreesWithWatchers(s0, es[..|es| - 1], p);
      StepAgrees(p, es[|es| - 1], s);
    }
  }

  lemma StepAgrees(s: State, e: Event, t: State)
    requires Index(s.poll) && Step(s, e) == Some(t)
    requires forall fd | fd in s.watchers :: Agrees(Mask(s.poll), fd, s.watchers[fd])
    requires forall fd | fd in Mask(s.poll) :: fd in s.watchers
    requires forall fd | fd in s.poll.watchers :: s.poll.watchers[fd] == fd
    ensures Index(t.poll) && t.watchers.Keys == s.watchers.Keys
    ensures forall fd | fd in t.watchers :: Agrees(Mask(t.poll), fd, t.watchers[fd])
    ensures Mask(t.poll) == map fd | fd in t.watchers && t.watchers[fd].events != NONE_EVENT :: t.watchers[fd].events
    ensures forall fd | fd in t.poll.watchers :: t.poll.watchers[fd] == fd
  {
    hide UpdateWatcher, Index, Mask, NewEvents;
    var i := s.watchers[e.fd];
    UpdateAgrees(s.poll, e.fd, i, NewEvents(i.events, e), e.fd);
    forall fd | fd in t.watchers ensures Agrees(Mask(t.poll), fd, t.watchers[fd]) {
      if fd != e.fd {
        assert fd in Mask(t.poll) <==> fd in Mask(t.poll) - {e.fd};
        assert fd in Mask(s.poll) <==> fd in Mask(s.poll) - {e.fd};
        if fd in Mask(t.poll) {
          assert (Mask(t.poll) - {e.fd})[fd] == (Mask(s.poll) - {e.fd})[fd];
        }
      }
    }
    forall fd | fd in Mask(t.poll) ensures fd in t.watchers {
      if fd != e.fd {
        assert fd in Mask(t.poll) - {e.fd};
        assert fd in Mask(s.poll) - {e.fd};
      }
    }
  }

  predicate IsReading(events: bv16) {
    events & READ_EVENT != 0
  }

  predicate IsWriting(events: bv16) {
    events & WRITE_EVENT != 0
  }

  /** The mask is no more than two flags, as the connection sees it: a call sets or clears its own flag and
      leaves the other. */
  predicate TwoFlags(events: bv16) {
    events == (if IsReading(events) then READ_EVENT else 0) | (if IsWriting(events) then WRITE_EVENT else 0)
  }

  lemma EventsAreTwoFlags(events: bv16, e: Event)
    requires TwoFlags(events)
    ensures var after := NewEvents(events, e);
            && TwoFlags(after) && (after == NONE_EVENT <==> !IsReading(after) && !IsWriting(after))
            && IsReading(after) == (e.EnableReading? || (IsReading(events) && !e.DisableReading? && !e.DisableAll?))
            && IsWriting(after) == (e.EnableWriting? || (IsWriting(events) && !e.DisableWriting? && !e.DisableAll?))
  {
  }

  /* ---- what poll reports ---- */

  /** The entries with something reported, in order. */
  function Active(fds: seq<PollFd>): (r: seq<PollFd>) {
    if fds == [] then []
    else
      var last := fds[|fds| - 1];
      Active(fds[..|fds| - 1]) + if last.revents > 0 then [last] else []
  }

  lemma {:induction false} ActiveAreFds(fds: seq<PollFd>, f: PollFd)
    ensures f in Active(fds) <==> f in fds && f.revents > 0
    decreases |fds|
  {
    if fds != [] {
      ActiveAreFds(fds[..|fds| - 1], f);
      assert fds == fds[..|fds| - 1] + [fds[|fds| - 1]];
    }
  }

  /** With one entry per descriptor, each active descriptor is reported once. */
  lemma {:induction false} ActiveOnce(fds: seq<PollFd>)
    requires forall i, j | 0 <= i < j < |fds| :: fds[i].fd != fds[j].fd
    ensures forall i, j | 0 <= i < j < |Active(fds)| :: Active(fds)[i].fd != Active(fds)[j].fd
    decreases |fds|
  {
    if fds != [] {
      var front := fds[..|fds| - 1];
      ActiveOnce(front);
      forall f | f in Active(front) ensures f.fd != fds[|fds| - 1].fd {
        ActiveAreFds(front, f);
      }
    }
  }

  lemma {:induction false} ActivePrefix(fds: seq<PollFd>, i: nat)
    requires i <= |fds|
    ensures Active(fds[..i]) <= Active(fds)
    decreases |fds|
  {
    if i < |fds| {
      var front := fds[..|fds| - 1];
      ActivePrefix(front, i);
      assert front[..i] == fds[..i];
    } else {
      assert fds[..i] == fds;
    }
  }

  lemma ActiveSnoc(fds: seq<PollFd>, i: nat)
    requires i < |fds|
    ensures Active(fds[..i + 1]) == Active(fds[..i]) + if fds[i].revents > 0 then [fds[i]] else []
  {
    assert fds[..i + 1][..i] == fds[..i];
  }

  /** The entries with what was reported taken out of the first `i`. */
  function Cleared(fds: seq<PollFd>, i: nat): (r: seq<PollFd>)
    requires i <= |fds|
    ensures |r| == |fds| && forall j | 0 <= j < |fds| :: r[j] == if j < i then fds[j].(revents := 0) else fds[j]
  {
    seq(|fds|, j requires 0 <= j < |fds| => if j < i then fds[j].(revents := 0) else fds[j])
  }

  lemma ClearedSnoc(fds: seq<PollFd>, i: nat)
    requires i < |fds|
    ensures Cleared(fds, i + 1) == Cleared(fds, i)[i := fds[i].(revents := 0)]
    ensures !(fds[i].revents > 0) ==> Cleared(fds, i + 1) == Cleared(fds, i)
  {
  }

  lemma ClearedKeepsIndex<W>(p: Poll<W>, i: nat)
    requires Index(p) && i <= |p.fds|
    ensures Index(p.(fds := Cleared(p.fds, i)))
  {
    assert forall j | 0 <= j < |p.fds| :: Cleared(p.fds, i)[j].fd == p.fds[j].fd;
  }

  lemma MaskOfCleared<W>(p: Poll<W>, i: nat)
    requires Index(p) && i <= |p.fds|
    ensures Index(p.(fds := Cleared(p.fds, i))) && Mask(p.(fds := Cleared(p.fds, i))) == Mask(p)
  {
    ClearedKeepsIndex(p, i);
    var t := p.(fds := Cleared(p.fds, i));
    assert forall fd | fd in p.pollfds :: t.fds[p.pollfds[fd]].events == p.fds[p.pollfds[fd]].events;
    hide Index, Cleared;
    assert Mask(t).Keys == Mask(p).Keys;
  }

  /** Reporting the first so many entries reports each of them, if there are so many. */
  lemma ReportedCount(fds: seq<PollFd>, i: nat, n: nat)
    requires i <= |fds| && |Active(fds[..i])| <= n && (i < |fds| ==> |Active(fds[..i])| == n)
    ensures |Active(fds[..i])| == if n < |Active(fds)| then n else |Active(fds)|
    ensures Active(fds[..i]) <= Active(fds)
  {
    ActivePrefix(fds, i);
    assert i == |fds| ==> fds[..i] == fds;
  }

  /** What the system's `poll` leaves in the entries. */
  function Reported(fds: seq<PollFd>, reports: seq<bv16>): (r: seq<PollFd>)
    requires |reports| == |fds|
    ensures |r| == |fds| && forall j | 0 <= j < |fds| :: r[j] == fds[j].(revents := reports[j])
  {
    seq(|fds|, j requires 0 <= j < |fds| => fds[j].(revents := reports[j]))
  }

  lemma ReportedKeepsIndex<W>(p: Poll<W>, reports: seq<bv16>)
    requires Index(p) && |reports| == |p.fds|
    ensures Index(p.(fds := Reported(p.fds, reports))) && Mask(p.(fds := Reported(p.fds, reports))) == Mask(p)
  {
    var t := p.(fds := Reported(p.fds, reports));
    assert forall j | 0 <= j < |p.fds| :: t.fds[j].fd == p.fds[j].fd;
    assert forall fd | fd in p.pollfds :: t.fds[p.pollfds[fd]].events == p.fds[p.pollfds[fd]].events;
    assert Index(t);
    hide Index, Reported;
    assert Mask(t).Keys == Mask(p).Keys;
  }

  /** In a coherent index every entry with something reported is active, and no descriptor is active twice. */
  lemma EachActiveOnce<W>(p: Poll<W>, fd: int)
    requires Index(p)
    ensures forall i, j | 0 <= i < j < |Active(p.fds)| :: Active(p.fds)[i].fd != Active(p.fds)[j].fd
    ensures (exists k :: 0 <= k < |Active(p.fds)| && Active(p.fds)[k].fd == fd) <==>
            fd in p.pollfds && p.fds[p.pollfds[fd]].revents > 0
  {
    ActiveOnce(p.fds);
    if fd in p.pollfds {
      ActiveAreFds(p.fds, p.fds[p.pollfds[fd]]);
    }
    forall k | 0 <= k < |Active(p.fds)| && Active(p.fds)[k].fd == fd
      ensures fd in p.pollfds && p.fds[p.pollfds[fd]].revents > 0
    {
      ActiveAreFds(p.fds, Active(p.fds)[k]);
    }
  }
}
