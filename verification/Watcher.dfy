/** Watchers (nutty/base/Watcher.cpp, nutty/base/Watcher.h) and the poll poller
    (nutty/base/poller/PollPoller.cpp) as objects that call each other. A watcher reaches its poller through the
    loop, which only passes the call on. */
module WatcherObject {
  import opened PollMachine
  import Tcp = TcpConnectionMachine

  class PollPoller {
    var fds: seq<PollFd>
    var pollfds: map<int, nat>
    var watchers: map<int, Watcher>

    ghost function View(): Poll<Watcher>
      reads this
    {
      Poll(fds, pollfds, watchers)
    }

    ghost predicate Valid()
      reads this
    {
      Index(View()) && forall fd | fd in watchers :: watchers[fd].fd == fd
    }

    constructor ()
      ensures Valid() && View() == Poll([], map[], map[])
    {
      fds, pollfds, watchers := [], map[], map[];
    }

    method AddWatcher(w: Watcher)
      requires Valid()
      modifies this
      ensures View() == Add(old(View()), w.fd, w.events, w) && (Valid() <==> w.fd !in old(pollfds))
    {
      AddKeepsIndexExactly(View(), w.fd, w.events, w);
      pollfds := pollfds[w.fd := |fds|];
      fds := fds + [PollFd(w.fd, w.events, 0)];
      watchers := watchers[w.fd := w];
    }

    method UpdateWatcher(w: Watcher)
      requires Valid()
      modifies this
      ensures Valid() && View() == Update(old(View()), w.fd, w.events)
    {
      UpdateMeans(View(), w.fd, w.events);
      if w.fd in pollfds {
        var i := pollfds[w.fd];
        fds := fds[i := fds[i].(events := w.events, revents := 0)];
      }
    }

    lemma InIndex(fd: int)
      requires Valid() && fd in pollfds
      ensures pollfds[fd] < |fds| && fds[pollfds[fd]].fd == fd
    {
    }

    /** The place of the entry is read before the entry is erased. */
    method RemoveWatcher(w: Watcher)
      requires Valid()
      modifies this
      ensures Valid() && View() == Remove(old(View()), w.fd)
    {
      hide Index, Mask;
      RemoveMeans(View(), w.fd);
      if w.fd in pollfds {
        InIndex(w.fd);
        var i := pollfds[w.fd];
        var key := fds[i].fd;
        watchers := watchers - {key};
        pollfds := pollfds - {key};
        var last := fds[|fds| - 1];
        if key != last.fd {
          fds := fds[i := last];
          pollfds := pollfds[last.fd := i];
        }
        fds := fds[..|fds| - 1];
      }
    }

    /** One `poll`: the system reports on each entry and says for how many there is something; just their
        watchers are collected, in the order of the entries, each once and with its own report. */
    method PollOnce(reports: seq<bv16>) returns (active: seq<Watcher>)
      requires Valid() && |reports| == |fds|
      modifies this`fds, watchers.Values
      ensures Valid() && Mask(View()) == old(Mask(View())) && watchers == old(watchers)
      ensures var entries := Active(Reported(old(fds), reports));
              |active| == |entries| &&
              forall k | 0 <= k < |active| ::
                entries[k].fd in watchers && active[k] == watchers[entries[k].fd] &&
                active[k].revents == entries[k].revents
      ensures forall i, j | 0 <= i < j < |active| :: active[i] != active[j]
      ensures forall fd | fd in watchers ::
                fd in pollfds && old(pollfds)[fd] < |reports| &&
                (watchers[fd] in active <==> reports[old(pollfds)[fd]] > 0)
    {
      ghost var p := View().(fds := Reported(fds, reports));
      ReportedKeepsIndex(View(), reports);
      ReportedOnce(p, reports);
      hide Index, Mask, Active, Reported;
      fds := Reported(fds, reports);
      active := [];
      ghost var entries := Active(fds);
      var numEvents := Count(fds);
      if numEvents > 0 {
        active := FillActiveWatchers(numEvents);
      }
      EachOnce(p, active, entries, reports);
    }

    /** The active entries of a coherent index, by descriptor. */
    lemma ReportedOnce(p: Poll<Watcher>, reports: seq<bv16>)
      requires Index(p) && |reports| == |p.fds| && forall i | 0 <= i < |p.fds| :: p.fds[i].revents == reports[i]
      ensures forall i, j | 0 <= i < j < |Active(p.fds)| :: Active(p.fds)[i].fd != Active(p.fds)[j].fd
      ensures forall fd | fd in p.watchers ::
                fd in p.pollfds && p.pollfds[fd] < |reports| &&
                (reports[p.pollfds[fd]] > 0 <==> exists k :: 0 <= k < |Active(p.fds)| && Active(p.fds)[k].fd == fd)
    {
      forall fd ensures (exists k :: 0 <= k < |Active(p.fds)| && Active(p.fds)[k].fd == fd) <==>
                        fd in p.pollfds && p.fds[p.pollfds[fd]].revents > 0
      {
        EachActiveOnce(p, fd);
      }
      EachActiveOnce(p, 0);
    }

    lemma EachOnce(p: Poll<Watcher>, active: seq<Watcher>, entries: seq<PollFd>, reports: seq<bv16>)
      requires |active| == |entries| && forall fd | fd in p.watchers :: p.watchers[fd].fd == fd
      requires forall k | 0 <= k < |active| :: entries[k].fd in p.watchers && active[k] == p.watchers[entries[k].fd]
      requires forall i, j | 0 <= i < j < |entries| :: entries[i].fd != entries[j].fd
      requires forall fd | fd in p.watchers ::
                 fd in p.pollfds && p.pollfds[fd] < |reports| &&
                 (reports[p.pollfds[fd]] > 0 <==> exists k :: 0 <= k < |entries| && entries[k].fd == fd)
      ensures forall i, j | 0 <= i < j < |active| :: active[i] != active[j]
      ensures forall fd | fd in p.watchers :: p.watchers[fd] in active <==> reports[p.pollfds[fd]] > 0
    {
      forall fd | fd in p.watchers ensures p.watchers[fd] in active <==> reports[p.pollfds[fd]] > 0 {
        assert forall k | 0 <= k < |entries| :: active[k].fd == entries[k].fd;
      }
    }

    /** Collects the watchers of the first `numEvents` active entries, each with what was reported for it. */
    method FillActiveWatchers(numEvents: nat) returns (active: seq<Watcher>)
      requires Valid()
      modifies this`fds, watchers.Values
      ensures Valid() && Mask(View()) == old(Mask(View())) && watchers == old(watchers)
      ensures |active| == if numEvents < |Active(old(fds))| then numEvents else |Active(old(fds))|
      ensures forall k | 0 <= k < |active| ::
                var entry := Active(old(fds))[k];
                entry.fd in watchers && active[k] == watchers[entry.fd] && active[k].revents == entry.revents
    {
      hide Index, Mask, Active, Cleared;
      active := [];
      var n := numEvents;
      var i := 0;
      ghost var all := fds;
      NoneCleared(all);
      while i < |fds| && n > 0
        invariant 0 <= i <= |fds| == |all| && 0 <= n && n + |active| == numEvents && watchers == old(watchers)
        invariant Index(View().(fds := all)) && fds == Cleared(all, i) && Valid()
        invariant |active| == |Active(all[..i])| && Collected(active, Active(all[..i]))
      {
        active := FillTurn(all, i, active);
        n := numEvents - |active|;
        i := i + 1;
      }
      ReportedCount(all, i, numEvents);
      MaskOfCleared(View().(fds := all), i);
    }

    lemma NoneCleared(all: seq<PollFd>)
      ensures Cleared(all, 0) == all && Active(all[..0]) == []
    {
    }

    /** One turn of that loop. */
    method FillTurn(ghost all: seq<PollFd>, i: nat, active: seq<Watcher>) returns (more: seq<Watcher>)
      requires Valid() && i < |fds| == |all| && Index(View().(fds := all)) && fds == Cleared(all, i)
      requires |active| == |Active(all[..i])| && Collected(active, Active(all[..i]))
      modifies this`fds, watchers.Values`revents
      ensures Valid() && fds == Cleared(all, i + 1) && |active| <= |more| <= |active| + 1
      ensures |more| == |Active(all[..i + 1])| && Collected(more, Active(all[..i + 1]))
    {
      hide Index, Active, Cleared;
      ActiveSnoc(all, i);
      ClearedSnoc(all, i);
      more := active;
      if fds[i].revents > 0 {
        EarlierIsAnother(all, i);
        var w := Report(i);
        more := active + [w];
      }
    }

    /** One entry's watcher learns what was reported. */
    method Report(i: nat) returns (w: Watcher)
      requires Valid() && i < |fds|
      modifies this`fds, watchers.Values`revents
      ensures Valid() && fds == old(fds)[i := old(fds)[i].(revents := 0)]
      ensures fds[i].fd in watchers && w == watchers[fds[i].fd] && w.revents == old(fds)[i].revents
      ensures forall fd | fd in watchers && fd != fds[i].fd :: watchers[fd].revents == old(watchers[fd].revents)
    {
      var pfd := fds[i];
      assert pfd.fd in pollfds && pollfds[pfd.fd] == i;
      w := watchers[pfd.fd];
      w.revents := pfd.revents;
      fds := fds[i := pfd.(revents := 0)];
      assert forall j | 0 <= j < |fds| :: fds[j].fd == old(fds)[j].fd;
    }

    lemma EarlierIsAnother(all: seq<PollFd>, i: nat)
      requires i < |all| && Index(View().(fds := all))
      ensures forall k | 0 <= k < |Active(all[..i])| :: Active(all[..i])[k].fd != all[i].fd
    {
      forall k | 0 <= k < |Active(all[..i])| ensures Active(all[..i])[k].fd != all[i].fd {
        ActiveAreFds(all[..i], Active(all[..i])[k]);
      }
    }

    ghost predicate Collected(active: seq<Watcher>, entries: seq<PollFd>)
      requires |active| == |entries|
      reads this, active
    {
      forall k | 0 <= k < |active| ::
        entries[k].fd in watchers && active[k] == watchers[entries[k].fd] && active[k].revents == entries[k].revents
    }
  }

  /** The system's count of the entries it has something to report for. */
  function Count(fds: seq<PollFd>): (n: nat)
    ensures n == |Active(fds)|
  {
    if fds == [] then 0 else Count(fds[..|fds| - 1]) + if fds[|fds| - 1].revents > 0 then 1 else 0
  }

  class Watcher {
    const poller: PollPoller
    const fd: int
    var events: bv16
    var revents: bv16
    var started: bool

    ghost function View(): Interest
      reads this
    {
      Interest(events, started)
    }

    ghost predicate Valid()
      reads this, poller
    {
      poller.Valid() && Agrees(Mask(poller.View()), fd, View()) && (started ==> poller.watchers[fd] == this)
    }

    constructor (poller: PollPoller, fd: int)
      requires poller.Valid() && fd !in poller.pollfds
      ensures Valid() && this.poller == poller && this.fd == fd && View() == Interest(NONE_EVENT, false)
    {
      this.poller, this.fd := poller, fd;
      events, revents, started := NONE_EVENT, 0, false;
    }

    /** Brings the registration in line with the interest. */
    method Update(ghost before: Interest)
      requires poller.Valid() && Agrees(Mask(poller.View()), fd, before) && before.started == started
      requires started ==> poller.watchers[fd] == this
      modifies this`started, poller
      ensures Valid() && events == old(events)
      ensures Mask(poller.View()) - {fd} == old(Mask(poller.View())) - {fd}
      ensures poller.watchers - {fd} == old(poller.watchers) - {fd}
    {
      UpdateAgrees(poller.View(), fd, before, events, this);
      if started {
        if events == NONE_EVENT {
          poller.RemoveWatcher(this);
          started := false;
        } else {
          poller.UpdateWatcher(this);
        }
      } else {
        if events != NONE_EVENT {
          poller.AddWatcher(this);
          started := true;
        }
      }
    }

    /** The call has changed the interest, the registration with it, and nothing about other descriptors. */
    twostate predicate Changed(e: Event)
      reads this, poller
    {
      && Valid() && events == NewEvents(old(events), e)
      && (old(poller.Valid()) ==> Mask(poller.View()) - {fd} == old(Mask(poller.View())) - {fd})
      && poller.watchers - {fd} == old(poller.watchers) - {fd}
    }

    method Set(mask: bv16, ghost e: Event)
      requires Valid() && mask == NewEvents(events, e)
      modifies this, poller
      ensures Changed(e)
    {
      hide NewEvents;
      ghost var before := View();
      events := mask;
      Update(before);
    }

    method EnableReading()
      requires Valid()
      modifies this, poller
      ensures Changed(Event.EnableReading(fd))
      ensures fd in Mask(poller.View())
      ensures Mask(poller.View())[fd] & POLLIN != 0 && Mask(poller.View())[fd] & POLLPRI != 0
    {
      Set(events | READ_EVENT, Event.EnableReading(fd));
    }

    method DisableReading()
      requires Valid()
      modifies this, poller
      ensures Changed(Event.DisableReading(fd))
      ensures fd in Mask(poller.View()) ==> Mask(poller.View())[fd] & (POLLIN | POLLPRI) == 0
    {
      Set(events & !READ_EVENT, Event.DisableReading(fd));
    }

    method EnableWriting()
      requires Valid()
      modifies this, poller
      ensures Changed(Event.EnableWriting(fd))
      ensures fd in Mask(poller.View()) && Mask(poller.View())[fd] & POLLOUT != 0
    {
      Set(events | WRITE_EVENT, Event.EnableWriting(fd));
    }

    method DisableWriting()
      requires Valid()
      modifies this, poller
      ensures Changed(Event.DisableWriting(fd))
      ensures fd in Mask(poller.View()) ==> Mask(poller.View())[fd] & POLLOUT == 0
    {
      Set(events & !WRITE_EVENT, Event.DisableWriting(fd));
    }

    method DisableAll()
      requires Valid()
      modifies this, poller
      ensures Changed(Event.DisableAll(fd)) && fd !in Mask(poller.View())
    {
      Set(NONE_EVENT, Event.DisableAll(fd));
    }

    /** Which callbacks `handleEvents` makes, in its order, if all are set: those the connection's step system
        dispatches. */
    method HandleEvents() returns (calls: Tcp.Todo)
      ensures calls == Tcp.Handlers(Bits(revents))
      ensures calls.close <==> revents & POLLHUP != 0 && revents & POLLIN == 0
      ensures calls.error <==> revents & POLLERR != 0 || revents & POLLNVAL != 0
      ensures revents & READ_EVENT != 0 || revents & POLLRDHUP != 0 <==> calls.read
      ensures revents & WRITE_EVENT != 0 <==> calls.write
    {
      calls := Tcp.Idle;
      if revents & POLLHUP != 0 && revents & POLLIN == 0 {
        calls := calls.(close := true);
      }
      if revents & (POLLERR | POLLNVAL) != 0 {
        calls := calls.(error := true);
      }
      if revents & (POLLIN | POLLPRI | POLLRDHUP) != 0 {
        calls := calls.(read := true);
      }
      if revents & POLLOUT != 0 {
        calls := calls.(write := true);
      }
    }
  }

  function Bits(r: bv16): Tcp.Revents {
    Tcp.Revents(r & POLLIN != 0, r & POLLPRI != 0, r & POLLOUT != 0, r & POLLERR != 0, r & POLLHUP != 0,
                r & POLLNVAL != 0, r & POLLRDHUP != 0)
  }

  /** A call on one watcher leaves every other one in agreement with the poller. */
  twostate lemma OthersStayValid(w: Watcher, other: Watcher, e: Event)
    requires w.poller == other.poller && w.fd != other.fd
    requires old(w.Valid()) && old(other.Valid()) && w.Changed(e) && unchanged(other)
    ensures other.Valid()
  {
    var now, before := Mask(w.poller.View()), old(Mask(w.poller.View()));
    assert other.fd in now <==> other.fd in now - {w.fd};
    assert other.fd in before <==> other.fd in before - {w.fd};
    if other.fd in now {
      assert (now - {w.fd})[other.fd] == (before - {w.fd})[other.fd];
      var ws, wsBefore := w.poller.watchers, old(w.poller.watchers);
      assert (ws - {w.fd})[other.fd] == (wsBefore - {w.fd})[other.fd];
    }
  }
}
