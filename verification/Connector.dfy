/** The connector object (nutty/net/Connector.cpp) with a real watcher in a real poll index. `trace` lists the steps
    of `ConnectorMachine` taken by its entry points. A new socket's descriptor is a parameter; the system hands out
    one that is not in use. */
module ConnectorObject {
  import opened Wrappers
  import opened Arithmetic
  import Machine = ConnectorMachine
  import opened ConnectorMachine
  import Index = PollMachine
  import opened WatcherObject

  class Connector {
    const poller: PollPoller
    var connect: bool
    var connecting: bool
    var retry: bool
    var retryDelayMs: nat
    var connectSocket: Option<int>   // the socket's descriptor
    var watcher: Watcher?
    var fault: bool
    ghost var lost: Watcher?         // a watcher that was destroyed while registered
    ghost var resets: nat
    ghost var timers: nat
    ghost var waits: seq<nat>
    ghost var attempts: nat
    ghost var gaveUp: bool
    ghost var delivered: seq<nat>
    ghost var trace: seq<Event>

    ghost function Watching(): Option<bool>
      reads this, watcher
    {
      if watcher == null then None else Some(watcher.started)
    }

    ghost function View(): State
      reads this, watcher
    {
      State(connect, connecting, retry, retryDelayMs, connectSocket.Some?, Watching(), resets, timers, waits,
            attempts, gaveUp, delivered, lost != null, fault)
    }

    /** The poll index has the watcher as the sole user of its descriptor, for writing. */
    ghost predicate Registered(w: Watcher)
      requires poller.Valid()
      reads poller
    {
      && w.fd in poller.watchers && poller.watchers[w.fd] == w
      && w.fd in Index.Mask(poller.View()) && Index.Mask(poller.View())[w.fd] == Index.WRITE_EVENT
    }

    /** The watcher agrees with the index, and if it is registered it watches the attempt's socket. */
    ghost predicate WatcherSound()
      requires poller.Valid()
      reads `watcher, `connectSocket, watcher, poller
    {
      watcher != null ==>
        && watcher.poller == poller && watcher.Valid()
        && watcher.events == (if watcher.started then Index.WRITE_EVENT else Index.NONE_EVENT)
        && (watcher.started ==> Registered(watcher) && connectSocket == Some(watcher.fd))
    }

    /** A watcher destroyed while registered is in the index still. */
    ghost predicate LostSound()
      requires poller.Valid()
      reads `lost, `watcher, `connectSocket, poller
    {
      lost != null ==> watcher == null && Registered(lost) && connectSocket == Some(lost.fd)
    }

    ghost predicate Sound()
      reads `lost, `watcher, `connectSocket, watcher, poller
    {
      poller.Valid() && WatcherSound() && LostSound()
    }

    ghost predicate Valid()
      reads this, watcher, poller
    {
      Sound() && Exec(Init, trace) == Some(View())
    }

    /** No watcher of this connector is registered. */
    ghost predicate Unwatched()
      reads `watcher, `lost, watcher
    {
      (watcher != null ==> !watcher.started) && lost == null
    }

    constructor (poller: PollPoller)
      requires poller.Valid()
      ensures Valid() && this.poller == poller && trace == [] && View() == Init
    {
      this.poller := poller;
      connect, connecting, retry, retryDelayMs := false, false, false, INIT_RETRY_DELAY_MS;
      connectSocket, watcher, lost, fault := None, null, null, false;
      resets, timers, waits, attempts, gaveUp, delivered := 0, 0, [], 0, false, [];
      trace := [];
    }

    ghost method Record(s: State, e: Event)
      requires Sound() && Exec(Init, trace) == Some(s) && Step(s, e) == Some(View())
      modifies this`trace
      ensures Valid() && trace == old(trace) + [e] && View() == old(View())
    {
      hide Step, WatcherSound, LostSound;
      ExecSnoc(Init, trace, e);
      trace := trace + [e];
    }

    /** What the machine proves of runs, for this object. */
    lemma InARun()
      requires Valid() && !fault
      ensures (connectSocket.Some? <==> connecting) && (connecting ==> connect && !retry)
      ensures (timers > 0 <==> retry) && (!connecting ==> Unwatched())
      ensures lost != null ==> connect && connecting && !retry && timers == 0
    {
      hide Step, Exec, Invariant;
      OneAttemptAtATime(trace, View());
      OnlyAttemptsAreLost(trace, View());
    }

    lemma OutOfIndex()
      requires Valid() && Unwatched()
      ensures watcher != null ==> watcher.fd !in poller.pollfds
    {
    }

    /* ---- one attempt ---- */

    lemma WriteOnly(fd: int)
      ensures Index.NewEvents(Index.NONE_EVENT, Index.EnableWriting(fd)) == Index.WRITE_EVENT != Index.NONE_EVENT
      ensures forall events :: Index.NewEvents(events, Index.DisableAll(fd)) == Index.NONE_EVENT
    {
    }

    /** `connectSocket_.reset(…)`. */
    method SetSocket(socket: Option<int>)
      requires Sound() && Unwatched()
      modifies this`connectSocket
      ensures Sound() && connectSocket == socket && View() == old(View()).(socket := socket.Some?)
    {
      connectSocket := socket;
    }

    /** `connecting()`: a new watcher on the socket, registered for writing. */
    method Connecting(fd: int)
      requires Sound() && Unwatched() && connectSocket == Some(fd) && fd !in poller.pollfds
      modifies this`connecting, this`watcher, poller
      ensures Sound() && View() == old(View()).(connecting := true, watcher := Some(true))
    {
      connecting := true;
      var w := new Watcher(poller, fd);
      WriteOnly(fd);
      hide Index.NewEvents;
      w.EnableWriting();
      watcher := w;
    }

    ghost method CountAttempt()
      modifies this`attempts, this`gaveUp
      ensures View() == old(View()).(attempts := old(View()).attempts + 1, gaveUp := false)
    {
      attempts, gaveUp := attempts + 1, false;
    }

    ghost method GiveUp()
      modifies this`gaveUp
      ensures View() == old(View()).(gaveUp := true)
    {
      gaveUp := true;
    }

    /** `connect()`: a new socket, one attempt. */
    method Connect(r: Result, fd: int)
      requires Sound() && Unwatched() && fd !in poller.pollfds
      modifies this, poller
      ensures Sound() && View() == Machine.Connect(old(View()), r) && trace == old(trace)
    {
      hide Sound, View, Machine.Retry;
      SetSocket(Some(fd));
      CountAttempt();
      match r {
        case InProgress => Connecting(fd);
        case Retryable => Retry();
        case Fatal =>
          SetSocket(None);
          GiveUp();
      }
    }

    method Retry()
      requires Sound() && Unwatched()
      modifies this`connectSocket, this`retry, this`timers, this`waits, this`retryDelayMs
      ensures Sound() && View() == Machine.Retry(old(View()))
    {
      hide Sound;
      SetSocket(None);
      if connect {
        retry := true;
        timers, waits := timers + 1, waits + [retryDelayMs];
        retryDelayMs := Min(retryDelayMs * 2, MAX_RETRY_DELAY_MS);
      }
    }

    /** Takes the watcher out of the index, if there is one, and queues its destruction. */
    method StopAndResetWatcher()
      requires Sound() && !fault
      modifies this`fault, this`resets, this`connecting, watcher, poller
      ensures Sound() && View() == Machine.StopAndResetWatcher(old(View())) && (!fault ==> Unwatched())
    {
      hide Index.NewEvents;
      if watcher == null {
        fault := true;
      } else {
        WriteOnly(watcher.fd);
        watcher.DisableAll();
        resets := resets + 1;
        connecting := false;
      }
    }

    /* ---- entry points ---- */

    /** The queued `resetWatcher`: the watcher is destroyed, and its entry stays behind if it was registered. */
    method RunQueuedReset()
      requires Valid() && !fault && resets > 0
      modifies this
      ensures Valid() && trace == old(trace) + [RunReset] && watcher == null
      ensures old(watcher) != null && old(watcher.started) ==> lost == old(watcher)
      ensures old(watcher) == null || !old(watcher.started) ==> lost == old(lost)
    {
      hide Sound, View, Exec, Step, Machine.ResetWatcher;
      ghost var s := View();
      assert !s.fault && s.resets == resets by { FieldsAreViewed(); }
      StepCallsHandler(s, RunReset);
      Dequeue();
      ResetWatcher();
      Record(s, RunReset);
    }

    lemma FieldsAreViewed()
      ensures View().fault == fault && View().resets == resets
    {
    }

    ghost method Dequeue()
      requires Sound() && resets > 0
      modifies this`resets
      ensures Sound() && View() == old(View()).(resets := old(resets) - 1)
    {
      hide Sound;
      resets := resets - 1;
    }

    method ResetWatcher()
      requires Sound()
      modifies this`watcher, this`lost
      ensures Sound() && View() == Machine.ResetWatcher(old(View())) && watcher == null
      ensures lost == if old(watcher) != null && old(watcher.started) then old(watcher) else old(lost)
    {
      if watcher != null && watcher.started {
        lost := watcher;
      }
      watcher := null;
    }

    method Retrying(r: Result, fd: int)
      requires Valid() && !fault && timers > 0 && fd !in poller.pollfds
      modifies this, poller
      ensures Valid() && trace == old(trace) + [RetryTimer(r)]
    {
      hide Sound, Exec, Step, Machine.Connect;
      ghost var s := View();
      InARun();
      StepCallsHandler(s, RetryTimer(r));
      timers := timers - 1;
      retry := false;
      if connect {
        Connect(r, fd);
      }
      Record(s, RetryTimer(r));
    }

    /** The attempt is over and its watcher out of the index; a retry may follow. */
    method HandleError()
      requires Valid() && !fault && watcher != null
      modifies this, watcher, poller
      ensures Valid() && trace == old(trace) + [ErrorReady]
      ensures !fault && !connecting && Unwatched()
      ensures watcher == old(watcher) && watcher.fd !in poller.pollfds
    {
      hide WatcherSound, LostSound, Exec, Step;
      ghost var s := View();
      InARun();
      StepCallsHandler(s, ErrorReady);
      if connecting {
        StopAndResetWatcher();
        Retry();
      }
      Record(s, ErrorReady);
      OutOfIndex();
    }

    /** As for an error; the result tells whether the connection callback is called with the socket. */
    method HandleWrite(outcome: Outcome) returns (deliver: bool)
      requires Valid() && !fault && watcher != null
      modifies this, watcher, poller
      ensures Valid() && trace == old(trace) + [WriteReady(outcome)]
      ensures !fault && !connecting && Unwatched()
      ensures watcher == old(watcher) && watcher.fd !in poller.pollfds
      ensures deliver <==> old(connecting) && outcome.Connected?
      ensures delivered == old(delivered) + if deliver then [attempts] else []
    {
      hide WatcherSound, LostSound, Exec, Step;
      ghost var s := View();
      InARun();
      StepCallsHandler(s, WriteReady(outcome));
      deliver := false;
      if connecting {
        StopAndResetWatcher();
        if outcome.Connected? {
          SetSocket(None);
          delivered := delivered + [attempts];
          deliver := true;
        } else {
          Retry();
        }
      }
      Record(s, WriteReady(outcome));
      OutOfIndex();
    }

    method StartInLoop(r: Result, fd: int)
      requires Valid() && !fault && fd !in poller.pollfds
      modifies this, poller
      ensures Valid() && trace == old(trace) + [Start(r)]
    {
      hide WatcherSound, LostSound, Exec, Step;
      ghost var s := View();
      InARun();
      StepCallsHandler(s, Start(r));
      if !connect {
        connect := true;
        if !retry {
          Connect(r, fd);
        }
      }
      Record(s, Start(r));
    }

    /** Until a null watcher has been used, stopping leaves no attempt, no socket and no registered watcher. */
    method StopInLoop()
      requires Valid() && !fault
      modifies this, watcher, poller
      ensures Valid() && trace == old(trace) + [Stop]
      ensures fault <==> old(connecting) && old(watcher) == null
      ensures !fault ==> !connect && !connecting && connectSocket == None && Unwatched()
      ensures !fault && watcher != null ==> watcher.fd !in poller.pollfds
    {
      hide WatcherSound, LostSound, Exec, Step;
      ghost var s := View();
      InARun();
      StepCallsHandler(s, Stop);
      if connect {
        connect := false;
        if connecting {
          StopAndResetWatcher();
          if !fault {
            SetSocket(None);
          }
        }
      }
      Record(s, Stop);
      if !fault {
        OutOfIndex();
      }
    }

    method RestartInLoop(r: Result, fd: int)
      requires Valid() && !fault && fd !in poller.pollfds
      modifies this, poller
      ensures Valid() && trace == old(trace) + [Restart(r)]
    {
      hide WatcherSound, LostSound, Exec, Step;
      ghost var s := View();
      InARun();
      StepCallsHandler(s, Restart(r));
      if connect {
        if !connecting && !retry {
          retryDelayMs := INIT_RETRY_DELAY_MS;
          waits := [];
          Connect(r, fd);
        }
      }
      Record(s, Restart(r));
    }

    /* ---- what the poll index sees ---- */

    /** If no attempt of its run overlapped a queued reset, the connector is connecting exactly while its watcher is
        in the poll index, on the attempt's socket and for writing; it never left an entry behind. */
    lemma WatchedWhileConnecting()
      requires Valid() && NoOverlap(trace)
      ensures !fault && lost == null && (connecting <==> watcher != null && watcher.started)
      ensures connecting ==> Registered(watcher) && connectSocket == Some(watcher.fd)
    {
      hide Step, Exec, Invariant;
      HealthyWithoutOverlap(trace, View());
    }

    /** A connector that lost its watcher is still connecting and has none, while the poll index goes on to report
        on the destroyed one. */
    lemma LostEntryStays()
      requires Valid() && !fault && lost != null
      ensures connecting && watcher == null && Registered(lost) && connectSocket == Some(lost.fd)
    {
      InARun();
    }
  }
}
