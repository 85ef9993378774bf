/** One connection (nutty/net/TcpConnection.cpp) as a step system: user calls from the loop thread, functors
    queued by any thread, and event sets delivered by the poller. The loop thread dispatches an event set
    handler by handler (nutty/base/Watcher.cpp:40-64); user callbacks come last in a handler, so the calls they
    make are steps between two handlers. */
module TcpConnectionMachine {
  import opened Arithmetic
  import opened Buffers
  import opened Sequences
  import opened Wrappers

  datatype Phase = Connecting | Connected | Disconnecting | Disconnected

  /** The handlers of an event set that are still to run. */
  datatype Todo = Todo(close: bool, error: bool, read: bool, write: bool)

  const Idle := Todo(false, false, false, false)

  /** The bits of a `revents` set. */
  datatype Revents = Revents(pollin: bool, pri: bool, out: bool, err: bool, hup: bool, nval: bool, rdhup: bool)

  /** What the loop's queue may hold for this connection. */
  datatype Functor = SendBuffered(bytes: seq<byte>) | Shutdown | ForceClose | Establish | Destroy

  datatype Call = ConnectCall | DisconnectCall

  /** How a write ends: with a count, with EPIPE or ECONNRESET, or with another error. */
  datatype WriteResult = Wrote(n: nat) | Blocked | Broken

  /** How a read ends; `Data` is not empty. */
  datatype ReadResult = Data(bytes: seq<byte>) | EndOfStream | Failed

  datatype State = State(
    phase: Phase,
    reading: bool,             // the watcher's interest
    writing: bool,
    outbox: seq<byte>,         // sendBuffer_
    inbox: seq<byte>,          // receiveBuffer_
    pending: seq<Functor>,     // queued in the loop
    todo: Todo,                // of the event set being dispatched
    wire: seq<byte>,           // everything the socket has taken
    shut: bool,                // the socket's write side was shut down
    calls: seq<Call>           // connect and disconnect callbacks made
  )

  datatype Event =
    | Queue(f: Functor)                            // any thread
    | RunNext(w: WriteResult)                      // the loop runs the oldest functor
    | Send(bytes: seq<byte>, w: WriteResult)       // calls on the loop thread
    | ShutdownNow | EstablishNow | Retrieve(count: nat)
    | Dispatch(r: Revents)                         // the poller reports
    | HandleClose | HandleError | HandleRead(result: ReadResult) | HandleWrite(w: WriteResult)

  const Init := State(Connecting, false, false, [], [], [], Idle, [], false, [])

  /** The handlers that `Watcher::handleEvents` calls, in the order of the record. */
  function Handlers(r: Revents): Todo {
    Todo(r.hup && !r.pollin, r.err || r.nval, r.pollin || r.pri || r.rdhup, r.out)
  }

  function Keep(s: State, bytes: seq<byte>): State {
    s.(outbox := s.outbox + bytes, writing := true)
  }

  /** Both forms of `sendInLoop`. */
  function SendInLoop(s: State, bytes: seq<byte>, w: WriteResult): Option<State> {
    if s.phase == Disconnected || s.writing || bytes == [] then Some(s)
    else match w
      case Wrote(n) =>
        if n > |bytes| then None
        else
          var t := s.(wire := s.wire + bytes[..n]);
          if n > 0 then (if n < |bytes| then Some(Keep(t, bytes[n..])) else Some(t))
          else Some(Keep(t, bytes))
      case Blocked => Some(Keep(s, bytes))
      case Broken => Some(s)
  }

  function ShutdownInLoop(s: State): State {
    if s.phase == Connected then s.(phase := Disconnecting, shut := s.shut || !s.writing) else s
  }

  function Closed(s: State): State {
    s.(phase := Disconnected, reading := false, writing := false, calls := s.calls + [DisconnectCall])
  }

  function Established(s: State): State {
    if s.phase == Connecting then s.(phase := Connected, reading := true, calls := s.calls + [ConnectCall]) else s
  }

  function Run(s: State, f: Functor, w: WriteResult): Option<State> {
    match f
    case SendBuffered(bytes) => SendInLoop(s, bytes, w)
    case Shutdown => Some(ShutdownInLoop(s))
    case ForceClose => Some(if s.phase == Connected || s.phase == Disconnecting then Closed(s) else s)
    case Establish => Some(Established(s))
    case Destroy => Some(if s.phase == Connected then Closed(s) else s)
  }

  function ReadStep(s: State, result: ReadResult): Option<State> {
    match result
    case Data(bytes) => if bytes == [] then None else Some(s.(inbox := s.inbox + bytes))
    case EndOfStream => Some(Closed(s))
    case Failed => Some(s)
  }

  function WriteStep(s: State, w: WriteResult): Option<State> {
    if !s.writing || !w.Wrote? || w.n == 0 then Some(s)
    else if w.n > |s.outbox| then None
    else
      var t := s.(wire := s.wire + s.outbox[..w.n], outbox := s.outbox[w.n..]);
      if t.outbox != [] then Some(t)
      else
        var u := t.(writing := false);
        Some(if u.phase == Disconnecting then ShutdownInLoop(u) else u)
  }

  function Step(s: State, e: Event): Option<State> {
    match e
    case Queue(f) =>
      Some(if f.SendBuffered? && s.phase != Connected then s else s.(pending := s.pending + [f]))
    case RunNext(w) =>
      if s.pending == [] || s.todo != Idle then None
      else Run(s.(pending := s.pending[1..]), s.pending[0], w)
    case Send(bytes, w) => if s.phase == Connected then SendInLoop(s, bytes, w) else Some(s)
    case ShutdownNow => Some(ShutdownInLoop(s))
    case EstablishNow => Some(Established(s))
    case Retrieve(count) => Some(s.(inbox := s.inbox[Min(count, |s.inbox|)..]))
    case Dispatch(r) =>
      if s.todo != Idle || !(s.reading || s.writing) then None else Some(s.(todo := Handlers(r)))
    case HandleClose => if s.todo.close then Some(Closed(s.(todo := s.todo.(close := false)))) else None
    case HandleError =>
      if !s.todo.close && s.todo.error then Some(s.(todo := s.todo.(error := false))) else None
    case HandleRead(result) =>
      if !s.todo.close && !s.todo.error && s.todo.read then ReadStep(s.(todo := s.todo.(read := false)), result)
      else None
    case HandleWrite(w) =>
      if s.todo == Todo(false, false, false, true) then WriteStep(s.(todo := Idle), w) else None
  }

  lemma RetrieveStep(s: State, count: nat)
    ensures Step(s, Retrieve(count)) == Some(s.(inbox := s.inbox[Min(count, |s.inbox|)..]))
  {
  }

  function Exec(s: State, es: seq<Event>): Option<State> {
    if es == [] then Some(s)
    else match Exec(s, es[..|es| - 1])
      case Some(t) => Step(t, es[|es| - 1])
      case None => None
  }

  lemma ExecSnoc(s: State, es: seq<Event>, e: Event)
    ensures Exec(s, es + [e]) == match Exec(s, es) case Some(t) => Step(t, e) case None => None
  {
    assert (es + [e])[..|es + [e]| - 1] == es;
  }

  /* ---- what holds in every run ---- */

  /** The connection is watched and may hold unsent bytes exactly as long as it is open; it asks to be told when
      it may write exactly while it holds some. */
  predicate Coherent(s: State) {
    match s.phase
    case Connecting =>
      !s.reading && !s.writing && s.outbox == [] && s.todo == Idle && s.calls == [] && !s.shut &&
      forall f | f in s.pending :: !f.SendBuffered?
    case Disconnected =>
      !s.reading && !s.writing && |s.calls| >= 2 && s.calls[0] == ConnectCall &&
      forall i | 1 <= i < |s.calls| :: s.calls[i] == DisconnectCall
    case _ => s.reading && s.calls == [ConnectCall] && (s.writing <==> s.outbox != [])
  }

  lemma SendKeepsCoherent(s: State, bytes: seq<byte>, w: WriteResult)
    requires Coherent(s) && s.phase != Connecting && SendInLoop(s, bytes, w).Some?
    ensures Coherent(SendInLoop(s, bytes, w).value)
  {
  }

  lemma StepKeepsCoherent(s: State, e: Event)
    requires Coherent(s) && Step(s, e).Some?
    ensures Coherent(Step(s, e).value)
  {
    match e
    case RunNext(w) =>
      assert s.pending[0] in s.pending && forall f | f in s.pending[1..] :: f in s.pending;
      RunKeepsCoherent(s.(pending := s.pending[1..]), s.pending[0], w);
    case Send(bytes, w) =>
      if s.phase == Connected {
        SendKeepsCoherent(s, bytes, w);
      }
    case HandleClose => HandlerKeepsCoherent(s, e);
    case HandleError => HandlerKeepsCoherent(s, e);
    case HandleRead(_) => HandlerKeepsCoherent(s, e);
    case HandleWrite(_) => HandlerKeepsCoherent(s, e);
    case _ =>
  }

  lemma HandlerKeepsCoherent(s: State, e: Event)
    requires Coherent(s) && Step(s, e).Some? && s.todo != Idle
    requires e.HandleClose? || e.HandleError? || e.HandleRead? || e.HandleWrite?
    ensures Coherent(Step(s, e).value)
  {
    hide WriteStep;
    if e.HandleWrite? {
      WriteKeepsCoherent(s.(todo := Idle), e.w);
    }
  }

  lemma WriteKeepsCoherent(s: State, w: WriteResult)
    requires Coherent(s) && s.phase != Connecting && WriteStep(s, w).Some?
    ensures Coherent(WriteStep(s, w).value)
  {
  }

  lemma RunKeepsCoherent(s: State, f: Functor, w: WriteResult)
    requires Coherent(s) && Run(s, f, w).Some? && s.todo == Idle
    requires f.SendBuffered? ==> s.phase != Connecting
    ensures Coherent(Run(s, f, w).value)
  {
    if f.SendBuffered? {
      SendKeepsCoherent(s, f.bytes, w);
    }
  }

  lemma {:induction false} RunsAreCoherent(es: seq<Event>, s: State)
    requires Exec(Init, es) == Some(s)
    ensures Coherent(s)
    decreases |es|
  {
    if es != [] {
      var p := Exec(Init, es[..|es| - 1]).value;
      RunsAreCoherent(es[..|es| - 1], p);
      StepKeepsCoherent(p, es[|es| - 1]);
    }
  }

  /* ---- the send stream ---- */

  /** The bytes of the send that `e` carries out, if it is one. */
  function Payload(s: State, e: Event): seq<byte> {
    match e
    case Send(bytes, _) => bytes
    case RunNext(_) => if s.pending != [] && s.pending[0].SendBuffered? then s.pending[0].bytes else []
    case _ => []
  }

  /** A send is taken when the connection is open, holds no unsent bytes, and the socket is not broken. */
  predicate Takes(s: State, e: Event) {
    match e
    case Send(_, w) => s.phase == Connected && s.outbox == [] && !w.Broken?
    case RunNext(w) => s.phase != Disconnected && s.outbox == [] && !w.Broken?
    case _ => false
  }

  function Before(es: seq<Event>): Option<State>
    requires es != []
  {
    Exec(Init, es[..|es| - 1])
  }

  /** The payloads of all sends taken, in the order the loop thread ran them. */
  function Accepted(es: seq<Event>): seq<byte> {
    if es == [] || Before(es).None? then []
    else
      var p, e := Before(es).value, es[|es| - 1];
      Accepted(es[..|es| - 1]) + if Takes(p, e) then Payload(p, e) else []
  }

  /** The payloads of all sends that reached the loop thread. */
  function Offered(es: seq<Event>): seq<byte> {
    if es == [] || Before(es).None? then []
    else Offered(es[..|es| - 1]) + Payload(Before(es).value, es[|es| - 1])
  }

  /** Every send that had something to send was taken. */
  predicate NeverRefuses(es: seq<Event>) {
    es == [] || Before(es).None? ||
    (NeverRefuses(es[..|es| - 1]) &&
     (Takes(Before(es).value, es[|es| - 1]) || Payload(Before(es).value, es[|es| - 1]) == []))
  }

  function Stream(s: State): seq<byte> {
    s.wire + s.outbox
  }

  lemma SendExtendsStream(s: State, bytes: seq<byte>, w: WriteResult)
    requires Coherent(s) && SendInLoop(s, bytes, w).Some?
    ensures var taken := s.phase != Disconnected && s.outbox == [] && !w.Broken?;
            Stream(SendInLoop(s, bytes, w).value) == Stream(s) + if taken then bytes else []
  {
    if w.Wrote? && w.n <= |bytes| {
      assert bytes == bytes[..w.n] + bytes[w.n..];
    }
  }

  lemma WriteKeepsStream(s: State, w: WriteResult)
    requires WriteStep(s, w).Some?
    ensures Stream(WriteStep(s, w).value) == Stream(s)
  {
    if w.Wrote? && w.n <= |s.outbox| {
      assert s.outbox == s.outbox[..w.n] + s.outbox[w.n..];
    }
  }

  lemma StepExtendsStream(s: State, e: Event, t: State)
    requires Coherent(s) && Step(s, e) == Some(t)
    ensures Stream(t) == Stream(s) + if Takes(s, e) then Payload(s, e) else []
  {
    match e
    case RunNext(w) =>
      var p := s.(pending := s.pending[1..]);
      if s.pending[0].SendBuffered? {
        assert s.pending[0] in s.pending;
        SendExtendsStream(p, s.pending[0].bytes, w);
      }
    case Send(bytes, w) =>
      if s.phase == Connected {
        SendExtendsStream(s, bytes, w);
      }
    case HandleWrite(w) => WriteKeepsStream(s.(todo := Idle), w);
    case _ =>
  }

  /** Conservation: what the socket took and what is still to be sent are, in order, exactly the payloads of
      the sends taken. */
  lemma {:induction false} SendsAreConserved(es: seq<Event>, s: State)
    requires Exec(Init, es) == Some(s)
    ensures s.wire + s.outbox == Accepted(es)
    decreases |es|
  {
    if es != [] {
      var p := Before(es).value;
      SendsAreConserved(es[..|es| - 1], p);
      RunsAreCoherent(es[..|es| - 1], p);
      StepExtendsStream(p, es[|es| - 1], s);
    }
  }

  lemma {:induction false} RefusalsShorten(es: seq<Event>)
    ensures |Accepted(es)| <= |Offered(es)|
    ensures |Accepted(es)| == |Offered(es)| <==> NeverRefuses(es)
    ensures NeverRefuses(es) ==> Accepted(es) == Offered(es)
    decreases |es|
  {
    if es != [] && Before(es).Some? {
      RefusalsShorten(es[..|es| - 1]);
    }
  }

  /** Not every send is delivered: the stream is what was offered if and only if each send ran on an open
      connection with nothing left to send and a socket that was not broken. */
  lemma NothingIsLostExactly(es: seq<Event>, s: State)
    requires Exec(Init, es) == Some(s)
    ensures s.wire + s.outbox == Offered(es) <==> NeverRefuses(es)
  {
    SendsAreConserved(es, s);
    RefusalsShorten(es);
  }

  /** A run that loses bytes: a second send while the first is not fully written. */
  lemma SecondSendIsLost(a: byte, b: byte)
    ensures var es := [EstablishNow, Send([a], Wrote(0)), Send([b], Wrote(1))];
            exists s :: Exec(Init, es) == Some(s) && s.wire + s.outbox == [a] && Offered(es) == [a, b]
  {
    var e1, e2, e3 := EstablishNow, Send([a], Wrote(0)), Send([b], Wrote(1));
    var s1 := Established(Init);
    var s2 := Keep(s1.(wire := s1.wire + [a][..0]), [a]);
    OneStep([], Init, e1, s1);
    OneStep([e1], s1, e2, s2);
    OneStep([e1, e2], s2, e3, s2);
    assert [] + [e1] == [e1] && [e1] + [e2] == [e1, e2] && [e1, e2] + [e3] == [e1, e2, e3];
  }

  lemma OneStep(es: seq<Event>, s: State, e: Event, t: State)
    requires Exec(Init, es) == Some(s) && Step(s, e) == Some(t)
    ensures Exec(Init, es + [e]) == Some(t) && Offered(es + [e]) == Offered(es) + Payload(s, e)
  {
    ExecSnoc(Init, es, e);
    assert (es + [e])[..|es + [e]| - 1] == es;
  }

  /* ---- the functors ---- */

  /** What a call puts into the loop's queue: a send just if the connection is open. */
  function QueuedBy(s: State, e: Event): seq<Functor> {
    match e
    case Queue(f) => if f.SendBuffered? && s.phase != Connected then [] else [f]
    case _ => []
  }

  function Queued(es: seq<Event>): seq<Functor> {
    if es == [] || Before(es).None? then []
    else Queued(es[..|es| - 1]) + QueuedBy(Before(es).value, es[|es| - 1])
  }

  /** The functors that the loop has run. */
  function Ran(es: seq<Event>): seq<Functor> {
    if es == [] || Before(es).None? then []
    else
      var pending := Before(es).value.pending;
      Ran(es[..|es| - 1]) + if es[|es| - 1].RunNext? && pending != [] then [pending[0]] else []
  }

  lemma StepKeepsFunctors(s: State, e: Event, t: State)
    requires Step(s, e) == Some(t)
    ensures (if e.RunNext? then [s.pending[0]] else []) + t.pending == s.pending + QueuedBy(s, e)
    ensures e.RunNext? ==> s.pending != []
  {
    match e
    case RunNext(w) => assert s.pending == [s.pending[0]] + s.pending[1..];
    case Send(_, _) => hide Keep;
    case _ =>
  }

  /** The loop runs each functor once, in the order in which they were queued. */
  lemma {:induction false} FunctorsAreFifo(es: seq<Event>, s: State)
    requires Exec(Init, es) == Some(s)
    ensures Ran(es) + s.pending == Queued(es)
    decreases |es|
  {
    if es != [] {
      hide Step, QueuedBy;
      var p, e := Before(es).value, es[|es| - 1];
      FunctorsAreFifo(es[..|es| - 1], p);
      StepKeepsFunctors(p, e, s);
      Regroup(Ran(es[..|es| - 1]), if e.RunNext? then [p.pending[0]] else [], s.pending);
      Regroup(Ran(es[..|es| - 1]), p.pending, QueuedBy(p, e));
    }
  }

  /* ---- what the socket reports ---- */

  /** How many bytes a write of step `e` reported as taken, if the step gets to a write. */
  function Writes(s: State, e: Event): (n: nat) {
    match e
    case Send(bytes, Wrote(n)) => if s.phase == Connected && !s.writing && bytes != [] then n else 0
    case RunNext(Wrote(n)) =>
      if s.phase != Disconnected && !s.writing && Payload(s, e) != [] then n else 0
    case HandleWrite(Wrote(n)) => if s.writing then n else 0
    case _ => 0
  }

  function Reported(es: seq<Event>): (n: nat) {
    if es == [] || Before(es).None? then 0
    else Reported(es[..|es| - 1]) + Writes(Before(es).value, es[|es| - 1])
  }

  lemma SendReports(s: State, bytes: seq<byte>, w: WriteResult)
    requires SendInLoop(s, bytes, w).Some?
    ensures |SendInLoop(s, bytes, w).value.wire| ==
            |s.wire| + if s.phase != Disconnected && !s.writing && bytes != [] && w.Wrote? then w.n else 0
  {
  }

  lemma StepReports(s: State, e: Event, t: State)
    requires Step(s, e) == Some(t)
    ensures |t.wire| == |s.wire| + Writes(s, e)
  {
    match e
    case RunNext(w) =>
      var p := s.(pending := s.pending[1..]);
      if s.pending[0].SendBuffered? {
        SendReports(p, s.pending[0].bytes, w);
      }
      hide SendInLoop;
    case Send(bytes, w) =>
      if s.phase == Connected {
        SendReports(s, bytes, w);
      }
      hide SendInLoop;
    case _ =>
  }

  lemma {:induction false} WireLength(es: seq<Event>, s: State)
    requires Exec(Init, es) == Some(s)
    ensures |s.wire| == Reported(es)
    decreases |es|
  {
    if es != [] {
      hide Step, Writes;
      var p := Before(es).value;
      WireLength(es[..|es| - 1], p);
      StepReports(p, es[|es| - 1], s);
    }
  }

  /** In every run the socket has been given, of the bytes accepted, exactly as many as its writes reported, each
      once and in order, and the send buffer holds exactly the others. */
  lemma WireIsWhatWasReported(es: seq<Event>, s: State)
    requires Exec(Init, es) == Some(s)
    ensures Reported(es) <= |Accepted(es)|
    ensures s.wire == Accepted(es)[..Reported(es)] && s.outbox == Accepted(es)[Reported(es)..]
  {
    SendsAreConserved(es, s);
    WireLength(es, s);
  }

  function Sum(ns: seq<nat>): nat {
    if ns == [] then 0 else Sum(ns[..|ns| - 1]) + ns[|ns| - 1]
  }

  /** The poller reports the socket writable again and again, and it takes `ns[i]` bytes in round `i`. */
  function Rounds(ns: seq<nat>): seq<Event> {
    if ns == [] then []
    else Rounds(ns[..|ns| - 1]) +
         [Dispatch(Writable), HandleWrite(Wrote(ns[|ns| - 1]))]
  }

  lemma EmptyMeansNotWriting(s: State)
    requires Coherent(s) && (s.phase == Connected || s.phase == Disconnecting)
    ensures s.outbox == [] ==> !s.writing
  {
  }

  lemma RoundDrains(u: State, n: nat, v: State, t: State)
    requires Coherent(u) && (u.phase == Connected || u.phase == Disconnecting) && n > 0
    requires Step(u, Dispatch(Writable)) == Some(v) && Step(v, HandleWrite(Wrote(n))) == Some(t)
    ensures Coherent(t) && t.phase == u.phase && Stream(t) == Stream(u)
    ensures t.outbox == u.outbox[Min(n, |u.outbox|)..] && (t.outbox == [] ==> !t.writing)
  {
    StepKeepsCoherent(u, Dispatch(Writable));
    StepKeepsCoherent(v, HandleWrite(Wrote(n)));
    WriteKeepsStream(v.(todo := Idle), Wrote(n));
  }

  /** An open connection drains: rounds that take something take exactly the front of what is to be sent, as
      many as there are bytes leave nothing, and the connection stops asking at that point. */
  lemma {:induction false} RoundsDrain(s: State, ns: seq<nat>, t: State)
    requires Coherent(s) && (s.phase == Connected || s.phase == Disconnecting)
    requires Exec(s, Rounds(ns)) == Some(t) && forall n | n in ns :: n > 0
    ensures Coherent(t) && t.phase == s.phase && Stream(t) == Stream(s)
    ensures t.outbox == s.outbox[Min(Sum(ns), |s.outbox|)..]
    ensures |ns| <= Sum(ns) && (|ns| >= |s.outbox| ==> t.outbox == [] && !t.writing)
    decreases |ns|
  {
    hide Coherent, Step, Stream;
    if ns != [] {
      var front, n := ns[..|ns| - 1], ns[|ns| - 1];
      var d, h := Dispatch(Writable), HandleWrite(Wrote(n));
      assert Rounds(ns) == (Rounds(front) + [d]) + [h];
      ExecSnoc(s, Rounds(front) + [d], h);
      ExecSnoc(s, Rounds(front), d);
      var u := Exec(s, Rounds(front)).value;
      assert forall m | m in front :: m in ns;
      RoundsDrain(s, front, u);
      assert n in ns;
      RoundDrains(u, n, Step(u, d).value, t);
    } else {
      EmptyMeansNotWriting(s);
    }
  }

  /* ---- life cycle ---- */

  function Rank(p: Phase): nat {
    match p
    case Connecting => 0
    case Connected => 1
    case Disconnecting => 2
    case Disconnected => 3
  }

  predicate Forward(s: State, t: State) {
    && Rank(s.phase) <= Rank(t.phase)
    && (s.phase == Disconnected ==> !t.reading && !t.writing && t.wire == s.wire && t.outbox == s.outbox)
    && (s.phase == Disconnecting || s.phase == Disconnected ==> t.shut == s.shut)
  }

  lemma StepGoesForward(s: State, e: Event, t: State)
    requires Coherent(s) && Step(s, e) == Some(t)
    ensures Forward(s, t)
  {
  }

  /** The phase only moves forward. Once disconnected, the connection is not watched and no byte is sent or kept
      for sending, whatever users and functors do. A shutdown that found bytes still to be sent never closes the
      socket's write side, not even when they have been sent. */
  lemma {:induction false} NoWayBack(es: seq<Event>, s: State, more: seq<Event>, t: State)
    requires Exec(Init, es) == Some(s) && Exec(s, more) == Some(t)
    ensures Coherent(t) && Forward(s, t)
    decreases |more|
  {
    RunsAreCoherent(es, s);
    if more != [] {
      var u := Exec(s, more[..|more| - 1]).value;
      NoWayBack(es, s, more[..|more| - 1], u);
      StepKeepsCoherent(u, more[|more| - 1]);
      StepGoesForward(u, more[|more| - 1], t);
    }
  }

  /** The step carries out a shutdown, from the loop thread or from the loop's queue, on an open connection. */
  predicate ShutsDown(s: State, e: Event) {
    s.phase == Connected && (e == ShutdownNow || (e.RunNext? && s.pending != [] && s.pending[0] == Shutdown))
  }

  /** Some shutdown of the run found nothing left to send. */
  predicate ShutWithNothingLeft(es: seq<Event>) {
    es != [] && Before(es).Some? &&
    (ShutWithNothingLeft(es[..|es| - 1]) ||
     (ShutsDown(Before(es).value, es[|es| - 1]) && Before(es).value.outbox == []))
  }

  lemma StepShutsExactly(s: State, e: Event, t: State)
    requires Coherent(s) && Step(s, e) == Some(t)
    ensures t.shut <==> s.shut || (ShutsDown(s, e) && s.outbox == [])
    ensures ShutsDown(s, e) ==> t.phase == Disconnecting
  {
  }

  /** In every run the socket's write side has been shut down if and only if a shutdown ran, from whatever thread
      it was called, on an open connection with nothing left to send. */
  lemma {:induction false} ShutdownClosesExactly(es: seq<Event>, s: State)
    requires Exec(Init, es) == Some(s)
    ensures s.shut <==> ShutWithNothingLeft(es)
    ensures s.phase == Connecting || s.phase == Connected ==> !s.shut
    decreases |es|
  {
    if es != [] {
      var front, e := es[..|es| - 1], es[|es| - 1];
      var p := Before(es).value;
      ShutdownClosesExactly(front, p);
      RunsAreCoherent(front, p);
      StepShutsExactly(p, e, s);
      StepGoesForward(p, e, s);
      hide Step, Coherent;
    }
  }

  const Writable := Revents(false, false, true, false, false, false, false)

  /** A run that never closes the write side: the shutdown comes while a byte waits; the byte is sent later, and
      nothing that follows closes it. */
  lemma ShutdownBeforeDrainNeverCloses(a: byte, more: seq<Event>, t: State)
    requires Exec(Waited(a), more) == Some(t)
    ensures Exec(Init, [EstablishNow, Send([a], Wrote(0)), ShutdownNow, Dispatch(Writable), HandleWrite(Wrote(1))]) ==
            Some(Waited(a))
    ensures Waited(a).wire == [a] && Waited(a).outbox == [] && Waited(a).phase == Disconnecting && !t.shut
  {
    var es := [EstablishNow, Send([a], Wrote(0)), ShutdownNow];
    var es' := [EstablishNow, Send([a], Wrote(0)), ShutdownNow, Dispatch(Writable), HandleWrite(Wrote(1))];
    assert es + [Dispatch(Writable)] + [HandleWrite(Wrote(1))] == es';
    var s := State(Disconnecting, true, true, [a], [], [], Idle, [], false, [ConnectCall]);
    ShutWhileWaiting(a, s);
    DrainedAfterShutdown(es, s, a);
    hide Step;
    NoWayBack(es', Waited(a), more, t);
  }

  lemma ShutWhileWaiting(a: byte, s: State)
    requires s == State(Disconnecting, true, true, [a], [], [], Idle, [], false, [ConnectCall])
    ensures Exec(Init, [EstablishNow, Send([a], Wrote(0)), ShutdownNow]) == Some(s)
  {
    var e1, e2, e3 := EstablishNow, Send([a], Wrote(0)), ShutdownNow;
    var s1 := State(Connected, true, false, [], [], [], Idle, [], false, [ConnectCall]);
    var s2 := s1.(outbox := [a], writing := true);
    ShutSteps(a, s1, s2, s);
    hide Step, Offered, Payload;
    assert [] + [e1] == [e1] && [e1] + [e2] == [e1, e2] && [e1, e2] + [e3] == [e1, e2, e3];
    OneStep([], Init, e1, s1);
    OneStep([e1], s1, e2, s2);
    OneStep([e1, e2], s2, e3, s);
  }

  lemma ShutSteps(a: byte, s1: State, s2: State, s3: State)
    requires s1 == State(Connected, true, false, [], [], [], Idle, [], false, [ConnectCall])
    requires s2 == s1.(outbox := [a], writing := true) && s3 == s2.(phase := Disconnecting)
    ensures Step(Init, EstablishNow) == Some(s1) && Step(s1, Send([a], Wrote(0))) == Some(s2)
    ensures Step(s2, ShutdownNow) == Some(s3)
  {
    assert [] + [a][..0] == [] && [] + [a] == [a] && [] + [ConnectCall] == [ConnectCall];
  }

  lemma DrainedAfterShutdown(es: seq<Event>, s: State, a: byte)
    requires Exec(Init, es) == Some(s)
    requires s == State(Disconnecting, true, true, [a], [], [], Idle, [], false, [ConnectCall])
    ensures Exec(Init, es + [Dispatch(Writable)] + [HandleWrite(Wrote(1))]) == Some(Waited(a))
  {
    var s4 := s.(todo := Handlers(Writable));
    OneStep(es, s, Dispatch(Writable), s4);
    assert [] + [a][..1] == [a] && [a][1..] == [];
    OneStep(es + [Dispatch(Writable)], s4, HandleWrite(Wrote(1)), Waited(a));
  }

  /** Open for reading, drained and shutting down, with the write side still open. */
  function Waited(a: byte): State {
    State(Disconnecting, true, false, [], [], [], Idle, [a], false, [ConnectCall])
  }

  /** Some step of the run was one of those that `did` picks out. */
  predicate Happened(es: seq<Event>, did: (State, Event) -> bool) {
    es != [] && Before(es).Some? &&
    (Happened(es[..|es| - 1], did) || did(Before(es).value, es[|es| - 1]))
  }

  /** The loop runs this functor. */
  predicate Runs(s: State, e: Event, f: Functor) {
    e.RunNext? && s.pending != [] && s.pending[0] == f
  }

  predicate Establishes(s: State, e: Event) {
    e == EstablishNow || Runs(s, e, Establish)
  }

  /** The step closes the connection: a hang-up, the end of the stream, a `forceClose` while it is open, or a
      `destroyed` while it is open and not shutting down. */
  predicate Closes(s: State, e: Event) {
    || e == HandleClose || e == HandleRead(EndOfStream)
    || (Runs(s, e, ForceClose) && (s.phase == Connected || s.phase == Disconnecting))
    || (Runs(s, e, Destroy) && s.phase == Connected)
  }

  lemma StepMovesExactly(s: State, e: Event, t: State)
    requires Coherent(s) && Step(s, e) == Some(t)
    ensures t.phase != Connecting <==> s.phase != Connecting || Establishes(s, e)
    ensures t.phase == Disconnected <==> s.phase == Disconnected || Closes(s, e)
    ensures t.phase == Disconnecting <==> (s.phase == Disconnecting || ShutsDown(s, e)) && !Closes(s, e)
  {
  }

  /** In every run: the connection has left its first phase if and only if it was established, it is
      disconnected if and only if one of the closing steps ran, and it is disconnecting if and only if a shutdown
      ran on the open connection and none of them has. */
  lemma {:induction false} PhaseExactly(es: seq<Event>, s: State)
    requires Exec(Init, es) == Some(s)
    ensures s.phase != Connecting <==> Happened(es, Establishes)
    ensures s.phase == Disconnected <==> Happened(es, Closes)
    ensures s.phase == Disconnecting <==> Happened(es, ShutsDown) && !Happened(es, Closes)
    decreases |es|
  {
    if es != [] {
      hide Step, Coherent, Establishes, Closes, ShutsDown;
      var p := Before(es).value;
      PhaseExactly(es[..|es| - 1], p);
      RunsAreCoherent(es[..|es| - 1], p);
      StepMovesExactly(p, es[|es| - 1], s);
      ShutsOnlyOpen(p, es[|es| - 1]);
    }
  }

  lemma ShutsOnlyOpen(s: State, e: Event)
    ensures ShutsDown(s, e) ==> s.phase == Connected && !Closes(s, e)
  {
  }

  /** The event set last dispatched. */
  function LastDispatch(es: seq<Event>): Option<Revents> {
    if es == [] then None
    else if es[|es| - 1].Dispatch? then Some(es[|es| - 1].r)
    else LastDispatch(es[..|es| - 1])
  }

  /** The steps since. */
  function SinceDispatch(es: seq<Event>): seq<Event> {
    if es == [] || es[|es| - 1].Dispatch? then [] else SinceDispatch(es[..|es| - 1]) + [es[|es| - 1]]
  }

  predicate Has(fs: seq<Event>, one: Event -> bool) {
    exists i :: 0 <= i < |fs| && one(fs[i])
  }

  lemma HasSnoc(fs: seq<Event>, e: Event, one: Event -> bool)
    ensures Has(fs + [e], one) <==> Has(fs, one) || one(e)
  {
    assert (fs + [e])[|fs|] == e && forall i | 0 <= i < |fs| :: (fs + [e])[i] == fs[i];
  }

  /** What has run of the last event set, and what has yet to. */
  predicate Answered(r: Revents, fs: seq<Event>, todo: Todo) {
    && (r.hup && !r.pollin <==> todo.close || Has(fs, (e: Event) => e.HandleClose?))
    && (r.err || r.nval <==> todo.error || Has(fs, (e: Event) => e.HandleError?))
    && (r.pollin || r.pri || r.rdhup <==> todo.read || Has(fs, (e: Event) => e.HandleRead?))
    && (r.out <==> todo.write || Has(fs, (e: Event) => e.HandleWrite?))
  }

  lemma DispatchAnswers(s: State, r: Revents, t: State)
    requires Step(s, Dispatch(r)) == Some(t)
    ensures Answered(r, [], t.todo)
  {
  }

  lemma SendKeepsTodo(s: State, bytes: seq<byte>, w: WriteResult)
    ensures SendInLoop(s, bytes, w).Some? ==> SendInLoop(s, bytes, w).value.todo == s.todo
  {
  }

  lemma RunKeepsTodo(s: State, f: Functor, w: WriteResult)
    ensures Run(s, f, w).Some? ==> Run(s, f, w).value.todo == s.todo
  {
    hide SendInLoop;
    if f.SendBuffered? {
      SendKeepsTodo(s, f.bytes, w);
    }
  }

  lemma ReadKeepsTodo(s: State, result: ReadResult)
    ensures ReadStep(s, result).Some? ==> ReadStep(s, result).value.todo == s.todo
  {
  }

  lemma WriteKeepsTodo(s: State, w: WriteResult)
    ensures WriteStep(s, w).Some? ==> WriteStep(s, w).value.todo == s.todo
  {
  }

  lemma TodoStep(s: State, e: Event, t: State)
    requires Step(s, e) == Some(t) && !e.Dispatch?
    ensures s.todo.close <==> t.todo.close || e.HandleClose?
    ensures s.todo.error <==> t.todo.error || e.HandleError?
    ensures s.todo.read <==> t.todo.read || e.HandleRead?
    ensures s.todo.write <==> t.todo.write || e.HandleWrite?
  {
    hide Run, SendInLoop, ReadStep, WriteStep;
    match e
    case RunNext(w) => RunKeepsTodo(s.(pending := s.pending[1..]), s.pending[0], w);
    case Send(bytes, w) => SendKeepsTodo(s, bytes, w);
    case HandleRead(result) => ReadKeepsTodo(s.(todo := s.todo.(read := false)), result);
    case HandleWrite(w) => WriteKeepsTodo(s.(todo := Idle), w);
    case _ =>
  }

  lemma StepAnswers(s: State, e: Event, t: State, r: Revents, fs: seq<Event>)
    requires Step(s, e) == Some(t) && !e.Dispatch? && Answered(r, fs, s.todo)
    ensures Answered(r, fs + [e], t.todo)
  {
    HasSnoc(fs, e, (e: Event) => e.HandleClose?);
    HasSnoc(fs, e, (e: Event) => e.HandleError?);
    HasSnoc(fs, e, (e: Event) => e.HandleRead?);
    HasSnoc(fs, e, (e: Event) => e.HandleWrite?);
    TodoStep(s, e, t);
    hide Has, Step;
  }

  /** In every run, of the event set last reported: each handler is still to run or has run if and only if one of its
      bits was set. */
  lemma {:induction false} EventsAreAnswered(es: seq<Event>, s: State)
    requires Exec(Init, es) == Some(s)
    ensures if LastDispatch(es).None? then s.todo == Idle
            else Answered(LastDispatch(es).value, SinceDispatch(es), s.todo)
    decreases |es|
  {
    if es != [] {
      hide Step, Answered;
      var p, e := Before(es).value, es[|es| - 1];
      EventsAreAnswered(es[..|es| - 1], p);
      if e.Dispatch? {
        DispatchAnswers(p, e.r, s);
      } else if LastDispatch(es).Some? {
        StepAnswers(p, e, s, LastDispatch(es).value, SinceDispatch(es[..|es| - 1]));
      } else {
        TodoStep(p, e, s);
      }
    }
  }

  /** An event set that makes the watcher call both the close and the read callback. */
  predicate Clashes(r: Revents) {
    r.hup && !r.pollin && (r.pri || r.rdhup)
  }

  /** The stream ends in the read handler of such a set. */
  predicate ClosesAgain(es: seq<Event>, k: nat) {
    k < |es| && es[k] == HandleRead(EndOfStream) &&
    LastDispatch(es[..k]).Some? && Clashes(LastDispatch(es[..k]).value)
  }

  /** Before the read handler of a dispatched set has run, the connection is closed if and only if the set has a
      close handler and it has run. */
  predicate Stands(last: Option<Revents>, s: State) {
    && (s.todo != Idle ==> last.Some?)
    && (s.todo.close ==> s.phase != Disconnected && Handlers(last.value).close)
    && (s.todo.read ==>
          |s.calls| <= 2 && Handlers(last.value).read &&
          (s.phase == Disconnected <==> Handlers(last.value).close && !s.todo.close))
    && |s.calls| <= 3
  }

  /** The position is kept, and the only step that makes a third call is reading the end of the stream in the
      middle of a clashing set. */
  predicate StandsAfter(last: Option<Revents>, s: State, e: Event, t: State) {
    && Stands(if e.Dispatch? then Some(e.r) else last, t) && |t.calls| <= 3
    && (e == HandleRead(EndOfStream) ==> last.Some?)
    && (|t.calls| == 3 <==> |s.calls| == 3 || (e == HandleRead(EndOfStream) && Clashes(last.value)))
  }

  predicate IsHandler(e: Event) {
    e.HandleClose? || e.HandleError? || e.HandleRead? || e.HandleWrite?
  }

  lemma HandlerKeepsStanding(last: Option<Revents>, s: State, e: Event, t: State)
    requires Coherent(s) && Stands(last, s) && Step(s, e) == Some(t) && IsHandler(e)
    ensures StandsAfter(last, s, e, t)
  {
  }

  lemma OtherStepKeepsStanding(last: Option<Revents>, s: State, e: Event, t: State)
    requires Coherent(s) && Stands(last, s) && Step(s, e) == Some(t) && !IsHandler(e)
    ensures StandsAfter(last, s, e, t)
  {
  }

  lemma StepKeepsStanding(last: Option<Revents>, s: State, e: Event, t: State)
    requires Coherent(s) && Stands(last, s) && Step(s, e) == Some(t)
    ensures StandsAfter(last, s, e, t)
  {
    hide Coherent, Stands, Step, StandsAfter;
    if IsHandler(e) {
      HandlerKeepsStanding(last, s, e, t);
    } else {
      OtherStepKeepsStanding(last, s, e, t);
    }
  }

  ghost predicate ClosedAgain(es: seq<Event>) {
    exists k: nat :: ClosesAgain(es, k)
  }

  lemma ClosedAgainSnoc(es: seq<Event>, e: Event)
    ensures ClosedAgain(es + [e]) <==>
            ClosedAgain(es) ||
            (e == HandleRead(EndOfStream) && LastDispatch(es).Some? && Clashes(LastDispatch(es).value))
    ensures LastDispatch(es + [e]) == if e.Dispatch? then Some(e.r) else LastDispatch(es)
  {
    var fs := es + [e];
    assert fs[..|es|] == es;
    hide LastDispatch, Clashes;
    assert forall k: nat | k < |es| :: fs[..k] == es[..k] && fs[k] == es[k];
    if k: nat :| ClosesAgain(es, k) {
      assert ClosesAgain(fs, k);
    }
    if k: nat :| ClosesAgain(fs, k) && k < |es| {
      assert ClosesAgain(es, k);
    }
    assert ClosesAgain(fs, |es|) <==>
        e == HandleRead(EndOfStream) && LastDispatch(es).Some? && Clashes(LastDispatch(es).value);
  }

  lemma {:induction false} CallsCountClosings(es: seq<Event>, s: State)
    requires Exec(Init, es) == Some(s)
    ensures |s.calls| <= 3 && (|s.calls| == 3 <==> ClosedAgain(es))
    ensures Stands(LastDispatch(es), s)
    decreases |es|
  {
    NothingStands(es);
    hide Step, Coherent, Stands, ClosesAgain, ClosedAgain, LastDispatch, Clashes;
    if es != [] {
      var front, e := es[..|es| - 1], es[|es| - 1];
      var p := Before(es).value;
      RunsAreCoherent(front, p);
      CallsCountClosings(front, p);
      StepKeepsStanding(LastDispatch(front), p, e, s);
      assert front + [e] == es;
      ClosedAgainSnoc(front, e);
    }
  }

  lemma NothingStands(es: seq<Event>)
    ensures es == [] ==> !ClosedAgain(es) && Stands(LastDispatch(es), Init)
  {
  }

  /** A closed connection has made its connect callback and then its disconnect callback once or twice, never
      more; twice if and only if some event set has POLLHUP without POLLIN but with POLLPRI or POLLRDHUP and the
      stream ends in its read handler. */
  lemma DisconnectsTwiceExactly(es: seq<Event>, s: State)
    requires Exec(Init, es) == Some(s)
    ensures s.phase == Disconnected ==>
              s.calls == [ConnectCall, DisconnectCall] || s.calls == [ConnectCall, DisconnectCall, DisconnectCall]
    ensures s.calls == [ConnectCall, DisconnectCall, DisconnectCall] <==> exists k: nat :: ClosesAgain(es, k)
  {
    RunsAreCoherent(es, s);
    CallsCountClosings(es, s);
  }

  /** Without such a set, each callback is made at most once, the disconnect callback only after the connect
      callback, and both exactly in step with the phase. */
  lemma CallbacksFollowThePhase(es: seq<Event>, s: State)
    requires Exec(Init, es) == Some(s)
    requires forall e | e in es && e.Dispatch? :: !Clashes(e.r)
    ensures s.calls == match s.phase
                       case Connecting => []
                       case Disconnected => [ConnectCall, DisconnectCall]
                       case _ => [ConnectCall]
  {
    RunsAreCoherent(es, s);
    DisconnectsTwiceExactly(es, s);
    forall k: nat | k < |es| ensures !ClosesAgain(es, k) {
      LastDispatchIsThere(es[..k]);
    }
  }

  lemma {:induction false} LastDispatchIsThere(es: seq<Event>)
    ensures LastDispatch(es).Some? ==> Dispatch(LastDispatch(es).value) in es
    decreases |es|
  {
    if es != [] {
      LastDispatchIsThere(es[..|es| - 1]);
    }
  }

  const HangUp := Revents(false, true, false, false, true, false, false)

  /** Such a run: the peer hangs up and the set also reports urgent data. */
  lemma HangUpWithUrgentDataClosesTwice()
    ensures exists s ::
              Exec(Init, [EstablishNow, Dispatch(HangUp), HandleClose, HandleRead(EndOfStream)]) == Some(s) &&
              s.calls == [ConnectCall, DisconnectCall, DisconnectCall]
  {
    var e1, e2, e3, e4 := EstablishNow, Dispatch(HangUp), HandleClose, HandleRead(EndOfStream);
    assert [] + [e1] == [e1] && [e1] + [e2] == [e1, e2] && [e1, e2] + [e3] == [e1, e2, e3];
    assert [e1, e2, e3] + [e4] == [e1, e2, e3, e4];
    var s1 := Established(Init);
    var s2 := s1.(todo := Todo(true, false, true, false));
    var s3 := Closed(s1.(todo := Todo(false, false, true, false)));
    HangUpSteps(s1, s2, s3);
    hide Step, Offered, Payload;
    OneStep([], Init, e1, s1);
    OneStep([e1], s1, e2, s2);
    OneStep([e1, e2], s2, e3, s3);
    OneStep([e1, e2, e3], s3, e4, Closed(s3.(todo := Idle)));
  }

  lemma HangUpSteps(s1: State, s2: State, s3: State)
    requires s1 == Established(Init) && s2 == s1.(todo := Todo(true, false, true, false))
    requires s3 == Closed(s1.(todo := Todo(false, false, true, false)))
    ensures Step(Init, EstablishNow) == Some(s1) && Step(s1, Dispatch(HangUp)) == Some(s2)
    ensures Step(s2, HandleClose) == Some(s3)
    ensures Step(s3, HandleRead(EndOfStream)) == Some(Closed(s3.(todo := Idle)))
  {
  }

  /* ---- the receive stream ---- */

  /** What `e` delivers to the receive buffer. */
  function ReceivedBy(e: Event): seq<byte> {
    match e
    case HandleRead(Data(bytes)) => bytes
    case _ => []
  }

  /** What users take out of it. */
  function ConsumedBy(s: State, e: Event): seq<byte> {
    match e
    case Retrieve(count) => s.inbox[..Min(count, |s.inbox|)]
    case _ => []
  }

  function Received(es: seq<Event>): seq<byte> {
    if es == [] then [] else Received(es[..|es| - 1]) + ReceivedBy(es[|es| - 1])
  }

  function Consumed(es: seq<Event>): seq<byte> {
    if es == [] || Before(es).None? then []
    else Consumed(es[..|es| - 1]) + ConsumedBy(Before(es).value, es[|es| - 1])
  }

  lemma StepKeepsReceived(s: State, e: Event, t: State)
    requires Step(s, e) == Some(t)
    ensures ConsumedBy(s, e) + t.inbox == s.inbox + ReceivedBy(e)
  {
    match e
    case Retrieve(count) =>
      var n := Min(count, |s.inbox|);
      assert s.inbox == s.inbox[..n] + s.inbox[n..];
    case HandleRead(_) =>
    case _ => OnlyReadsReceive(s, e, t);
  }

  lemma OnlyReadsReceive(s: State, e: Event, t: State)
    requires Step(s, e) == Some(t) && !e.HandleRead? && !e.Retrieve?
    ensures t.inbox == s.inbox
  {
  }

  /** What users took and what is still in the receive buffer are, in order, what the socket delivered. */
  lemma {:induction false} ReceivedIsConserved(es: seq<Event>, s: State)
    requires Exec(Init, es) == Some(s)
    ensures Consumed(es) + s.inbox == Received(es)
    decreases |es|
  {
    if es != [] {
      var p, e := Before(es).value, es[|es| - 1];
      ReceivedIsConserved(es[..|es| - 1], p);
      StepKeepsReceived(p, e, s);
      var before := Consumed(es[..|es| - 1]);
      Regroup(before, ConsumedBy(p, e), s.inbox);
      Regroup(before, p.inbox, ReceivedBy(e));
    }
  }
}
