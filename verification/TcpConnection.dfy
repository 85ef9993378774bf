/** The connection object (nutty/net/TcpConnection.cpp) over its real send and receive queues, method by method.
    What the socket does is a parameter; `trace` lists the steps of `TcpConnectionMachine` taken. */
module TcpConnectionObject {
  import opened Arithmetic
  import opened Wrappers
  import opened Buffers
  import opened ReceiveBuffers
  import opened SendBuffers
  import opened TcpConnectionMachine

  ghost predicate Apart(a: seq<Buffer>, b: seq<Buffer>) {
    (forall i | 0 <= i < |a| :: a[i] !in b) && (forall i | 0 <= i < |b| :: b[i] !in a)
  }

  lemma PartIsApart(part: seq<Buffer>, a: seq<Buffer>, b: seq<Buffer>)
    requires Apart(a, b) && forall x | x in part :: x in a
    ensures Apart(part, b)
  {
    forall i | 0 <= i < |part| ensures part[i] !in b {
      assert part[i] in a;
    }
  }

  lemma StillApart(a: seq<Buffer>, bs: seq<Buffer>, spares: seq<Buffer>, bs': seq<Buffer>, spares': seq<Buffer>)
    requires Apart(a, bs) && Apart(a, spares) && SameChunks(bs, spares, bs', spares')
    ensures Apart(a, bs') && Apart(a, spares')
  {
    SameMembers(bs, spares, bs', spares');
    forall b | b in bs' || b in spares' ensures b !in a {
      assert b in bs || b in spares;
    }
  }

  class TcpConnection {
    var state: Phase
    var reading: bool                   // the watcher's interest
    var writing: bool
    const sendBuffer: SendBuffer
    const receiveBuffer: ReceiveBuffer
    var pending: seq<Functor>           // of the loop's queue, this connection's functors
    ghost var todo: Todo
    ghost var wire: seq<byte>
    ghost var shut: bool
    ghost var calls: seq<Call>
    ghost var trace: seq<Event>

    /** The two queues are sound and share no chunk. */
    ghost predicate Sound()
      reads sendBuffer, sendBuffer.buffers
      reads receiveBuffer, receiveBuffer.buffers, receiveBuffer.extendBuffers
    {
      && sendBuffer.Valid() && receiveBuffer.Valid()
      && Apart(sendBuffer.buffers, receiveBuffer.buffers) && Apart(sendBuffer.buffers, receiveBuffer.extendBuffers)
    }

    ghost function View(): State
      requires Sound()
      reads this, sendBuffer, sendBuffer.buffers
      reads receiveBuffer, receiveBuffer.buffers, receiveBuffer.extendBuffers
    {
      State(state, reading, writing, sendBuffer.Bytes(), receiveBuffer.Bytes(), pending, todo, wire, shut, calls)
    }

    ghost predicate Valid()
      reads this, sendBuffer, sendBuffer.buffers
      reads receiveBuffer, receiveBuffer.buffers, receiveBuffer.extendBuffers
    {
      Sound() && Exec(Init, trace) == Some(View())
    }

    constructor ()
      ensures Valid() && trace == [] && View() == Init
      ensures fresh(sendBuffer) && fresh(receiveBuffer)
    {
      state, reading, writing := Connecting, false, false;
      sendBuffer := new SendBuffer();
      receiveBuffer := new ReceiveBuffer();
      pending, todo, wire, shut, calls, trace := [], Idle, [], false, [], [];
    }

    ghost method Record(s: State, e: Event)
      requires Sound() && Exec(Init, trace) == Some(s) && Step(s, e) == Some(View())
      modifies this`trace
      ensures Valid() && trace == old(trace) + [e] && View() == old(View())
    {
      hide Step, SendBuffer.Valid, ReceiveBuffer.Valid, ReceiveBuffer.ValidChunks, Contents;
      ExecSnoc(Init, trace, e);
      trace := trace + [e];
    }

    /* ---- sending ---- */

    /** A send with something to send is written to the socket at once. */
    predicate GetsToWrite()
      reads this
    {
      state != Disconnected && !writing
    }

    /** Keeps bytes for later and asks to be told when the socket is writable. */
    method KeepBytes(bytes: seq<byte>)
      requires Sound()
      modifies this`writing, sendBuffer
      ensures Sound() && View() == Keep(old(View()), bytes)
      ensures forall b | b in sendBuffer.buffers :: b in old(sendBuffer.buffers) || fresh(b)
    {
      hide SendBuffer.Valid, ReceiveBuffer.Valid, ReceiveBuffer.ValidChunks, Contents, Exec;
      sendBuffer.Append(bytes);
      writing := true;
    }

    /** `sendInLoop(const void*, uint32_t)`. */
    method SendInLoop(bytes: seq<byte>, w: WriteResult)
      requires Sound() && (w.Wrote? ==> w.n <= |bytes|)
      modifies this`writing, this`wire, sendBuffer
      ensures Sound() && TcpConnectionMachine.SendInLoop(old(View()), bytes, w) == Some(View())
      ensures |wire| == |old(wire)| + if old(GetsToWrite()) && bytes != [] && w.Wrote? then w.n else 0
      ensures forall b | b in sendBuffer.buffers :: b in old(sendBuffer.buffers) || fresh(b)
    {
      hide SendBuffer.Valid, ReceiveBuffer.Valid, ReceiveBuffer.ValidChunks, Contents, Exec;
      if state == Disconnected {
        return;
      }
      if !writing && |bytes| > 0 {
        match w {
          case Wrote(nwrote) =>
            wire := wire + bytes[..nwrote];
            if nwrote > 0 {
              if nwrote < |bytes| {
                KeepBytes(bytes[nwrote..]);
              }
            } else {
              KeepBytes(bytes);
            }
          case Blocked => KeepBytes(bytes);
          case Broken =>
        }
      }
    }

    /** `sendInLoop(BufferPtr&)`: the buffer's memory goes to the socket from its start, and what is left of its
        readable bytes moves into the queue. So the payload is the buffer's readable bytes just when nothing of it
        has been read, as with every buffer that reaches this method; otherwise the socket takes as many bytes of
        the wrong ones. */
    method SendBufferInLoop(buf: Buffer, w: WriteResult)
      requires Sound() && buf.Valid() && (w.Wrote? ==> w.n <= buf.ReadableSize())
      requires buf !in sendBuffer.buffers && buf !in receiveBuffer.buffers && buf !in receiveBuffer.extendBuffers
      modifies this`writing, this`wire, sendBuffer, buf
      ensures var t := TcpConnectionMachine.SendInLoop(old(View()), old(buf.Readable()), w);
              && Sound() && t.Some? && |wire| == |t.value.wire| && View().(wire := t.value.wire) == t.value
              && |old(wire)| <= |wire| <= |old(wire)| + |old(buf.data)|
              && wire == old(wire) + old(buf.data)[..|wire| - |old(wire)|]
              && (old(buf.rpos) == 0 ==> View() == t.value)
      ensures |wire| == |old(wire)| + if old(GetsToWrite() && buf.ReadableSize() > 0) && w.Wrote? then w.n else 0
      ensures forall b | b in sendBuffer.buffers :: b in old(sendBuffer.buffers) || fresh(b)
    {
      hide SendBuffer.Valid, SendBuffer.Bytes, ReceiveBuffer.Valid, ReceiveBuffer.ValidChunks, ReceiveBuffer.Bytes;
      hide Contents, Exec;
      assert wire + buf.data[..0] == wire;
      if state == Disconnected {
        return;
      }
      var count := buf.ReadableSize();
      if !writing && count > 0 {
        match w {
          case Wrote(nwrote) =>
            assert buf.rpos == 0 ==> buf.data[..nwrote] == buf.Readable()[..nwrote];
            wire := wire + buf.data[..nwrote];
            if nwrote > 0 {
              if nwrote < count {
                buf.HasRead(nwrote);
                KeepBuffer(buf);
              }
            } else {
              KeepBuffer(buf);
            }
          case Blocked => KeepBuffer(buf);
          case Broken =>
        }
      }
    }

    /** A functor that holds its own copy of the bytes. */
    method SendQueued(bytes: seq<byte>, w: WriteResult)
      requires Sound() && (w.Wrote? ==> w.n <= |bytes|)
      modifies this`writing, this`wire, sendBuffer
      ensures Sound() && TcpConnectionMachine.SendInLoop(old(View()), bytes, w) == Some(View())
      ensures |wire| == |old(wire)| + if old(GetsToWrite()) && bytes != [] && w.Wrote? then w.n else 0
      ensures forall b | b in sendBuffer.buffers :: b in old(sendBuffer.buffers) || fresh(b)
    {
      hide SendBuffer.Valid, ReceiveBuffer.Valid, ReceiveBuffer.ValidChunks, Contents, Exec;
      var buf := new Buffer.Copy(bytes);
      SendBufferInLoop(buf, w);
    }

    method KeepBuffer(buf: Buffer)
      requires Sound() && buf.Valid()
      requires buf !in sendBuffer.buffers && buf !in receiveBuffer.buffers && buf !in receiveBuffer.extendBuffers
      modifies this`writing, sendBuffer, buf
      ensures Sound() && View() == Keep(old(View()), old(buf.Readable()))
      ensures forall b | b in sendBuffer.buffers :: b in old(sendBuffer.buffers) || fresh(b)
    {
      hide SendBuffer.Valid, ReceiveBuffer.Valid, ReceiveBuffer.ValidChunks, Contents, Exec;
      sendBuffer.AppendMoved(buf);
      writing := true;
    }

    /** `send` on the loop thread. */
    method Send(bytes: seq<byte>, w: WriteResult)
      requires Valid() && (w.Wrote? ==> w.n <= |bytes|)
      modifies this, sendBuffer
      ensures Valid() && trace == old(trace) + [Event.Send(bytes, w)]
      ensures forall b | b in sendBuffer.buffers :: b in old(sendBuffer.buffers) || fresh(b)
    {
      hide SendBuffer.Valid, ReceiveBuffer.Valid, ReceiveBuffer.ValidChunks, Contents, Exec;
      ghost var s := View();
      if state == Connected {
        SendInLoop(bytes, w);
      }
      Record(s, Event.Send(bytes, w));
    }

    /** Any call that queues a functor: `send` from another thread, if the connection is open, `shutdown` and
        `established` from another thread, `forceClose` and `destroyed`. */
    method Enqueue(f: Functor)
      requires Valid()
      modifies this
      ensures Valid() && trace == old(trace) + [Queue(f)]
    {
      hide SendBuffer.Valid, ReceiveBuffer.Valid, ReceiveBuffer.ValidChunks, Contents, Exec;
      ghost var s := View();
      if !f.SendBuffered? || state == Connected {
        pending := pending + [f];
      }
      Record(s, Queue(f));
    }

    /* ---- life cycle ---- */

    method HandleCloseNow()
      requires Sound()
      modifies this`state, this`reading, this`writing, this`calls
      ensures Sound() && View() == Closed(old(View()))
    {
      hide SendBuffer.Valid, ReceiveBuffer.Valid, ReceiveBuffer.ValidChunks, Contents, Exec;
      state := Disconnected;
      reading, writing := false, false;
      calls := calls + [DisconnectCall];
    }

    method ShutdownInLoop()
      requires Sound()
      modifies this`state, this`shut
      ensures Sound() && View() == TcpConnectionMachine.ShutdownInLoop(old(View()))
    {
      hide SendBuffer.Valid, ReceiveBuffer.Valid, ReceiveBuffer.ValidChunks, Contents, Exec;
      if state == Connected {
        state := Disconnecting;
        if !writing {
          shut := true;
        }
      }
    }

    method ForceCloseInLoop()
      requires Sound()
      modifies this`state, this`reading, this`writing, this`calls
      ensures Sound() && Some(View()) == Run(old(View()), ForceClose, Broken)
      ensures if old(state) == Connected || old(state) == Disconnecting
              then state == Disconnected && !reading && !writing && calls == old(calls) + [DisconnectCall]
              else View() == old(View())
    {
      hide SendBuffer.Valid, ReceiveBuffer.Valid, ReceiveBuffer.ValidChunks, Contents, Exec;
      if state == Connected || state == Disconnecting {
        HandleCloseNow();
      }
    }

    method EstablishedInLoop()
      requires Sound()
      modifies this`state, this`reading, this`calls
      ensures Sound() && View() == Established(old(View()))
    {
      hide SendBuffer.Valid, ReceiveBuffer.Valid, ReceiveBuffer.ValidChunks, Contents, Exec;
      if state == Connecting {
        state := Connected;
        reading := true;
        calls := calls + [ConnectCall];
      }
    }

    method DestroyedInLoop()
      requires Sound()
      modifies this`state, this`reading, this`writing, this`calls
      ensures Sound() && Some(View()) == Run(old(View()), Destroy, Broken)
      ensures if old(state) == Connected
              then state == Disconnected && !reading && !writing && calls == old(calls) + [DisconnectCall]
              else View() == old(View())
    {
      hide SendBuffer.Valid, ReceiveBuffer.Valid, ReceiveBuffer.ValidChunks, Contents, Exec;
      if state == Connected {
        state := Disconnected;
        reading, writing := false, false;
        calls := calls + [DisconnectCall];
      }
    }

    /** `shutdown` on the loop thread. */
    method Shutdown()
      requires Valid()
      modifies this
      ensures Valid() && trace == old(trace) + [ShutdownNow]
    {
      hide SendBuffer.Valid, ReceiveBuffer.Valid, ReceiveBuffer.ValidChunks, Contents, Exec;
      ghost var s := View();
      ShutdownInLoop();
      Record(s, ShutdownNow);
    }

    /** `established` on the loop thread. */
    method Establish()
      requires Valid()
      modifies this
      ensures Valid() && trace == old(trace) + [EstablishNow]
    {
      hide SendBuffer.Valid, ReceiveBuffer.Valid, ReceiveBuffer.ValidChunks, Contents, Exec;
      ghost var s := View();
      EstablishedInLoop();
      Record(s, EstablishNow);
    }

    /** The loop runs the connection's oldest functor. */
    method RunFunctor(w: WriteResult)
      requires Valid() && pending != [] && todo == Idle
      requires pending[0].SendBuffered? && w.Wrote? ==> w.n <= |pending[0].bytes|
      modifies this, sendBuffer
      ensures Valid() && trace == old(trace) + [RunNext(w)]
      ensures forall b | b in sendBuffer.buffers :: b in old(sendBuffer.buffers) || fresh(b)
    {
      hide SendBuffer.Valid, ReceiveBuffer.Valid, ReceiveBuffer.ValidChunks, Contents, Exec;
      ghost var s := View();
      var f := pending[0];
      pending := pending[1..];
      match f {
        case SendBuffered(bytes) => SendQueued(bytes, w);
        case Shutdown => ShutdownInLoop();
        case ForceClose => ForceCloseInLoop();
        case Establish => EstablishedInLoop();
        case Destroy => DestroyedInLoop();
      }
      Record(s, RunNext(w));
    }

    /* ---- events ---- */

    ghost method BeginDispatch(r: Revents)
      requires Valid() && todo == Idle && (reading || writing)
      modifies this`todo, this`trace
      ensures Valid() && trace == old(trace) + [Dispatch(r)] && todo == Handlers(r)
    {
      ghost var s := View();
      todo := Handlers(r);
      Record(s, Dispatch(r));
    }

    method HandleClose()
      requires Valid() && todo.close
      modifies this
      ensures Valid() && trace == old(trace) + [Event.HandleClose] && todo == old(todo).(close := false)
    {
      hide SendBuffer.Valid, ReceiveBuffer.Valid, ReceiveBuffer.ValidChunks, Contents, Exec;
      ghost var s := View();
      todo := todo.(close := false);
      HandleCloseNow();
      Record(s, Event.HandleClose);
    }

    method HandleError()
      requires Valid() && !todo.close && todo.error
      modifies this
      ensures Valid() && trace == old(trace) + [Event.HandleError] && todo == old(todo).(error := false)
    {
      hide SendBuffer.Valid, ReceiveBuffer.Valid, ReceiveBuffer.ValidChunks, Contents, Exec;
      ghost var s := View();
      todo := todo.(error := false);
      Record(s, Event.HandleError);
    }

    /** The socket has `available` to deliver, nothing if the stream has ended, or fails. */
    method HandleRead(available: seq<byte>, failed: bool) returns (ghost result: ReadResult)
      requires Valid() && !todo.close && !todo.error && todo.read
      modifies this, receiveBuffer, receiveBuffer.buffers, receiveBuffer.extendBuffers
      ensures Valid() && trace == old(trace) + [Event.HandleRead(result)] && todo == old(todo).(read := false)
      ensures failed ==> result == Failed
      ensures !failed && available == [] ==> result == EndOfStream
      ensures !failed && available != [] ==>
                exists n: nat :: Min(|available|, RECEIVE_SIZE) <= n <= |available| && result == Data(available[..n])
      ensures sendBuffer.buffers == old(sendBuffer.buffers)
    {
      hide SendBuffer.Valid, ReceiveBuffer.Valid, ReceiveBuffer.ValidChunks, Contents, Exec;
      ghost var s := View();
      todo := todo.(read := false);
      if failed {
        result := Failed;
        Prepare();
      } else {
        var nread := ReceiveSome(available);
        result := Data(available[..nread]);
        if nread == 0 {
          result := EndOfStream;
          HandleCloseNow();
        }
      }
      Record(s, Event.HandleRead(result));
    }

    method Prepare()
      requires Sound()
      modifies receiveBuffer
      ensures Sound() && View() == old(View())
    {
      hide SendBuffer.Valid, ReceiveBuffer.Valid, ReceiveBuffer.ValidChunks, Contents, Exec;
      var iov := receiveBuffer.PrepareReceive();
    }

    method ReceiveSome(available: seq<byte>) returns (n: nat)
      requires Sound()
      modifies receiveBuffer, receiveBuffer.buffers, receiveBuffer.extendBuffers
      ensures Sound() && Min(|available|, RECEIVE_SIZE) <= n <= |available|
      ensures View() == old(View()).(inbox := old(receiveBuffer.Bytes()) + available[..n])
      ensures n == 0 ==> View() == old(View())
      ensures sendBuffer.buffers == old(sendBuffer.buffers)
    {
      hide SendBuffer.Valid, ReceiveBuffer.Valid, ReceiveBuffer.ValidChunks, Contents, Exec;
      n := receiveBuffer.Receive(available);
      SendQueueUntouched();
    }

    /** The socket has room for `room` bytes, or fails. */
    method HandleWrite(room: nat, failed: bool) returns (ghost w: WriteResult)
      requires Valid() && todo == Todo(false, false, false, true)
      modifies this, sendBuffer, sendBuffer.buffers
      ensures Valid() && trace == old(trace) + [Event.HandleWrite(w)] && todo == Idle
      ensures forall b | b in sendBuffer.buffers :: b in old(sendBuffer.buffers)
    {
      hide SendBuffer.Valid, ReceiveBuffer.Valid, ReceiveBuffer.ValidChunks, Contents, Exec;
      ghost var s := View();
      todo := Idle;
      w := Blocked;
      if writing && !failed {
        w := WriteSome(room);
      }
      Record(s, Event.HandleWrite(w));
    }

    method WriteSome(room: nat) returns (ghost w: WriteResult)
      requires Sound() && writing
      modifies this`writing, this`wire, this`state, this`shut, sendBuffer, sendBuffer.buffers
      ensures Sound() && w.Wrote? && WriteStep(old(View()), w) == Some(View())
      ensures forall b | b in sendBuffer.buffers :: b in old(sendBuffer.buffers)
      ensures Min(room, Min(old(sendBuffer.size), SEND_SIZE)) <= w.n <= room && |wire| == |old(wire)| + w.n
    {
      hide SendBuffer.Valid, SendBuffer.Bytes, ReceiveBuffer.Valid, ReceiveBuffer.ValidChunks, ReceiveBuffer.Bytes;
      hide Contents, Gathered, TotalLen, Exec;
      var iov := sendBuffer.PrepareSend();
      var nwrote := Min(room, TotalLen(iov));
      GatheredLength(iov);
      w := Wrote(nwrote);
      if nwrote > 0 {
        wire := wire + Gathered(iov)[..nwrote];
        assert Gathered(iov)[..nwrote] == sendBuffer.Bytes()[..nwrote];
        HasSent(nwrote);
        if sendBuffer.size == 0 {
          writing := false;
          if state == Disconnecting {
            ShutdownInLoop();
          }
        }
      }
    }

    method HasSent(n: nat)
      requires Sound() && n <= sendBuffer.size
      modifies sendBuffer, sendBuffer.buffers
      ensures Sound() && View() == old(View()).(outbox := old(sendBuffer.Bytes())[n..])
      ensures forall b | b in sendBuffer.buffers :: b in old(sendBuffer.buffers)
    {
      hide SendBuffer.Valid, SendBuffer.Bytes, ReceiveBuffer.Valid, ReceiveBuffer.ValidChunks, ReceiveBuffer.Bytes;
      hide Contents, Exec;
      ghost var bs := sendBuffer.buffers;
      sendBuffer.HasSent(n);
      assert receiveBuffer.Valid() && receiveBuffer.Bytes() == old(receiveBuffer.Bytes()) by {
        ReceiveQueueUntouched();
      }
      StillSound(bs);
    }

    lemma StillSound(bs: seq<Buffer>)
      requires sendBuffer.Valid() && receiveBuffer.Valid() && forall b | b in sendBuffer.buffers :: b in bs
      requires Apart(bs, receiveBuffer.buffers) && Apart(bs, receiveBuffer.extendBuffers)
      ensures Sound()
    {
      hide Apart, SendBuffer.Valid, ReceiveBuffer.Valid;
      PartIsApart(sendBuffer.buffers, bs, receiveBuffer.buffers);
      PartIsApart(sendBuffer.buffers, bs, receiveBuffer.extendBuffers);
    }

    twostate lemma ReceiveQueueUntouched()
      requires old(receiveBuffer.Valid()) && unchanged(receiveBuffer)
      requires forall i | 0 <= i < |receiveBuffer.buffers| :: unchanged(receiveBuffer.buffers[i])
      requires forall i | 0 <= i < |receiveBuffer.extendBuffers| :: unchanged(receiveBuffer.extendBuffers[i])
      ensures receiveBuffer.Valid() && receiveBuffer.Bytes() == old(receiveBuffer.Bytes())
    {
    }

    /** The user drops `count` bytes of the receive buffer. */
    method Retrieve(count: nat)
      requires Valid()
      modifies this`trace, receiveBuffer, receiveBuffer.buffers
      ensures Valid() && trace == old(trace) + [Event.Retrieve(count)]
      ensures View() == old(View()).(inbox := old(View()).inbox[Min(count, |old(View()).inbox|)..])
    {
      ghost var s := View();
      RetrieveStep(s, count);
      hide Sound, View, Step, Exec;
      RetrieveSome(count);
      Record(s, Event.Retrieve(count));
    }

    method RetrieveSome(count: nat)
      requires Sound()
      modifies receiveBuffer, receiveBuffer.buffers
      ensures Sound() && View() == old(View()).(inbox := old(View()).inbox[Min(count, |old(View()).inbox|)..])
    {
      hide SendBuffer.Valid, ReceiveBuffer.Valid, ReceiveBuffer.ValidChunks, Contents;
      ghost var bs, spares := receiveBuffer.buffers, receiveBuffer.extendBuffers;
      receiveBuffer.Retrieve(count);
      SendQueueUntouched();
      StillApart(sendBuffer.buffers, bs, spares, receiveBuffer.buffers, receiveBuffer.extendBuffers);
      hide Apart, SameChunks;
    }

    twostate lemma SendQueueUntouched()
      requires old(sendBuffer.Valid()) && unchanged(sendBuffer)
      requires forall i | 0 <= i < |sendBuffer.buffers| :: unchanged(sendBuffer.buffers[i])
      ensures sendBuffer.Valid() && sendBuffer.Bytes() == old(sendBuffer.Bytes())
    {
    }

    /** `Watcher::handleEvents` with the connection's callbacks: the steps of one dispatch, in its order. The
        calls that users make inside their callbacks are steps of their own. */
    method HandleEvents(r: Revents, available: seq<byte>, readFails: bool, room: nat, writeFails: bool)
      returns (ghost result: ReadResult, ghost w: WriteResult)
      requires Valid() && todo == Idle && (reading || writing)
      modifies this, sendBuffer, sendBuffer.buffers
      modifies receiveBuffer, receiveBuffer.buffers, receiveBuffer.extendBuffers
      ensures Valid() && todo == Idle
      ensures trace == old(trace) + [Dispatch(r)] + CloseSteps(r) + DataSteps(r, result, w)
    {
      hide Valid, Sound, View, SendBuffer.Valid, ReceiveBuffer.Valid, Contents, Step;
      BeginDispatch(r);
      HandleCloseEvents(r);
      result, w := HandleDataEvents(r, available, readFails, room, writeFails);
    }

    method HandleCloseEvents(r: Revents)
      requires Valid() && todo == Handlers(r)
      modifies this
      ensures Valid() && todo == Handlers(r).(close := false, error := false)
      ensures trace == old(trace) + CloseSteps(r)
    {
      hide Valid, Sound, View, SendBuffer.Valid, ReceiveBuffer.Valid, Contents, Step;
      if r.hup && !r.pollin {
        HandleClose();
      }
      if r.err || r.nval {
        HandleError();
      }
    }

    method HandleDataEvents(r: Revents, available: seq<byte>, readFails: bool, room: nat, writeFails: bool)
      returns (ghost result: ReadResult, ghost w: WriteResult)
      requires Valid() && todo == Handlers(r).(close := false, error := false)
      modifies this, sendBuffer, sendBuffer.buffers
      modifies receiveBuffer, receiveBuffer.buffers, receiveBuffer.extendBuffers
      ensures Valid() && todo == Idle && trace == old(trace) + DataSteps(r, result, w)
    {
      hide Valid, Sound, View, SendBuffer.Valid, ReceiveBuffer.Valid, Contents, Step;
      result, w := Failed, Blocked;
      if r.pollin || r.pri || r.rdhup {
        result := HandleRead(available, readFails);
      }
      if r.out {
        w := HandleWrite(room, writeFails);
      }
    }
  }

  /** What the machine proves of every run holds of every object: the socket got as many of the accepted bytes as
      its writes reported and the send queue holds the others, and an open connection watches for writability
      exactly while the queue is not empty. */
  lemma ObjectConserves(c: TcpConnection)
    requires c.Valid()
    ensures c.wire + c.sendBuffer.Bytes() == Accepted(c.trace) && |c.wire| == Reported(c.trace)
    ensures Consumed(c.trace) + c.receiveBuffer.Bytes() == Received(c.trace)
    ensures c.state != Disconnected ==> (c.writing <==> c.sendBuffer.size > 0)
  {
    hide SendBuffer.Valid, ReceiveBuffer.Valid, Contents, Step, Accepted, Reported, Consumed, Received;
    SendsAreConserved(c.trace, c.View());
    WireLength(c.trace, c.View());
    ReceivedIsConserved(c.trace, c.View());
    RunsAreCoherent(c.trace, c.View());
  }

  /** The steps of the first two `if`s of `handleEvents`, and of the last two. */
  function CloseSteps(r: Revents): seq<Event> {
    (if Handlers(r).close then [HandleClose] else []) + (if Handlers(r).error then [HandleError] else [])
  }

  function DataSteps(r: Revents, result: ReadResult, w: WriteResult): seq<Event> {
    (if Handlers(r).read then [HandleRead(result)] else []) + (if Handlers(r).write then [HandleWrite(w)] else [])
  }
}
