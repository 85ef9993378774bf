/** The logger object (nutty/log/AsyncLogger.cpp) over real buffers, method by method. */
module AsyncLoggerObject {
  import opened Wrappers
  import opened Buffers
  import Machine = AsyncLoggerMachine
  import opened AsyncLoggerMachine

  /** `AsyncLogger::Buffer`. */
  class Chunk {
    var data: seq<byte>      // data_: BUFFER_SIZE bytes of memory
    var cur: nat             // cur_, as an offset

    ghost predicate Valid()
      reads this
    {
      |data| == BUFFER_SIZE && cur <= BUFFER_SIZE
    }

    ghost function Held(): (r: seq<byte>)
      requires Valid()
      reads this
      ensures |r| == cur
    {
      data[..cur]
    }

    constructor ()
      ensures Valid() && Held() == []
    {
      data, cur := seq(BUFFER_SIZE, _ => 0), 0;
    }

    function Length(): nat
      reads this
    {
      cur
    }

    function Avail(): int
      reads this
    {
      BUFFER_SIZE - cur
    }

    method Append(line: seq<byte>)
      requires Valid()
      modifies this
      ensures Valid() && Held() == old(Held()) + if BUFFER_SIZE - |old(Held())| > |line| then line else []
    {
      if Avail() > |line| {
        data := data[..cur] + line + data[cur + |line|..];
        cur := cur + |line|;
      }
    }

    method Reset()
      requires Valid()
      modifies this
      ensures Valid() && Held() == []
    {
      cur := 0;
    }
  }

  function Ref(c: Chunk?): Option<Chunk> {
    if c == null then None else Some(c)
  }

  class AsyncLogger {
    var currentBuffer: Chunk
    var nextBuffer: Chunk?
    var buffers: seq<Chunk>
    var buffersToWrite: seq<Chunk>
    var buffer1: Chunk?
    var buffer2: Chunk?
    var notEmpty: bool
    var files: seq<seq<byte>>          // what the log files hold, the open one last
    var done: nat                      // how many of buffersToWrite are written
    ghost var chunks: set<Chunk>       // every buffer the logger ever had

    ghost predicate ChunksValid()
      reads `chunks, chunks
    {
      forall c | c in chunks :: c.Valid()
    }

    ghost predicate Sound()
      reads this, chunks
    {
      && ChunksValid()
      && currentBuffer in chunks && (nextBuffer != null ==> nextBuffer in chunks)
      && (buffer1 != null ==> buffer1 in chunks) && (buffer2 != null ==> buffer2 in chunks)
      && (forall c | c in buffers :: c in chunks) && (forall c | c in buffersToWrite :: c in chunks)
    }

    ghost function Memory(): (m: map<Chunk, seq<byte>>)
      requires ChunksValid()
      reads `chunks, chunks
      ensures m.Keys == chunks && forall c | c in chunks :: m[c] == c.Held()
    {
      map c | c in chunks :: c.Held()
    }

    ghost function View(): Logger<Chunk>
      requires Sound()
      reads this, chunks
    {
      Logger(Memory(), currentBuffer, Ref(nextBuffer), buffers, buffersToWrite, done, Ref(buffer1), Ref(buffer2),
             notEmpty, files, false)
    }

    ghost predicate Valid()
      reads this, chunks
    {
      Sound() && Whole(View())
    }

    constructor ()
      ensures Valid() && Fresh(View()) && fresh(chunks)
    {
      var a := new Chunk();
      var b := new Chunk();
      var c := new Chunk();
      var d := new Chunk();
      currentBuffer, nextBuffer, buffer1, buffer2 := a, b, c, d;
      buffers, buffersToWrite, notEmpty, files := [], [], false, [[]];
      done, chunks := 0, {a, b, c, d};
      new;
      FourChunks(a, b, c, d);
    }

    lemma FourChunks(a: Chunk, b: Chunk, c: Chunk, d: Chunk)
      requires a != b && a != c && a != d && b != c && b != d && c != d && chunks == {a, b, c, d}
      requires a.Valid() && b.Valid() && c.Valid() && d.Valid()
      requires a.Held() == b.Held() == c.Held() == d.Held() == [] && buffers == buffersToWrite == [] && done == 0
      requires currentBuffer == a && nextBuffer == b && buffer1 == c && buffer2 == d && !notEmpty && files == [[]]
      ensures Valid() && Fresh(View())
    {
      FourBuffersAreFresh(Memory(), a, b, c, d);
      hide Whole, Resting;
    }

    /* ---- front ends, under the lock ---- */

    method PutLine(line: seq<byte>)
      requires Sound()
      modifies chunks
      ensures Sound() && View() == Put(old(View()), line)
    {
      ghost var m := Memory();
      currentBuffer.Append(line);
      assert ChunksValid();
      assert Memory() == m[currentBuffer := currentBuffer.Held()];
      assert m[currentBuffer := m[currentBuffer]] == m && m[currentBuffer] + [] == m[currentBuffer];
    }

    /** `make_shared<Buffer>()`. */
    method MakeChunk() returns (buffer: Chunk)
      requires Sound()
      modifies this`chunks
      ensures Sound() && fresh(buffer) && chunks == old(chunks) + {buffer}
      ensures View() == old(View()).(mem := old(View()).mem[buffer := []])
    {
      buffer := new Chunk();
      chunks := chunks + {buffer};
    }

    /** The current buffer is full: the next one takes its place, or a new one. */
    method Rotate(line: seq<byte>) returns (ghost made: Chunk)
      requires Sound() && !Fits(View(), line)
      modifies this`buffers, this`currentBuffer, this`nextBuffer, this`chunks
      ensures Sound() && MadeIfNeeded(old(View()), line, made) && View() == Rotated(old(View()), line, made)
      ensures old(chunks) <= chunks && fresh(chunks - old(chunks))
    {
      hide Sound, View, Fits;
      CurrentIsViewed();
      made := currentBuffer;
      if nextBuffer != null {
        TakeNext();
      } else {
        var buffer := MakeChunk();
        TakeNew(buffer);
        made := buffer;
      }
    }

    lemma CurrentIsViewed()
      requires Sound()
      ensures View().current == currentBuffer && View().next == Ref(nextBuffer) && View().mem.Keys == chunks
      ensures currentBuffer in chunks && (nextBuffer != null ==> nextBuffer in chunks)
    {
    }

    method TakeNext()
      requires Sound() && nextBuffer != null
      modifies this`buffers, this`currentBuffer, this`nextBuffer
      ensures Sound()
      ensures View() == old(View()).(buffers := old(View()).buffers + [old(View()).current],
                                     current := old(View()).next.value, next := None)
    {
      hide ChunksValid, Memory, Chunk.Valid, Chunk.Held;
      buffers := buffers + [currentBuffer];
      currentBuffer := nextBuffer;
      nextBuffer := null;
    }

    method TakeNew(made: Chunk)
      requires Sound() && made in chunks
      modifies this`buffers, this`currentBuffer
      ensures Sound()
      ensures View() == old(View()).(buffers := old(View()).buffers + [old(View()).current], current := made)
    {
      hide ChunksValid, Memory, Chunk.Valid, Chunk.Held;
      buffers := buffers + [currentBuffer];
      currentBuffer := made;
    }

    method MarkNotEmpty()
      requires Sound()
      modifies this`notEmpty
      ensures Sound() && View() == old(View()).(notEmpty := true)
    {
      hide ChunksValid, Memory, Chunk.Valid, Chunk.Held;
      if !notEmpty {
        notEmpty := true;
      }
    }

    /** `appendToBuffer_locked`. */
    method AppendToBuffer(line: seq<byte>) returns (ghost made: Chunk)
      requires Sound()
      modifies this, chunks
      ensures Sound() && MadeIfNeeded(old(View()), line, made) && View() == AppendLine(old(View()), line, made)
      ensures old(chunks) <= chunks && fresh(chunks - old(chunks))
    {
      made := currentBuffer;
      LengthMeans(line);
      hide Sound, View, ChunksValid, Put;
      if currentBuffer.Avail() <= |line| {
        made := Rotate(line);
      }
      PutLine(line);
      MarkNotEmpty();
    }

    lemma LengthMeans(line: seq<byte>)
      requires Sound()
      ensures currentBuffer.Avail() > |line| <==> Fits(View(), line)
      ensures currentBuffer.Length() == |View().mem[currentBuffer]|
    {
    }

    /* ---- the back end, under the lock ---- */

    method PushCurrent()
      requires Sound() && buffer1 != null
      modifies this`buffers, this`currentBuffer, this`buffer1
      ensures Sound() && View() == Machine.PushCurrent(old(View()))
    {
      hide ChunksValid, Memory, Chunk.Valid, Chunk.Held;
      LengthMeans([]);
      if currentBuffer.Length() > 0 {
        buffers := buffers + [currentBuffer];
        currentBuffer := buffer1;
        buffer1 := null;
      }
    }

    method FillNext()
      requires Sound()
      modifies this`nextBuffer, this`buffer2
      ensures Sound() && View() == Machine.FillNext(old(View()))
    {
      hide ChunksValid, Memory, Chunk.Valid, Chunk.Held;
      if nextBuffer == null {
        nextBuffer, buffer2 := buffer2, nextBuffer;
      }
    }

    method HandOver()
      requires Sound()
      modifies this`buffersToWrite, this`buffers, this`done, this`notEmpty
      ensures Sound() && View() == Machine.HandOver(old(View()))
    {
      hide ChunksValid, Memory, Chunk.Valid, Chunk.Held;
      buffersToWrite, buffers := buffers, buffersToWrite;
      done := 0;
      if notEmpty {
        notEmpty := false;
      }
    }

    /** `swapBuffersToWrite_locked`. */
    method SwapBuffersToWrite()
      requires Sound() && Resting(View())
      modifies this
      ensures Sound() && View() == Swap(old(View())) && chunks == old(chunks)
    {
      assert buffer1 != null;
      hide Sound, View, ChunksValid;
      PushCurrent();
      FillNext();
      HandOver();
    }

    /* ---- the back end, outside the lock ---- */

    lemma HeldIs(c: Chunk)
      requires ChunksValid() && c in chunks
      ensures c.cur <= |c.data| && c.data[..c.cur] == Memory()[c]
    {
    }

    /** Writes one buffer to the open file; `roll` tells whether the file is closed after it and a new one
        opened. */
    method WriteOne(i: nat, roll: bool)
      requires Sound() && i == done < |buffersToWrite| && files != []
      modifies this`files, this`done
      ensures Sound() && View() == WriteNext(old(View()), roll)
    {
      hide ChunksValid, Memory, Chunk.Valid, Chunk.Held;
      var buffer := buffersToWrite[i];
      assert buffer in buffersToWrite;
      HeldIs(buffer);
      var last := |files| - 1;
      files := files[last := files[last] + buffer.data[..buffer.cur]];
      if roll {
        files := files + [[]];
      }
      done := done + 1;
    }

    /** `buffersToWrite_.back()`, `pop_back()` and `reset()`. */
    method TakeBack() returns (buffer: Chunk)
      requires Sound() && buffersToWrite != []
      modifies this`buffersToWrite, chunks
      ensures Sound() && buffer == old(buffersToWrite[|buffersToWrite| - 1])
      ensures View() == old(View()).(toWrite := old(View()).toWrite[..|old(buffersToWrite)| - 1],
                                     mem := old(View()).mem[buffer := []])
    {
      var k := |buffersToWrite| - 1;
      ghost var m := Memory();
      buffer := buffersToWrite[k];
      assert buffer in buffersToWrite && forall c | c in buffersToWrite[..k] :: c in buffersToWrite;
      buffersToWrite := buffersToWrite[..k];
      buffer.Reset();
      assert ChunksValid();
      assert Memory() == m[buffer := []];
    }

    method Reclaim1()
      requires Sound() && (buffer1 == null ==> buffersToWrite != [])
      modifies this`buffer1, this`buffersToWrite, chunks
      ensures Sound() && View() == Machine.Reclaim1(old(View()))
      ensures |buffersToWrite| == |old(buffersToWrite)| - if old(buffer1) == null then 1 else 0
    {
      hide ChunksValid, Memory, Chunk.Valid, Chunk.Held;
      if buffer1 == null {
        buffer1 := TakeBack();
      }
    }

    method Reclaim2()
      requires Sound() && (buffer2 == null ==> buffersToWrite != [])
      modifies this`buffer2, this`buffersToWrite, chunks
      ensures Sound() && View() == Machine.Reclaim2(old(View()))
    {
      hide ChunksValid, Memory, Chunk.Valid, Chunk.Held;
      if buffer2 == null {
        buffer2 := TakeBack();
      }
    }

    method Forget()
      requires Sound()
      modifies this`buffersToWrite, this`done
      ensures Sound() && View() == old(View()).(toWrite := [], done := 0)
    {
      hide ChunksValid, Memory, Chunk.Valid, Chunk.Held;
      buffersToWrite := [];
      done := 0;
    }

    method RecycleBuffers()
      requires Sound() && Busy(View()) && done == |buffersToWrite|
      modifies this, chunks
      ensures Sound() && View() == Recycle(old(View())) && chunks == old(chunks)
    {
      assert |buffersToWrite| >= (if buffer1 == null then 1 else 0) + (if buffer2 == null then 1 else 0);
      hide Sound, View, ChunksValid, Machine.Reclaim1, Machine.Reclaim2;
      Reclaim1();
      Reclaim2();
      Forget();
    }

    /** `appendBuffers_unlocked` as one method, for a back end that nobody interrupts: everything handed over is
        on file, and the spares are back. */
    method AppendBuffers(rolls: seq<bool>)
      requires Valid() && Busy(View()) && done == 0 && |rolls| == |buffersToWrite|
      modifies this, chunks
      ensures Valid() && Resting(View()) && chunks == old(chunks) && Stream(View()) == old(Stream(View()))
      ensures Joined(files) == old(Joined(files)) + old(Machine.Bytes(View().mem, buffersToWrite))
    {
      WriteBuffers(rolls);
      RecycleKeeps(View());
      hide Whole, Stream, Busy, Resting;
      RecycleBuffers();
    }

    method WriteTurn(i: nat, roll: bool)
      requires Valid() && Busy(View()) && i == done < |buffersToWrite|
      modifies this`files, this`done
      ensures Valid() && Busy(View()) && done == i + 1 && Stream(View()) == old(Stream(View()))
      ensures View().mem == old(View().mem)
      ensures Joined(files) + Machine.Bytes(View().mem, buffersToWrite[i + 1..]) ==
              old(Joined(files) + Machine.Bytes(View().mem, buffersToWrite[i..]))
    {
      WriteKeepsWhole(View(), roll);
      WriteKeepsStream(View(), roll);
      WriteMovesBytes(View(), roll);
      hide Stream, Whole, Joined, Machine.Bytes, ChunksValid, Memory, Chunk.Valid, Chunk.Held;
      WriteOne(i, roll);
    }

    method WriteBuffers(rolls: seq<bool>)
      requires Valid() && Busy(View()) && done == 0 && |rolls| == |buffersToWrite|
      modifies this`files, this`done
      ensures Valid() && Busy(View()) && done == |buffersToWrite| && Stream(View()) == old(Stream(View()))
      ensures Joined(files) == old(Joined(files)) + old(Machine.Bytes(View().mem, buffersToWrite))
    {
      hide Whole, Stream, Joined, ChunksValid, Memory, Chunk.Valid, Chunk.Held;
      var i := 0;
      while i < |buffersToWrite|
        invariant i == done <= |buffersToWrite| == |rolls|
        invariant Valid() && Busy(View())
        invariant Stream(View()) == old(Stream(View()))
        invariant Joined(files) + Machine.Bytes(View().mem, buffersToWrite[i..]) ==
                  old(Joined(files) + Machine.Bytes(View().mem, buffersToWrite))
      {
        WriteTurn(i, rolls[i]);
        i := i + 1;
      }
    }
  }
}
