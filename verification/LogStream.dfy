/** A log stream and its growing buffer (nutty/log/LogBuffer.cpp, nutty/log/LogBuffer.h,
    nutty/log/LogStream.cpp) over a real array. `trace` lists the steps of `LogBufferMachine` taken. */
module LogStreamObject {
  import opened Sequences
  import opened Wrappers
  import opened Numerals
  import opened LogBufferMachine

  class LogBuffer {
    var buf: array<char>
    var size: nat
    var capacity: nat
    ghost var copied: nat

    ghost predicate Valid()
      reads this
    {
      size <= capacity == buf.Length
    }

    ghost function View(): State
      requires Valid()
      reads this, buf
    {
      State(buf[..size], capacity, copied, false)
    }

    constructor ()
      ensures Valid() && View() == Init && fresh(buf)
    {
      buf := new char[BUFFER_SIZE];
      size, capacity, copied := 0, BUFFER_SIZE, 0;
    }

    /** `reserve`: a new array, the text copied over. */
    method Reserve(need: nat)
      requires Valid()
      modifies this
      ensures Valid() && View() == LogBufferMachine.Reserve(old(View()), need) && fresh(buf) && size == old(size)
    {
      var newCapacity := if capacity + capacity / 2 > need then capacity + capacity / 2 else need;
      var newBuf := new char[newCapacity];
      ghost var text := buf[..size];
      var k := 0;
      while k < size
        invariant 0 <= k <= size <= newBuf.Length && Valid() && buf[..size] == text && newBuf[..k] == text[..k]
        modifies newBuf
      {
        newBuf[k] := buf[k];
        k := k + 1;
      }
      buf, capacity, copied := newBuf, newCapacity, copied + size;
    }

    method Ensure(need: nat)
      requires Valid()
      modifies this
      ensures Valid() && View() == LogBufferMachine.Ensure(old(View()), need) && (buf == old(buf) || fresh(buf))
      ensures size == old(size) && need <= capacity
    {
      if need > capacity {
        Reserve(need);
      }
    }

    /** `append`. */
    method Append(bytes: string)
      requires Valid()
      modifies this, buf
      ensures Valid() && View() == Step(old(View()), Event.Append(bytes)) && (buf == old(buf) || fresh(buf))
    {
      var newSize := size + |bytes|;
      ghost var text := buf[..size];
      Ensure(newSize);
      assert buf[..size] == text;
      var k := 0;
      while k < |bytes|
        invariant 0 <= k <= |bytes| && Valid() && newSize <= capacity
        invariant buf[..size] == text && forall j | 0 <= j < k :: buf[size + j] == bytes[j]
        modifies buf
      {
        buf[size + k] := bytes[k];
        k := k + 1;
      }
      assert buf[..newSize] == text + bytes;
      size := newSize;
    }

    /** `add`: the next `n` characters of the array become text. */
    method Add(n: nat)
      requires Valid() && size + n <= capacity
      modifies this`size
      ensures Valid() && View() == old(View()).(text := old(View()).text + buf[old(size)..old(size) + n])
    {
      assert buf[..size + n] == buf[..size] + buf[size..size + n];
      size := size + n;
    }
  }

  class LogStream {
    const buffer: LogBuffer
    ghost var trace: seq<Event>

    ghost predicate Valid()
      reads this, buffer, buffer.buf
    {
      buffer.Valid() && Exec(trace) == buffer.View()
    }

    constructor ()
      ensures Valid() && trace == [] && fresh(buffer) && fresh(buffer.buf)
    {
      buffer := new LogBuffer();
      trace := [];
    }

    ghost method Record(s: State, e: Event)
      requires buffer.Valid() && Exec(trace) == s && Step(s, e) == buffer.View()
      modifies this`trace
      ensures Valid() && trace == old(trace) + [e]
    {
      hide Step;
      assert (trace + [e])[..|trace|] == trace;
      trace := trace + [e];
    }

    method Append(bytes: string)
      requires Valid()
      modifies this, buffer, buffer.buf
      ensures Valid() && trace == old(trace) + [Event.Append(bytes)]
    {
      hide Step;
      ghost var s := buffer.View();
      buffer.Append(bytes);
      Record(s, Event.Append(bytes));
    }

    /** `formatInteger`, unless it would write past the array: what an independent reader finds at the end of the
        buffer is the value. */
    method FormatInteger(v: int)
      requires Valid() && MIN_VALUE <= v <= MAX_VALUE && !Step(buffer.View(), Number(v)).overrun
      modifies this, buffer, buffer.buf
      ensures Valid() && trace == old(trace) + [Number(v)]
      ensures old(buffer.size) <= buffer.size
      ensures ParseSigned(buffer.buf[old(buffer.size)..buffer.size]) == Some(v)
    {
      hide Step, LogBufferMachine.Ensure, Text, ParseSigned, Canonical;
      ghost var s := buffer.View();
      PrintStep(s, Number(v));
      var needSize := (buffer.size + MAX_NUMERIC_SIZE) % 0x1_0000_0000;
      buffer.Ensure(needSize);
      var n := Convert(buffer.buf, buffer.size, v);
      buffer.Add(n);
      Record(s, Number(v));
    }

    /** `operator<<(const void*)`, unless it would write past the array: "0x" and what an independent reader of
        hexadecimal takes for the address. */
    method FormatPointer(v: nat)
      requires Valid() && v <= MAX_VALUE && !Step(buffer.View(), Pointer(v)).overrun
      modifies this, buffer, buffer.buf
      ensures Valid() && trace == old(trace) + [Pointer(v)]
      ensures old(buffer.size) + 2 < buffer.size
      ensures buffer.buf[old(buffer.size)..old(buffer.size) + 2] == "0x"
      ensures Parse(buffer.buf[old(buffer.size) + 2..buffer.size], 16) == Some(v)
    {
      hide Step, LogBufferMachine.Ensure, Digits, Parse;
      ghost var s := buffer.View();
      PrintStep(s, Pointer(v));
      Regroup(s.text, "0x", Digits(v, 16));
      var needSize := (buffer.size + MAX_NUMERIC_SIZE) % 0x1_0000_0000;
      buffer.Ensure(needSize);
      PutPrefix();
      ghost var prefix := buffer.buf[..buffer.size];
      PutHex(v);
      assert buffer.buf[|prefix| - 2..|prefix|] == prefix[|prefix| - 2..];
      Record(s, Pointer(v));
    }

    method PutPrefix()
      requires buffer.Valid() && buffer.size + 2 <= buffer.capacity
      modifies buffer`size, buffer.buf
      ensures buffer.Valid() && buffer.View() == old(buffer.View()).(text := old(buffer.View()).text + "0x")
      ensures buffer.size == old(buffer.size) + 2 && buffer.buf[old(buffer.size)..buffer.size] == "0x"
    {
      var buf, at := buffer.buf, buffer.size;
      ghost var text := buf[..at];
      buf[at] := '0';
      buf[at + 1] := 'x';
      assert buf[..at] == text && buf[at..at + 2] == "0x";
      buffer.Add(2);
    }

    lemma SomeDigit(v: nat)
      ensures |Digits(v, 16)| > 0
    {
    }

    method PutHex(v: nat)
      requires buffer.Valid() && v <= MAX_VALUE && buffer.size + |Digits(v, 16)| < buffer.capacity
      modifies buffer`size, buffer.buf
      ensures buffer.Valid()
      ensures buffer.View() == old(buffer.View()).(text := old(buffer.View()).text + Digits(v, 16))
      ensures old(buffer.size) < buffer.size && buffer.buf[..old(buffer.size)] == old(buffer.buf[..buffer.size])
      ensures Parse(buffer.buf[old(buffer.size)..buffer.size], 16) == Some(v)
    {
      hide Digits, Parse;
      SomeDigit(v);
      var n := ConvertHex(buffer.buf, buffer.size, v);
      buffer.Add(n);
    }
  }
}
