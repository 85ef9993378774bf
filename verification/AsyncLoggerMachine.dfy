/** One logger's buffers (nutty/log/AsyncLogger.cpp), as the steps that front ends take under the lock and the
    back end takes under it (`Swap`) and outside it (`WriteNext`, `Recycle`). `B` is the identity of a buffer;
    what buffers hold is in one common `mem`, so an aliased buffer would show. */
module AsyncLoggerMachine {
  import opened Buffers
  import opened Sequences
  import opened Wrappers

  const BUFFER_SIZE: nat := 4096 * 1024

  datatype Logger<B(==)> = Logger(
    mem: map<B, seq<byte>>,
    current: B,                // currentBuffer_
    next: Option<B>,           // nextBuffer_
    buffers: seq<B>,           // buffers_
    toWrite: seq<B>,           // buffersToWrite_
    done: nat,                 // how many of them are written
    spare1: Option<B>,         // buffer1_
    spare2: Option<B>,         // buffer2_
    notEmpty: bool,
    files: seq<seq<byte>>,     // the log files, the open one last
    fault: bool                // a null buffer was used, or pop_back met an empty vector
  )

  ghost predicate Defined<B>(l: Logger<B>) {
    l.current in l.mem && (forall b | b in l.buffers :: b in l.mem) && (forall b | b in l.toWrite :: b in l.mem)
  }

  /** `Buffer::append`: a line that does not fit is dropped. */
  function Put<B(==)>(l: Logger<B>, line: seq<byte>): Logger<B>
    requires l.current in l.mem
  {
    var held := l.mem[l.current];
    if BUFFER_SIZE - |held| > |line| then l.(mem := l.mem[l.current := held + line]) else l
  }

  predicate Fits<B(==)>(l: Logger<B>, line: seq<byte>)
    requires l.current in l.mem
  {
    BUFFER_SIZE - |l.mem[l.current]| > |line|
  }

  /** `made` is a new buffer, if the line needs one. */
  predicate MadeIfNeeded<B(==)>(l: Logger<B>, line: seq<byte>, made: B)
    requires l.current in l.mem
  {
    Fits(l, line) || l.next.Some? || made !in l.mem
  }

  /** Makes room for a line that does not fit; `made` is the buffer this would allocate. */
  function Rotated<B(==)>(l: Logger<B>, line: seq<byte>, made: B): Logger<B>
    requires l.current in l.mem
  {
    if Fits(l, line) then l
    else if l.next.Some? then l.(buffers := l.buffers + [l.current], current := l.next.value, next := None)
    else l.(buffers := l.buffers + [l.current], current := made, mem := l.mem[made := []])
  }

  /** `appendToBuffer_locked`. */
  function AppendLine<B(==)>(l: Logger<B>, line: seq<byte>, made: B): Logger<B>
    requires l.current in l.mem && (l.next.Some? ==> l.next.value in l.mem)
  {
    Put(Rotated(l, line, made), line).(notEmpty := true)
  }

  function PushCurrent<B(==)>(l: Logger<B>): Logger<B>
    requires l.current in l.mem
  {
    if |l.mem[l.current]| == 0 then l
    else if l.spare1.None? then l.(fault := true)
    else l.(buffers := l.buffers + [l.current], current := l.spare1.value, spare1 := None)
  }

  function FillNext<B(==)>(l: Logger<B>): Logger<B> {
    if l.next.None? then l.(next := l.spare2, spare2 := None) else l
  }

  /** `swapBuffersToWrite_locked`. */
  function Swap<B(==)>(l: Logger<B>): Logger<B>
    requires l.current in l.mem
  {
    HandOver(FillNext(PushCurrent(l)))
  }

  function HandOver<B>(l: Logger<B>): Logger<B> {
    l.(toWrite := l.buffers, buffers := l.toWrite, done := 0, notEmpty := false)
  }

  /** One turn of the loop in `appendBuffers_unlocked`; the file may be rolled after it. */
  function WriteNext<B(==)>(l: Logger<B>, roll: bool): Logger<B>
    requires l.done < |l.toWrite| && l.toWrite[l.done] in l.mem && l.files != []
  {
    var last := |l.files| - 1;
    var written := l.files[last := l.files[last] + l.mem[l.toWrite[l.done]]];
    l.(files := if roll then written + [[]] else written, done := l.done + 1)
  }

  function Reclaim1<B(==)>(l: Logger<B>): Logger<B> {
    if l.spare1.Some? then l
    else if l.toWrite == [] then l.(fault := true)
    else
      var b := l.toWrite[|l.toWrite| - 1];
      l.(spare1 := Some(b), toWrite := l.toWrite[..|l.toWrite| - 1], mem := l.mem[b := []])
  }

  function Reclaim2<B(==)>(l: Logger<B>): Logger<B> {
    if l.spare2.Some? then l
    else if l.toWrite == [] then l.(fault := true)
    else
      var b := l.toWrite[|l.toWrite| - 1];
      l.(spare2 := Some(b), toWrite := l.toWrite[..|l.toWrite| - 1], mem := l.mem[b := []])
  }

  /** The rest of `appendBuffers_unlocked`. */
  function Recycle<B(==)>(l: Logger<B>): Logger<B> {
    Reclaim2(Reclaim1(l)).(toWrite := [], done := 0)
  }

  /* ---- the stream ---- */

  function Holds<B(==)>(o: Option<B>, b: B): nat {
    if o == Some(b) then 1 else 0
  }

  /** How often the logger holds the buffer. */
  function Count<B(==)>(l: Logger<B>, b: B): nat {
    Holds(Some(l.current), b) + Holds(l.next, b) + Holds(l.spare1, b) + Holds(l.spare2, b)
    + multiset(l.buffers)[b] + multiset(l.toWrite)[b]
  }

  function Joined(parts: seq<seq<byte>>): seq<byte> {
    if parts == [] then [] else Joined(parts[..|parts| - 1]) + parts[|parts| - 1]
  }

  /** What the buffers `ids` hold. */
  function Bytes<B(==)>(mem: map<B, seq<byte>>, ids: seq<B>): seq<byte>
    requires forall b | b in ids :: b in mem
  {
    if ids == [] then [] else Bytes(mem, ids[..|ids| - 1]) + mem[ids[|ids| - 1]]
  }

  /** Files, then what the back end has yet to write, then what front ends have appended since. */
  ghost function Stream<B>(l: Logger<B>): seq<byte>
    requires Defined(l) && l.done <= |l.toWrite|
  {
    Joined(l.files) + Bytes(l.mem, l.toWrite[l.done..]) + Bytes(l.mem, l.buffers) + l.mem[l.current]
  }

  /* ---- what every step keeps ---- */

  /** No buffer is held twice. */
  ghost predicate Distinct<B>(l: Logger<B>) {
    forall b | b in l.mem :: Count(l, b) <= 1
  }

  ghost predicate EmptyIfAny<B>(l: Logger<B>, o: Option<B>) {
    o.Some? ==> o.value in l.mem && l.mem[o.value] == []
  }

  ghost predicate SparesAreEmpty<B>(l: Logger<B>) {
    EmptyIfAny(l, l.next) && EmptyIfAny(l, l.spare1) && EmptyIfAny(l, l.spare2)
  }

  /** Nothing has gone wrong; a missing next buffer and an appended line leave their trace. */
  ghost predicate Tidy<B>(l: Logger<B>) {
    && l.done <= |l.toWrite| && l.files != [] && !l.fault
    && (l.next.None? ==> l.buffers != [])
    && (!l.notEmpty ==> l.buffers == [] && l.current in l.mem && l.mem[l.current] == [])
  }

  ghost predicate Whole<B>(l: Logger<B>) {
    Defined(l) && Distinct(l) && SparesAreEmpty(l) && Tidy(l)
  }

  /** The back end is not at work on this logger. */
  predicate Resting<B>(l: Logger<B>) {
    l.spare1.Some? && l.spare2.Some? && l.toWrite == [] && l.done == 0
  }

  /** It is, and owes the logger no more spare buffers than it has to write. */
  predicate Busy<B>(l: Logger<B>) {
    |l.toWrite| >= (if l.spare1.None? then 1 else 0) + (if l.spare2.None? then 1 else 0)
  }

  /** A logger as constructed: four empty buffers and an open file. */
  ghost predicate Fresh<B>(l: Logger<B>) {
    Whole(l) && Resting(l) && l.next.Some? && !l.notEmpty && l.files == [[]]
  }

  lemma FourBuffersAreFresh<B>(mem: map<B, seq<byte>>, a: B, b: B, c: B, d: B)
    requires a != b && a != c && a != d && b != c && b != d && c != d
    requires {a, b, c, d} <= mem.Keys && mem[a] == [] && mem[b] == [] && mem[c] == [] && mem[d] == []
    ensures Fresh(Logger(mem, a, Some(b), [], [], 0, Some(c), Some(d), false, [[]], false))
  {
  }

  /** A buffer of one kind is not of another. */
  lemma HeldOnce<B>(l: Logger<B>, b: B)
    requires Distinct(l) && b in l.mem
    ensures b == l.current ==> b !in l.buffers && b !in l.toWrite && l.next != Some(b)
    ensures b == l.current ==> l.spare1 != Some(b) && l.spare2 != Some(b)
    ensures b in l.toWrite ==> b != l.current && b !in l.buffers && l.next != Some(b)
    ensures b in l.toWrite ==> l.spare1 != Some(b) && l.spare2 != Some(b)
  {
  }

  lemma {:induction false} BytesFrame<B>(mem: map<B, seq<byte>>, ids: seq<B>, b: B, x: seq<byte>)
    requires (forall c | c in ids :: c in mem) && b !in ids
    ensures Bytes(mem[b := x], ids) == Bytes(mem, ids)
    decreases |ids|
  {
    if ids != [] {
      assert ids[|ids| - 1] in ids;
      BytesFrame(mem, ids[..|ids| - 1], b, x);
    }
  }

  lemma BytesSnoc<B>(mem: map<B, seq<byte>>, ids: seq<B>, b: B)
    requires (forall c | c in ids :: c in mem) && b in mem
    ensures Bytes(mem, ids + [b]) == Bytes(mem, ids) + mem[b]
  {
    assert (ids + [b])[..|ids|] == ids;
  }

  lemma {:induction false} BytesCons<B>(mem: map<B, seq<byte>>, ids: seq<B>)
    requires ids != [] && forall c | c in ids :: c in mem
    ensures Bytes(mem, ids) == mem[ids[0]] + Bytes(mem, ids[1..])
    decreases |ids|
  {
    if |ids| > 1 {
      var front := ids[..|ids| - 1];
      BytesCons(mem, front);
      assert ids[1..][..|ids| - 2] == front[1..];
    }
  }

  /* ---- appending ---- */

  lemma PutKeepsWhole<B>(l: Logger<B>, line: seq<byte>)
    requires Whole(l) && l.notEmpty
    ensures Whole(Put(l, line))
  {
    HeldOnce(l, l.current);
    assert forall b | b in l.mem :: Count(Put(l, line), b) == Count(l, b);
    hide Count;
  }

  lemma PutExtendsStream<B>(l: Logger<B>, line: seq<byte>)
    requires Whole(l) && l.notEmpty && Whole(Put(l, line))
    ensures Stream(Put(l, line)) == Stream(l) + if BUFFER_SIZE - |l.mem[l.current]| > |line| then line else []
  {
    HeldOnce(l, l.current);
    hide Count, Distinct;
    var x := l.mem[l.current] + line;
    BytesFrame(l.mem, l.buffers, l.current, x);
    BytesFrame(l.mem, l.toWrite[l.done..], l.current, x);
  }

  lemma RotateCounts<B>(l: Logger<B>, line: seq<byte>, made: B, b: B)
    requires Whole(l) && MadeIfNeeded(l, line, made)
    ensures Count(Rotated(l, line, made), b) ==
            Count(l, b) + if !Fits(l, line) && l.next.None? && b == made then 1 else 0
    ensures b !in l.mem ==> Count(l, b) == 0
  {
  }

  lemma RotateKeepsDistinct<B>(l: Logger<B>, line: seq<byte>, made: B)
    requires Whole(l) && MadeIfNeeded(l, line, made)
    ensures Distinct(Rotated(l, line, made))
  {
    forall b | b in Rotated(l, line, made).mem ensures Count(Rotated(l, line, made), b) <= 1 {
      RotateCounts(l, line, made, b);
    }
  }

  lemma RotateKeepsRest<B>(l: Logger<B>, line: seq<byte>, made: B)
    requires Defined(l) && SparesAreEmpty(l) && Tidy(l) && MadeIfNeeded(l, line, made)
    ensures var u := Rotated(l, line, made).(notEmpty := true);
            Defined(u) && SparesAreEmpty(u) && Tidy(u)
  {
  }

  lemma RotateKeepsWhole<B>(l: Logger<B>, line: seq<byte>, made: B)
    requires Whole(l) && MadeIfNeeded(l, line, made)
    ensures Whole(Rotated(l, line, made).(notEmpty := true))
  {
    assert l.current in l.mem;
    hide Defined, SparesAreEmpty, Tidy;
    RotateKeepsRest(l, line, made);
    RotateKeepsDistinct(l, line, made);
    var u := Rotated(l, line, made);
    assert forall b | b in u.mem :: Count(u.(notEmpty := true), b) == Count(u, b);
  }

  lemma RotateKeepsStream<B>(l: Logger<B>, line: seq<byte>, made: B)
    requires Whole(l) && MadeIfNeeded(l, line, made) && Whole(Rotated(l, line, made).(notEmpty := true))
    ensures Stream(Rotated(l, line, made).(notEmpty := true)) == Stream(l)
    ensures Fits(Rotated(l, line, made), line) <==> |line| < BUFFER_SIZE
  {
    hide Count, Distinct;
    if !Fits(l, line) {
      BytesSnoc(l.mem, l.buffers, l.current);
      if l.next.None? {
        BytesFrame(l.mem, l.buffers + [l.current], made, []);
        BytesFrame(l.mem, l.toWrite[l.done..], made, []);
      }
    }
  }

  /** Appending adds the line to the stream if and only if it is shorter than a buffer, and leaves everything
      of the back end alone. */
  lemma AppendKeeps<B>(l: Logger<B>, line: seq<byte>, made: B)
    requires Whole(l) && MadeIfNeeded(l, line, made)
    ensures var t := AppendLine(l, line, made);
            && Whole(t) && t.notEmpty
            && t.toWrite == l.toWrite && t.done == l.done && t.files == l.files
            && t.spare1 == l.spare1 && t.spare2 == l.spare2
            && Stream(t) == Stream(l) + if |line| < BUFFER_SIZE then line else []
  {
    var u := Rotated(l, line, made).(notEmpty := true);
    assert AppendLine(l, line, made) == Put(u, line);
    RotateKeepsWhole(l, line, made);
    RotateKeepsStream(l, line, made);
    PutKeepsWhole(u, line);
    PutExtendsStream(u, line);
    hide Whole, Stream;
  }

  /* ---- the back end ---- */

  lemma SwapCounts<B>(l: Logger<B>, b: B)
    requires Whole(l) && Resting(l)
    ensures Count(Swap(l), b) == Count(l, b)
  {
  }

  lemma SwapKeepsWhole<B>(l: Logger<B>)
    requires Whole(l) && Resting(l)
    ensures Whole(Swap(l)) && Busy(Swap(l))
  {
    hide Count, Distinct;
    SwapKeepsDistinct(l);
  }

  lemma SwapKeepsDistinct<B>(l: Logger<B>)
    requires Whole(l) && Resting(l)
    ensures Distinct(Swap(l))
  {
    forall b | b in l.mem ensures Count(Swap(l), b) <= 1 {
      SwapCounts(l, b);
    }
  }

  lemma SwapKeepsStream<B>(l: Logger<B>)
    requires Whole(l) && Resting(l) && Whole(Swap(l))
    ensures Stream(Swap(l)) == Stream(l)
  {
    hide Count, Distinct;
    var t := Swap(l);
    assert l.toWrite[l.done..] == [] && t.toWrite[t.done..] == t.toWrite;
    BytesSnoc(l.mem, l.buffers, l.current);
  }

  lemma WriteKeepsWhole<B>(l: Logger<B>, roll: bool)
    requires Whole(l) && l.done < |l.toWrite|
    ensures Whole(WriteNext(l, roll))
  {
    assert forall b | b in l.mem :: Count(WriteNext(l, roll), b) == Count(l, b);
    hide Count;
  }

  /** What is on file and what is to be written, taken together, do not change. */
  lemma WriteMovesBytes<B>(l: Logger<B>, roll: bool)
    requires Defined(l) && l.done < |l.toWrite| && l.files != []
    ensures Joined(WriteNext(l, roll).files) + Bytes(l.mem, l.toWrite[l.done + 1..]) ==
            Joined(l.files) + Bytes(l.mem, l.toWrite[l.done..])
  {
    var rest := l.toWrite[l.done..];
    assert rest[1..] == l.toWrite[l.done + 1..] && rest[0] == l.toWrite[l.done];
    BytesCons(l.mem, rest);
    JoinedWritten(l.files, l.mem[l.toWrite[l.done]], roll);
    Regroup(Joined(l.files), l.mem[rest[0]], Bytes(l.mem, rest[1..]));
    hide *;
  }

  lemma WriteKeepsStream<B>(l: Logger<B>, roll: bool)
    requires Whole(l) && l.done < |l.toWrite| && Whole(WriteNext(l, roll))
    ensures Stream(WriteNext(l, roll)) == Stream(l)
  {
    hide Count, Distinct, Bytes, Joined;
    WriteMovesBytes(l, roll);
  }

  lemma JoinedWritten(files: seq<seq<byte>>, bytes: seq<byte>, roll: bool)
    requires files != []
    ensures var written := files[|files| - 1 := files[|files| - 1] + bytes];
            Joined(if roll then written + [[]] else written) == Joined(files) + bytes
  {
    var last := |files| - 1;
    var written := files[last := files[last] + bytes];
    assert written[..last] == files[..last];
    assert (written + [[]])[..|written|] == written;
  }

  predicate Done<B>(l: Logger<B>) {
    l.done == |l.toWrite|
  }

  /** Taking back the last written buffer for a spare, into the first place or the second. */
  function Taken<B(==)>(l: Logger<B>, first: bool): Logger<B>
    requires l.toWrite != []
  {
    var k := |l.toWrite| - 1;
    var t := l.(toWrite := l.toWrite[..k], mem := l.mem[l.toWrite[k] := []], done := k);
    if first then t.(spare1 := Some(l.toWrite[k])) else t.(spare2 := Some(l.toWrite[k]))
  }

  predicate Owes<B>(l: Logger<B>, first: bool) {
    Done(l) && l.toWrite != [] && if first then l.spare1.None? else l.spare2.None?
  }

  lemma TakenCounts<B>(l: Logger<B>, first: bool, b: B)
    requires Whole(l) && Owes(l, first)
    ensures Taken(l, first).mem.Keys == l.mem.Keys && Count(Taken(l, first), b) == Count(l, b)
  {
    hide Distinct, SparesAreEmpty, Tidy;
    var k := |l.toWrite| - 1;
    LastOut(l.toWrite, b);
    assert l.toWrite[k] in l.toWrite;
  }

  lemma LastOut<B>(ids: seq<B>, b: B)
    requires ids != []
    ensures multiset(ids)[b] == multiset(ids[..|ids| - 1])[b] + if ids[|ids| - 1] == b then 1 else 0
  {
    assert ids == ids[..|ids| - 1] + [ids[|ids| - 1]];
  }

  lemma TakenKeepsDistinct<B>(l: Logger<B>, first: bool)
    requires Whole(l) && Owes(l, first)
    ensures Distinct(Taken(l, first))
  {
    forall b | b in Taken(l, first).mem ensures Count(Taken(l, first), b) <= 1 {
      TakenCounts(l, first, b);
    }
  }

  lemma TakenKeepsWhole<B>(l: Logger<B>, first: bool)
    requires Whole(l) && Owes(l, first)
    ensures Whole(Taken(l, first))
  {
    hide Count, Distinct;
    TakenKeepsDistinct(l, first);
    HeldOnce(l, l.toWrite[|l.toWrite| - 1]);
  }

  lemma TakenKeepsStream<B>(l: Logger<B>, first: bool)
    requires Whole(l) && Owes(l, first) && Whole(Taken(l, first))
    ensures Stream(Taken(l, first)) == Stream(l)
  {
    var b := l.toWrite[|l.toWrite| - 1];
    HeldOnce(l, b);
    hide Count, Distinct;
    BytesFrame(l.mem, l.buffers, b, []);
    assert l.toWrite[l.done..] == [] && Taken(l, first).toWrite[Taken(l, first).done..] == [];
  }

  lemma ForgetKeeps<B>(l: Logger<B>)
    requires Whole(l) && Done(l)
    ensures Whole(l.(toWrite := [], done := 0)) && Stream(l.(toWrite := [], done := 0)) == Stream(l)
  {
    assert forall b | b in l.mem :: Count(l.(toWrite := [], done := 0), b) <= Count(l, b);
    hide Count;
    assert l.toWrite[l.done..] == [];
  }

  /** Recycling finds a written buffer for every spare it owes, gives no buffer to two owners, and changes
      neither the stream nor the files. */
  lemma RecycleKeeps<B>(l: Logger<B>)
    requires Whole(l) && Busy(l) && Done(l)
    ensures var t := Recycle(l);
            Whole(t) && Resting(t) && t.notEmpty == l.notEmpty && t.files == l.files && Stream(t) == Stream(l)
  {
    hide Whole, Stream;
    var t := l;
    if t.spare1.None? {
      TakenKeepsWhole(t, true);
      TakenKeepsStream(t, true);
      t := Taken(t, true);
    }
    if t.spare2.None? {
      TakenKeepsWhole(t, false);
      TakenKeepsStream(t, false);
      t := Taken(t, false);
    }
    ForgetKeeps(t);
  }

  lemma AppendKeepsFiles<B>(l: Logger<B>, line: seq<byte>, made: B)
    requires l.current in l.mem && (l.next.Some? ==> l.next.value in l.mem)
    ensures AppendLine(l, line, made).files == l.files
  {
  }

  lemma SwapKeepsFiles<B>(l: Logger<B>)
    requires l.current in l.mem
    ensures Swap(l).files == l.files
  {
  }

  lemma RecycleKeepsFiles<B>(l: Logger<B>)
    ensures Recycle(l).files == l.files
  {
  }

  /* ---- what the back end has taken over ---- */

  /** Files, then what the back end has yet to write. */
  ghost function Committed<B>(l: Logger<B>): seq<byte>
    requires Defined(l) && l.done <= |l.toWrite|
  {
    Joined(l.files) + Bytes(l.mem, l.toWrite[l.done..])
  }

  lemma AppendKeepsCommitted<B>(l: Logger<B>, line: seq<byte>, made: B)
    requires Whole(l) && MadeIfNeeded(l, line, made) && Whole(AppendLine(l, line, made))
    ensures Committed(AppendLine(l, line, made)) == Committed(l)
  {
    RotateKeepsWhole(l, line, made);
    var u := Rotated(l, line, made).(notEmpty := true);
    HeldOnce(u, u.current);
    hide Count, Distinct;
    if !Fits(l, line) && l.next.None? {
      BytesFrame(l.mem, l.toWrite[l.done..], made, []);
    }
    BytesFrame(u.mem, u.toWrite[u.done..], u.current, u.mem[u.current] + line);
  }

  /** Nobody who is not at work on it has anything of the logger. */
  lemma RestingIsCommitted<B>(l: Logger<B>)
    requires Whole(l) && l.toWrite == []
    ensures Committed(l) == Joined(l.files)
    ensures !l.notEmpty ==> Stream(l) == Joined(l.files)
  {
    assert l.toWrite[l.done..] == [];
  }

  /** A swap commits everything appended so far. */
  lemma SwappedIsCommitted<B>(l: Logger<B>)
    requires Whole(l) && !l.notEmpty
    ensures Committed(l) == Stream(l)
  {
  }

  lemma WriteKeepsCommitted<B>(l: Logger<B>, roll: bool)
    requires Whole(l) && l.done < |l.toWrite| && Whole(WriteNext(l, roll))
    ensures Committed(WriteNext(l, roll)) == Committed(l)
  {
    hide Count, Distinct, Bytes, Joined;
    WriteMovesBytes(l, roll);
  }

  lemma RecycleKeepsCommitted<B>(l: Logger<B>)
    requires Whole(l) && Busy(l) && Done(l)
    ensures Whole(Recycle(l)) && Committed(Recycle(l)) == Committed(l)
  {
    RecycleKeeps(l);
    RestingIsCommitted(Recycle(l));
    assert l.toWrite[l.done..] == [];
    hide Recycle, Distinct;
  }
}
