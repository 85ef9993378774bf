/** The send queue (nutty/net/SendBuffer.cpp): a deque of chunks that refines a plain byte sequence, drained by
    gathering a prefix, writing part of it, and dropping what was written. */
module SendBuffers {
  import opened Arithmetic
  import opened Buffers

  const SEND_SIZE: nat := 16 * 1024

  class SendBuffer {
    var buffers: seq<Buffer>
    var size: nat

    ghost predicate Valid()
      reads this, buffers
    {
      AllValid(buffers) && DistinctBuffers(buffers) && size == |Contents(buffers)|
    }

    ghost function Bytes(): (r: seq<byte>)
      requires Valid()
      reads this, buffers
      ensures |r| == size
    {
      Contents(buffers)
    }

    constructor ()
      ensures Valid() && Bytes() == [] && buffers == []
    {
      buffers, size := [], 0;
    }

    /** Copies the bytes into a new chunk at the back. */
    method Append(bytes: seq<byte>)
      requires Valid()
      modifies this
      ensures Valid() && Bytes() == old(Bytes()) + bytes
      ensures |buffers| == |old(buffers)| + 1 && buffers[..|old(buffers)|] == old(buffers)
      ensures fresh(buffers[|old(buffers)|])
    {
      var buffer := new Buffer.Copy(bytes);
      ContentsSnoc(buffers, buffer);
      buffers := buffers + [buffer];
      size := size + |bytes|;
    }

    /** Moves a caller's buffer to the back. */
    method AppendMoved(buf: Buffer)
      requires Valid() && buf.Valid() && buf !in buffers
      modifies this, buf
      ensures Valid() && Bytes() == old(Bytes()) + old(buf.Readable())
      ensures |buffers| == |old(buffers)| + 1 && buffers[..|old(buffers)|] == old(buffers)
      ensures fresh(buffers[|old(buffers)|])
    {
      var buffer := new Buffer.Move(buf);
      ContentsSnoc(buffers, buffer);
      buffers := buffers + [buffer];
      size := size + buffer.ReadableSize();
    }

    /** One turn of the loop in `prepareSend`. */
    method AddVec(iov: seq<IoVec>, i: nat) returns (longer: seq<IoVec>)
      requires AllValid(buffers) && i < |buffers| && ValidVecs(iov) && Gathered(iov) == Contents(buffers[..i])
      ensures ValidVecs(longer) && |longer| == |iov| + 1 && longer[..|iov|] == iov
      ensures Gathered(longer) == Contents(buffers[..i + 1])
      ensures TotalLen(longer) == TotalLen(iov) + buffers[i].ReadableSize()
    {
      var buffer := buffers[i];
      GatherNext(buffers, i, iov);
      longer := iov + [IoVec(buffer, buffer.rpos, buffer.ReadableSize())];
    }

    /** Gathers whole chunks from the front until there is something worth a write: a prefix of the contents,
        of at least `SEND_SIZE` bytes or everything, and not one chunk more than that takes. */
    method PrepareSend() returns (iov: seq<IoVec>)
      requires Valid()
      ensures ValidVecs(iov) && |iov| <= |buffers| && Gathered(iov) <= Bytes()
      ensures |Gathered(iov)| >= Min(size, 16384)
      ensures iov != [] ==> TotalLen(iov[..|iov| - 1]) < 16384
    {
      iov := [];
      var nread := 0;
      var i := 0;
      while i < |buffers| && nread < SEND_SIZE
        invariant 0 <= i <= |buffers| && |iov| == i && ValidVecs(iov)
        invariant Gathered(iov) == Contents(buffers[..i]) && nread == TotalLen(iov)
        invariant iov != [] ==> TotalLen(iov[..|iov| - 1]) < SEND_SIZE
      {
        iov := AddVec(iov, i);
        nread := nread + buffers[i].ReadableSize();
        i := i + 1;
      }
      ContentsPrefix(buffers, i);
      GatheredLength(iov);
    }

    ghost predicate NoneEmpty()
      reads this, buffers
    {
      forall i | 0 <= i < |buffers| :: !buffers[i].IsEmpty()
    }

    /** Takes `n` bytes off the front chunk. */
    method ReadFront(n: nat)
      requires AllValid(buffers) && DistinctBuffers(buffers) && buffers != [] && n <= buffers[0].ReadableSize()
      modifies buffers[0]
      ensures AllValid(buffers) && n <= |old(Contents(buffers))| && Contents(buffers) == old(Contents(buffers))[n..]
      ensures buffers[0].ReadableSize() == old(buffers[0].ReadableSize()) - n
    {
      var buffer := buffers[0];
      ghost var rest := buffers[1..];
      ghost var restBytes := Contents(rest);
      assert buffer !in rest;
      assert Contents(buffers) == buffer.Readable() + restBytes;
      buffer.HasRead(n);
      assert Contents(rest) == restBytes;
    }

    /** One turn of the loop in `hasSent`: takes up to `want` bytes off the front chunk and deletes the chunk
        once it is empty. */
    method DropFromFront(want: nat) returns (n: nat)
      requires AllValid(buffers) && DistinctBuffers(buffers) && buffers != []
      modifies this`buffers, buffers[0]
      ensures AllValid(buffers) && DistinctBuffers(buffers)
      ensures n == Min(old(buffers[0].ReadableSize()), want) && n <= |old(Contents(buffers))|
      ensures Contents(buffers) == old(Contents(buffers))[n..]
      ensures if n == old(buffers[0].ReadableSize()) then buffers == old(buffers)[1..]
              else buffers == old(buffers) && !buffers[0].IsEmpty()
    {
      n := Min(buffers[0].ReadableSize(), want);
      ReadFront(n);
      if buffers[0].IsEmpty() {
        DeleteFront();
      }
    }

    method DeleteFront()
      requires AllValid(buffers) && DistinctBuffers(buffers) && buffers != [] && buffers[0].IsEmpty()
      modifies this`buffers
      ensures AllValid(buffers) && DistinctBuffers(buffers) && buffers == old(buffers)[1..]
      ensures Contents(buffers) == old(Contents(buffers))
    {
      assert buffers[0] in buffers && buffers[0].Readable() == [];
      assert Contents(buffers) == [] + Contents(buffers[1..]);
      buffers := buffers[1..];
    }

    /** What is left after the first `n` of `all`. */
    ghost predicate Left(all: seq<byte>, n: nat)
      reads `buffers, buffers
    {
      AllValid(buffers) && DistinctBuffers(buffers) && n <= |all| && Contents(buffers) == all[n..]
    }

    lemma LeftMeans(all: seq<byte>, n: nat)
      requires Left(all, n)
      ensures n <= |all| && (buffers == [] ==> n == |all|)
    {
    }

    /** One turn of that loop, with what it leaves. */
    method HasSentTurn(want: nat, ghost all: seq<byte>, ghost at: nat) returns (n: nat)
      requires Left(all, at) && buffers != [] && want > 0
      modifies this`buffers, buffers[0]
      ensures n <= want && Left(all, at + n) && |buffers| <= |old(buffers)|
      ensures n < want ==> |buffers| < |old(buffers)|
      ensures forall b | b in buffers :: b in old(buffers)
      ensures old(NoneEmpty()) ==> NoneEmpty()
    {
      ghost var before := Contents(buffers);
      n := DropFromFront(want);
      assert before[n..] == all[at + n..];
    }

    /** Drops the first `count` bytes, or everything if there are fewer, and the chunks this empties. */
    method HasSent(count: nat)
      requires Valid()
      modifies this, buffers
      ensures Valid() && Bytes() == old(Bytes())[Min(count, old(size))..]
      ensures forall b | b in buffers :: b in old(buffers)
      ensures old(NoneEmpty()) ==> NoneEmpty()
    {
      var nread: nat := 0;
      ghost var all := Bytes();
      while nread < count && |buffers| > 0
        invariant nread <= count && Left(all, nread) && size == old(size)
        invariant forall b | b in buffers :: b in old(buffers)
        invariant old(NoneEmpty()) ==> NoneEmpty()
        decreases |buffers| + count - nread
      {
        assert buffers[0] in buffers;
        var n := HasSentTurn(count - nread, all, nread);
        nread := nread + n;
      }
      LeftMeans(all, nread);
      size := size - nread;
    }
  }
}
