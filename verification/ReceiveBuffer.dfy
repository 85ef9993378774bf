/** The receive queue (nutty/net/ReceiveBuffer.cpp): a deque of chunks and a pool of spare chunks. It refines a
    plain byte sequence under receiving in three moves (prepare the vectors, let the system fill them, commit)
    and under reading, peeking and retrieving. */
module ReceiveBuffers {
  import opened Arithmetic
  import opened Buffers

  const RECEIVE_SIZE: nat := 8 * 1024
  const CHUNK: nat := RECEIVE_SIZE * 2

  /** Chunks in use are never empty; all but the front are unread and all but the back are full. */
  ghost predicate Tight(bs: seq<Buffer>)
    reads bs
  {
    && (forall i | 0 <= i < |bs| :: bs[i].rpos < bs[i].wpos <= CHUNK == |bs[i].data|)
    && (forall i | 0 < i < |bs| :: bs[i].rpos == 0)
    && (forall i | 0 <= i < |bs| - 1 :: bs[i].wpos == CHUNK)
  }

  ghost predicate AllSpare(bs: seq<Buffer>)
    reads bs
  {
    forall b | b in bs :: b.rpos == b.wpos == 0 && |b.data| == CHUNK
  }

  /** The chunks in use and the spares are different objects. */
  ghost predicate Separate(bs: seq<Buffer>, spares: seq<Buffer>) {
    DistinctBuffers(bs) && DistinctBuffers(spares) && forall b | b in bs :: b !in spares
  }

  /** No chunk is lost or duplicated. */
  ghost predicate SameChunks(bs: seq<Buffer>, spares: seq<Buffer>, bs': seq<Buffer>, spares': seq<Buffer>) {
    multiset(bs) + multiset(spares) == multiset(bs') + multiset(spares')
  }

  class ReceiveBuffer {
    var buffers: seq<Buffer>
    var extendBuffers: seq<Buffer>
    var size: nat
    ghost var mostInUse: nat      // the largest number of chunks in use after any operation so far

    ghost predicate ValidChunks()
      reads `buffers, `extendBuffers, `mostInUse, buffers, extendBuffers
    {
      && Separate(buffers, extendBuffers) && AllValid(buffers) && Tight(buffers) && AllSpare(extendBuffers)
      && |buffers| <= mostInUse && |buffers| + |extendBuffers| <= mostInUse + 1
    }

    ghost predicate Valid()
      reads this, buffers, extendBuffers
    {
      ValidChunks() && size == |Contents(buffers)|
    }

    ghost function Bytes(): (r: seq<byte>)
      requires Valid()
      reads this, buffers, extendBuffers
      ensures |r| == size
    {
      Contents(buffers)
    }

    constructor ()
      ensures Valid() && Bytes() == [] && extendBuffers == [] && mostInUse == 0
    {
      buffers, extendBuffers, size, mostInUse := [], [], 0, 0;
    }

    /* ---- consuming ---- */

    /** Of `all`, the first `at` bytes are gone; the chunks are still those of `chunks`. */
    ghost predicate Left(all: seq<byte>, at: nat, chunks: multiset<Buffer>)
      reads `buffers, `extendBuffers, `mostInUse, buffers, extendBuffers
    {
      && ValidChunks() && at <= |all| && Contents(buffers) == all[at..]
      && multiset(buffers) + multiset(extendBuffers) == chunks
    }

    /** An empty front chunk goes to the spares. */
    method MoveFrontToSpares()
      requires buffers != [] && buffers[0].IsEmpty() && AllValid(buffers) && AllSpare(extendBuffers)
      requires Separate(buffers, extendBuffers) && |buffers[0].data| == CHUNK
      modifies this`buffers, this`extendBuffers, buffers[0]
      ensures AllValid(buffers) && AllSpare(extendBuffers)
      ensures buffers == old(buffers)[1..] && extendBuffers == old(extendBuffers) + [old(buffers[0])]
      ensures Contents(buffers) == old(Contents(buffers))
    {
      FrontIsApart(buffers, extendBuffers);
      var buffer := buffers[0];
      assert buffer.Readable() == [] && Contents(buffers) == buffer.Readable() + Contents(buffers[1..]);
      buffers := buffers[1..];
      ghost var rest := Contents(buffers);
      buffer.Reset();
      assert Contents(buffers) == rest;
      extendBuffers := extendBuffers + [buffer];
    }

    /** Reads `n` bytes of the front chunk and recycles the chunk if that empties it. */
    method RecycleFront(n: nat)
      requires ValidChunks() && buffers != [] && n <= buffers[0].ReadableSize()
      modifies this`buffers, this`extendBuffers, buffers[0]
      ensures ValidChunks() && SameChunks(old(buffers), old(extendBuffers), buffers, extendBuffers)
      ensures n <= |old(Contents(buffers))| && Contents(buffers) == old(Contents(buffers))[n..]
      ensures buffers == if n == old(buffers[0].ReadableSize()) then old(buffers)[1..] else old(buffers)
    {
      hide Contents;
      TightTail(buffers);
      FrontIsApart(buffers, extendBuffers);
      ReadFront(n);
      if buffers[0].IsEmpty() {
        RetireFront();
      } else {
        TightWithLessFront(buffers);
      }
    }

    /** The front chunk has become empty. */
    method RetireFront()
      requires buffers != [] && buffers[0].IsEmpty() && |buffers[0].data| == CHUNK && Tight(buffers[1..])
      requires Separate(buffers, extendBuffers) && AllValid(buffers) && AllSpare(extendBuffers)
      requires |buffers| <= mostInUse && |buffers| + |extendBuffers| <= mostInUse + 1
      modifies this`buffers, this`extendBuffers, buffers[0]
      ensures ValidChunks() && SameChunks(old(buffers), old(extendBuffers), buffers, extendBuffers)
      ensures Contents(buffers) == old(Contents(buffers)) && buffers == old(buffers)[1..]
    {
      hide Contents, Tight;
      FrontIsApart(buffers, extendBuffers);
      FrontMoves(buffers, extendBuffers);
      MoveFrontToSpares();
    }

    method ReadFront(n: nat)
      requires buffers != [] && AllValid(buffers) && DistinctBuffers(buffers) && n <= buffers[0].ReadableSize()
      modifies buffers[0]
      ensures AllValid(buffers) && buffers[0].rpos == old(buffers[0].rpos) + n
      ensures buffers[0].wpos == old(buffers[0].wpos) && buffers[0].data == old(buffers[0].data)
      ensures n <= |old(Contents(buffers))| && Contents(buffers) == old(Contents(buffers))[n..]
    {
      ghost var rest := buffers[1..];
      ghost var restBytes := Contents(rest);
      var buffer := buffers[0];
      assert buffer !in rest;
      assert buffer in buffers && Contents(buffers) == buffer.Readable() + restBytes;
      assert n <= |buffer.Readable()|;
      assert Contents(buffers)[n..] == buffer.Readable()[n..] + restBytes;
      buffer.HasRead(n);
      assert Contents(rest) == restBytes;
    }

    /** One turn of the loop in `retrieve`, and the end of one in `read`. */
    method ConsumeFront(want: nat, ghost all: seq<byte>, ghost at: nat, ghost chunks: multiset<Buffer>)
      returns (n: nat)
      requires Left(all, at, chunks) && buffers != []
      modifies this`buffers, this`extendBuffers, buffers[0]
      ensures n == Min(old(buffers[0].ReadableSize()), want) && Left(all, at + n, chunks)
      ensures |buffers| <= |old(buffers)| && (n < want ==> |buffers| < |old(buffers)|)
      ensures forall b | b in buffers :: b in old(buffers)
    {
      assert buffers[0] in buffers;
      n := Min(buffers[0].ReadableSize(), want);
      DropTwice(all, at, n);
      RecycleFront(n);
    }

    lemma LeftMeans(all: seq<byte>, at: nat, chunks: multiset<Buffer>)
      requires Left(all, at, chunks)
      ensures at <= |all| && (buffers == [] ==> at == |all|)
    {
    }

    /** The loop of `retrieve`, `size_` aside. */
    method RetrieveChunks(count: nat, ghost all: seq<byte>, ghost chunks: multiset<Buffer>) returns (nread: nat)
      requires Left(all, 0, chunks)
      modifies this`buffers, this`extendBuffers, buffers
      ensures nread == Min(count, |all|) && Left(all, nread, chunks) && forall b | b in buffers :: b in old(buffers)
    {
      hide Left;
      nread := 0;
      while nread < count && |buffers| > 0
        invariant nread <= count && Left(all, nread, chunks)
        invariant forall b | b in buffers :: b in old(buffers)
        decreases |buffers| + count - nread
      {
        assert buffers[0] in buffers;
        var n := ConsumeFront(count - nread, all, nread, chunks);
        nread := nread + n;
      }
      LeftMeans(all, nread, chunks);
    }

    /** Drops the first `count` bytes, or everything if there are fewer. */
    method Retrieve(count: nat)
      requires Valid()
      modifies this`buffers, this`extendBuffers, this`size, buffers
      ensures Valid() && SameChunks(old(buffers), old(extendBuffers), buffers, extendBuffers)
      ensures mostInUse == old(mostInUse) && forall b | b in buffers :: b in old(buffers)
      ensures Bytes() == old(Bytes())[Min(count, old(size))..]
    {
      hide ValidChunks, Contents;
      var nread := RetrieveChunks(count, Bytes(), multiset(buffers) + multiset(extendBuffers));
      SetSize(size - nread);
    }

    method RetrieveAll()
      requires Valid()
      modifies this`buffers, this`extendBuffers, this`size, buffers
      ensures Valid() && SameChunks(old(buffers), old(extendBuffers), buffers, extendBuffers)
      ensures mostInUse == old(mostInUse)
      ensures Bytes() == [] && buffers == []
    {
      while |buffers| > 0
        invariant ValidChunks()
        invariant SameChunks(old(buffers), old(extendBuffers), buffers, extendBuffers)
        invariant forall b | b in buffers :: b in old(buffers)
        decreases |buffers|
      {
        assert buffers[0] in buffers;
        RecycleFront(buffers[0].ReadableSize());
      }
      SetSize(0);
    }

    method SetSize(n: nat)
      requires ValidChunks() && |Contents(buffers)| == n
      modifies `size
      ensures Valid() && Bytes() == old(Contents(buffers))
    {
      size := n;
    }

    /** Appends the first `count` bytes, or all of them, to `buf` and drops them. */
    method Read(count: nat) returns (buf: seq<byte>)
      requires Valid()
      modifies this`buffers, this`extendBuffers, this`size, buffers
      ensures Valid() && SameChunks(old(buffers), old(extendBuffers), buffers, extendBuffers)
      ensures mostInUse == old(mostInUse)
      ensures buf == old(Bytes())[..Min(count, old(size))] && Bytes() == old(Bytes())[Min(count, old(size))..]
    {
      hide ValidChunks, Contents;
      buf := ReadChunks(count, Bytes(), multiset(buffers) + multiset(extendBuffers));
      SetSize(size - |buf|);
    }

    /** The loop of `read`, `size_` aside. */
    method ReadChunks(count: nat, ghost all: seq<byte>, ghost chunks: multiset<Buffer>) returns (buf: seq<byte>)
      requires Left(all, 0, chunks)
      modifies this`buffers, this`extendBuffers, buffers
      ensures buf == all[..Min(count, |all|)] && Left(all, |buf|, chunks)
    {
      hide Left;
      buf := [];
      while |buf| < count && |buffers| > 0
        invariant |buf| <= count && buf <= all && Left(all, |buf|, chunks)
        invariant forall b | b in buffers :: b in old(buffers)
        decreases |buffers| + count - |buf|
      {
        assert buffers[0] in buffers;
        var part := ReadTurn(count - |buf|, all, |buf|, chunks);
        buf := buf + part;
      }
      LeftMeans(all, |buf|, chunks);
    }

    /** One turn of the loop in `read`. */
    method ReadTurn(want: nat, ghost all: seq<byte>, ghost at: nat, ghost chunks: multiset<Buffer>)
      returns (part: seq<byte>)
      requires Left(all, at, chunks) && buffers != []
      modifies this`buffers, this`extendBuffers, buffers[0]
      ensures |part| <= want && part <= all[at..] && Left(all, at + |part|, chunks)
      ensures |buffers| <= |old(buffers)| && (|part| < want ==> |buffers| < |old(buffers)|)
      ensures forall b | b in buffers :: b in old(buffers)
    {
      var buffer := buffers[0];
      assert buffer in buffers;
      part := buffer.data[buffer.rpos..buffer.rpos + Min(buffer.ReadableSize(), want)];
      assert part <= Contents(buffers);
      var n := ConsumeFront(want, all, at, chunks);
    }

    /** Appends the first `count` bytes, or all of them, to `buf` and leaves the queue alone. */
    method Peek(count: nat) returns (buf: seq<byte>)
      requires Valid()
      ensures buf == Bytes()[..Min(count, size)]
    {
      var i := 0;
      buf := [];
      while i < |buffers| && |buf| < count
        invariant 0 <= i <= |buffers|
        invariant buf == Taken(Contents(buffers[..i]), count)
      {
        buf := PeekTurn(buf, i, count);
        i := i + 1;
      }
      ContentsPrefix(buffers, i);
    }

    /** One turn of the loop in `peek`. */
    method PeekTurn(buf: seq<byte>, i: nat, count: nat) returns (longer: seq<byte>)
      requires AllValid(buffers) && i < |buffers| && |buf| < count && buf == Taken(Contents(buffers[..i]), count)
      ensures longer == Taken(Contents(buffers[..i + 1]), count)
    {
      var buffer := buffers[i];
      ContentsSnoc(buffers[..i], buffer);
      assert buffers[..i + 1] == buffers[..i] + [buffer];
      var readableSize := Min(buffer.ReadableSize(), count - |buf|);
      TakenConcat(Contents(buffers[..i]), buffer.Readable(), count);
      assert buffer.data[buffer.rpos..buffer.rpos + readableSize] == buffer.Readable()[..readableSize];
      longer := buf + buffer.data[buffer.rpos..buffer.rpos + readableSize];
    }

    /** Peeking and then retrieving is reading. */
    method PeekAndRetrieve(count: nat) returns (buf: seq<byte>)
      requires Valid()
      modifies this`buffers, this`extendBuffers, this`size, buffers
      ensures Valid() && SameChunks(old(buffers), old(extendBuffers), buffers, extendBuffers)
      ensures mostInUse == old(mostInUse)
      ensures buf == old(Bytes())[..Min(count, old(size))] && Bytes() == old(Bytes())[Min(count, old(size))..]
      ensures buf + Bytes() == old(Bytes())
    {
      hide Valid, ValidChunks, Contents;
      ConsumingIsSlicing(Bytes(), count, 0);
      buf := Peek(count);
      Retrieve(count);
    }

    /** Retrieving twice is retrieving the sum. */
    method RetrieveTwice(a: nat, b: nat)
      requires Valid()
      modifies this`buffers, this`extendBuffers, this`size, buffers
      ensures Valid() && SameChunks(old(buffers), old(extendBuffers), buffers, extendBuffers)
      ensures mostInUse == old(mostInUse)
      ensures Bytes() == old(Bytes())[Min(a + b, old(size))..]
    {
      hide Valid, ValidChunks, Contents;
      ConsumingIsSlicing(Bytes(), a, b);
      Retrieve(a);
      assert forall i | 0 <= i < |buffers| :: buffers[i] in buffers;
      Retrieve(b);
    }

    /** Gathers everything. */
    method PrepareSend() returns (iov: seq<IoVec>)
      requires Valid()
      ensures |iov| == |buffers| && ValidVecs(iov) && Gathered(iov) == Bytes()
    {
      hide Contents, Gathered;
      NothingGathered();
      iov := [];
      var i := 0;
      while i < |buffers|
        invariant 0 <= i <= |buffers| && |iov| == i && ValidVecs(iov)
        invariant Gathered(iov) == Contents(buffers[..i])
      {
        var buffer := buffers[i];
        GatherNext(buffers, i, iov);
        iov := iov + [IoVec(buffer, buffer.rpos, buffer.ReadableSize())];
        i := i + 1;
      }
      ContentsPrefix(buffers, i);
    }

    /* ---- receiving ---- */

    /** The memory that continues the back chunk. */
    ghost function BackRoom(): (iov: seq<IoVec>)
      reads `buffers, buffers
    {
      if buffers == [] || buffers[|buffers| - 1].wpos >= CHUNK then []
      else [IoVec(buffers[|buffers| - 1], buffers[|buffers| - 1].wpos, CHUNK - buffers[|buffers| - 1].wpos)]
    }

    /** The memory where the contents will continue: the rest of the back chunk, then the first spare. */
    ghost function Room(): (iov: seq<IoVec>)
      reads `buffers, `extendBuffers, buffers
    {
      BackRoom() + if extendBuffers == [] then [] else [IoVec(extendBuffers[0], 0, CHUNK)]
    }

    /** What that memory holds. */
    ghost function BackBytes(): (r: seq<byte>)
      reads `buffers, buffers
    {
      if buffers == [] || buffers[|buffers| - 1].wpos > |buffers[|buffers| - 1].data| then []
      else buffers[|buffers| - 1].data[buffers[|buffers| - 1].wpos..]
    }

    ghost function SpareBytes(): (r: seq<byte>)
      reads `extendBuffers, extendBuffers
    {
      if extendBuffers == [] then [] else extendBuffers[0].data
    }

    /** Allocates the spare chunk that `prepareReceive` needs. */
    method AddSpare()
      requires Valid() && extendBuffers == []
      modifies this`extendBuffers
      ensures Valid() && Bytes() == old(Bytes()) && |extendBuffers| == 1 && fresh(extendBuffers[0])
    {
      var buffer := new Buffer(CHUNK);
      extendBuffers := [buffer];
    }

    method BackVec() returns (iov: seq<IoVec>)
      requires ValidChunks()
      ensures iov == BackRoom()
    {
      iov := [];
      if |buffers| > 0 {
        var buffer := buffers[|buffers| - 1];
        var writableSize := buffer.WritableSize();
        if writableSize > 0 {
          iov := [IoVec(buffer, buffer.wpos, writableSize)];
        }
      }
    }

    /** One or two vectors with at least `RECEIVE_SIZE` bytes of memory, where the contents will continue. */
    method PrepareReceive() returns (iov: seq<IoVec>)
      requires Valid()
      modifies this`extendBuffers
      ensures Valid() && Bytes() == old(Bytes()) && mostInUse == old(mostInUse)
      ensures extendBuffers == old(extendBuffers) ||
              (old(extendBuffers) == [] && |extendBuffers| == 1 && fresh(extendBuffers[0]))
      ensures 1 <= |iov| <= 2 && TotalLen(iov) >= 8192
      ensures iov == if TotalLen(BackRoom()) < 8192 then Room() else BackRoom()
      ensures extendBuffers != old(extendBuffers) <==> old(extendBuffers) == [] && TotalLen(BackRoom()) < 8192
    {
      iov := BackVec();
      var nwrote := if iov == [] then 0 else iov[0].len;
      if nwrote < RECEIVE_SIZE {
        if |extendBuffers| == 0 {
          AddSpare();
        }
        var buffer := extendBuffers[0];
        assert buffer in extendBuffers;
        iov := iov + [IoVec(buffer, 0, |buffer.data|)];
      }
    }

    /** Commits `n` bytes to the back chunk. */
    method FillBack(n: nat)
      requires ValidChunks() && buffers != [] && buffers[|buffers| - 1].wpos + n <= CHUNK
      modifies buffers[|buffers| - 1]
      ensures ValidChunks() && buffers[|buffers| - 1].wpos == old(buffers[|buffers| - 1].wpos) + n
      ensures Contents(buffers) == old(Contents(buffers)) + old(BackBytes())[..n]
    {
      BackIsApart(buffers, extendBuffers);
      WriteBack(n);
    }

    method WriteBack(n: nat)
      requires AllValid(buffers) && DistinctBuffers(buffers) && buffers != []
      requires buffers[|buffers| - 1].wpos + n <= |buffers[|buffers| - 1].data|
      modifies buffers[|buffers| - 1]
      ensures AllValid(buffers)
      ensures var back := buffers[|buffers| - 1];
              back.data == old(back.data) && back.rpos == old(back.rpos) && back.wpos == old(back.wpos) + n
      ensures Contents(buffers) == old(Contents(buffers)) + old(BackBytes())[..n]
    {
      var k := |buffers| - 1;
      var back := buffers[k];
      ghost var front := buffers[..k];
      assert buffers == front + [back] && back !in front;
      ContentsSnoc(front, back);
      ghost var frontBytes := Contents(front);
      back.HasWritten(n);
      assert Contents(front) == frontBytes;
      ContentsSnoc(front, back);
    }

    /** Commits `n` bytes to the first spare chunk, which becomes the back chunk. */
    method FillSpare(n: nat)
      requires ValidChunks() && extendBuffers != [] && 0 < n <= CHUNK
      requires buffers == [] || buffers[|buffers| - 1].wpos == CHUNK
      modifies this`buffers, this`extendBuffers, this`mostInUse, extendBuffers[0]
      ensures ValidChunks() && SameChunks(old(buffers), old(extendBuffers), buffers, extendBuffers)
      ensures Contents(buffers) == old(Contents(buffers)) + old(SpareBytes())[..n]
      ensures mostInUse == Max(old(mostInUse), |buffers|)
    {
      ghost var bs, spares := buffers, extendBuffers;
      assert spares[0] in spares;
      SpareMoves(bs, spares);
      SpareToBack(n);
      if |buffers| > mostInUse {
        mostInUse := |buffers|;
      }
    }

    /** The move with the shape of the chunk lists. */
    method SpareToBack(n: nat)
      requires AllValid(buffers) && Tight(buffers) && AllSpare(extendBuffers) && extendBuffers != []
      requires extendBuffers[0] !in buffers && extendBuffers[0] !in extendBuffers[1..] && 0 < n <= CHUNK
      requires buffers != [] ==> buffers[|buffers| - 1].wpos == CHUNK
      modifies this`buffers, this`extendBuffers, extendBuffers[0]
      ensures AllValid(buffers) && Tight(buffers) && AllSpare(extendBuffers)
      ensures buffers == old(buffers) + [old(extendBuffers[0])] && extendBuffers == old(extendBuffers)[1..]
      ensures Contents(buffers) == old(Contents(buffers)) + old(SpareBytes())[..n]
    {
      ghost var bs := buffers;
      SpareTail(extendBuffers);
      MoveSpareToBack(n);
      TightSnoc(bs, buffers[|bs|]);
    }

    /** The move with the contents. */
    method MoveSpareToBack(n: nat)
      requires AllValid(buffers) && extendBuffers != [] && extendBuffers[0] !in buffers && n <= CHUNK
      requires var spare := extendBuffers[0]; spare.rpos == spare.wpos == 0 && |spare.data| == CHUNK
      modifies this`buffers, this`extendBuffers, extendBuffers[0]
      ensures AllValid(buffers)
      ensures buffers == old(buffers) + [old(extendBuffers[0])] && extendBuffers == old(extendBuffers)[1..]
      ensures var spare := old(extendBuffers[0]); spare.rpos == 0 && spare.wpos == n && spare.data == old(spare.data)
      ensures Contents(buffers) == old(Contents(buffers)) + old(extendBuffers[0].data)[..n]
    {
      var buffer := extendBuffers[0];
      ghost var before := Contents(buffers);
      extendBuffers := extendBuffers[1..];
      buffer.HasWritten(n);
      assert Contents(buffers) == before;
      ContentsSnoc(buffers, buffer);
      buffers := buffers + [buffer];
    }

    /** The first half of `hasReceived`. */
    method CommitToBack(count: nat) returns (n: nat)
      requires ValidChunks()
      modifies buffers
      ensures ValidChunks() && n == Min(|old(BackBytes())|, count)
      ensures Contents(buffers) == old(Contents(buffers)) + old(BackBytes())[..n]
      ensures n < count ==> buffers == [] || buffers[|buffers| - 1].wpos == CHUNK
      ensures SpareBytes() == old(SpareBytes())
    {
      n := 0;
      if |buffers| > 0 {
        BackIsApart(buffers, extendBuffers);
        n := Min(buffers[|buffers| - 1].WritableSize(), count);
        FillBack(n);
      }
    }

    /** The second half of `hasReceived`. */
    method CommitToSpare(count: nat) returns (n: nat)
      requires ValidChunks() && 0 < count && (buffers == [] || buffers[|buffers| - 1].wpos == CHUNK)
      modifies this`buffers, this`extendBuffers, this`mostInUse, extendBuffers
      ensures ValidChunks() && n == Min(|old(SpareBytes())|, count) && mostInUse == Max(old(mostInUse), |buffers|)
      ensures SameChunks(old(buffers), old(extendBuffers), buffers, extendBuffers)
      ensures Contents(buffers) == old(Contents(buffers)) + old(SpareBytes())[..n]
    {
      n := 0;
      if |extendBuffers| > 0 {
        assert extendBuffers[0] in extendBuffers;
        n := Min(extendBuffers[0].WritableSize(), count);
        FillSpare(n);
      }
    }

    /** `hasReceived`, `size_` aside. */
    method Commit(count: nat, ghost c: seq<byte>, ghost x: seq<byte>, ghost y: seq<byte>) returns (nwrote: nat)
      requires ValidChunks() && c == Contents(buffers) && x == BackBytes() && y == SpareBytes()
      modifies this`buffers, this`extendBuffers, this`mostInUse, buffers, extendBuffers
      ensures ValidChunks() && SameChunks(old(buffers), old(extendBuffers), buffers, extendBuffers)
      ensures Contents(buffers) == c + Taken(x + y, count) && |Contents(buffers)| == |c| + nwrote
      ensures mostInUse == Max(old(mostInUse), |buffers|)
    {
      TakenOfBoth(c, x, y, count);
      nwrote := CommitToBack(count);
      if nwrote < count {
        var n := CommitToSpare(count - nwrote);
        nwrote := nwrote + n;
      }
    }

    /** Commits `count` bytes of the prepared memory, or all of it, to the contents. */
    method HasReceived(count: nat)
      requires Valid()
      modifies this, buffers, extendBuffers
      ensures Valid() && SameChunks(old(buffers), old(extendBuffers), buffers, extendBuffers)
      ensures mostInUse == Max(old(mostInUse), |buffers|)
      ensures Bytes() == old(Bytes()) + Taken(old(BackBytes() + SpareBytes()), count)
    {
      var nwrote := Commit(count, Contents(buffers), BackBytes(), SpareBytes());
      SetSize(size + nwrote);
    }

    /** The room as vectors and as bytes. */
    lemma GatheredRoom()
      requires ValidChunks()
      ensures ValidVecs(Room()) && Gathered(Room()) == BackBytes() + SpareBytes()
      ensures ValidVecs(BackRoom()) && Gathered(BackRoom()) == BackBytes()
      ensures |Room()| <= 2 && (|Room()| == 2 ==> Room()[0].base != Room()[1].base)
    {
      if buffers != [] {
        BackIsApart(buffers, extendBuffers);
        var back := buffers[|buffers| - 1];
        if back.wpos < CHUNK {
          GatheredOne(IoVec(back, back.wpos, CHUNK - back.wpos));
        }
      }
      if extendBuffers != [] {
        var spare := extendBuffers[0];
        assert spare in extendBuffers;
        var v := IoVec(spare, 0, CHUNK);
        GatheredOne(v);
        GatheredConcat(BackRoom(), [v]);
      }
    }

    lemma RoomIsOurs()
      ensures BackRoom() <= Room() && forall v | v in Room() :: v.base in buffers || v.base in extendBuffers
    {
    }

    /** Filling the prepared memory touches no byte of the contents. */
    twostate lemma FilledRoomKeepsBytes(iov: seq<IoVec>)
      requires old(Valid()) && unchanged(this) && iov <= old(Room()) && FilledFrom(iov)
      requires forall b | b in buffers && b !in Bases(iov) :: unchanged(b)
      requires forall b | b in extendBuffers && b !in Bases(iov) :: unchanged(b)
      ensures ValidChunks() && Room() == old(Room()) && BackRoom() == old(BackRoom())
      ensures Contents(buffers) == old(Contents(buffers))
    {
      hide Contents, Room, BackRoom, FilledFrom;
      CursorsStay(iov);
      RoomStays();
      assert forall i | 0 <= i < |buffers| :: buffers[i] in buffers;
      SameContents(buffers);
    }

    twostate lemma CursorsStay(iov: seq<IoVec>)
      requires old(Valid()) && unchanged(this) && iov <= old(Room()) && FilledFrom(iov)
      requires forall b | b in buffers && b !in Bases(iov) :: unchanged(b)
      requires forall b | b in extendBuffers && b !in Bases(iov) :: unchanged(b)
      ensures forall b | b in buffers || b in extendBuffers :: SameCursors(b)
    {
      hide Contents;
    }

    twostate lemma RoomStays()
      requires old(Valid()) && unchanged(this)
      requires forall b | b in buffers || b in extendBuffers :: SameCursors(b)
      ensures Room() == old(Room()) && BackRoom() == old(BackRoom())
    {
      hide Contents;
      assert forall i | 0 <= i < |buffers| :: buffers[i] in buffers;
    }

    /** Receives what the system delivers of the `available` bytes: at least 8192 of them if there are so
        many, in order, after everything received before. */
    method Receive(available: seq<byte>) returns (n: nat)
      requires Valid()
      modifies this, buffers, extendBuffers
      ensures Valid() && Min(|available|, 8192) <= n <= |available|
      ensures Bytes() == old(Bytes()) + available[..n] && mostInUse == Max(old(mostInUse), |buffers|)
      ensures forall b | b in buffers || b in extendBuffers :: b in old(buffers) || b in old(extendBuffers) || fresh(b)
    {
      hide Valid, ValidChunks, Contents, Room, BackRoom, BackBytes, SpareBytes;
      var iov := PrepareReceive();
      n := ReceiveInto(iov, available);
    }

    /** The rest of it, into the prepared vectors. */
    method ReceiveInto(iov: seq<IoVec>, available: seq<byte>) returns (n: nat)
      requires Valid() && 1 <= |iov| && (iov == Room() || iov == BackRoom())
      modifies this, buffers, extendBuffers
      ensures Valid() && n == Min(|available|, TotalLen(iov)) && Bytes() == old(Bytes()) + available[..n]
      ensures mostInUse == Max(old(mostInUse), |buffers|)
      ensures forall b | b in buffers || b in extendBuffers :: b in old(buffers) || b in old(extendBuffers)
    {
      assert |buffers| <= mostInUse;
      hide Valid, ValidChunks, Contents, Room, BackRoom, BackBytes, SpareBytes, TotalLen;
      n := FillRoom(iov, available);
      if n > 0 {
        ghost var bs, spares := buffers, extendBuffers;
        HasReceived(n);
        SameMembers(bs, spares, buffers, extendBuffers);
        hide SameChunks;
      }
    }

    method FillRoom(iov: seq<IoVec>, available: seq<byte>) returns (n: nat)
      requires Valid() && 1 <= |iov| && (iov == Room() || iov == BackRoom())
      modifies buffers, extendBuffers
      ensures Valid() && Bytes() == old(Bytes()) && n == Min(|available|, TotalLen(iov))
      ensures Taken(BackBytes() + SpareBytes(), n) == available[..n]
    {
      hide ValidChunks, Contents, Room, BackRoom, BackBytes, SpareBytes, Gathered;
      GatheredRoom();
      RoomIsOurs();
      n := Readv(iov, available);
      FilledRoomKeepsBytes(iov);
      GatheredRoom();
    }

    /** The chunk list stays tight: with two chunks or more, all but two of them are full of unread bytes, and
        no more spare memory is kept than the busiest moment needed, plus one chunk. */
    lemma ChunksAreTight()
      requires Valid()
      ensures |buffers| >= 2 ==> size >= (|buffers| - 2) * 16384 + 2
      ensures |buffers| + |extendBuffers| <= mostInUse + 1
    {
      if |buffers| >= 2 {
        var k := |buffers| - 1;
        var rest := buffers[1..];
        assert buffers[0] in buffers && forall b | b in rest :: b in buffers;
        assert forall i | 0 <= i < |rest| :: rest[i] == buffers[i + 1];
        FullChunks(rest);
      }
    }
  }

  /* ---- the system fills vectors ---- */

  ghost function Bases(iov: seq<IoVec>): set<Buffer> {
    set v | v in iov :: v.base
  }

  twostate predicate SameCursors(b: Buffer)
    reads b
  {
    b.rpos == old(b.rpos) && b.wpos == old(b.wpos) && |b.data| == old(|b.data|) &&
    (old(b.wpos <= |b.data|) ==> b.data[..b.wpos] == old(b.data[..b.wpos]))
  }

  /** In each vector's chunk nothing before the vector has changed. */
  twostate predicate FilledFrom(iov: seq<IoVec>)
    reads Bases(iov)
  {
    forall v | v in iov ::
      && v.base.rpos == old(v.base.rpos) && v.base.wpos == old(v.base.wpos)
      && v.off <= |v.base.data| == old(|v.base.data|) && v.base.data[..v.off] == old(v.base.data[..v.off])
  }

  twostate lemma {:induction false} SameContents(bs: seq<Buffer>)
    requires old(AllValid(bs)) && forall b | b in bs :: SameCursors(b)
    ensures AllValid(bs) && Contents(bs) == old(Contents(bs))
    decreases |bs|
  {
    if bs != [] {
      SameContents(bs[1..]);
      var b := bs[0];
      assert b in bs;
      assert b.data[b.rpos..b.wpos] == b.data[..b.wpos][b.rpos..];
    }
  }

  lemma FilledInOrder(a: seq<byte>, b: seq<byte>, available: seq<byte>, n: nat, m: nat)
    requires n == Min(|available|, |a|) && m == Min(|available| - n, |b|)
    requires a[..n] == available[..n] && b[..m] == available[n..n + m]
    ensures (a + b)[..n + m] == available[..n + m]
  {
    if n < |a| {
      assert (a + b)[..n] == a[..n];
    } else {
      assert (a + b)[..n + m] == a + b[..m] && available[..n + m] == available[..n] + available[n..n + m];
    }
  }

  /** The system's `readv`: it fills the vectors in order with the `available` bytes, as far as they go. */
  method Readv(iov: seq<IoVec>, available: seq<byte>) returns (n: nat)
    requires ValidVecs(iov) && 1 <= |iov| <= 2 && (|iov| == 2 ==> iov[0].base != iov[1].base)
    modifies Bases(iov)
    ensures ValidVecs(iov) && FilledFrom(iov)
    ensures n == Min(|available|, TotalLen(iov)) && n <= |Gathered(iov)| && Gathered(iov)[..n] == available[..n]
  {
    hide Gathered, TotalLen;
    var v := iov[0];
    assert v in iov;
    n := Min(|available|, v.len);
    Fill(v, available[..n]);
    GatheredOne(v);
    if |iov| == 1 {
      assert iov == [v];
    } else {
      var w := iov[1];
      assert w in iov && iov == [v] + [w];
      var m := Min(|available| - n, w.len);
      Fill(w, available[n..n + m]);
      GatheredOne(w);
      GatheredConcat([v], [w]);
      TotalLenConcat([v], [w]);
      FilledInOrder(v.Bytes(), w.Bytes(), available, n, m);
      n := n + m;
    }
  }

  method Fill(v: IoVec, bytes: seq<byte>)
    requires v.Valid() && |bytes| <= v.len
    modifies v.base
    ensures v.Valid() && |v.base.data| == old(|v.base.data|)
    ensures v.base.rpos == old(v.base.rpos) && v.base.wpos == old(v.base.wpos)
    ensures v.base.data[..v.off] == old(v.base.data[..v.off]) && v.Bytes()[..|bytes|] == bytes
  {
    OverlaidMeans(v.base.data, v.off, v.len, bytes);
    v.base.data := Overlaid(v.base.data, v.off, bytes);
  }

  /** `memory` with `bytes` written at `off`. */
  function Overlaid(memory: seq<byte>, off: nat, bytes: seq<byte>): (r: seq<byte>)
    requires off + |bytes| <= |memory|
  {
    memory[..off] + bytes + memory[off + |bytes|..]
  }

  lemma OverlaidMeans(memory: seq<byte>, off: nat, len: nat, bytes: seq<byte>)
    requires off + len <= |memory| && |bytes| <= len
    ensures var r := Overlaid(memory, off, bytes);
            |r| == |memory| && r[..off] == memory[..off] && r[off..off + len][..|bytes|] == bytes
  {
    var r := Overlaid(memory, off, bytes);
    assert |r| == |memory|;
    assert r[off..off + |bytes|] == bytes;
    assert r[off..off + len][..|bytes|] == r[off..off + |bytes|];
  }

  lemma {:induction false} FullChunks(bs: seq<Buffer>)
    requires bs != [] && AllValid(bs) && Tight(bs) && bs[0].rpos == 0
    ensures |Contents(bs)| >= (|bs| - 1) * CHUNK + 1
    decreases |bs|
  {
    assert bs[0] in bs;
    if |bs| > 1 {
      var rest := bs[1..];
      assert forall i | 0 <= i < |rest| :: rest[i] == bs[i + 1];
      FullChunks(rest);
    }
  }

  /* ---- lemmas on chunks ---- */

  lemma FrontIsApart(bs: seq<Buffer>, spares: seq<Buffer>)
    requires bs != [] && Separate(bs, spares)
    ensures bs[0] !in bs[1..] && bs[0] !in spares
  {
    assert bs[0] in bs;
  }

  lemma FrontMoves(bs: seq<Buffer>, spares: seq<Buffer>)
    requires bs != [] && Separate(bs, spares)
    ensures Separate(bs[1..], spares + [bs[0]]) && SameChunks(bs, spares, bs[1..], spares + [bs[0]])
  {
    assert bs == [bs[0]] + bs[1..];
    assert bs[0] in bs && forall b | b in bs[1..] :: b in bs;
  }

  lemma BackIsApart(bs: seq<Buffer>, spares: seq<Buffer>)
    requires bs != [] && Separate(bs, spares)
    ensures bs[|bs| - 1] in bs && bs[|bs| - 1] !in spares
    ensures forall i | 0 <= i < |bs| - 1 :: bs[i] in bs && bs[i] != bs[|bs| - 1]
  {
  }

  lemma SpareMoves(bs: seq<Buffer>, spares: seq<Buffer>)
    requires spares != [] && Separate(bs, spares)
    ensures Separate(bs + [spares[0]], spares[1..]) && SameChunks(bs, spares, bs + [spares[0]], spares[1..])
    ensures spares[0] !in bs && spares[0] !in spares[1..]
  {
    assert spares == [spares[0]] + spares[1..];
    assert spares[0] in spares && forall b | b in spares[1..] :: b in spares;
  }

  lemma TightTail(bs: seq<Buffer>)
    requires bs != [] && Tight(bs)
    ensures Tight(bs[1..])
  {
    assert forall i | 0 <= i < |bs[1..]| :: bs[1..][i] == bs[i + 1];
  }

  twostate lemma TightWithLessFront(bs: seq<Buffer>)
    requires bs != [] && old(Tight(bs)) && forall i | 1 <= i < |bs| :: unchanged(bs[i])
    requires bs[0].rpos < bs[0].wpos && bs[0].wpos == old(bs[0].wpos) && bs[0].data == old(bs[0].data)
    ensures Tight(bs)
  {
  }

  lemma SpareTail(bs: seq<Buffer>)
    requires bs != [] && AllSpare(bs)
    ensures AllSpare(bs[1..]) && bs[0].rpos == bs[0].wpos == 0 && |bs[0].data| == CHUNK
  {
    assert bs[0] in bs && forall b | b in bs[1..] :: b in bs;
  }

  lemma TightSnoc(bs: seq<Buffer>, b: Buffer)
    requires Tight(bs) && b.rpos == 0 && 0 < b.wpos && b.wpos <= CHUNK == |b.data|
    requires bs != [] ==> bs[|bs| - 1].wpos == CHUNK
    ensures Tight(bs + [b])
  {
  }

  lemma SameMembers(bs: seq<Buffer>, spares: seq<Buffer>, bs': seq<Buffer>, spares': seq<Buffer>)
    requires SameChunks(bs, spares, bs', spares')
    ensures forall b | b in bs' || b in spares' :: b in bs || b in spares
  {
    forall b | b in bs' || b in spares' ensures b in bs || b in spares {
      assert b in multiset(bs') + multiset(spares');
      assert b in multiset(bs) + multiset(spares);
    }
  }

  lemma DropTwice(all: seq<byte>, at: nat, n: nat)
    requires at <= |all| && n <= |all| - at
    ensures all[at..][n..] == all[at + n..]
  {
  }

  /** The first `count` bytes of `bytes`, or all of them. */
  function Taken(bytes: seq<byte>, count: nat): (r: seq<byte>) {
    bytes[..Min(count, |bytes|)]
  }

  /** In terms of the contents `c`: retrieving twice is retrieving the sum, and reading is peeking and then
      retrieving, with nothing lost in between. */
  lemma ConsumingIsSlicing(c: seq<byte>, a: nat, b: nat)
    ensures var rest := c[Min(a, |c|)..];
            && rest[Min(b, |rest|)..] == c[Min(a + b, |c|)..]
            && Taken(c, a) + rest == c
            && Taken(c, a) + Taken(rest, b) == Taken(c, a + b)
  {
    var rest := c[Min(a, |c|)..];
    assert |rest| == |c| - Min(a, |c|);
    assert Taken(rest, b) == c[Min(a, |c|)..Min(a + b, |c|)];
  }

  lemma TakenOfBoth(c: seq<byte>, a: seq<byte>, b: seq<byte>, count: nat)
    ensures var n := Min(|a|, count);
            if n < count then
              var m := Min(|b|, count - n);
              c + Taken(a + b, count) == c + a[..n] + b[..m] && |c + Taken(a + b, count)| == |c| + n + m
            else c + Taken(a + b, count) == c + a[..n] && |c + Taken(a + b, count)| == |c| + n
  {
  }

  lemma TakenConcat(a: seq<byte>, b: seq<byte>, count: nat)
    requires |Taken(a, count)| < count
    ensures Taken(a + b, count) == Taken(a, count) + b[..Min(|b|, count - |Taken(a, count)|)]
  {
  }
}
