/** One chunk of a send or receive queue (nutty/net/Buffer.h, nutty/net/Buffer.cpp) and the scatter and
    gather vectors handed to the system. */
module Buffers {
  newtype byte = x: int | 0 <= x < 256

  class Buffer {
    var data: seq<byte>      // buffer_: the chunk's own memory, of fixed capacity
    var rpos: nat
    var wpos: nat

    ghost predicate Valid()
      reads this
    {
      rpos <= wpos <= |data|
    }

    ghost function Readable(): (r: seq<byte>)
      requires Valid()
      reads this
    {
      data[rpos..wpos]
    }

    constructor (capacity: nat)
      ensures Valid() && |data| == capacity && rpos == wpos == 0
    {
      data := seq(capacity, _ => 0);
      rpos, wpos := 0, 0;
    }

    constructor Copy(bytes: seq<byte>)
      ensures Valid() && data == bytes && rpos == 0 && wpos == |bytes| && Readable() == bytes
    {
      data := bytes;
      rpos, wpos := 0, |bytes|;
    }

    /** Takes over the other buffer's memory and leaves it empty. */
    constructor Move(other: Buffer)
      requires other.Valid()
      modifies other
      ensures Valid() && data == old(other.data) && rpos == old(other.rpos) && wpos == old(other.wpos)
      ensures Readable() == old(other.Readable())
      ensures other.Valid() && other.data == []
    {
      data, rpos, wpos := other.data, other.rpos, other.wpos;
      new;
      other.data, other.rpos, other.wpos := [], 0, 0;
    }

    function ReadableSize(): nat
      requires Valid()
      reads this
    {
      wpos - rpos
    }

    function WritableSize(): nat
      requires Valid()
      reads this
    {
      |data| - wpos
    }

    predicate IsEmpty()
      reads this
    {
      rpos == wpos
    }

    method HasRead(count: nat)
      requires Valid() && count <= ReadableSize()
      modifies this
      ensures Valid() && Readable() == old(Readable())[count..]
      ensures data == old(data) && wpos == old(wpos) && rpos == old(rpos) + count
    {
      rpos := rpos + count;
    }

    /** The next `count` bytes of memory become readable. */
    method HasWritten(count: nat)
      requires Valid() && count <= WritableSize()
      modifies this
      ensures Valid() && data == old(data) && rpos == old(rpos) && wpos == old(wpos) + count
      ensures Readable() == old(Readable()) + data[old(wpos)..wpos]
    {
      wpos := wpos + count;
    }

    method Reset()
      modifies this
      ensures Valid() && data == old(data) && rpos == wpos == 0
    {
      rpos, wpos := 0, 0;
    }
  }

  /** One `struct iovec`: `len` bytes of a chunk's memory, from offset `off`. */
  datatype IoVec = IoVec(base: Buffer, off: nat, len: nat) {
    ghost predicate Valid()
      reads base
    {
      off + len <= |base.data|
    }

    ghost function Bytes(): (r: seq<byte>)
      requires Valid()
      reads base
      ensures |r| == len
    {
      base.data[off..off + len]
    }
  }

  ghost predicate ValidVecs(iov: seq<IoVec>)
    reads set v | v in iov :: v.base
  {
    forall v | v in iov :: v.Valid()
  }

  /** The bytes that a gather of `iov` transfers. */
  ghost function Gathered(iov: seq<IoVec>): (r: seq<byte>)
    requires ValidVecs(iov)
    reads set v | v in iov :: v.base
  {
    if iov == [] then [] else iov[0].Bytes() + Gathered(iov[1..])
  }

  function TotalLen(iov: seq<IoVec>): (n: nat) {
    if iov == [] then 0 else iov[0].len + TotalLen(iov[1..])
  }

  lemma {:induction false} GatheredLength(iov: seq<IoVec>)
    requires ValidVecs(iov)
    ensures |Gathered(iov)| == TotalLen(iov)
    decreases |iov|
  {
    if iov != [] {
      GatheredLength(iov[1..]);
    }
  }

  lemma {:induction false} GatheredConcat(a: seq<IoVec>, b: seq<IoVec>)
    requires ValidVecs(a) && ValidVecs(b)
    ensures Gathered(a + b) == Gathered(a) + Gathered(b)
    decreases |a|
  {
    if a == [] {
      assert a + b == b;
    } else {
      GatheredConcat(a[1..], b);
      assert (a + b)[1..] == a[1..] + b;
    }
  }

  lemma {:induction false} TotalLenConcat(a: seq<IoVec>, b: seq<IoVec>)
    ensures TotalLen(a + b) == TotalLen(a) + TotalLen(b)
    decreases |a|
  {
    if a == [] {
      assert a + b == b;
    } else {
      TotalLenConcat(a[1..], b);
      assert (a + b)[1..] == a[1..] + b;
    }
  }

  lemma GatheredOne(v: IoVec)
    requires v.Valid()
    ensures Gathered([v]) == v.Bytes() && TotalLen([v]) == v.len
  {
    assert [v][1..] == [];
  }

  /* ---- a queue of chunks ---- */

  ghost predicate AllValid(bs: seq<Buffer>)
    reads bs
  {
    forall b | b in bs :: b.Valid()
  }

  /** What the chunks hold, front to back. */
  ghost function Contents(bs: seq<Buffer>): (r: seq<byte>)
    requires AllValid(bs)
    reads bs
  {
    if bs == [] then [] else bs[0].Readable() + Contents(bs[1..])
  }

  lemma {:induction false} ContentsConcat(a: seq<Buffer>, b: seq<Buffer>)
    requires AllValid(a) && AllValid(b)
    ensures Contents(a + b) == Contents(a) + Contents(b)
    decreases |a|
  {
    if a == [] {
      assert a + b == b;
    } else {
      ContentsConcat(a[1..], b);
      assert (a + b)[1..] == a[1..] + b;
      assert (a + b)[0] == a[0];
    }
  }

  lemma ContentsSnoc(a: seq<Buffer>, b: Buffer)
    requires AllValid(a) && b.Valid()
    ensures Contents(a + [b]) == Contents(a) + b.Readable()
  {
    ContentsConcat(a, [b]);
    assert [b][1..] == [];
  }

  ghost predicate DistinctBuffers(bs: seq<Buffer>) {
    forall i, j | 0 <= i < j < |bs| :: bs[i] != bs[j]
  }

  /** The vector of a chunk's readable bytes. */
  ghost function ReadVec(b: Buffer): (v: IoVec)
    requires b.Valid()
    reads b
  {
    IoVec(b, b.rpos, b.wpos - b.rpos)
  }

  lemma NothingGathered()
    ensures Gathered([]) == [] && Contents([]) == []
  {
  }

  /** Gathering one chunk more. */
  lemma GatherNext(bs: seq<Buffer>, i: nat, iov: seq<IoVec>)
    requires i < |bs| && AllValid(bs) && ValidVecs(iov) && Gathered(iov) == Contents(bs[..i])
    ensures ValidVecs(iov + [ReadVec(bs[i])])
    ensures Gathered(iov + [ReadVec(bs[i])]) == Contents(bs[..i + 1])
    ensures TotalLen(iov + [ReadVec(bs[i])]) == TotalLen(iov) + bs[i].ReadableSize()
  {
    hide Gathered, TotalLen, Contents;
    var v := ReadVec(bs[i]);
    GatheredConcat(iov, [v]);
    TotalLenConcat(iov, [v]);
    GatheredOne(v);
    ContentsSnoc(bs[..i], bs[i]);
    assert bs[..i + 1] == bs[..i] + [bs[i]];
  }

  lemma ContentsPrefix(bs: seq<Buffer>, i: nat)
    requires i <= |bs| && AllValid(bs)
    ensures Contents(bs[..i]) <= Contents(bs)
    ensures i == |bs| ==> Contents(bs[..i]) == Contents(bs)
  {
    ContentsConcat(bs[..i], bs[i..]);
    assert bs[..i] + bs[i..] == bs;
    assert i == |bs| ==> bs[..i] == bs;
  }
}
