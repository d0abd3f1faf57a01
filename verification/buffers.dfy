/**
 * mutable_buffer, const_buffer and sequences of them (examples/include/asio/buffer.hpp).  A buffer refers to
 * a range of somebody else's memory; a buffer sequence stands for the concatenation of its ranges.
 */
module Buffers {
  import opened Wrappers

  newtype byte = b: int | 0 <= b < 0x100

  /** The largest std::size_t. */
  const SIZE_MAX := 0xFFFF_FFFF_FFFF_FFFF

  /** One byte of memory. */
  datatype Addr = Addr(mem: array<byte>, index: int)

  /** A pointer and a size; the default buffer has a null pointer and no bytes. */
  datatype Buf = Buf(data: array?<byte>, offset: nat, size: nat) {
    ghost predicate Valid() {
      && (if data == null then offset == 0 && size == 0 else offset + size <= data.Length)
      && size <= SIZE_MAX
    }

    /** operator+ and operator+=: at most the whole buffer is skipped. */
    function Plus(n: nat): (r: Buf)
      requires Valid()
      ensures r.Valid()
    {
      var skip := Min(n, size);
      Buf(data, offset + skip, size - skip)
    }

    /** buffer(b, max_size_in_bytes). */
    function Truncate(max: nat): (r: Buf)
      requires Valid()
      ensures r.Valid()
    {
      Buf(data, offset, Min(size, max))
    }

    ghost function Addrs(): (r: seq<Addr>)
      requires Valid()
      ensures |r| == size
    {
      seq(size, i requires 0 <= i < size && data != null => Addr(data, offset + i))
    }

    ghost function Bytes(): (r: seq<byte>)
      requires Valid()
      reads data
      ensures |r| == size
    {
      if data == null then [] else data[offset..offset + size]
    }
  }

  /** operator+ drops bytes at the front, buffer(b, max) keeps some; neither reaches outside the buffer. */
  lemma SkipAndLimit(b: Buf, n: nat, max: nat)
    requires b.Valid()
    ensures b.Plus(n).Addrs() == b.Addrs()[Min(n, b.size)..]
    ensures b.Truncate(max).Addrs() == b.Addrs()[..Min(max, b.size)]
    ensures b.Plus(n).Truncate(max).Addrs() == b.Addrs()[Min(n, b.size)..Min(n + max, b.size)]
  {
  }

  ghost predicate AllValid(bs: seq<Buf>) {
    forall i | 0 <= i < |bs| :: bs[i].Valid()
  }

  /** The number of bytes before buffer j. */
  function Start(bs: seq<Buf>, j: nat): nat
    requires j <= |bs|
  {
    if j == 0 then 0 else Start(bs, j - 1) + bs[j - 1].size
  }

  function Total(bs: seq<Buf>): nat {
    Start(bs, |bs|)
  }

  lemma {:induction false} StartMonotone(bs: seq<Buf>, i: nat, j: nat)
    requires i <= j <= |bs|
    ensures Start(bs, i) <= Start(bs, j)
    decreases j
  {
    if i < j {
      StartMonotone(bs, i, j - 1);
    }
  }

  /** buffer_size: the loop over the sequence. */
  method BufferSize(bs: seq<Buf>) returns (total: nat)
    ensures total == Total(bs)
  {
    total := 0;
    for i := 0 to |bs|
      invariant total == Start(bs, i)
    {
      total := total + bs[i].size;
    }
  }

  // ---- The sequence as one stretch of bytes ----

  ghost function Arrays(bs: seq<Buf>): set<array<byte>> {
    set b | b in bs && b.data != null :: b.data
  }

  /** The bytes of the first j buffers, concatenated. */
  ghost function FlatUpTo(bs: seq<Buf>, j: nat): (r: seq<byte>)
    requires AllValid(bs) && j <= |bs|
    reads set b | b in bs && b.data != null :: b.data
    ensures |r| == Start(bs, j)
  {
    if j == 0 then [] else FlatUpTo(bs, j - 1) + bs[j - 1].Bytes()
  }

  ghost function Flat(bs: seq<Buf>): (r: seq<byte>)
    requires AllValid(bs)
    reads set b | b in bs && b.data != null :: b.data
    ensures |r| == Total(bs)
  {
    FlatUpTo(bs, |bs|)
  }

  ghost function AddrsUpTo(bs: seq<Buf>, j: nat): (r: seq<Addr>)
    requires AllValid(bs) && j <= |bs|
    ensures |r| == Start(bs, j)
  {
    if j == 0 then [] else AddrsUpTo(bs, j - 1) + bs[j - 1].Addrs()
  }

  /** Where each byte of the flat sequence lives. */
  ghost function Addrs(bs: seq<Buf>): (r: seq<Addr>)
    requires AllValid(bs)
    ensures |r| == Total(bs)
  {
    AddrsUpTo(bs, |bs|)
  }

  /** Byte o of buffer j is byte Start(bs, j) + o of the sequence. */
  lemma {:induction false} AddrAt(bs: seq<Buf>, k: nat, j: nat, o: nat)
    requires AllValid(bs) && j < k <= |bs| && o < bs[j].size
    ensures Start(bs, j) + o < Start(bs, k)
    ensures bs[j].data != null && AddrsUpTo(bs, k)[Start(bs, j) + o] == Addr(bs[j].data, bs[j].offset + o)
  {
    if j < k - 1 {
      AddrAt(bs, k - 1, j, o);
    }
  }

  lemma {:induction false} FlatAt(bs: seq<Buf>, k: nat, j: nat, o: nat)
    requires AllValid(bs) && j < k <= |bs| && o < bs[j].size
    ensures Start(bs, j) + o < Start(bs, k)
    ensures FlatUpTo(bs, k)[Start(bs, j) + o] == bs[j].Bytes()[o]
  {
    hide Buf.Bytes;
    if j < k - 1 {
      FlatAt(bs, k - 1, j, o);
    }
  }

  /** The stretch of the flat sequence that buffer j covers. */
  lemma {:induction false} AddrsOfBuffer(bs: seq<Buf>, j: nat)
    requires AllValid(bs) && j < |bs|
    ensures Start(bs, j) + bs[j].size <= Total(bs)
    ensures Addrs(bs)[Start(bs, j)..Start(bs, j) + bs[j].size] == bs[j].Addrs()
  {
    hide AddrsUpTo;
    StartMonotone(bs, j + 1, |bs|);
    forall o | 0 <= o < bs[j].size ensures Addrs(bs)[Start(bs, j) + o] == bs[j].Addrs()[o] {
      AddrAt(bs, |bs|, j, o);
    }
  }
}
