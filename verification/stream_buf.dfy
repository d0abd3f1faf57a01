/**
 * basic_streambuf (examples/include/asio/basic_streambuf.hpp): one contiguous array with a get area
 * [gptr, egptr) and a put area [pptr, epptr), shifted and grown in place.
 */
module StreamBufs {
  import opened Wrappers
  import opened Buffers

  const BUFFER_DELTA := 128

  /** What memmove over itself leaves of the unread bytes if the cursors then stay where they were. */
  function Garbled(unread: seq<byte>, g: nat): seq<byte> {
    if 0 < g < |unread| then unread[g..] + unread[|unread| - g..] else unread
  }

  /**
   * A refused reserve leaves the unread bytes alone, whatever they are, exactly when the get area starts the array or
   * is no longer than what precedes it.
   */
  lemma GarbledUnchangedIff(n: nat, g: nat)
    ensures (forall unread: seq<byte> | |unread| == n :: Garbled(unread, g) == unread) <==> g == 0 || n <= g
  {
    if 0 < g < n {
      var unread := seq(n, i => if i == 0 then 1 as byte else 0 as byte);
      assert Garbled(unread, g)[0] == 0 as byte;
      assert Garbled(unread, g) != unread;
    }
  }

  lemma ViewAfterMove(s: seq<byte>, g: nat, p: nat)
    requires 0 < g <= p <= |s|
    ensures var moved := s[g..p] + s[p - g..];
            && moved[..p - g] == s[g..p]
            && moved[g..p] == Garbled(s[g..p], g)
  {
  }

  class StreamBuf {
    const maxSize: nat         // max_size_
    var buffer: array<byte>    // buffer_'s storage; its Length is the vector's capacity
    var length: nat            // buffer_.size()
    // The four cursors as offsets into the storage; eback() is always its start.
    var gptr: nat
    var egptr: nat
    var pptr: nat
    var epptr: nat

    ghost predicate Valid()
      reads this
    {
      && gptr <= egptr <= pptr <= epptr <= maxSize
      && length == Max(epptr, 1) <= buffer.Length
    }

    /** The input sequence: the bytes committed and not yet consumed. */
    ghost function Contents(): (r: seq<byte>)
      requires Valid()
      reads this, buffer
      ensures |r| == Size() <= maxSize
    {
      buffer[gptr..pptr]
    }

    function Size(): nat
      requires Valid()
      reads this
    {
      pptr - gptr
    }

    constructor (maximumSize: nat)
      ensures Valid() && fresh(buffer)
      ensures Contents() == [] && maxSize == maximumSize
      ensures gptr == egptr == pptr == 0 && epptr == Min(maximumSize, 128)
    {
      maxSize := maximumSize;
      var pend := Min(maximumSize, BUFFER_DELTA);
      buffer := new byte[Max(pend, 1)];
      length := Max(pend, 1);
      gptr, egptr, pptr, epptr := 0, 0, 0, pend;
    }

    /** std::vector::resize: in place if the capacity suffices, else by moving to larger storage. */
    method Resize(n: nat)
      requires length <= buffer.Length && length <= n
      modifies this, buffer
      ensures length == n <= buffer.Length
      ensures buffer == old(buffer) || fresh(buffer)
      ensures n <= old(buffer.Length) ==> buffer == old(buffer)
      ensures buffer[..old(length)] == old(buffer[..length])
      ensures forall i | old(length) <= i < n :: buffer[i] == 0
      ensures gptr == old(gptr) && egptr == old(egptr) && pptr == old(pptr) && epptr == old(epptr)
    {
      if n > buffer.Length {
        var capacity: nat :| capacity >= n;
        var storage := new byte[capacity];
        forall i | 0 <= i < length {
          storage[i] := buffer[i];
        }
        buffer := storage;
      }
      forall i | length <= i < n {
        buffer[i] := 0;
      }
      length := n;
    }

    /** memmove: the n bytes from offset g on are copied to the front, over themselves. */
    method MoveToFront(g: nat, n: nat)
      requires g + n <= buffer.Length
      modifies buffer
      ensures buffer[..] == old(buffer[g..g + n] + buffer[n..])
    {
      forall i | 0 <= i < n {
        buffer[i] := buffer[g + i];
      }
    }

    /**
     * The shift, before any cursor is set: the unread bytes are at the front, and the get area shows what was moved.
     * Returns where the put area would start.
     */
    method ShiftUnread() returns (pnext: nat)
      requires Valid()
      modifies buffer
      ensures pnext == Size() && buffer[..pnext] == old(Contents())
      ensures Contents() == Garbled(old(Contents()), gptr)
    {
      pnext := pptr;
      if gptr > 0 {
        pnext := pptr - gptr;
        MoveToFront(gptr, pptr - gptr);
        ViewAfterMove(old(buffer[..]), gptr, pptr);
      }
    }

    /** setg and setp with the get area at the front. */
    method SetAreas(pnext: nat, pend: nat)
      requires pnext <= pend <= maxSize && length == Max(pend, 1) <= buffer.Length
      modifies this
      ensures Valid() && buffer == old(buffer) && Contents() == buffer[..pnext]
      ensures gptr == 0 && egptr == pptr == pnext && epptr == pend
    {
      gptr, egptr := 0, pnext;
      pptr, epptr := pnext, pend;
    }

    /**
     * Makes room for n bytes, by shifting the unread bytes to the front and growing the array.  A refusal comes
     * after the shift and before the cursors are set.
     */
    method Reserve(n: nat) returns (ok: bool)
      requires Valid()
      modifies this, buffer
      ensures Valid() && (buffer == old(buffer) || fresh(buffer))
      ensures ok <==> old(Size()) + n <= maxSize
      ensures ok ==> Contents() == old(Contents()) && epptr - pptr >= n
      ensures ok && n <= old(epptr - pptr) ==>
                buffer == old(buffer) && gptr == old(gptr) && egptr == old(egptr) && pptr == old(pptr) && epptr == old(epptr)
      ensures ok && n > old(epptr - pptr) ==>
                && gptr == 0 && egptr == pptr == old(Size())
                && epptr == Max(old(epptr), old(Size()) + n)
      ensures !ok ==> Contents() == Garbled(old(Contents()), old(gptr))
      ensures !ok ==> buffer == old(buffer) && length == old(length)
      ensures !ok ==> gptr == old(gptr) && egptr == old(egptr) && pptr == old(pptr) && epptr == old(epptr)
    {
      hide Garbled;
      var pend := epptr;
      if n <= pend - pptr {
        return true;
      }
      var pnext := ShiftUnread();
      if n > pend - pnext {
        if n <= maxSize && pnext <= maxSize - n {
          pend := pnext + n;
          ghost var kept := buffer[..length];
          Resize(Max(pend, 1));
          assert buffer[..pnext] == kept[..pnext];
        } else {
          return false;
        }
      }
      SetAreas(pnext, pend);
      ok := true;
    }

    /** prepare(n): the region to write to, or None for std::length_error. */
    method Prepare(n: nat) returns (r: Option<Buf>)
      requires Valid()
      modifies this, buffer
      ensures Valid() && (buffer == old(buffer) || fresh(buffer))
      ensures r.Some? <==> old(Size()) + n <= maxSize
      ensures r.Some? ==> Contents() == old(Contents())
      ensures r.Some? ==> egptr == if n <= old(epptr - pptr) then old(egptr) else pptr
      ensures r.Some? ==> epptr == if n <= old(epptr - pptr) then old(epptr) else Max(old(epptr), pptr + n)
      ensures r.Some? ==> gptr == if n <= old(epptr - pptr) then old(gptr) else 0
      ensures r.Some? ==> r.value == Buf(buffer, pptr, n) && pptr + n <= epptr
      ensures r.None? ==> Contents() == Garbled(old(Contents()), old(gptr))
    {
      var ok := Reserve(n);
      r := if ok then Some(Buf(buffer, pptr, n)) else None;
    }

    /** commit(n): the first bytes of the put area join the input sequence. */
    method Commit(n: nat)
      requires Valid()
      modifies this
      ensures Valid() && buffer == old(buffer)
      ensures Contents() == old(Contents()) + old(buffer[pptr..pptr + Min(n, epptr - pptr)])
      ensures gptr == old(gptr) && egptr == pptr && epptr == old(epptr)
    {
      var m := Min(n, epptr - pptr);
      pptr := pptr + m;
      egptr := pptr;
    }

    /** consume(n): at most everything. */
    method Consume(n: nat)
      requires Valid()
      modifies this
      ensures Valid() && buffer == old(buffer)
      ensures Contents() == old(Contents())[Min(n, old(Size()))..]
      ensures gptr == old(gptr) + Min(n, old(Size())) && egptr == pptr == old(pptr) && epptr == old(epptr)
    {
      if egptr < pptr {
        egptr := pptr;
      }
      var m := n;
      if gptr + n > pptr {
        m := pptr - gptr;
      }
      gptr := gptr + m;
    }

    /** underflow(): the byte at the front, with the get area opened up to everything committed, or None for eof. */
    method Underflow() returns (r: Option<byte>)
      requires Valid()
      modifies this
      ensures Valid() && buffer == old(buffer) && Contents() == old(Contents())
      ensures r == if Contents() == [] then None else Some(Contents()[0])
      ensures r.Some? ==> gptr < egptr == pptr
      ensures gptr == old(gptr) && pptr == old(pptr) && epptr == old(epptr) && (r.None? ==> egptr == old(egptr))
    {
      if gptr < pptr {
        egptr := pptr;
        r := Some(buffer[gptr]);
      } else {
        r := None;
      }
    }

    /** *pptr() = c, pbump(1). */
    method Store(c: byte)
      requires Valid() && pptr < epptr
      modifies this, buffer
      ensures Valid() && buffer == old(buffer)
      ensures Contents() == old(Contents()) + [c]
      ensures gptr == old(gptr) && egptr == old(egptr) && pptr == old(pptr) + 1 && epptr == old(epptr)
    {
      buffer[pptr] := c;
      pptr := pptr + 1;
    }

    /** overflow(c), where None is eof; false for std::length_error.  A byte that fits is never refused. */
    method Overflow(c: Option<byte>) returns (ok: bool)
      requires Valid()
      modifies this, buffer
      ensures Valid() && (buffer == old(buffer) || fresh(buffer))
      ensures ok <==> c.None? || old(Size()) < maxSize
      ensures ok ==> Contents() == old(Contents()) + if c.Some? then [c.value] else []
      ensures !ok ==> Contents() == Garbled(old(Contents()), old(gptr))
      ensures c.None? || old(pptr < epptr) ==> gptr == old(gptr) && egptr == old(egptr) && epptr == old(epptr)
      ensures ok && c.Some? && old(pptr == epptr) ==>
                && gptr == 0 && egptr == old(Size())
                && epptr == Max(old(epptr), Min(old(Size()) + 128, maxSize))
    {
      if c.None? {
        return true;
      }
      if pptr == epptr {
        var bufferSize := pptr - gptr;
        if bufferSize < maxSize && maxSize - bufferSize < BUFFER_DELTA {
          ok := Reserve(maxSize - bufferSize);
        } else {
          ok := Reserve(BUFFER_DELTA);
        }
        if !ok {
          return;
        }
      }
      Store(c.value);
      ok := true;
    }

    /**
     * read_size_helper: within what was asked for and the maximum, 512 bytes, or more if the array has room for more
     * behind the unread bytes.
     */
    method ReadSizeHelper(maxRequested: nat) returns (n: nat)
      requires Valid()
      ensures n <= maxRequested && Size() + n <= maxSize
      ensures n <= 512 || Size() + n <= buffer.Length
      ensures n == maxRequested || Size() + n == maxSize || (n >= 512 && Size() + n >= buffer.Length)
    {
      assert Size() <= buffer.Length && Size() <= maxSize; // neither difference wraps
      n := Min(Max(512, buffer.Length - Size()), Min(maxRequested, maxSize - Size()));
    }
  }

  /** The caller fills the region that prepare returned. */
  method Fill(sb: StreamBuf, region: Buf, bytes: seq<byte>)
    requires sb.Valid() && region.data == sb.buffer && region.offset == sb.pptr && |bytes| == region.size
    requires sb.pptr + |bytes| <= sb.epptr
    modifies sb.buffer
    ensures sb.Valid() && sb.Contents() == old(sb.Contents())
    ensures sb.buffer[sb.pptr..sb.pptr + |bytes|] == bytes
  {
    forall i | 0 <= i < |bytes| {
      sb.buffer[region.offset + i] := bytes[i];
    }
  }

  /** The caller fills the prepared region and commits some of it. */
  method FillAndCommit(sb: StreamBuf, region: Buf, bytes: seq<byte>, commit: nat)
    requires sb.Valid() && region == Buf(sb.buffer, sb.pptr, |bytes|) && sb.pptr + |bytes| <= sb.epptr
    requires commit <= |bytes|
    modifies sb, sb.buffer
    ensures sb.Valid() && sb.buffer == old(sb.buffer)
    ensures sb.Contents() == old(sb.Contents()) + bytes[..commit] && sb.gptr == old(sb.gptr)
  {
    Fill(sb, region, bytes);
    assert sb.buffer[sb.pptr..sb.pptr + commit] == sb.buffer[sb.pptr..sb.pptr + |bytes|][..commit];
    sb.Commit(commit);
  }

  lemma GarbledPair(x: byte, y: byte, z: byte)
    ensures [x, y, z][..3] == [x, y, z] && [x, y, z][1..] == [y, z] && Garbled([y, z], 1) == [z, z]
  {
  }

  /** A prepare that throws and changes the unread bytes: of y and z, the first is lost and the second there twice. */
  method RefusedPrepareGarbles(x: byte, y: byte, z: byte) returns (refused: bool, before: seq<byte>, after: seq<byte>)
    ensures refused && before == [y, z] && after == [z, z]
  {
    hide Garbled, StreamBuf.Contents;
    GarbledPair(x, y, z);
    var bytes := [x, y, z];
    var sb := new StreamBuf(|bytes|);
    var region := sb.Prepare(|bytes|);
    FillAndCommit(sb, region.value, bytes, |bytes|);
    assert [] + bytes == bytes;
    sb.Consume(1);
    before := Unread(sb);
    region := sb.Prepare(100);
    refused := region.None?;
    after := Unread(sb);
  }

  method Unread(sb: StreamBuf) returns (bytes: seq<byte>)
    requires sb.Valid()
    ensures bytes == sb.Contents()
  {
    bytes := sb.buffer[sb.gptr..sb.pptr];
  }

  /** The size read_size_helper chooses can always be prepared. */
  method PrepareForRead(sb: StreamBuf, maxRequested: nat) returns (r: Buf)
    requires sb.Valid()
    modifies sb, sb.buffer
    ensures sb.Valid() && sb.Contents() == old(sb.Contents())
    ensures r.size <= maxRequested && r.data == sb.buffer && r.offset == sb.pptr
    ensures r.size >= Min(512, Min(maxRequested, sb.maxSize - sb.Size()))
  {
    var n := sb.ReadSizeHelper(maxRequested);
    var p := sb.Prepare(n);
    r := p.value;
  }
}
