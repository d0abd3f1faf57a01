/**
 * dynamic_vector_buffer and dynamic_string_buffer (examples/include/asio/buffer.hpp) as DynamicBuffer_v1:
 * an external vector whose first size_ bytes are the input sequence.
 */
module DynamicBuffers {
  import opened Wrappers
  import opened Buffers

  /** The std::vector or std::basic_string adapted. */
  class Storage {
    var elems: seq<byte>

    constructor (initial: seq<byte>)
      ensures elems == initial
    {
      elems := initial;
    }

    /** resize(n): new elements are zero. */
    method Resize(n: nat)
      modifies this
      ensures elems == Resized(old(elems), n)
    {
      elems := Resized(elems, n);
    }
  }

  function Resized(s: seq<byte>, n: nat): (r: seq<byte>)
    ensures |r| == n && r[..Min(|s|, n)] == s[..Min(|s|, n)]
    ensures forall i | |s| <= i < n :: r[i] == 0
  {
    if n <= |s| then s[..n] else s + seq(n - |s|, _ => 0 as byte)
  }

  datatype Kind = VectorBacked | StringBacked

  /** How many bytes consume(n) erases from storage of the given length while v1 behaviour is still off. */
  function Erased(kind: Kind, length: nat, maxSize: nat, n: nat): nat {
    match kind
    case VectorBacked => Min(Min(length, maxSize), n)   // min(size(), n)
    case StringBacked => Min(length, n)                 // string_.erase(0, n)
  }

  /**
   * The two classes consume alike, for every n, exactly when the adapted storage is within the maximum; for a
   * given n they also do if n is.
   */
  lemma ConsumeAgreesIff(length: nat, maxSize: nat)
    ensures (forall n: nat :: Erased(VectorBacked, length, maxSize, n) == Erased(StringBacked, length, maxSize, n))
            <==> length <= maxSize
    ensures forall n: nat | n <= maxSize ::
              Erased(VectorBacked, length, maxSize, n) == Erased(StringBacked, length, maxSize, n)
  {
    if length > maxSize {
      assert Erased(VectorBacked, length, maxSize, length) != Erased(StringBacked, length, maxSize, length);
    }
  }

  class DynamicBuffer {
    const kind: Kind
    const storage: Storage       // vector_ or string_, a reference
    const maxSize: nat           // max_size_
    var inputSize: Option<nat>   // size_; None is the sentinel that v1 behaviour is off

    ghost predicate Valid()
      reads this, storage
    {
      inputSize.Some? ==> inputSize.value <= |storage.elems|
    }

    /** data(): buffer(vector_, size_). */
    ghost function Contents(): seq<byte>
      requires Valid()
      reads this, storage
    {
      if inputSize.Some? then storage.elems[..inputSize.value] else storage.elems
    }

    constructor (kind: Kind, storage: Storage, maximumSize: nat)
      ensures Valid() && Contents() == storage.elems
      ensures this.storage == storage && this.kind == kind && maxSize == maximumSize && inputSize.None?
    {
      this.kind, this.storage, maxSize, inputSize := kind, storage, maximumSize, None;
    }

    /** size(). */
    function Size(): nat
      reads this, storage
    {
      if inputSize.Some? then inputSize.value else Min(|storage.elems|, maxSize)
    }

    /**
     * prepare(n): the offset of the output sequence, or None for std::length_error.  The promised
     * size() + n <= max_size() holds afterwards exactly if the contents were within the maximum before.
     */
    method Prepare(n: nat) returns (r: Option<nat>)
      requires Valid()
      modifies this, storage
      ensures Valid() && Contents() == old(Contents())
      ensures r.Some? <==> old(Size()) + n <= maxSize
      ensures r.Some? ==> inputSize == r == Some(|Contents()|) && |storage.elems| == Size() + n
      ensures r.Some? ==> forall i | old(|storage.elems|) <= i < |storage.elems| :: storage.elems[i] == 0
      ensures r.None? ==> inputSize == old(inputSize) && storage.elems == old(storage.elems)
      ensures r.Some? ==> (Size() + n <= maxSize <==> old(|Contents()|) <= maxSize)
    {
      if Size() > maxSize || maxSize - Size() < n {
        return None;
      }
      if inputSize.None? {
        inputSize := Some(|storage.elems|);
      }
      storage.Resize(inputSize.value + n);
      r := Some(inputSize.value);
    }

    /** The caller writes to the region prepare returned. */
    method Write(offset: nat, bytes: seq<byte>)
      requires Valid() && inputSize == Some(offset) && offset + |bytes| <= |storage.elems|
      modifies storage
      ensures Valid() && Contents() == old(Contents())
      ensures |storage.elems| == old(|storage.elems|)
      ensures storage.elems[offset..offset + |bytes|] == bytes
    {
      storage.elems := storage.elems[..offset] + bytes + storage.elems[offset + |bytes|..];
    }

    /** commit(n), after a prepare: the rest of the output sequence is discarded. */
    method Commit(n: nat)
      requires Valid() && inputSize.Some?
      modifies this, storage
      ensures Valid() && inputSize.Some?
      ensures Contents() == storage.elems
      ensures Contents() == old(Contents()) + old(storage.elems[inputSize.value..][..Min(n, |storage.elems| - inputSize.value)])
    {
      inputSize := Some(inputSize.value + Min(n, |storage.elems| - inputSize.value));
      storage.Resize(inputSize.value);
    }

    /** consume(n). */
    method Consume(n: nat)
      requires Valid()
      modifies this, storage
      ensures Valid()
      ensures old(inputSize).Some? ==> Contents() == old(Contents())[Min(n, old(|Contents()|))..]
      ensures old(inputSize).None? ==> Contents() == old(Contents())[Erased(kind, old(|Contents()|), maxSize, n)..]
    {
      if inputSize.Some? {
        var length := Min(n, inputSize.value);
        storage.elems := storage.elems[length..];
        inputSize := Some(inputSize.value - length);
        return;
      }
      match kind
      case VectorBacked => storage.elems := storage.elems[Min(Size(), n)..];
      case StringBacked => storage.elems := storage.elems[Min(|storage.elems|, n)..];
    }
  }

  /** A concrete storage over the maximum: prepare(0) is accepted, and then size() exceeds max_size(). */
  method OversizedStorageIsAccepted() returns (size: nat, max: nat)
    ensures size > max
  {
    var v := new Storage([1, 2, 3, 4, 5]);
    var d := new DynamicBuffer(VectorBacked, v, 3);
    var r := d.Prepare(0);
    size, max := d.Size(), d.maxSize;
  }
}
