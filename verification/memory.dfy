/**
 * Memory as a value: what the arrays of some region contain at one moment.  A copy is specified by the
 * memory after it as a function of the memory before it.
 */
module Memories {
  import opened Buffers

  type Memory = map<array<byte>, seq<byte>>

  ghost function Snapshot(region: set<array<byte>>): Memory
    reads region
  {
    map a | a in region :: a[..]
  }

  ghost predicate InMemory(m: Memory, x: Addr) {
    x.mem in m && 0 <= x.index < |m[x.mem]|
  }

  ghost function Peek(m: Memory, x: Addr): byte
    requires InMemory(m, x)
  {
    m[x.mem][x.index]
  }

  ghost predicate AllInMemory(m: Memory, addrs: seq<Addr>) {
    forall k | 0 <= k < |addrs| :: InMemory(m, addrs[k])
  }

  ghost function ReadAll(m: Memory, addrs: seq<Addr>): seq<byte>
    requires AllInMemory(m, addrs)
  {
    seq(|addrs|, k requires 0 <= k < |addrs| => Peek(m, addrs[k]))
  }

  ghost predicate Distinct(addrs: seq<Addr>) {
    forall i, j | 0 <= i < j < |addrs| :: addrs[i] != addrs[j]
  }

  ghost predicate Apart(xs: seq<Addr>, ys: seq<Addr>) {
    forall i, j | 0 <= i < |xs| && 0 <= j < |ys| :: xs[i] != ys[j]
  }

  ghost predicate SameLayout(after: Memory, before: Memory) {
    && after.Keys == before.Keys
    && forall a | a in before :: |after[a]| == |before[a]|
  }

  /** bytes are stored at addrs, and every other byte is as before. */
  ghost predicate Overwrites(after: Memory, before: Memory, addrs: seq<Addr>, bytes: seq<byte>) {
    && |addrs| == |bytes|
    && SameLayout(after, before)
    && AllInMemory(before, addrs)
    && (forall k | 0 <= k < |addrs| :: Peek(after, addrs[k]) == bytes[k])
    && (forall a, i | a in before && 0 <= i < |before[a]| && Addr(a, i) !in addrs :: after[a][i] == before[a][i])
  }

  /** The memory afterwards is determined. */
  lemma OverwritesIsDeterministic(m1: Memory, m2: Memory, m: Memory, addrs: seq<Addr>, bytes: seq<byte>)
    requires Overwrites(m1, m, addrs, bytes) && Overwrites(m2, m, addrs, bytes)
    ensures m1 == m2
  {
    forall a | a in m ensures m1[a] == m2[a] {
      forall i | 0 <= i < |m[a]| ensures m1[a][i] == m2[a][i] {
        if Addr(a, i) in addrs {
          var k :| 0 <= k < |addrs| && addrs[k] == Addr(a, i);
          assert Peek(m1, addrs[k]) == Peek(m2, addrs[k]);
        }
      }
    }
  }

  lemma OverwritesNothing(m: Memory)
    ensures Overwrites(m, m, [], [])
  {
  }

  /** What was not overwritten reads as before. */
  lemma ReadsAsBefore(after: Memory, before: Memory, addrs: seq<Addr>, bytes: seq<byte>, others: seq<Addr>)
    requires Overwrites(after, before, addrs, bytes) && Apart(addrs, others)
    requires AllInMemory(before, others) || AllInMemory(after, others)
    ensures AllInMemory(before, others) && AllInMemory(after, others)
    ensures ReadAll(after, others) == ReadAll(before, others)
  {
    forall k | 0 <= k < |others| ensures InMemory(before, others[k]) && Peek(after, others[k]) == Peek(before, others[k]) {
      assert InMemory(before, others[k]) || InMemory(after, others[k]);
      assert others[k] !in addrs;
      assert others[k] == Addr(others[k].mem, others[k].index);
    }
  }

  /** Two overwrites of different bytes are one. */
  lemma OverwritesCompose(m2: Memory, m1: Memory, m0: Memory, xs: seq<Addr>, bx: seq<byte>, ys: seq<Addr>, bz: seq<byte>)
    requires Overwrites(m1, m0, xs, bx) && Overwrites(m2, m1, ys, bz) && Apart(xs, ys)
    ensures Overwrites(m2, m0, xs + ys, bx + bz)
  {
    forall k | 0 <= k < |xs| ensures Peek(m2, xs[k]) == bx[k] {
      assert xs[k] !in ys;
      assert xs[k] == Addr(xs[k].mem, xs[k].index);
      assert Peek(m1, xs[k]) == bx[k];
    }
  }

  // ---- Buffers in memory ----

  ghost predicate Within(bs: seq<Buf>, region: set<array<byte>>) {
    forall i | 0 <= i < |bs| :: bs[i].data != null ==> bs[i].data in region
  }

  lemma BufferIsRead(region: set<array<byte>>, b: Buf)
    requires b.Valid() && (b.data != null ==> b.data in region)
    ensures AllInMemory(Snapshot(region), b.Addrs())
    ensures b.Bytes() == ReadAll(Snapshot(region), b.Addrs())
  {
  }

  lemma ReadConcat(m: Memory, xs: seq<Addr>, ys: seq<Addr>)
    requires AllInMemory(m, xs) && AllInMemory(m, ys)
    ensures AllInMemory(m, xs + ys)
    ensures ReadAll(m, xs + ys) == ReadAll(m, xs) + ReadAll(m, ys)
  {
  }

  /** The flat bytes of a sequence are what memory holds at its addresses. */
  lemma {:induction false} FlatIsRead(region: set<array<byte>>, bs: seq<Buf>, j: nat)
    requires AllValid(bs) && j <= |bs| && Within(bs, region)
    ensures AllInMemory(Snapshot(region), AddrsUpTo(bs, j))
    ensures FlatUpTo(bs, j) == ReadAll(Snapshot(region), AddrsUpTo(bs, j))
  {
    hide Snapshot, Buf.Bytes, Buf.Addrs, Start;
    if j > 0 {
      FlatIsRead(region, bs, j - 1);
      var b := bs[j - 1];
      BufferIsRead(region, b);
      ReadConcat(Snapshot(region), AddrsUpTo(bs, j - 1), b.Addrs());
    }
  }
}
