/**
 * buffer_copy and its six overloads (examples/include/asio/buffer.hpp), all proved against one flat
 * specification: the first k bytes of the target sequence become the first k bytes of the source
 * sequence, where k is the least of the two sizes and the limit, and no other byte of memory changes.
 */
module BufferCopying {
  import opened Wrappers
  import opened Buffers
  import opened Memories

  /** memcpy's requirement: targets overlap neither each other nor a source. */
  ghost predicate CanCopy(t: seq<Buf>, s: seq<Buf>) {
    && AllValid(t) && AllValid(s)
    && Distinct(Addrs(t))
    && Apart(Addrs(t), Addrs(s))
  }

  /** The flat specification. */
  ghost predicate Copied(after: Memory, before: Memory, t: seq<Buf>, s: seq<Buf>, k: nat) {
    && AllValid(t) && AllValid(s)
    && k <= Total(t) && k <= Total(s)
    && AllInMemory(before, Addrs(s))
    && Overwrites(after, before, Addrs(t)[..k], ReadAll(before, Addrs(s))[..k])
  }

  ghost function Region(t: seq<Buf>, s: seq<Buf>): set<array<byte>> {
    Arrays(t) + Arrays(s)
  }

  // ---- What the specification says ----

  /** The source is intact; the target is the copied bytes followed by what it held after them. */
  lemma CopiedFlat(after: Memory, before: Memory, t: seq<Buf>, s: seq<Buf>, k: nat)
    requires CanCopy(t, s) && AllInMemory(before, Addrs(t)) && Copied(after, before, t, s, k)
    ensures AllInMemory(after, Addrs(t)) && AllInMemory(after, Addrs(s))
    ensures ReadAll(after, Addrs(s)) == ReadAll(before, Addrs(s))
    ensures ReadAll(after, Addrs(t)) == ReadAll(before, Addrs(s))[..k] + ReadAll(before, Addrs(t))[k..]
  {
  }

  /**
   * Only the bytes matter, not how either side is cut into buffers: copies between sequences that
   * cover the same addresses leave the same memory, whichever overloads made them.
   */
  lemma OverloadsAgree(m1: Memory, m2: Memory, before: Memory,
                       t1: seq<Buf>, s1: seq<Buf>, t2: seq<Buf>, s2: seq<Buf>, k: nat)
    requires Copied(m1, before, t1, s1, k) && Copied(m2, before, t2, s2, k)
    requires Addrs(t1) == Addrs(t2) && Addrs(s1) == Addrs(s2)
    ensures m1 == m2
  {
    OverwritesIsDeterministic(m1, m2, before, Addrs(t1)[..k], ReadAll(before, Addrs(s1))[..k]);
  }

  /** Gather into one flat buffer, then scatter into any sequence of the same size: the bytes arrive as they left. */
  lemma GatherScatter(m2: Memory, m1: Memory, m0: Memory, source: seq<Buf>, flat: Buf, target: seq<Buf>)
    requires CanCopy([flat], source) && CanCopy(target, [flat])
    requires flat.size == Total(source) == Total(target)
    requires AllInMemory(m0, Addrs([flat])) && AllInMemory(m1, Addrs(target))
    requires Copied(m1, m0, [flat], source, Total(source))
    requires Copied(m2, m1, target, [flat], Total(source))
    ensures AllInMemory(m0, Addrs(source)) && AllInMemory(m2, Addrs(target))
    ensures ReadAll(m2, Addrs(target)) == ReadAll(m0, Addrs(source))
  {
    SingleBuffer(flat);
    CopiedFlat(m1, m0, [flat], source, Total(source));
    CopiedFlat(m2, m1, target, [flat], Total(source));
  }

  // ---- Lemmas for the loops ----

  lemma SingleBuffer(b: Buf)
    requires b.Valid()
    ensures AllValid([b]) && Total([b]) == b.size && Addrs([b]) == b.Addrs()
  {
    assert AddrsUpTo([b], 0) == [];
    assert Start([b], 1) == b.size;
    assert AddrsUpTo([b], 1) == [] + b.Addrs();
  }

  lemma RegionCovers(t: seq<Buf>, s: seq<Buf>)
    requires CanCopy(t, s)
    ensures AllValid(t) && AllValid(s)
    ensures Within(t, Region(t, s)) && Within(s, Region(t, s))
    ensures AllInMemory(Snapshot(Region(t, s)), Addrs(t)) && AllInMemory(Snapshot(Region(t, s)), Addrs(s))
  {
    forall i | 0 <= i < |t| && t[i].data != null ensures t[i].data in Region(t, s) {
      assert t[i] in t;
    }
    forall i | 0 <= i < |s| && s[i].data != null ensures s[i].data in Region(t, s) {
      assert s[i] in s;
    }
    FlatIsRead(Region(t, s), t, |t|);
    FlatIsRead(Region(t, s), s, |s|);
  }

  /** b covers the sequence from byte c on. */
  ghost predicate Piece(b: Buf, bs: seq<Buf>, c: nat) {
    && b.Valid() && AllValid(bs)
    && c + b.size <= Total(bs)
    && b.Addrs() == Addrs(bs)[c..c + b.size]
    && (b.data != null ==> b.data in Arrays(bs))
  }

  /** What is left of buffer j after o bytes. */
  lemma PieceOfBuffer(bs: seq<Buf>, j: nat, o: nat)
    requires AllValid(bs) && j < |bs| && o <= bs[j].size
    ensures Piece(bs[j].Plus(o), bs, Start(bs, j) + o)
  {
    AddrsOfBuffer(bs, j);
    SliceOfSlice(Addrs(bs), Start(bs, j), bs[j].size, o);
    assert bs[j] in bs;
  }

  lemma SliceOfSlice<A>(q: seq<A>, c: nat, n: nat, o: nat)
    requires c + n <= |q| && o <= n
    ensures q[c..c + n][o..] == q[c + o..c + n]
    ensures q[c..c + n][..o] == q[c..c + o]
  {
  }

  lemma PieceAdvances(b: Buf, bs: seq<Buf>, c: nat, n: nat)
    requires Piece(b, bs, c) && n <= b.size
    ensures Piece(b.Plus(n), bs, c + n)
  {
  }

  lemma PieceTruncated(b: Buf, bs: seq<Buf>, c: nat, max: nat)
    requires Piece(b, bs, c)
    ensures Piece(b.Truncate(max), bs, c)
  {
    SliceOfSlice(Addrs(bs), c, b.size, Min(max, b.size));
  }

  lemma WholeBuffer(b: Buf)
    requires b.Valid()
    ensures Piece(b, [b], 0)
  {
  }

  /** The first c bytes are copied; one more memcpy continues where they end. */
  lemma CopyMore(m2: Memory, m1: Memory, m0: Memory, t: seq<Buf>, s: seq<Buf>, c: nat, n: nat,
                 target: seq<Addr>, source: seq<Addr>)
    requires CanCopy(t, s) && Copied(m1, m0, t, s, c)
    requires c + n <= Total(t) && c + n <= Total(s)
    requires target == Addrs(t)[c..c + n] && source == Addrs(s)[c..c + n] && AllInMemory(m1, source)
    requires Overwrites(m2, m1, target, ReadAll(m1, source))
    ensures Copied(m2, m0, t, s, c + n)
  {
    hide Overwrites, AllValid, Total;
    var ts, ss := Addrs(t), Addrs(s);
    TakesApart(ts, ss, c, n);
    ReadsAsBefore(m1, m0, ts[..c], ReadAll(m0, ss)[..c], source);
    OverwritesCompose(m2, m1, m0, ts[..c], ReadAll(m0, ss)[..c], target, ReadAll(m1, source));
    assert ReadAll(m0, ss)[..c] + ReadAll(m0, source) == ReadAll(m0, ss)[..c + n];
  }

  lemma TakesApart(ts: seq<Addr>, ss: seq<Addr>, c: nat, n: nat)
    requires Distinct(ts) && Apart(ts, ss) && c + n <= |ts| && c + n <= |ss|
    ensures Apart(ts[..c], ss[c..c + n]) && Apart(ts[..c], ts[c..c + n])
    ensures ts[..c] + ts[c..c + n] == ts[..c + n]
  {
  }

  // ---- The overloads ----

  /** The memory after n bytes are stored in one array at offset d. */
  lemma StoreOverwrites(after: Memory, before: Memory, dst: array<byte>, d: nat, bytes: seq<byte>, to: seq<Addr>)
    requires dst in before && d + |bytes| <= |before[dst]|
    requires after == before[dst := before[dst][..d] + bytes + before[dst][d + |bytes|..]]
    requires |to| == |bytes| && forall k | 0 <= k < |to| :: to[k] == Addr(dst, d + k)
    ensures Overwrites(after, before, to, bytes)
  {
  }

  lemma ApartRanges(t: Buf, s: Buf, n: nat)
    requires t.Valid() && s.Valid() && Apart(t.Addrs(), s.Addrs()) && 0 < n <= t.size && n <= s.size
    ensures t.data != s.data || t.offset + n <= s.offset || s.offset + n <= t.offset
  {
    var k := t.offset - s.offset;
    assert t.Addrs()[0] == Addr(t.data, t.offset) && s.Addrs()[0] == Addr(s.data, s.offset);
    assert 0 <= k < s.size ==> s.Addrs()[k] == Addr(s.data, t.offset);
    assert 0 <= -k < t.size ==> t.Addrs()[-k] == Addr(t.data, s.offset);
  }

  lemma PrefixRead(region: set<array<byte>>, s: Buf, n: nat)
    requires s.Valid() && s.data != null && s.data in region && n <= s.size
    ensures AllInMemory(Snapshot(region), s.Addrs()[..n])
    ensures ReadAll(Snapshot(region), s.Addrs()[..n]) == s.data[s.offset..s.offset + n]
  {
  }

  method Memcpy(dst: array<byte>, d: nat, src: array<byte>, s: nat, n: nat, ghost region: set<array<byte>>)
    requires d + n <= dst.Length && s + n <= src.Length && dst in region
    requires dst != src || d + n <= s || s + n <= d
    modifies dst
    ensures Snapshot(region) == old(Snapshot(region))[dst := old(dst[..d] + src[s..s + n] + dst[d + n..])]
  {
    forall i | 0 <= i < n {
      dst[d + i] := src[s + i];
    }
    assert dst[..] == old(dst[..d] + src[s..s + n] + dst[d + n..]);
    assert forall a | a in region && a != dst :: a[..] == old(a[..]);
  }

  /** memcpy of the shorter size. */
  method BufferCopy1(t: Buf, s: Buf, ghost region: set<array<byte>>) returns (n: nat)
    requires t.Valid() && s.Valid() && Apart(t.Addrs(), s.Addrs())
    requires (t.data != null ==> t.data in region) && (s.data != null ==> s.data in region)
    modifies t.data
    ensures n == Min(t.size, s.size)
    ensures AllInMemory(old(Snapshot(region)), s.Addrs()[..n])
    ensures Overwrites(Snapshot(region), old(Snapshot(region)), t.Addrs()[..n], ReadAll(old(Snapshot(region)), s.Addrs()[..n]))
  {
    n := if t.size < s.size then t.size else s.size;
    if n > 0 {
      ghost var before := Snapshot(region);
      ApartRanges(t, s, n);
      PrefixRead(region, s, n);
      ghost var bytes := s.data[s.offset..s.offset + n];
      Memcpy(t.data, t.offset, s.data, s.offset, n, region);
      StoreOverwrites(Snapshot(region), before, t.data, t.offset, bytes, t.Addrs()[..n]);
    }
  }

  lemma PiecesApart(t: seq<Buf>, s: seq<Buf>, tb: Buf, sb: Buf, c: nat)
    requires CanCopy(t, s) && Piece(tb, t, c) && Piece(sb, s, c)
    ensures tb.Valid() && sb.Valid() && Apart(tb.Addrs(), sb.Addrs())
    ensures (tb.data != null ==> tb.data in Arrays(t)) && (sb.data != null ==> sb.data in Arrays(s))
  {
  }

  lemma PiecesCopied(m2: Memory, m1: Memory, m0: Memory, t: seq<Buf>, s: seq<Buf>, c: nat, n: nat, tb: Buf, sb: Buf)
    requires CanCopy(t, s) && Piece(tb, t, c) && Piece(sb, s, c) && tb.Valid() && sb.Valid()
    requires n <= tb.size && n <= sb.size
    requires Copied(m1, m0, t, s, c) && AllInMemory(m1, sb.Addrs()[..n])
    requires Overwrites(m2, m1, tb.Addrs()[..n], ReadAll(m1, sb.Addrs()[..n]))
    ensures Copied(m2, m0, t, s, c + n)
  {
    hide CanCopy, Copied, Overwrites;
    SliceOfSlice(Addrs(t), c, tb.size, n);
    SliceOfSlice(Addrs(s), c, sb.size, n);
    CopyMore(m2, m1, m0, t, s, c, n, tb.Addrs()[..n], sb.Addrs()[..n]);
  }

  /** Since memory was m0, the first c bytes have been copied and nothing else has changed. */
  ghost predicate CopiedSince(t: seq<Buf>, s: seq<Buf>, m0: Memory, c: nat)
    reads Arrays(t), Arrays(s)
  {
    Copied(Snapshot(Region(t, s)), m0, t, s, c)
  }

  lemma StartCopy(t: seq<Buf>, s: seq<Buf>)
    requires CanCopy(t, s)
    ensures AllValid(t) && AllValid(s)
    ensures CopiedSince(t, s, Snapshot(Region(t, s)), 0)
  {
    RegionCovers(t, s);
    var m := Snapshot(Region(t, s));
    assert Addrs(t)[..0] == [] && ReadAll(m, Addrs(s))[..0] == [];
    OverwritesNothing(m);
  }

  /** buffer_copy_1 as the overloads use it: the first c bytes are done, and the two pieces continue there. */
  method CopyPiece(tb: Buf, sb: Buf, ghost t: seq<Buf>, ghost s: seq<Buf>, ghost c: nat, ghost m0: Memory) returns (n: nat)
    requires CanCopy(t, s) && Piece(tb, t, c) && Piece(sb, s, c)
    requires CopiedSince(t, s, m0, c)
    modifies tb.data
    ensures n == Min(tb.size, sb.size)
    ensures CopiedSince(t, s, m0, c + n)
  {
    hide Piece, CanCopy, Copied, Overwrites, ReadAll;
    ghost var r := Region(t, s);
    ghost var m1 := Snapshot(r);
    PiecesApart(t, s, tb, sb, c);
    n := BufferCopy1(tb, sb, r);
    PiecesCopied(Snapshot(r), m1, m0, t, s, c, n, tb, sb);
  }

  /** one_buffer to one_buffer. */
  method BufferCopyOneOne(t: Buf, s: Buf) returns (k: nat)
    requires t.Valid() && s.Valid() && CanCopy([t], [s])
    modifies t.data
    ensures k == Min(t.size, s.size)
    ensures CopiedSince([t], [s], old(Snapshot(Region([t], [s]))), k)
  {
    hide CanCopy, Piece, CopiedSince, AllValid, Snapshot, Addrs, Buf.Addrs;
    WholeBuffer(t);
    WholeBuffer(s);
    StartCopy([t], [s]);
    k := CopyPiece(t, s, [t], [s], 0, Snapshot(Region([t], [s])));
  }

  /** one_buffer to one_buffer, with a limit. */
  method BufferCopyOneOneLimited(t: Buf, s: Buf, max: nat) returns (k: nat)
    requires t.Valid() && s.Valid() && CanCopy([t], [s])
    modifies t.data
    ensures k == Min(Min(t.size, s.size), max)
    ensures CopiedSince([t], [s], old(Snapshot(Region([t], [s]))), k)
  {
    hide CanCopy, Piece, CopiedSince, AllValid, Snapshot, Addrs, Buf.Addrs;
    WholeBuffer(t);
    WholeBuffer(s);
    PieceTruncated(s, [s], 0, max);
    StartCopy([t], [s]);
    k := CopyPiece(t, s.Truncate(max), [t], [s], 0, Snapshot(Region([t], [s])));
  }

  /** one_buffer from multiple_buffers. */
  method BufferCopyOneMany(t: Buf, s: seq<Buf>, max: nat := SIZE_MAX) returns (k: nat)
    requires t.Valid() && CanCopy([t], s)
    modifies t.data
    ensures k == Min(Min(t.size, Total(s)), max)
    ensures CopiedSince([t], s, old(Snapshot(Region([t], s))), k)
  {
    hide CanCopy, Piece, CopiedSince, AllValid, Snapshot, Addrs, Buf.Addrs;
    ghost var m0 := Snapshot(Region([t], s));
    WholeBuffer(t);
    PieceTruncated(t, [t], 0, max);
    StartCopy([t], s);
    k := 0;
    var i := 0;
    var target := t.Truncate(max);
    while target.size != 0 && i != |s|
      invariant i <= |s| && target.data == t.data && Piece(target, [t], k)
      invariant k + target.size == Min(t.size, max) && k == Min(Start(s, i), k + target.size)
      invariant CopiedSince([t], s, m0, k)
      decreases |s| - i
    {
      PieceOfBuffer(s, i, 0);
      var n := CopyPiece(target, s[i], [t], s, k, m0);
      PieceAdvances(target, [t], k, n);
      k := k + n;
      target := target.Plus(n);
      i := i + 1;
    }
    StartMonotone(s, i, |s|);
  }

  /** multiple_buffers from one_buffer. */
  method BufferCopyManyOne(t: seq<Buf>, s: Buf, max: nat := SIZE_MAX) returns (k: nat)
    requires s.Valid() && CanCopy(t, [s])
    modifies Arrays(t)
    ensures k == Min(Min(Total(t), s.size), max)
    ensures CopiedSince(t, [s], old(Snapshot(Region(t, [s]))), k)
  {
    hide CanCopy, Piece, CopiedSince, AllValid, Snapshot, Addrs, Buf.Addrs;
    ghost var m0 := Snapshot(Region(t, [s]));
    WholeBuffer(s);
    PieceTruncated(s, [s], 0, max);
    StartCopy(t, [s]);
    k := 0;
    var j := 0;
    var source := s.Truncate(max);
    while source.size != 0 && j != |t|
      invariant j <= |t| && Piece(source, [s], k)
      invariant k + source.size == Min(s.size, max) && k == Min(Start(t, j), k + source.size)
      invariant CopiedSince(t, [s], m0, k)
      decreases |t| - j
    {
      PieceOfBuffer(t, j, 0);
      var n := CopyPiece(t[j], source, t, [s], k, m0);
      PieceAdvances(source, [s], k, n);
      k := k + n;
      source := source.Plus(n);
      j := j + 1;
    }
    StartMonotone(t, j, |t|);
  }

  /** A cursor into a sequence stands at flat byte c. */
  ghost predicate CursorAt(bs: seq<Buf>, j: nat, o: nat, c: nat) {
    && j <= |bs| && c == Start(bs, j) + o
    && if j == |bs| then o == 0 else o <= bs[j].size
  }

  lemma CursorInRange(bs: seq<Buf>, j: nat, o: nat, c: nat)
    requires CursorAt(bs, j, o, c)
    ensures c <= Total(bs) && (j == |bs| ==> c == Total(bs))
  {
    StartMonotone(bs, if j == |bs| then j else j + 1, |bs|);
  }

  ghost function Sum(ns: seq<nat>): nat {
    if ns == [] then 0 else Sum(ns[..|ns| - 1]) + ns[|ns| - 1]
  }

  /**
   * multiple_buffers to multiple_buffers.  Each pass finishes a buffer on one side at least; passes says how many bytes
   * each of them copied.
   */
  method BufferCopyManyMany(t: seq<Buf>, s: seq<Buf>) returns (k: nat, ghost passes: seq<nat>)
    requires CanCopy(t, s)
    modifies Arrays(t)
    ensures k == Min(Total(t), Total(s))
    ensures CopiedSince(t, s, old(Snapshot(Region(t, s))), k)
    ensures Sum(passes) == k && |passes| <= |t| + |s|
  {
    hide CanCopy, Piece, CopiedSince, AllValid, Snapshot, Addrs, Buf.Addrs;
    ghost var m0 := Snapshot(Region(t, s));
    StartCopy(t, s);
    k, passes := 0, [];
    var j, i, to, so := 0, 0, 0, 0;
    while j != |t| && i != |s|
      invariant CursorAt(t, j, to, k) && CursorAt(s, i, so, k)
      invariant CopiedSince(t, s, m0, k)
      invariant Sum(passes) == k && |passes| <= j + i
      decreases (|t| - j) + (|s| - i)
    {
      PieceOfBuffer(t, j, to);
      PieceOfBuffer(s, i, so);
      var target := t[j].Plus(to);
      var source := s[i].Plus(so);
      var n := CopyPiece(target, source, t, s, k, m0);
      k := k + n;
      passes := passes + [n];
      if n == target.size {
        j, to := j + 1, 0;
      } else {
        to := to + n;
      }
      if n == source.size {
        i, so := i + 1, 0;
      } else {
        so := so + n;
      }
    }
    CursorInRange(t, j, to, k);
    CursorInRange(s, i, so, k);
  }

  /**
   * multiple_buffers to multiple_buffers, with a limit.  A pass that finishes no buffer on either side has
   * just used up the limit, so the bound on the number of passes is the same.
   */
  method BufferCopyManyManyLimited(t: seq<Buf>, s: seq<Buf>, max: nat) returns (k: nat, ghost passes: seq<nat>)
    requires CanCopy(t, s)
    modifies Arrays(t)
    ensures k == Min(Min(Total(t), Total(s)), max)
    ensures CopiedSince(t, s, old(Snapshot(Region(t, s))), k)
    ensures Sum(passes) == k && |passes| <= |t| + |s|
  {
    hide CanCopy, Piece, CopiedSince, AllValid, Snapshot, Addrs, Buf.Addrs;
    ghost var m0 := Snapshot(Region(t, s));
    StartCopy(t, s);
    k, passes := 0, [];
    var j, i, to, so := 0, 0, 0, 0;
    while k != max && j != |t| && i != |s|
      invariant CursorAt(t, j, to, k) && CursorAt(s, i, so, k) && k <= max
      invariant CopiedSince(t, s, m0, k)
      invariant Sum(passes) == k && |passes| <= |t| + |s|
      invariant k != max ==> |passes| <= j + i
      decreases (|t| - j) + (|s| - i), max - k
    {
      PieceOfBuffer(t, j, to);
      PieceOfBuffer(s, i, so);
      var target := t[j].Plus(to);
      var source := s[i].Plus(so);
      PieceTruncated(source, s, k, max - k);
      var n := CopyPiece(target, source.Truncate(max - k), t, s, k, m0);
      k := k + n;
      passes := passes + [n];
      if n == target.size {
        j, to := j + 1, 0;
      } else {
        to := to + n;
      }
      if n == source.size {
        i, so := i + 1, 0;
      } else {
        so := so + n;
      }
    }
    CursorInRange(t, j, to, k);
    CursorInRange(s, i, so, k);
  }

  // ---- The public function ----

  /** buffer_sequence_cardinality: a lone buffer is told apart from a sequence of buffers. */
  datatype Sequence = One(b: Buf) | Many(bs: seq<Buf>) {
    function All(): seq<Buf> {
      match this
      case One(b) => [b]
      case Many(bs) => bs
    }
  }

  /** buffer_copy(target, source). */
  method BufferCopy(target: Sequence, source: Sequence) returns (k: nat)
    requires CanCopy(target.All(), source.All())
    modifies Arrays(target.All())
    ensures k == Min(Total(target.All()), Total(source.All()))
    ensures Flat(target.All()) == old(Flat(source.All()))[..k] + old(Flat(target.All()))[k..]
    ensures Flat(source.All()) == old(Flat(source.All()))
    ensures CopiedSince(target.All(), source.All(), old(Snapshot(Region(target.All(), source.All()))), k)
  {
    hide CanCopy, CopiedSince, Snapshot, Addrs, Buf.Addrs, FlatUpTo, AllValid;
    ghost var m0 := Snapshot(Region(target.All(), source.All()));
    FlatInMemory(target.All(), source.All());
    AsSequence(target, source);
    match (target, source) {
      case (One(t), One(s)) => k := BufferCopyOneOne(t, s);
      case (One(t), Many(s)) => k := BufferCopyOneMany(t, s);
      case (Many(t), One(s)) => k := BufferCopyManyOne(t, s);
      case (Many(t), Many(s)) => ghost var passes; k, passes := BufferCopyManyMany(t, s);
    }
    FlatAfter(target.All(), source.All(), m0, k);
  }

  /** buffer_copy(target, source, max_bytes_to_copy). */
  method BufferCopyLimited(target: Sequence, source: Sequence, max: nat) returns (k: nat)
    requires CanCopy(target.All(), source.All())
    modifies Arrays(target.All())
    ensures k == Min(Min(Total(target.All()), Total(source.All())), max)
    ensures Flat(target.All()) == old(Flat(source.All()))[..k] + old(Flat(target.All()))[k..]
    ensures Flat(source.All()) == old(Flat(source.All()))
    ensures CopiedSince(target.All(), source.All(), old(Snapshot(Region(target.All(), source.All()))), k)
  {
    hide CanCopy, CopiedSince, Snapshot, Addrs, Buf.Addrs, FlatUpTo, AllValid;
    ghost var m0 := Snapshot(Region(target.All(), source.All()));
    FlatInMemory(target.All(), source.All());
    AsSequence(target, source);
    match (target, source) {
      case (One(t), One(s)) => k := BufferCopyOneOneLimited(t, s, max);
      case (One(t), Many(s)) => k := BufferCopyOneMany(t, s, max);
      case (Many(t), One(s)) => k := BufferCopyManyOne(t, s, max);
      case (Many(t), Many(s)) => ghost var passes; k, passes := BufferCopyManyManyLimited(t, s, max);
    }
    FlatAfter(target.All(), source.All(), m0, k);
  }

  lemma AsSequence(t: Sequence, s: Sequence)
    requires CanCopy(t.All(), s.All())
    ensures t.One? ==> t.b.Valid() && Total(t.All()) == t.b.size && (t.b.data != null ==> t.b.data in Arrays(t.All()))
    ensures s.One? ==> s.b.Valid() && Total(s.All()) == s.b.size
  {
  }

  lemma FlatInMemory(t: seq<Buf>, s: seq<Buf>)
    requires CanCopy(t, s)
    ensures AllValid(t) && AllValid(s)
    ensures var m := Snapshot(Region(t, s));
            && AllInMemory(m, Addrs(t)) && Flat(t) == ReadAll(m, Addrs(t))
            && AllInMemory(m, Addrs(s)) && Flat(s) == ReadAll(m, Addrs(s))
  {
    RegionCovers(t, s);
    FlatIsRead(Region(t, s), t, |t|);
    FlatIsRead(Region(t, s), s, |s|);
  }

  lemma FlatAfter(t: seq<Buf>, s: seq<Buf>, m0: Memory, k: nat)
    requires CanCopy(t, s) && AllValid(t) && AllValid(s) && AllInMemory(m0, Addrs(t)) && AllInMemory(m0, Addrs(s))
    requires CopiedSince(t, s, m0, k) && k <= Total(t) && k <= Total(s)
    ensures Flat(t) == ReadAll(m0, Addrs(s))[..k] + ReadAll(m0, Addrs(t))[k..]
    ensures Flat(s) == ReadAll(m0, Addrs(s))
  {
    FlatInMemory(t, s);
    CopiedFlat(Snapshot(Region(t, s)), m0, t, s, k);
  }

  /** The documented way to linearise a sequence: one flat copy of all its bytes. */
  method Linearise(source: seq<Buf>) returns (data: array<byte>)
    requires AllValid(source) && Total(source) <= SIZE_MAX
    ensures fresh(data) && data[..] == Flat(source)
  {
    hide CanCopy, CopiedSince, Snapshot, Addrs, Buf.Addrs, FlatUpTo;
    var n := BufferSize(source);
    data := new byte[n];
    var flat := Buf(data, 0, n);
    FreshIsApart(flat, source);
    FlatOfSingle(flat);
    var k := BufferCopy(One(flat), Many(source));
    FlatOfSingle(flat);
  }

  method Distribute(data: array<byte>, target: seq<Buf>)
    requires AllValid(target) && Distinct(Addrs(target)) && data !in Arrays(target)
    requires data.Length == Total(target) <= SIZE_MAX
    modifies Arrays(target)
    ensures Flat(target) == old(data[..])
  {
    hide CanCopy, CopiedSince, Snapshot, Addrs, Buf.Addrs, FlatUpTo, Distinct;
    var flat := Buf(data, 0, data.Length);
    FreshIsApart(flat, target);
    FlatOfSingle(flat);
    var k := BufferCopy(Many(target), One(flat));
  }

  /** Gather, then scatter: the bytes arrive as they left, however the two sides are cut, even when they share memory. */
  method GatherThenScatter(source: seq<Buf>, target: seq<Buf>)
    requires AllValid(source) && AllValid(target) && Distinct(Addrs(target))
    requires Total(source) == Total(target) <= SIZE_MAX
    modifies Arrays(target)
    ensures Flat(target) == old(Flat(source))
  {
    hide Addrs, FlatUpTo, Distinct;
    var data := Linearise(source);
    Distribute(data, target);
  }

  lemma FlatOfSingle(b: Buf)
    requires b.Valid() && b.data != null
    ensures AllValid([b]) && Total([b]) == b.size && Flat([b]) == b.data[b.offset..b.offset + b.size]
  {
    SingleBuffer(b);
    assert FlatUpTo([b], 1) == FlatUpTo([b], 0) + b.Bytes();
  }

  lemma FreshIsApart(flat: Buf, bs: seq<Buf>)
    requires flat.Valid() && AllValid(bs) && flat.data != null && flat.data !in Arrays(bs)
    ensures CanCopy([flat], bs)
    ensures Distinct(Addrs(bs)) ==> CanCopy(bs, [flat])
  {
    SingleBuffer(flat);
    AddrsInArrays(bs, |bs|);
  }

  lemma {:induction false} AddrsInArrays(bs: seq<Buf>, j: nat)
    requires AllValid(bs) && j <= |bs|
    ensures forall i | 0 <= i < Start(bs, j) :: AddrsUpTo(bs, j)[i].mem in Arrays(bs)
  {
    if j > 0 {
      AddrsInArrays(bs, j - 1);
      assert bs[j - 1] in bs;
    }
  }
}
