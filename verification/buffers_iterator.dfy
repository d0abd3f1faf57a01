/**
 * buffers_iterator (examples/include/asio/buffers_iterator.hpp): a random-access iterator over the bytes of a
 * buffer sequence, any of whose buffers may be empty.
 *
 * The place of an iterator is kept three times over: the absolute position, the current buffer and the offset
 * in it.  Comparison looks at the position alone and dereference at the other two, so they must agree.
 */
module BuffersIterators {
  import opened Buffers

  /** position_, current_ - begin_, current_buffer_position_. */
  datatype Place = Place(position: int, index: int, offset: int)

  /**
   * The place is in range and canonical: the position counts the bytes before it, and it lies inside a
   * buffer (so never in an empty one), or at the end.
   */
  ghost predicate At(bs: seq<Buf>, p: Place)
    ensures At(bs, p) ==> 0 <= p.position <= Total(bs)
    ensures At(bs, p) ==> (p.position == Total(bs) <==> p.index == |bs|)
  {
    && 0 <= p.index <= |bs|
    && p.position == Start(bs, p.index) + p.offset
    && (StartMonotone(bs, if p.index < |bs| then p.index + 1 else |bs|, |bs|); true)
    && if p.index == |bs| then p.offset == 0 else 0 <= p.offset < bs[p.index].size
  }

  /** A position has one canonical place, so comparing positions compares places. */
  lemma PlaceIsUnique(bs: seq<Buf>, p: Place, q: Place)
    requires At(bs, p) && At(bs, q)
    ensures p.position == q.position <==> p == q
  {
    if p.index < q.index {
      StartMonotone(bs, p.index + 1, q.index);
    } else if q.index < p.index {
      StartMonotone(bs, q.index + 1, p.index);
    }
  }

  /** Ordering positions orders places: by buffer first, then by offset. */
  lemma OrderIsLexicographic(bs: seq<Buf>, p: Place, q: Place)
    requires At(bs, p) && At(bs, q)
    ensures p.position < q.position <==> p.index < q.index || (p.index == q.index && p.offset < q.offset)
  {
    if p.index < q.index {
      StartMonotone(bs, p.index + 1, q.index);
    } else if q.index < p.index {
      StartMonotone(bs, q.index + 1, p.index);
    }
  }

  // ---- Single steps, on places ----

  /** The first non-empty buffer at j or after it; |bs| if there is none. */
  function NextNonEmpty(bs: seq<Buf>, j: nat): (k: nat)
    requires j <= |bs|
    ensures j <= k <= |bs|
    ensures k < |bs| ==> bs[k].size > 0
    ensures forall i | j <= i < k :: bs[i].size == 0
    decreases |bs| - j
  {
    if j == |bs| || bs[j].size > 0 then j else NextNonEmpty(bs, j + 1)
  }

  /** The last non-empty buffer before j; -1 if there is none. */
  function PreviousNonEmpty(bs: seq<Buf>, j: nat): (k: int)
    requires j <= |bs|
    ensures -1 <= k < j
    ensures k >= 0 ==> bs[k].size > 0
    ensures forall i | k < i < j :: bs[i].size == 0
  {
    if j == 0 then -1 else if bs[j - 1].size > 0 then j - 1 else PreviousNonEmpty(bs, j - 1)
  }

  lemma {:induction false} EmptyStretch(bs: seq<Buf>, i: nat, j: nat)
    requires i <= j <= |bs| && forall k | i <= k < j :: bs[k].size == 0
    ensures Start(bs, i) == Start(bs, j)
    decreases j
  {
    if i < j {
      EmptyStretch(bs, i, j - 1);
    }
  }

  /** One byte forward. */
  function Next(bs: seq<Buf>, p: Place): Place
    requires 0 <= p.index < |bs|
  {
    if p.offset + 1 < bs[p.index].size then Place(p.position + 1, p.index, p.offset + 1)
    else Place(p.position + 1, NextNonEmpty(bs, p.index + 1), 0)
  }

  /** One byte back. */
  function Previous(bs: seq<Buf>, p: Place): Place
    requires 0 <= p.index <= |bs|
  {
    if p.offset > 0 then Place(p.position - 1, p.index, p.offset - 1)
    else
      var k := PreviousNonEmpty(bs, p.index);
      Place(p.position - 1, k, if k < 0 then 0 else bs[k].size - 1)
  }

  lemma NextIsAt(bs: seq<Buf>, p: Place)
    requires At(bs, p) && p.position < Total(bs)
    ensures p.index < |bs| && At(bs, Next(bs, p))
  {
    EmptyStretch(bs, p.index + 1, NextNonEmpty(bs, p.index + 1));
  }

  lemma PreviousIsAt(bs: seq<Buf>, p: Place)
    requires At(bs, p) && p.position > 0
    ensures At(bs, Previous(bs, p))
  {
    var k := PreviousNonEmpty(bs, p.index);
    EmptyStretch(bs, k + 1, p.index);
  }

  /** n single increments, or -n single decrements. */
  ghost function Steps(bs: seq<Buf>, p: Place, n: int): (q: Place)
    requires At(bs, p) && 0 <= p.position + n <= Total(bs)
    ensures At(bs, q) && q.position == p.position + n
    decreases if n < 0 then -n else n
  {
    if n == 0 then p
    else if n > 0 then NextIsAt(bs, p); Steps(bs, Next(bs, p), n - 1)
    else PreviousIsAt(bs, p); Steps(bs, Previous(bs, p), n + 1)
  }

  /** Between canonical places, the difference of positions is the number of single steps. */
  lemma PlacesAreSteps(bs: seq<Buf>, p: Place, q: Place)
    requires At(bs, p) && At(bs, q)
    ensures q == Steps(bs, p, q.position - p.position)
    ensures q.position == p.position + 1 ==> p.index < |bs| && q == Next(bs, p)
    ensures q.position == p.position - 1 ==> q == Previous(bs, p)
  {
    PlaceIsUnique(bs, q, Steps(bs, p, q.position - p.position));
  }

  /** (it + m) + n == it + (m + n), (it + n) - n == it, and a + (b - a) == b. */
  lemma IteratorLaws(bs: seq<Buf>, a: Place, b: Place, m: int, n: int)
    requires At(bs, a) && At(bs, b)
    requires 0 <= a.position + m <= Total(bs) && 0 <= a.position + m + n <= Total(bs)
    ensures Steps(bs, Steps(bs, a, m), n) == Steps(bs, a, m + n)
    ensures Steps(bs, Steps(bs, a, m), -m) == a
    ensures Steps(bs, a, b.position - a.position) == b
  {
    PlaceIsUnique(bs, Steps(bs, Steps(bs, a, m), n), Steps(bs, a, m + n));
    PlaceIsUnique(bs, Steps(bs, Steps(bs, a, m), -m), a);
    PlaceIsUnique(bs, Steps(bs, a, b.position - a.position), b);
  }

  // ---- The iterator ----

  class BuffersIterator {
    const buffers: seq<Buf>          // [begin_, end_)
    var currentBuffer: Buf           // current_buffer_; stale or empty at the end
    var currentBufferPosition: nat   // current_buffer_position_
    var current: nat                 // current_ - begin_
    var position: nat                // position_

    ghost function Here(): Place
      reads this
    {
      Place(position, current, currentBufferPosition)
    }

    ghost predicate Valid()
      reads this
    {
      && AllValid(buffers)
      && At(buffers, Here())
      && (current < |buffers| ==> currentBuffer == buffers[current])
    }

    /** buffers_begin. */
    constructor Begin(bs: seq<Buf>)
      requires AllValid(bs)
      ensures Valid() && buffers == bs && position == 0
    {
      buffers := bs;
      currentBuffer, currentBufferPosition, current, position := Buf(null, 0, 0), 0, 0, 0;
      new;
      while current != |buffers|
        invariant current <= |buffers| && forall i | 0 <= i < current :: buffers[i].size == 0
        invariant currentBufferPosition == 0 && position == 0
        decreases |buffers| - current
      {
        currentBuffer := buffers[current];
        if currentBuffer.size > 0 {
          break;
        }
        current := current + 1;
      }
      EmptyStretch(buffers, 0, current);
    }

    /** buffers_end. */
    constructor End(bs: seq<Buf>)
      requires AllValid(bs)
      ensures Valid() && buffers == bs && position == Total(bs) && currentBuffer == Buf(null, 0, 0)
    {
      buffers := bs;
      currentBuffer, currentBufferPosition, current, position := Buf(null, 0, 0), 0, 0, 0;
      new;
      while current != |buffers|
        invariant current <= |buffers| && position == Start(buffers, current) && currentBufferPosition == 0
        invariant currentBuffer == Buf(null, 0, 0)
        decreases |buffers| - current
      {
        var buffer := buffers[current];
        position := position + buffer.size;
        current := current + 1;
      }
    }

    constructor Copy(other: BuffersIterator)
      requires other.Valid()
      ensures Valid() && buffers == other.buffers && Here() == other.Here()
    {
      buffers := other.buffers;
      currentBuffer, currentBufferPosition := other.currentBuffer, other.currentBufferPosition;
      current, position := other.current, other.position;
    }

    /** The byte under the iterator is the one its position names in the concatenation. */
    method Dereference() returns (b: byte)
      requires Valid() && position < Total(buffers)
      ensures b == Flat(buffers)[position]
    {
      FlatAt(buffers, |buffers|, current, currentBufferPosition);
      b := currentBuffer.data[currentBuffer.offset + currentBufferPosition];
    }

    /** operator==; it decides whether the whole places agree. */
    method Equal(other: BuffersIterator) returns (r: bool)
      requires Valid() && other.Valid() && buffers == other.buffers
      ensures r <==> position == other.position
      ensures r <==> Here() == other.Here()
    {
      PlaceIsUnique(buffers, Here(), other.Here());
      r := position == other.position;
    }

    method DistanceTo(other: BuffersIterator) returns (d: int)
      requires Valid() && other.Valid() && buffers == other.buffers
      ensures Steps(buffers, Here(), other.position - position) == other.Here()
      ensures d == other.position - position
    {
      PlaceIsUnique(buffers, Steps(buffers, Here(), other.position - position), other.Here());
      d := other.position - position;
    }

    /** operator<. */
    method Less(other: BuffersIterator) returns (r: bool)
      requires Valid() && other.Valid() && buffers == other.buffers
      ensures r <==> current < other.current || (current == other.current && currentBufferPosition < other.currentBufferPosition)
    {
      OrderIsLexicographic(buffers, Here(), other.Here());
      var d := DistanceTo(other);
      r := d > 0;
    }

    /** operator++; ok is false when the assertion fails.  PlacesAreSteps says which place the new position has. */
    method Increment() returns (ok: bool)
      requires Valid()
      modifies this
      ensures ok <==> old(position) < Total(buffers)
      ensures ok ==> Valid() && position == old(position) + 1
    {
      if current == |buffers| {
        return false;
      }
      ok := true;
      position := position + 1;
      currentBufferPosition := currentBufferPosition + 1;
      if currentBufferPosition != currentBuffer.size {
        return;
      }
      current := current + 1;
      currentBufferPosition := 0;
      while current != |buffers|
        invariant position == Start(buffers, old(current) + 1) == old(position) + 1 && currentBufferPosition == 0
        invariant old(current) < current <= |buffers|
        invariant forall k | old(current) < k < current :: buffers[k].size == 0
        decreases |buffers| - current
      {
        currentBuffer := buffers[current];
        if currentBuffer.size > 0 {
          break;
        }
        current := current + 1;
      }
      EmptyStretch(buffers, old(current) + 1, current);
    }

    /** operator--. */
    method Decrement() returns (ok: bool)
      requires Valid()
      modifies this
      ensures ok <==> old(position) > 0
      ensures ok ==> Valid() && position == old(position) - 1
    {
      if position == 0 {
        return false;
      }
      ok := true;
      position := position - 1;
      if currentBufferPosition != 0 {
        currentBufferPosition := currentBufferPosition - 1;
        return;
      }
      var iter: nat := current;
      while iter != 0
        invariant iter <= current == old(current) && currentBufferPosition == 0
        invariant forall k | iter <= k < current :: buffers[k].size == 0
      {
        iter := iter - 1;
        var buffer := buffers[iter];
        var bufferSize := buffer.size;
        if bufferSize > 0 {
          EmptyStretch(buffers, iter + 1, current);
          current := iter;
          currentBuffer := buffer;
          currentBufferPosition := bufferSize - 1;
          return;
        }
      }
      EmptyStretch(buffers, 0, old(current));
      assert false; // a position above 0 has a byte before it
    }

    /**
     * operator+= and operator-=: the assertions hold exactly when the target is in range, and the iterator
     * ends where as many single steps would have taken it.
     */
    method Advance(n: int) returns (ok: bool)
      requires Valid()
      modifies this
      ensures ok <==> 0 <= old(position) + n <= Total(buffers)
      ensures ok ==> Valid() && Here() == Steps(buffers, old(Here()), n)
    {
      if n > 0 {
        ok := AdvanceForward(n);
      } else if n < 0 {
        ok := AdvanceBackward(-n);
      } else {
        ok := true;
      }
      if ok {
        PlaceIsUnique(buffers, Here(), Steps(buffers, old(Here()), n));
      }
    }

    method AdvanceForward(distance: nat) returns (ok: bool)
      requires Valid() && distance > 0
      modifies this
      ensures ok <==> old(position) + distance <= Total(buffers)
      ensures ok ==> Valid() && position == old(position) + distance
      ensures ok && current == |buffers| ==> currentBuffer == Buf(null, 0, 0)
    {
      if current == |buffers| {
        return false;
      }
      var n := distance;
      while true
        invariant current < |buffers| && currentBuffer == buffers[current]
        invariant currentBufferPosition <= currentBuffer.size
        invariant position == Start(buffers, current) + currentBufferPosition
        invariant position + n == old(position) + distance && n >= 0
        decreases |buffers| - current
      {
        var balance := currentBuffer.size - currentBufferPosition;
        StartMonotone(buffers, current + 1, |buffers|);
        if balance > n {
          position := position + n;
          currentBufferPosition := currentBufferPosition + n;
          return true;
        }
        n := n - balance;
        position := position + balance;
        current := current + 1;
        if current == |buffers| {
          currentBuffer := Buf(null, 0, 0);
          currentBufferPosition := 0;
          return n == 0;
        }
        currentBuffer := buffers[current];
        currentBufferPosition := 0;
      }
    }

    /** Only the first assertion can fail: the walk never arrives at the first buffer with bytes still to go. */
    method AdvanceBackward(distance: nat) returns (ok: bool)
      requires Valid() && distance > 0
      modifies this
      ensures ok <==> old(position) >= distance
      ensures ok ==> Valid() && position == old(position) - distance
    {
      if position < distance {
        return false;
      }
      var absN := distance;
      while true
        invariant current <= |buffers| && absN > 0
        invariant current < |buffers| ==> currentBuffer == buffers[current] && currentBufferPosition <= currentBuffer.size
        invariant current == |buffers| ==> currentBufferPosition == 0
        invariant position == Start(buffers, current) + currentBufferPosition
        invariant position - absN == old(position) - distance
        decreases current
      {
        if currentBufferPosition >= absN {
          position := position - absN;
          currentBufferPosition := currentBufferPosition - absN;
          return true;
        }
        absN := absN - currentBufferPosition;
        position := position - currentBufferPosition;
        if current == 0 {
          assert false; // the second assertion, abs_n == 0, is never reached
        }
        var iter: nat := current;
        ghost var before := current;
        while iter != 0
          invariant iter <= current == before <= |buffers|
          invariant forall k | iter <= k < current :: buffers[k].size == 0
        {
          iter := iter - 1;
          var buffer := buffers[iter];
          var bufferSize := buffer.size;
          if bufferSize > 0 {
            EmptyStretch(buffers, iter + 1, current);
            current := iter;
            currentBuffer := buffer;
            currentBufferPosition := bufferSize;
            break;
          }
        }
        if current == before {
          EmptyStretch(buffers, 0, current);
        }
      }
    }

    /** operator+(iter, n). */
    method Plus(n: int) returns (ok: bool, it: BuffersIterator)
      requires Valid()
      ensures fresh(it)
      ensures ok <==> 0 <= position + n <= Total(buffers)
      ensures ok ==> it.Valid() && it.buffers == buffers && it.Here() == Steps(buffers, Here(), n)
    {
      it := new BuffersIterator.Copy(this);
      ok := it.Advance(n);
    }

    /** operator[]. */
    method Index(n: int) returns (b: byte)
      requires Valid() && 0 <= position + n < Total(buffers)
      ensures b == Flat(buffers)[position + n]
    {
      var tmp := new BuffersIterator.Copy(this);
      var ok := tmp.Advance(n);
      b := tmp.Dereference();
    }
  }

  // ---- Runs ----

  datatype Move = Forward | Back | Jump(n: int)

  function Delta(m: Move): int {
    match m
    case Forward => 1
    case Back => -1
    case Jump(n) => n
  }

  /** The distance covered by a series of moves. */
  function Distance(moves: seq<Move>): int {
    if moves == [] then 0 else Distance(moves[..|moves| - 1]) + Delta(moves[|moves| - 1])
  }

  method MakeMove(it: BuffersIterator, m: Move) returns (ok: bool)
    requires it.Valid()
    modifies it
    ensures ok <==> 0 <= old(it.position) + Delta(m) <= Total(it.buffers)
    ensures ok ==> it.Valid() && it.position == old(it.position) + Delta(m)
  {
    match m
    case Forward => ok := it.Increment();
    case Back => ok := it.Decrement();
    case Jump(n) => ok := it.Advance(n);
  }

  /**
   * Any series of ++, --, += and -= from either end: the first failing assertion is the first move that would
   * leave the sequence, and until then the iterator is canonical and names the byte the sum of the moves names.
   */
  method Wander(bs: seq<Buf>, fromEnd: bool, moves: seq<Move>) returns (it: BuffersIterator, done: nat)
    requires AllValid(bs)
    ensures done <= |moves|
    ensures var origin := if fromEnd then Total(bs) else 0;
            && (forall k | 0 <= k <= done :: 0 <= origin + Distance(moves[..k]) <= Total(bs))
            && (done < |moves| ==> !(0 <= origin + Distance(moves[..done + 1]) <= Total(bs)))
            && (done == |moves| ==> it.Valid() && it.buffers == bs && it.position == origin + Distance(moves))
    ensures fresh(it)
  {
    ghost var origin := if fromEnd then Total(bs) else 0;
    if fromEnd {
      it := new BuffersIterator.End(bs);
    } else {
      it := new BuffersIterator.Begin(bs);
    }
    done := 0;
    while done < |moves|
      invariant done <= |moves| && it.Valid() && it.buffers == bs && fresh(it)
      invariant it.position == origin + Distance(moves[..done])
      invariant forall k | 0 <= k <= done :: 0 <= origin + Distance(moves[..k]) <= Total(bs)
    {
      assert moves[..done + 1][..done] == moves[..done];
      var ok := MakeMove(it, moves[done]);
      if !ok {
        return;
      }
      done := done + 1;
    }
    assert moves[..done] == moves;
  }

  /** Walking from buffers_begin to buffers_end visits every byte of the concatenation once, in order. */
  method Collect(bs: seq<Buf>) returns (bytes: seq<byte>)
    requires AllValid(bs)
    ensures bytes == Flat(bs)
  {
    hide At, FlatUpTo, Start;
    var it := new BuffersIterator.Begin(bs);
    var end := new BuffersIterator.End(bs);
    bytes := [];
    var atEnd := it.Equal(end);
    while !atEnd
      invariant fresh(it) && fresh(end) && it != end && end.position == Total(bs)
      invariant it.Valid() && end.Valid() && it.buffers == end.buffers == bs
      invariant it.position <= Total(bs) && bytes == Flat(bs)[..it.position]
      invariant atEnd <==> it.position == Total(bs)
      decreases Total(bs) - it.position
    {
      var b := it.Dereference();
      var ok := it.Increment();
      bytes := bytes + [b];
      atEnd := it.Equal(end);
    }
  }
}
