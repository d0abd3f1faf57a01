/**
 * What the dynamic buffers are for: a bounded first-in first-out queue of bytes.  Producers prepare room, write
 * into it and commit; consumers remove bytes at the front.  basic_streambuf and the dynamic_*_buffer classes are
 * two implementations of it ([buffer.reqmts.dynamicbuffer] in clause 16 of N4771).
 */
module ByteQueues {
  import opened Wrappers
  import opened Buffers

  datatype Queue = Queue(data: seq<byte>, limit: nat)

  datatype Command =
    | Prepare(n: nat)                          // room is made and left unused
    | Transfer(bytes: seq<byte>, commit: nat)  // prepare(|bytes|), write them all, commit the first few
    | Consume(k: nat)
    | Put(c: byte)                             // overflow(c)
    | Peek                                     // underflow()

  /** A commit must not exceed the prepared size. */
  predicate Proper(c: Command) {
    c.Transfer? ==> c.commit <= |c.bytes|
  }

  predicate ProperScript(script: seq<Command>) {
    forall i | 0 <= i < |script| :: Proper(script[i])
  }

  predicate ForDynamicBuffer(c: Command) {
    !c.Put? && !c.Peek?
  }

  /** The command finds room, or needs none. */
  predicate Fits(q: Queue, c: Command) {
    match c
    case Prepare(n) => |q.data| + n <= q.limit
    case Transfer(bytes, _) => |q.data| + |bytes| <= q.limit
    case Put(_) => |q.data| < q.limit
    case _ => true
  }

  /** The bytes a command puts in. */
  function Enters(c: Command): seq<byte>
    requires Proper(c)
  {
    match c
    case Transfer(bytes, m) => bytes[..m]
    case Put(b) => [b]
    case _ => []
  }

  function Apply(q: Queue, c: Command): Queue
    requires Proper(c)
  {
    match c
    case Consume(k) => q.(data := q.data[Min(k, |q.data|)..])
    case _ => q.(data := q.data + Enters(c))
  }

  /** What the caller of the command sees: the bytes it removes, or the one it peeks at. */
  function Sees(q: Queue, c: Command): seq<byte> {
    match c
    case Consume(k) => q.data[..Min(k, |q.data|)]
    case Peek => q.data[..Min(1, |q.data|)]
    case _ => []
  }

  /** A run: the contents after each command that succeeded, what each of them showed, and whether one was refused. */
  datatype Outcome = Outcome(contents: seq<seq<byte>>, seen: seq<seq<byte>>, refused: bool)

  function Run(q: Queue, script: seq<Command>): Outcome
    requires ProperScript(script)
    decreases |script|
  {
    if script == [] then Outcome([], [], false)
    else if !Fits(q, script[0]) then Outcome([], [], true)
    else
      var q' := Apply(q, script[0]);
      var rest := Run(q', script[1..]);
      Outcome([q'.data] + rest.contents, [Sees(q, script[0])] + rest.seen, rest.refused)
  }

  // ---- First in, first out ----

  /** The bytes a script puts in, in order. */
  function Entered(script: seq<Command>): seq<byte>
    requires ProperScript(script)
  {
    if script == [] then []
    else
      Enters(script[0]) + Entered(script[1..])
  }

  /** The bytes a script takes out, in order. */
  function Left(q: Queue, script: seq<Command>): seq<byte>
    requires ProperScript(script)
    decreases |script|
  {
    if script == [] then []
    else (if script[0].Consume? then Sees(q, script[0]) else []) + Left(Apply(q, script[0]), script[1..])
  }

  function Final(q: Queue, script: seq<Command>): Queue
    requires ProperScript(script)
    decreases |script|
  {
    if script == [] then q else Final(Apply(q, script[0]), script[1..])
  }

  lemma Reassociate<A>(x: seq<A>, y: seq<A>, z: seq<A>)
    ensures (x + y) + z == x + (y + z)
  {
  }

  /** In any run, what has left followed by what is still there is what was there followed by what entered. */
  lemma {:induction false} FirstInFirstOut(q: Queue, script: seq<Command>)
    requires ProperScript(script)
    ensures Left(q, script) + Final(q, script).data == q.data + Entered(script)
    decreases |script|
  {
    if script == [] {
      assert [] + q.data == q.data + [];
    } else {
      var c, rest := script[0], script[1..];
      var q' := Apply(q, c);
      FirstInFirstOut(q', rest);
      var out := if c.Consume? then Sees(q, c) else [];
      assert out + q'.data == q.data + Enters(c);
      Reassociate(out, Left(q', rest), Final(q', rest).data);
      Reassociate(out, q'.data, Entered(rest));
      Reassociate(q.data, Enters(c), Entered(rest));
    }
  }

  /** A run that is never refused keeps the size within the limit throughout. */
  lemma {:induction false} WithinLimit(q: Queue, script: seq<Command>, i: nat)
    requires ProperScript(script)
    requires |q.data| <= q.limit && i < |Run(q, script).contents|
    ensures |Run(q, script).contents[i]| <= q.limit
    decreases |script|
  {
    if i > 0 {
      WithinLimit(Apply(q, script[0]), script[1..], i - 1);
    }
  }
}
