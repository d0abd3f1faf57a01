/**
 * Whole scripts run on basic_streambuf and on the dynamic_*_buffer classes, against the queue both of them
 * implement (examples/include/asio/basic_streambuf.hpp, examples/include/asio/buffer.hpp).
 */
module DynamicBufferRuns {
  import opened Wrappers
  import opened Buffers
  import opened ByteQueues
  import opened StreamBufs
  import opened DynamicBuffers

  method TransferToStreamBuf(sb: StreamBuf, bytes: seq<byte>, commit: nat) returns (ok: bool)
    requires sb.Valid() && commit <= |bytes|
    modifies sb, sb.buffer
    ensures sb.Valid() && (sb.buffer == old(sb.buffer) || fresh(sb.buffer))
    ensures ok <==> old(sb.Size()) + |bytes| <= sb.maxSize
    ensures ok ==> sb.Contents() == old(sb.Contents()) + bytes[..commit]
  {
    hide Garbled, StreamBuf.Contents;
    var region := sb.Prepare(|bytes|);
    ok := region.Some?;
    if ok {
      FillAndCommit(sb, region.value, bytes, commit);
    }
  }

  /** The caller reads what it is about to consume. */
  method TakeFromStreamBuf(sb: StreamBuf, k: nat) returns (seen: seq<byte>)
    requires sb.Valid()
    modifies sb
    ensures sb.Valid() && sb.buffer == old(sb.buffer)
    ensures seen == old(sb.Contents())[..Min(k, old(sb.Size()))]
    ensures sb.Contents() == old(sb.Contents())[Min(k, old(sb.Size()))..]
  {
    seen := sb.buffer[sb.gptr..sb.gptr + Min(k, sb.Size())];
    sb.Consume(k);
  }

  /** One command on a streambuf does to its contents what it does to the queue, and is refused when it is. */
  method StepStreamBuf(sb: StreamBuf, c: Command) returns (ok: bool, seen: seq<byte>)
    requires sb.Valid() && Proper(c)
    modifies sb, sb.buffer
    ensures sb.Valid() && (sb.buffer == old(sb.buffer) || fresh(sb.buffer))
    ensures var q := old(Queue(sb.Contents(), sb.maxSize));
            && (ok <==> Fits(q, c))
            && (ok ==> sb.Contents() == Apply(q, c).data && seen == Sees(q, c))
  {
    hide StreamBuf.Contents, Garbled;
    ok, seen := true, [];
    match c
    case Prepare(n) =>
      var r := sb.Prepare(n);
      ok := r.Some?;
    case Transfer(bytes, m) =>
      ok := TransferToStreamBuf(sb, bytes, m);
    case Consume(k) =>
      seen := TakeFromStreamBuf(sb, k);
    case Put(b) =>
      ok := sb.Overflow(Some(b));
    case Peek =>
      var r := sb.Underflow();
      seen := if r.Some? then [r.value] else [];
  }

  /** A run accumulated from the front. */
  ghost function Prepended(contents: seq<seq<byte>>, seen: seq<seq<byte>>, rest: Outcome): Outcome {
    Outcome(contents + rest.contents, seen + rest.seen, rest.refused)
  }

  lemma RunStep(q: Queue, script: seq<Command>, i: nat, contents: seq<seq<byte>>, seen: seq<seq<byte>>)
    requires ProperScript(script) && i < |script|
    ensures Proper(script[i]) && ProperScript(script[i..]) && ProperScript(script[i + 1..])
    ensures Fits(q, script[i]) ==>
              var q' := Apply(q, script[i]);
              Prepended(contents, seen, Run(q, script[i..])) ==
              Prepended(contents + [q'.data], seen + [Sees(q, script[i])], Run(q', script[i + 1..]))
    ensures !Fits(q, script[i]) ==> Prepended(contents, seen, Run(q, script[i..])) == Outcome(contents, seen, true)
  {
  }

  /**
   * For every limit and every script, from construction up to the first refusal, the streambuf shows the contents
   * and the bytes that the queue shows, and refuses the command the queue refuses.
   */
  method RunStreamBuf(limit: nat, script: seq<Command>) returns (r: Outcome)
    requires ProperScript(script)
    ensures r == Run(Queue([], limit), script)
  {
    var sb := new StreamBuf(limit);
    var contents, seen := [], [];
    for i := 0 to |script|
      invariant sb.Valid() && fresh(sb) && fresh(sb.buffer) && sb.maxSize == limit
      invariant Run(Queue([], limit), script) == Prepended(contents, seen, Run(Queue(sb.Contents(), limit), script[i..]))
    {
      RunStep(Queue(sb.Contents(), limit), script, i, contents, seen);
      var ok, bytes := StepStreamBuf(sb, script[i]);
      if !ok {
        return Outcome(contents, seen, true);
      }
      contents := contents + [sb.buffer[sb.gptr..sb.pptr]];
      seen := seen + [bytes];
    }
    r := Outcome(contents, seen, false);
  }

  method TransferToDynamicBuffer(d: DynamicBuffer, bytes: seq<byte>, commit: nat) returns (ok: bool)
    requires d.Valid() && |d.Contents()| <= d.maxSize && commit <= |bytes|
    modifies d, d.storage
    ensures d.Valid()
    ensures ok <==> old(|d.Contents()|) + |bytes| <= d.maxSize
    ensures d.Contents() == old(d.Contents()) + if ok then bytes[..commit] else []
  {
    var offset := d.Prepare(|bytes|);
    if offset.None? {
      return false;
    }
    d.Write(offset.value, bytes);
    var o := offset.value;
    assert d.storage.elems[o..o + commit] == d.storage.elems[o..o + |bytes|][..commit];
    d.Commit(commit);
    ok := true;
  }

  /** One command on a dynamic buffer whose contents are within its maximum. */
  method StepDynamicBuffer(d: DynamicBuffer, c: Command) returns (ok: bool, seen: seq<byte>)
    requires d.Valid() && |d.Contents()| <= d.maxSize && Proper(c) && ForDynamicBuffer(c)
    modifies d, d.storage
    ensures d.Valid()
    ensures var q := old(Queue(d.Contents(), d.maxSize));
            && (ok <==> Fits(q, c))
            && (ok ==> d.Contents() == Apply(q, c).data && seen == Sees(q, c))
  {
    ok, seen := true, [];
    match c
    case Prepare(n) =>
      var r := d.Prepare(n);
      ok := r.Some?;
    case Transfer(bytes, m) =>
      ok := TransferToDynamicBuffer(d, bytes, m);
    case Consume(k) =>
      seen := d.storage.elems[..Min(k, d.Size())];
      d.Consume(k);
  }

  /** The same, for a dynamic buffer over a vector or string that starts with any contents within the maximum. */
  method RunDynamicBuffer(kind: Kind, initial: seq<byte>, limit: nat, script: seq<Command>) returns (r: Outcome)
    requires ProperScript(script) && |initial| <= limit
    requires forall i | 0 <= i < |script| :: ForDynamicBuffer(script[i])
    ensures r == Run(Queue(initial, limit), script)
  {
    var storage := new Storage(initial);
    var d := new DynamicBuffer(kind, storage, limit);
    var contents, seen := [], [];
    for i := 0 to |script|
      invariant d.Valid() && fresh(d) && fresh(d.storage) && d.maxSize == limit && |d.Contents()| <= limit
      invariant Run(Queue(initial, limit), script) == Prepended(contents, seen, Run(Queue(d.Contents(), limit), script[i..]))
    {
      RunStep(Queue(d.Contents(), limit), script, i, contents, seen);
      var ok, bytes := StepDynamicBuffer(d, script[i]);
      if !ok {
        return Outcome(contents, seen, true);
      }
      contents := contents + [if d.inputSize.Some? then d.storage.elems[..d.inputSize.value] else d.storage.elems];
      seen := seen + [bytes];
    }
    r := Outcome(contents, seen, false);
  }

  /**
   * The two implementations simulate each other: on every script of prepares, transfers and consumes they hold
   * the same contents after each command, give out the same bytes, and refuse at the same point.
   */
  method SameOutcome(kind: Kind, limit: nat, script: seq<Command>) returns (a: Outcome, b: Outcome)
    requires ProperScript(script)
    requires forall i | 0 <= i < |script| :: ForDynamicBuffer(script[i])
    ensures a == b == Run(Queue([], limit), script)
  {
    a := RunStreamBuf(limit, script);
    b := RunDynamicBuffer(kind, [], limit, script);
  }
}
