/**
 * The output half of basic_socket_streambuf (examples/include/asio/basic_socket_streambuf.hpp): a put area that
 * overflow() and sync() flush with non-blocking sends that may take only part of what they are offered.
 *
 * The socket, the clock and poll are an oracle: one Round says what each of them does in one pass of the loop.
 */
module SocketStreamBufs {
  import opened Wrappers
  import opened Buffers

  const BUFFER_SIZE := 512

  datatype ErrorCode = NoError | TimedOut | WouldBlock | TryAgain | OtherError(code: int)

  /** One pass: has the expiry time passed; what send returns and reports; whether poll_write fails, and what it reports. */
  datatype Round = Round(expired: bool, sent: int, sendError: ErrorCode, pollFails: bool, pollError: ErrorCode)

  /** What a call returns: eof; not_eof(eof); the character; or nothing, if it is still waiting when the rounds run out. */
  datatype Reply = Eof | NotEof | Char(c: byte) | Blocked

  /** What overflow(c) returns on success. */
  function Accepting(c: Option<byte>): Reply {
    if c.Some? then Char(c.value) else NotEof
  }

  predicate Succeeded(r: Reply) {
    r.NotEof? || r.Char?
  }

  /** The reply to the caller says how the sends ended. */
  predicate Answers(r: Reply, status: Status) {
    (Succeeded(r) <==> status.AllSent?) && (r.Blocked? <==> status.Waiting?)
  }

  // ---- Sending, on numbers ----

  datatype Status = AllSent | Failed(ec: ErrorCode) | Waiting

  /** What one pass of the loop comes to: some bytes went out, the socket became ready, or the call gives up. */
  datatype Pass = Took(n: nat) | Again | GaveUp(ec: ErrorCode)

  predicate WorthWaiting(ec: ErrorCode) {
    ec.WouldBlock? || ec.TryAgain?
  }

  function OnePass(r: Round, n: nat): Pass {
    if r.expired then GaveUp(TimedOut)
    else if Min(r.sent, n) > 0 then Took(Min(r.sent, n))
    else if !WorthWaiting(r.sendError) then GaveUp(r.sendError)
    else if r.pollFails then GaveUp(r.pollError)
    else Again
  }

  /** How a series of rounds that is offered n bytes ends, and how many it sends. */
  function Transmit(rounds: seq<Round>, n: nat): (r: (Status, nat))
    ensures r.1 <= n
    ensures r.0.AllSent? <==> r.1 == n
    decreases |rounds|
  {
    if n == 0 then (AllSent, 0)
    else if rounds == [] then (Waiting, 0)
    else
      match OnePass(rounds[0], n)
      case GaveUp(ec) => (Failed(ec), 0)
      case Again => Transmit(rounds[1..], n)
      case Took(taken) =>
        var rest := Transmit(rounds[1..], n - taken);
        (rest.0, taken + rest.1)
  }

  /** Transmit, one round on. */
  lemma TransmitFrom(rounds: seq<Round>, k: nat, n: nat)
    requires k < |rounds| && n > 0
    ensures Transmit(rounds[k..], n) ==
            match OnePass(rounds[k], n) {
              case GaveUp(ec) => (Failed(ec), 0)
              case Again => Transmit(rounds[k + 1..], n)
              case Took(taken) =>
                var rest := Transmit(rounds[k + 1..], n - taken);
                (rest.0, taken + rest.1)
            }
  {
  }

  lemma TransmitNothing(rounds: seq<Round>, n: nat)
    requires rounds == [] && n > 0
    ensures Transmit(rounds, n) == (Waiting, 0)
  {
  }

  // ---- What a series of rounds comes to, read off the rounds ----

  /** The clock, send and poll let the call go on: some bytes were taken, or the socket will be ready for more. */
  predicate GoesOn(r: Round) {
    && !r.expired
    && (r.sent > 0 || ((r.sendError == WouldBlock || r.sendError == TryAgain) && !r.pollFails))
  }

  /** The bytes that a series of rounds takes, if it is offered enough. */
  function Taken(rounds: seq<Round>): nat {
    if rounds == [] then 0 else Max(rounds[0].sent, 0) + Taken(rounds[1..])
  }

  /**
   * Round k is the first that does not go on, or the series ends before it: if the rounds before it have taken all n
   * bytes, they are sent; otherwise the call ends there, having sent exactly what those rounds took, with the error of
   * the clock, of send or of poll, or without an end in sight.
   */
  lemma {:induction false} FirstFailureEnds(rounds: seq<Round>, n: nat, k: nat)
    requires k <= |rounds| && forall i | 0 <= i < k :: GoesOn(rounds[i])
    ensures Taken(rounds[..k]) >= n ==> Transmit(rounds, n) == (AllSent, n)
    ensures Taken(rounds[..k]) < n && k == |rounds| ==> Transmit(rounds, n) == (Waiting, Taken(rounds))
    ensures Taken(rounds[..k]) < n && k < |rounds| && !GoesOn(rounds[k]) ==>
              var r := rounds[k];
              Transmit(rounds, n) ==
              (Failed(if r.expired then TimedOut
                      else if r.sendError != WouldBlock && r.sendError != TryAgain then r.sendError
                      else r.pollError),
               Taken(rounds[..k]))
    decreases |rounds|
  {
    if k == |rounds| {
      assert rounds[..k] == rounds;
    }
    if k > 0 && n > 0 {
      var rest := rounds[1..];
      assert rounds[..k][1..] == rest[..k - 1];
      assert forall i | 0 <= i < k - 1 :: rest[i] == rounds[i + 1];
      FirstFailureEnds(rest, n - Min(Max(rounds[0].sent, 0), n), k - 1);
    }
  }

  lemma {:induction false} EverySendTakes(rounds: seq<Round>)
    ensures Taken(rounds) >= |set i | 0 <= i < |rounds| && rounds[i].sent > 0|
  {
    var sends := set i | 0 <= i < |rounds| && rounds[i].sent > 0;
    if rounds == [] {
      assert sends == {};
    } else {
      var k := |rounds| - 1;
      EverySendTakes(rounds[..k]);
      TakenOfLonger(rounds[..k], rounds[k]);
      assert rounds[..k] + [rounds[k]] == rounds;
      assert sends == (set i | 0 <= i < k && rounds[..k][i].sent > 0) + if rounds[k].sent > 0 then {k} else {};
    }
  }

  lemma {:induction false} TakenOfLonger(rounds: seq<Round>, r: Round)
    ensures Taken(rounds + [r]) == Taken(rounds) + Max(r.sent, 0)
  {
    if rounds != [] {
      assert (rounds + [r])[1..] == rounds[1..] + [r];
      TakenOfLonger(rounds[1..], r);
    }
  }

  /** Partial sends and retries, in any pattern, get everything out once there have been as many sends as bytes. */
  lemma PatienceSends(rounds: seq<Round>, n: nat)
    requires forall i | 0 <= i < |rounds| ::
               && !rounds[i].expired
               && (rounds[i].sent > 0
                   || ((rounds[i].sendError == WouldBlock || rounds[i].sendError == TryAgain) && !rounds[i].pollFails))
    requires |set i | 0 <= i < |rounds| && rounds[i].sent > 0| >= n
    ensures Transmit(rounds, n) == (AllSent, n)
  {
    EverySendTakes(rounds);
    assert rounds[..|rounds|] == rounds;
    FirstFailureEnds(rounds, n, |rounds|);
  }

  // ---- Subsequences ----

  /** a can be had from b by leaving bytes out. */
  ghost predicate Subsequence(a: seq<byte>, b: seq<byte>)
    decreases |b|
  {
    || a == []
    || (b != [] &&
        ((a[|a| - 1] == b[|b| - 1] && Subsequence(a[..|a| - 1], b[..|b| - 1])) || Subsequence(a, b[..|b| - 1])))
  }

  lemma {:induction false} SubsequenceOfLonger(a: seq<byte>, b: seq<byte>, x: seq<byte>)
    requires Subsequence(a, b)
    ensures Subsequence(a, b + x)
    decreases |x|
  {
    if x == [] {
      assert b + x == b;
    } else {
      assert (b + x)[..|b + x| - 1] == b + x[..|x| - 1];
      SubsequenceOfLonger(a, b, x[..|x| - 1]);
    }
  }

  lemma {:induction false} SubsequenceAppend(a: seq<byte>, b: seq<byte>, x: seq<byte>)
    requires Subsequence(a, b)
    ensures Subsequence(a + x, b + x)
    decreases |x|
  {
    if x == [] {
      assert a + x == a && b + x == b;
    } else {
      assert (a + x)[..|a + x| - 1] == a + x[..|x| - 1] && (b + x)[..|b + x| - 1] == b + x[..|x| - 1];
      SubsequenceAppend(a, b, x[..|x| - 1]);
    }
  }

  lemma PlusBytes(b: Buf, n: nat)
    requires b.Valid() && n <= b.size
    ensures b.Plus(n).size == b.size - n
    ensures b.Plus(n).Bytes() == b.Bytes()[n..]
  {
  }

  // ---- Accounts ----

  /**
   * What send has taken; what calls have accepted; what is still in the put area; and how many bytes failed calls
   * had already sent when they failed.
   */
  datatype Accounts = Accounts(wire: seq<byte>, accepted: seq<byte>, pending: seq<byte>, stray: nat) {
    /** The accepted characters that have left the put area. */
    function Flushed(): seq<byte>
      requires |pending| <= |accepted|
    {
      accepted[..|accepted| - |pending|]
    }

    /**
     * No accepted character is ever lost or reordered; and the wire and the put area together hold the accepted
     * characters exactly when no failed call took bytes.
     */
    ghost predicate Balanced() {
      && |pending| <= |accepted|
      && accepted == Flushed() + pending
      && Subsequence(Flushed(), wire)
      && |wire| + |pending| == |accepted| + stray
      && (wire + pending == accepted <==> stray == 0)
    }

    /** The whole put area is sent, and c starts the next one. */
    function AfterFlush(c: seq<byte>): Accounts {
      Accounts(wire + pending, accepted + c, c, stray)
    }

    /** A call fails after j bytes of the put area; they stay in it and will be sent again. */
    function AfterFailure(j: nat): Accounts
      requires j <= |pending|
    {
      Accounts(wire + pending[..j], accepted, pending, stray + j)
    }

    /** A character joins the put area. */
    function AfterStore(c: byte): Accounts {
      Accounts(wire, accepted + [c], pending + [c], stray)
    }

    lemma FlushBalances(c: seq<byte>)
      requires Balanced()
      ensures AfterFlush(c).Balanced()
    {
      SubsequenceAppend(Flushed(), wire, pending);
      assert AfterFlush(c).Flushed() == accepted;
      assert stray == 0 ==> wire + pending + c == accepted + c;
    }

    lemma FailureBalances(j: nat)
      requires Balanced() && j <= |pending|
      ensures AfterFailure(j).Balanced()
    {
      SubsequenceOfLonger(Flushed(), wire, pending[..j]);
      assert j == 0 ==> AfterFailure(j) == this by {
        assert j == 0 ==> wire + pending[..j] == wire;
      }
    }

    lemma StoreBalances(c: byte)
      requires Balanced()
      ensures AfterStore(c).Balanced()
    {
      assert AfterStore(c).Flushed() == Flushed();
      assert wire + (pending + [c]) == (wire + pending) + [c];
    }
  }

  // ---- What a script does, on numbers and on the books ----

  datatype Command = Put(c: byte, rounds: seq<Round>) | Sync(rounds: seq<Round>) | GoUnbuffered

  /** The put area, as far as it decides what a call does. */
  datatype Area = Area(buffered: bool, pending: nat)

  const FRESH := Area(true, 0)

  /** The command flushes the put area before anything else. */
  predicate Flushes(a: Area, c: Command) {
    a.buffered && (c.Sync? || (c.Put? && a.pending == BUFFER_SIZE))
  }

  /** How the sends of a command end; one that sends nothing has sent all of it. */
  function Ending(a: Area, c: Command): Status {
    if Flushes(a, c) then Transmit(c.rounds, a.pending).0
    else if !a.buffered && c.Put? then Transmit(c.rounds, 1).0
    else AllSent
  }

  function Next(a: Area, c: Command): Area {
    match c
    case Put(_, _) =>
      if !a.buffered || !Ending(a, c).AllSent? then a
      else a.(pending := if Flushes(a, c) then 1 else a.pending + 1)
    case Sync(_) => if a.buffered && Ending(a, c).AllSent? then a.(pending := 0) else a
    case GoUnbuffered => if a.pending == 0 then Area(false, 0) else a
  }

  /** The bytes a command sends of a put area that it then fails to flush. */
  function SentInVain(a: Area, c: Command): nat {
    if Flushes(a, c) && !Ending(a, c).AllSent? then Transmit(c.rounds, a.pending).1 else 0
  }

  /** The bytes sent by the failing flushes of a script, up to a call that never returns. */
  function AllSentInVain(a: Area, script: seq<Command>): nat
    decreases |script|
  {
    if script == [] then 0
    else
      SentInVain(a, script[0]) +
      if Ending(a, script[0]).Waiting? then 0 else AllSentInVain(Next(a, script[0]), script[1..])
  }

  predicate AllSucceed(a: Area, script: seq<Command>)
    decreases |script|
  {
    script == [] || (Ending(a, script[0]).AllSent? && AllSucceed(Next(a, script[0]), script[1..]))
  }

  function Characters(script: seq<Command>): seq<byte> {
    if script == [] then [] else (if script[0].Put? then [script[0].c] else []) + Characters(script[1..])
  }

  function Booked(b: Accounts, a: Area, c: Command): Accounts
    requires a.pending == |b.pending|
  {
    var done := Ending(a, c).AllSent?;
    if Flushes(a, c) then
      if done then b.AfterFlush(if c.Put? then [c.c] else []) else b.AfterFailure(SentInVain(a, c))
    else if !c.Put? || !done then b
    else if a.buffered then b.AfterStore(c.c)
    else b.AfterStore(c.c).AfterFlush([])
  }

  ghost predicate Follows(b: Accounts, a: Area) {
    b.Balanced() && a.pending == |b.pending| && a.pending <= if a.buffered then BUFFER_SIZE else 0
  }

  /** The books stay balanced and in step with the area, and every byte sent in vain is entered in them. */
  lemma BookedBalances(b: Accounts, a: Area, c: Command)
    requires Follows(b, a)
    ensures Follows(Booked(b, a, c), Next(a, c))
    ensures Booked(b, a, c).stray == b.stray + SentInVain(a, c)
    ensures Ending(a, c).AllSent? ==> SentInVain(a, c) == 0
    ensures Booked(b, a, c).accepted == b.accepted + if c.Put? && Ending(a, c).AllSent? then [c.c] else []
  {
    hide Accounts.Balanced, Transmit;
    if Flushes(a, c) {
      b.FlushBalances(if c.Put? then [c.c] else []);
      b.FailureBalances(SentInVain(a, c));
    } else if c.Put? {
      b.StoreBalances(c.c);
      b.AfterStore(c.c).FlushBalances([]);
    }
  }

  function BooksAfter(b: Accounts, a: Area, script: seq<Command>): Accounts
    requires a.pending == |b.pending| <= if a.buffered then BUFFER_SIZE else 0
    decreases |script|
  {
    if script == [] then b
    else
      var after := Booked(b, a, script[0]);
      if Ending(a, script[0]).Waiting? then after else BooksAfter(after, Next(a, script[0]), script[1..])
  }

  /**
   * The wire and the put area together hold the accepted characters exactly if the script's failing flushes sent
   * nothing, and what was put, if every call succeeds.
   */
  lemma {:induction false} BooksOfScript(b: Accounts, a: Area, script: seq<Command>)
    requires Follows(b, a)
    ensures var t := BooksAfter(b, a, script);
            && t.Balanced()
            && t.stray == b.stray + AllSentInVain(a, script)
            && (AllSucceed(a, script) ==> t.stray == b.stray && t.accepted == b.accepted + Characters(script))
    decreases |script|
  {
    hide Accounts.Balanced, Transmit, Booked, Ending, Next, SentInVain, Flushes;
    if script != [] {
      BookedBalances(b, a, script[0]);
      if !Ending(a, script[0]).Waiting? {
        BooksOfScript(Booked(b, a, script[0]), Next(a, script[0]), script[1..]);
      }
    }
  }

  // ---- The stream buffer ----

  class SocketStreamBuf {
    var putBuffer: array<byte>   // put_buffer_; empty in unbuffered mode
    var pptr: nat                // pbase() is always its start, epptr() its end
    var ec: ErrorCode            // ec_
    ghost var wire: seq<byte>
    ghost var accepted: seq<byte>
    ghost var stray: nat

    ghost function Books(): Accounts
      requires pptr <= putBuffer.Length
      reads this, putBuffer
    {
      Accounts(wire, accepted, putBuffer[..pptr], stray)
    }

    function PutArea(): Area
      reads this
    {
      Area(putBuffer.Length > 0, pptr)
    }

    ghost predicate Valid()
      reads this, putBuffer
    {
      && (putBuffer.Length == BUFFER_SIZE || putBuffer.Length == 0)
      && pptr <= putBuffer.Length && Books().Balanced()
    }

    constructor ()
      ensures Valid() && fresh(putBuffer) && putBuffer.Length == 512
      ensures Books() == Accounts([], [], [], 0) && ec == NoError
    {
      putBuffer := new byte[BUFFER_SIZE];
      pptr, ec := 0, NoError;
      wire, accepted, stray := [], [], 0;
    }

    /** One pass of the loop of overflow(). */
    method SendOnce(buffer: Buf, round: Round) returns (p: Pass)
      requires buffer.Valid() && buffer.size > 0
      modifies this`ec, this`wire
      ensures p == OnePass(round, buffer.size)
      ensures wire == old(wire) + if p.Took? then buffer.Bytes()[..p.n] else []
      ensures ec == if round.expired then TimedOut
                    else if round.sent <= 0 && (round.sendError == WouldBlock || round.sendError == TryAgain)
                    then round.pollError else round.sendError
      ensures p.GaveUp? ==> ec == p.ec
    {
      if round.expired {
        ec := TimedOut;
        return GaveUp(ec);
      }
      var bytes := Min(round.sent, buffer.size);
      ec := round.sendError;
      if bytes > 0 {
        wire := wire + buffer.Bytes()[..bytes];
        return Took(bytes);
      }
      if !ec.WouldBlock? && !ec.TryAgain? {
        return GaveUp(ec);
      }
      ec := round.pollError;
      if round.pollFails {
        return GaveUp(ec);
      }
      p := Again;
    }

    /** The loop of overflow(): sends what output covers. */
    method Send(output: Buf, rounds: seq<Round>) returns (status: Status)
      requires output.Valid()
      modifies this`ec, this`wire
      ensures var t := Transmit(rounds, output.size);
              && status == t.0
              && wire == old(wire) + output.Bytes()[..t.1]
      ensures status.Failed? ==> ec == status.ec
    {
      hide Transmit, OnePass, Buf.Bytes;
      ghost var payload := output.Bytes();
      ghost var total, done := Transmit(rounds, output.size), 0;
      assert rounds[0..] == rounds;
      var buffer := output;
      var k := 0;
      while buffer.size > 0
        invariant k <= |rounds| && done + buffer.size == output.size
        invariant buffer.Valid() && buffer.Bytes() == payload[done..]
        invariant wire == old(wire) + payload[..done]
        invariant total.0 == Transmit(rounds[k..], buffer.size).0
        invariant total.1 == done + Transmit(rounds[k..], buffer.size).1
        decreases |rounds| - k
      {
        if k == |rounds| {
          TransmitNothing(rounds[k..], buffer.size);
          return Waiting;
        }
        TransmitFrom(rounds, k, buffer.size);
        var p := SendOnce(buffer, rounds[k]);
        k := k + 1;
        match p {
          case GaveUp(ec) => return Failed(ec);
          case Again =>
          case Took(bytes) =>
            assert payload[..done] + payload[done..][..bytes] == payload[..done + bytes];
            PlusBytes(buffer, bytes);
            buffer := buffer.Plus(bytes);
            done := done + bytes;
        }
      }
      status := AllSent;
    }

    /** overflow(c) in unbuffered mode: one character, straight to the socket. */
    method OverflowUnbuffered(c: Option<byte>, rounds: seq<Round>) returns (r: Reply)
      requires Valid() && putBuffer.Length == 0
      modifies this`ec, this`wire, this`accepted
      ensures Valid()
      ensures Succeeded(r) <==> c.None? || Transmit(rounds, 1).0.AllSent?
      ensures r.Blocked? <==> c.Some? && Transmit(rounds, 1).0.Waiting?
      ensures Succeeded(r) ==> r == Accepting(c)
      ensures r.Eof? ==> Transmit(rounds, 1).0 == Failed(ec)
      ensures Books() ==
              if Succeeded(r) && c.Some? then old(Books()).AfterStore(c.value).AfterFlush([])
              else old(Books())
    {
      hide Accounts.Balanced;
      if c.None? {
        return NotEof;
      }
      var ch := new byte[1];
      ch[0] := c.value;
      var status := Send(Buf(ch, 0, 1), rounds);
      assert Buf(ch, 0, 1).Bytes() == [c.value];
      ghost var was := old(Books());
      assert was.pending == [];
      if !status.AllSent? {
        assert wire == was.wire + [] == was.wire;
        return if status.Waiting? then Blocked else Eof;
      }
      accepted := accepted + [c.value];
      was.StoreBalances(c.value);
      was.AfterStore(c.value).FlushBalances([]);
      assert Books() == was.AfterStore(c.value).AfterFlush([]);
      r := Char(c.value);
    }

    /** overflow(c) in buffered mode: the whole put area is sent, and then c is stored. */
    method OverflowBuffered(c: Option<byte>, rounds: seq<Round>) returns (r: Reply)
      requires Valid() && putBuffer.Length > 0
      modifies this, putBuffer
      ensures Valid() && putBuffer == old(putBuffer)
      ensures Succeeded(r) ==> r == Accepting(c)
      ensures var t := Transmit(rounds, old(pptr));
              && Answers(r, t.0) && (r.Eof? ==> t.0 == Failed(ec))
              && Books() == if Succeeded(r) then old(Books()).AfterFlush(if c.Some? then [c.value] else [])
                            else old(Books()).AfterFailure(t.1)
    {
      hide Accounts.Balanced, Transmit;
      ghost var was := Books();
      var status := Send(Buf(putBuffer, 0, pptr), rounds);
      if !status.AllSent? {
        ghost var j := Transmit(rounds, pptr).1;
        stray := stray + j;
        was.FailureBalances(j);
        return if status.Waiting? then Blocked else Eof;
      }
      assert was.pending[..pptr] == was.pending;
      pptr := 0;
      if c.None? {
        was.FlushBalances([]);
        assert Books() == was.AfterFlush([]);
        return NotEof;
      }
      putBuffer[pptr] := c.value;
      pptr := pptr + 1;
      accepted := accepted + [c.value];
      was.FlushBalances([c.value]);
      assert Books() == was.AfterFlush([c.value]);
      r := Char(c.value);
    }

    /** overflow(c). */
    method Overflow(c: Option<byte>, rounds: seq<Round>) returns (r: Reply)
      requires Valid()
      modifies this, putBuffer
      ensures Valid() && putBuffer == old(putBuffer)
      ensures Succeeded(r) ==> r == if c.Some? then Char(c.value) else NotEof
      ensures putBuffer.Length > 0 ==>
                var t := Transmit(rounds, old(pptr));
                && Answers(r, t.0) && (r.Eof? ==> t.0 == Failed(ec))
                && Books() == if Succeeded(r) then old(Books()).AfterFlush(if c.Some? then [c.value] else [])
                              else old(Books()).AfterFailure(t.1)
      ensures putBuffer.Length == 0 ==>
                && Answers(r, if c.Some? then Transmit(rounds, 1).0 else AllSent)
                && (r.Eof? ==> Transmit(rounds, 1).0 == Failed(ec))
                && Books() == if Succeeded(r) && c.Some? then old(Books()).AfterStore(c.value).AfterFlush([])
                              else old(Books())
    {
      hide Accounts.Balanced, Transmit;
      if putBuffer.Length == 0 {
        r := OverflowUnbuffered(c, rounds);
      } else {
        r := OverflowBuffered(c, rounds);
      }
    }

    /** std::streambuf::sputc: a character goes into the put area while there is room. */
    method Sputc(c: byte, rounds: seq<Round>) returns (r: Reply)
      requires Valid()
      modifies this, putBuffer
      ensures Valid() && putBuffer == old(putBuffer)
      ensures Books() == Booked(old(Books()), old(PutArea()), Put(c, rounds))
      ensures PutArea() == Next(old(PutArea()), Put(c, rounds))
      ensures Answers(r, Ending(old(PutArea()), Put(c, rounds))) && (Succeeded(r) ==> r == Char(c))
      ensures r.Eof? ==> Ending(old(PutArea()), Put(c, rounds)) == Failed(ec)
    {
      hide Accounts.Balanced, Transmit;
      if pptr < putBuffer.Length {
        ghost var was := Books();
        was.StoreBalances(c);
        putBuffer[pptr] := c;
        pptr := pptr + 1;
        accepted := accepted + [c];
        assert Books() == was.AfterStore(c);
        r := Char(c);
      } else {
        r := Overflow(Some(c), rounds);
      }
    }

    /** setbuf(0, 0): unbuffered from here on, if nothing is waiting in the put area. */
    method SetBufUnbuffered() returns (ok: bool)
      requires Valid()
      modifies this
      ensures Valid() && (putBuffer == old(putBuffer) || fresh(putBuffer))
      ensures ok <==> old(pptr) == 0
      ensures ok ==> putBuffer.Length == 0
      ensures Books() == old(Books())
    {
      hide Accounts.Balanced;
      ok := pptr == 0;
      if ok {
        ghost var was := Books();
        putBuffer := new byte[0];
        pptr := 0;
        assert Books() == was;
        var r := Overflow(None, []); // sync()
      }
    }
  }

  // ---- Whole runs ----

  /** sputc, pubsync or pubsetbuf(0, 0). */
  method ExecuteOne(sb: SocketStreamBuf, c: Command) returns (r: Reply)
    requires sb.Valid()
    modifies sb, sb.putBuffer
    ensures sb.Valid() && (sb.putBuffer == old(sb.putBuffer) || fresh(sb.putBuffer))
    ensures sb.Books() == Booked(old(sb.Books()), old(sb.PutArea()), c)
    ensures sb.PutArea() == Next(old(sb.PutArea()), c)
    ensures Answers(r, Ending(old(sb.PutArea()), c)) && (Succeeded(r) ==> r == if c.Put? then Char(c.c) else NotEof)
    ensures r.Eof? ==> Ending(old(sb.PutArea()), c) == Failed(sb.ec)
  {
    hide Accounts.Balanced, Transmit;
    match c
    case Put(b, rounds) => r := sb.Sputc(b, rounds);
    case Sync(rounds) => r := sb.Overflow(None, rounds);
    case GoUnbuffered =>
      var ok := sb.SetBufUnbuffered();
      r := NotEof;
  }

  /**
   * Any series of puts, syncs and a switch to unbuffered mode, under any behaviour of the socket, stopping if a call
   * never returns.  If every call succeeds, the wire followed by the put area is exactly what was put.  If some
   * fail, that still holds of the characters accepted as long as no failing flush sent anything, and only then;
   * but in every case they reach the wire and the put area in order and without a gap.
   */
  method RunScript(script: seq<Command>) returns (sb: SocketStreamBuf, allSucceeded: bool)
    ensures sb.Valid() && fresh(sb)
    ensures allSucceeded <==> AllSucceed(FRESH, script)
    ensures var b := sb.Books();
            && b == BooksAfter(Accounts([], [], [], 0), FRESH, script)
            && (b.wire + b.pending == b.accepted <==> AllSentInVain(FRESH, script) == 0)
            && |b.wire| + |b.pending| == |b.accepted| + AllSentInVain(FRESH, script)
            && (allSucceeded ==> b.wire + b.pending == Characters(script))
            && |b.pending| <= |b.accepted| && b.accepted == b.Flushed() + b.pending
            && Subsequence(b.Flushed(), b.wire)
  {
    sb := new SocketStreamBuf();
    allSucceeded := true;
    BooksOfScript(sb.Books(), FRESH, script);
    for i := 0 to |script|
      invariant fresh(sb) && fresh(sb.putBuffer) && sb.Valid()
      invariant BooksAfter(Accounts([], [], [], 0), FRESH, script) == BooksAfter(sb.Books(), sb.PutArea(), script[i..])
      invariant AllSucceed(FRESH, script) <==> allSucceeded && AllSucceed(sb.PutArea(), script[i..])
    {
      assert script[i..][0] == script[i] && script[i..][1..] == script[i + 1..];
      var r := ExecuteOne(sb, script[i]);
      if !Succeeded(r) {
        allSucceeded := false;
      }
      if r.Blocked? {
        return;
      }
    }
  }

  /** The script below: two bytes, a flush that times out after the first of them, and a flush that succeeds. */
  function TimedOutFlush(x: byte, y: byte): seq<Command> {
    var once, expired := Round(false, 1, NoError, false, NoError), Round(true, 0, NoError, false, NoError);
    [Put(x, []), Put(y, []), Sync([once, expired]), Sync([once, once])]
  }

  /** The first byte reaches the wire twice. */
  lemma FailedFlushRepeats(x: byte, y: byte)
    ensures BooksAfter(Accounts([], [], [], 0), FRESH, TimedOutFlush(x, y)) == Accounts([x, x, y], [x, y], [], 1)
    ensures AllSentInVain(FRESH, TimedOutFlush(x, y)) == 1
  {
    var s := TimedOutFlush(x, y);
    var b0, b1, b2 := Accounts([], [], [], 0), Accounts([], [x], [x], 0), Accounts([], [x, y], [x, y], 0);
    assert Transmit(s[2].rounds[1..], 1) == (Failed(TimedOut), 0);
    assert Transmit(s[3].rounds[1..], 1) == (AllSent, 1);
    assert Booked(b0, FRESH, s[0]) == b1 && Booked(b1, Area(true, 1), s[1]) == b2;
    assert Booked(b2, Area(true, 2), s[2]) == Accounts([x], [x, y], [x, y], 1);
    assert Booked(Accounts([x], [x, y], [x, y], 1), Area(true, 2), s[3]) == Accounts([x, x, y], [x, y], [], 1) by {
      assert [x] + [x, y] == [x, x, y] && [x, y] + [] == [x, y];
    }
    assert s[1..][1..] == s[2..] && s[2..][1..] == s[3..] && s[3..][1..] == [];
    assert AllSentInVain(Area(true, 2), s[2..]) == 1 + AllSentInVain(Area(true, 2), s[3..]);
    assert BooksAfter(b2, Area(true, 2), s[2..]) == BooksAfter(Accounts([x], [x, y], [x, y], 1), Area(true, 2), s[3..]);
  }
}
