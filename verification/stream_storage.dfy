/**
 * The state shared by a stream promise and its stream future
 * (include/var_future/impl/stream/stream_storage_decl.h, stream_storage_impl.h), as a state machine over
 * the steps of two threads.  The producer pushes values one after another and then closes the stream; the
 * consumer installs a handler, which first replays what was buffered.  A mutex guards the buffer.  Each of them then
 * lets go of the storage; a consumer may also let go without installing a handler.
 *
 * State.fault records a failed assertion, a call through a handler that is not there and an access after the storage is
 * freed.  What goes wrong in the destructor is recorded in State.life.
 */
module StreamStorage {
  import opened Wrappers
  import FutureStorage

  type Element = FutureStorage.Element

  /** How the producer closes the stream. */
  datatype Close<+E> = Complete | Fail(error: E)

  /** A call of the handler. */
  datatype Call<+V, +E> = Push(value: V) | Closed(close: Close<E>)

  /** callback_ starts indeterminate: nothing initialises it. */
  datatype Handler = Indeterminate | Installed(block: Element) | Destroyed

  /** How long the storage lives, and how it ends. */
  datatype Lifetime = Lifetime(
    refCount: nat, alive: bool,
    wildRead: bool,      // the destructor tested an indeterminate callback_
    mismatched: bool)    // the handler's memory was given back as another type's than it was taken for

  datatype Lock = Free | ByProducer | ByConsumer

  /** Where the producer stands in its k-th operation; the last operation closes the stream. */
  datatype Producer =
    | Idle
    // push
    | PushWantsLock | PushLocked | PushUnlockDirect | PushDirect | PushUnlock
    // complete, fail
    | CloseLocked | CloseUnlockDirect | CloseDirect | CloseUnlock
    | Done | PReleased

  datatype Consumer<+E> =
    | CStart | HandlerBuilt | Replaying(i: nat)
    | SetReady(pending: Option<Close<E>>) | CallClose(pending: Option<Close<E>>)
    | CDone | CReleased | Dropped

  datatype State<+V, +E> = State(
    ready: bool, closed: Option<Close<E>>,    // the ready bit; the complete and fail bits, with error_
    lock: Lock,
    buffer: seq<V>,                           // fullfilled_
    handler: Handler,
    fault: bool,
    calls: seq<Call<V, E>>,                   // the handler's calls, in order
    producer: Producer, sent: nat,            // operations the producer has completed
    consumer: Consumer<E>,
    life: Lifetime)

  /** What the producer is to do. */
  datatype Script<+V, +E> = Script(values: seq<V>, close: Close<E>)

  datatype Event = ProducerStep | ConsumerStep | DropFuture

  function Init<V, E>(): State<V, E> {
    State(false, None, Free, [], Indeterminate, false, [], Idle, 0, CStart, Lifetime(2, true, false, false))
  }

  function Invoke<V, E>(s: State<V, E>, c: Call<V, E>): State<V, E> {
    if s.handler.Installed? then s.(calls := s.calls + [c]) else s.(fault := true)
  }

  /** ~Stream_storage and the deallocation after it. */
  function Destroy<V, E>(s: State<V, E>): State<V, E> {
    match s.handler
    case Indeterminate => s.(life := s.life.(alive := false, wildRead := true))
    case Installed(block) =>
      s.(handler := Destroyed,
         life := s.life.(alive := false, mismatched := block != FutureStorage.InterfaceType))
    case Destroyed => s.(fault := true)
  }

  /** Storage_ptr::reset. */
  function Release<V, E>(s: State<V, E>): State<V, E> {
    var t := s.(life := s.life.(refCount := FutureStorage.Down(s.life.refCount)));
    if s.life.refCount == 1 then Destroy(t) else t
  }

  // ---- Steps ----

  predicate ProducerEnabled<V, E>(s: State<V, E>) {
    match s.producer
    case PReleased => false
    case PushWantsLock => s.lock.Free?
    case _ => true
  }

  /** Starting to close needs the lock at once; starting a push reads the flags first. */
  predicate CanStart<V, E>(p: Script<V, E>, s: State<V, E>) {
    s.producer.Idle? && s.sent == |p.values| ==> s.lock.Free?
  }

  predicate ConsumerEnabled<V, E>(s: State<V, E>) {
    match s.consumer
    case CReleased => false
    case Dropped => false
    case HandlerBuilt => s.lock.Free?
    case _ => true
  }

  predicate Enabled<V, E>(p: Script<V, E>, s: State<V, E>, e: Event) {
    match e
    case ProducerStep => OnScript(p, s) && ProducerEnabled(s) && CanStart(p, s)
    case ConsumerStep => ConsumerEnabled(s)
    case DropFuture => s.consumer.CStart?
  }

  predicate InPush(p: Producer) {
    p.PushWantsLock? || p.PushLocked? || p.PushUnlockDirect? || p.PushDirect? || p.PushUnlock?
  }

  /** The operation under way is the push of values[sent], or the close after the last value. */
  predicate OnScript<V, E>(p: Script<V, E>, s: State<V, E>) {
    if InPush(s.producer) then s.sent < |p.values|
    else if s.producer.Idle? then s.sent <= |p.values|
    else s.sent == |p.values|
  }

  function PushStep<V, E>(v: V, s: State<V, E>): State<V, E>
    requires s.producer.Idle? || InPush(s.producer)
  {
    match s.producer
    case Idle =>
      // assert((flags & (fail_bit | complete_bit)) == 0)
      if s.closed.Some? then s.(fault := true)
      else s.(producer := if s.ready then PushDirect else PushWantsLock)
    case PushWantsLock => s.(lock := ByProducer, producer := PushLocked)
    case PushLocked =>
      if s.ready then s.(producer := PushUnlockDirect)
      else s.(buffer := s.buffer + [v], producer := PushUnlock)
    case PushUnlockDirect => s.(lock := Free, producer := PushDirect)
    case PushDirect => Invoke(s, Push(v)).(producer := Idle, sent := s.sent + 1)
    case PushUnlock => s.(lock := Free, producer := Idle, sent := s.sent + 1)
  }

  function CloseStep<V, E>(c: Close<E>, s: State<V, E>): State<V, E>
    requires !InPush(s.producer) && !s.producer.PReleased?
  {
    match s.producer
    case Idle => s.(lock := ByProducer, producer := CloseLocked)
    case CloseLocked =>
      if s.ready then s.(producer := CloseUnlockDirect)
      else s.(closed := Some(c), producer := CloseUnlock)
    case CloseUnlockDirect => s.(lock := Free, producer := CloseDirect)
    case CloseDirect => Invoke(s, Closed(c)).(producer := Done)
    case CloseUnlock => s.(lock := Free, producer := Done)
    case Done => Release(s).(producer := PReleased)
  }

  /** set_handler, and storage_.reset() after it. */
  function HandlerStep<V, E>(s: State<V, E>): State<V, E>
    requires !s.consumer.CReleased? && !s.consumer.Dropped?
  {
    match s.consumer
    case CStart => s.(handler := Installed(FutureStorage.HandlerType), consumer := HandlerBuilt)
    case HandlerBuilt => s.(lock := ByConsumer, consumer := Replaying(0))
    case Replaying(i) =>
      if i < |s.buffer| then Invoke(s, Push(s.buffer[i])).(consumer := Replaying(i + 1))
      else s.(ready := true, consumer := SetReady(s.closed))
    case SetReady(pending) => s.(lock := Free, consumer := CallClose(pending))
    case CallClose(Some(c)) => Invoke(s, Closed(c)).(consumer := CDone)
    case CallClose(None) => s.(consumer := CDone)
    case CDone => Release(s).(consumer := CReleased)
  }

  function Step<V, E>(p: Script<V, E>, s: State<V, E>, e: Event): State<V, E>
    requires Enabled(p, s, e)
  {
    if !s.life.alive then s.(fault := true)
    else
      match e
      case ProducerStep =>
        if s.sent < |p.values| then PushStep(p.values[s.sent], s) else CloseStep(p.close, s)
      case ConsumerStep => HandlerStep(s)
      case DropFuture => Release(s).(consumer := Dropped)
  }

  // ---- The invariant ----

  function Pushes<V, E>(values: seq<V>): seq<Call<V, E>> {
    seq(|values|, i requires 0 <= i < |values| => Push(values[i]))
  }

  /** Values taken over by the storage: the push in progress counts once it is in the buffer. */
  function Accepted<V, E>(s: State<V, E>): nat {
    s.sent + if s.producer.PushUnlock? then 1 else 0
  }

  predicate HasClosed(p: Producer) {
    p.Done? || p.PReleased?
  }

  /** set_handler has returned. */
  predicate Through<E>(c: Consumer<E>) {
    c.CDone? || c.CReleased?
  }

  function Holders<V, E>(s: State<V, E>): nat {
    (if s.producer.PReleased? then 0 else 1) + (if s.consumer.CReleased? || s.consumer.Dropped? then 0 else 1)
  }

  /** The storage is there while somebody holds it, and its end is as defined as its callback_. */
  ghost predicate LifeAgrees<V, E>(s: State<V, E>) {
    && s.life.refCount == Holders(s) && (s.life.alive <==> Holders(s) > 0)
    && s.handler == (if s.consumer.CStart? || s.consumer.Dropped? then Indeterminate
                     else if s.life.alive then Installed(FutureStorage.HandlerType) else Destroyed)
    && (s.life.wildRead <==> !s.life.alive && s.consumer.Dropped?)
    && (s.life.mismatched <==> !s.life.alive && s.consumer.CReleased?)
  }

  ghost predicate LockAgrees<V, E>(s: State<V, E>) {
    && (s.lock.ByProducer? <==>
        s.producer.PushLocked? || s.producer.PushUnlockDirect? || s.producer.PushUnlock? ||
        s.producer.CloseLocked? || s.producer.CloseUnlockDirect? || s.producer.CloseUnlock?)
    && (s.lock.ByConsumer? <==> s.consumer.Replaying? || s.consumer.SetReady?)
  }

  ghost predicate FlagsAgree<V, E>(p: Script<V, E>, s: State<V, E>) {
    && (s.ready <==> s.consumer.SetReady? || s.consumer.CallClose? || Through(s.consumer))
    && (s.producer.PushUnlockDirect? || s.producer.PushDirect? ==> s.ready)
    && (s.producer.CloseUnlockDirect? || s.producer.CloseDirect? ==> s.ready)
    && (s.closed.Some? ==> s.closed == Some(p.close) && (s.producer.CloseUnlock? || HasClosed(s.producer)))
    && (s.producer.CloseUnlock? ==> s.closed.Some? && !s.ready)
    && ((s.consumer.SetReady? || s.consumer.CallClose?) ==> s.consumer.pending == s.closed)
    && (HasClosed(s.producer) && s.closed.None? ==> s.ready)
    && OnScript(p, s)
  }

  /** The closing call has been made. */
  predicate CloseCalled<V, E>(s: State<V, E>) {
    HasClosed(s.producer) && (s.closed.None? || Through(s.consumer))
  }

  /** The values the handler has been given. */
  function Delivered<V, E>(s: State<V, E>): nat {
    match s.consumer
    case CStart => 0
    case Dropped => 0
    case HandlerBuilt => 0
    case Replaying(i) => i
    case _ => Accepted(s)
  }

  /** The handler has seen a prefix of the values; the rest of what the storage accepted is still in the buffer. */
  ghost predicate OrderAgrees<V, E>(p: Script<V, E>, s: State<V, E>) {
    && |s.buffer| <= Accepted(s) <= |p.values|
    && s.buffer == p.values[..|s.buffer|]
    && (!s.ready ==> |s.buffer| == Accepted(s))
    && (s.consumer.Replaying? ==> s.consumer.i <= |s.buffer|)
    && Delivered(s) <= |p.values|
    && s.calls == if CloseCalled(s) then Pushes(p.values) + [Closed(p.close)] else Pushes(p.values[..Delivered(s)])
  }

  ghost predicate Control<V, E>(p: Script<V, E>, s: State<V, E>) {
    !s.fault && LifeAgrees(s) && LockAgrees(s) && FlagsAgree(p, s)
  }

  ghost predicate Inv<V, E>(p: Script<V, E>, s: State<V, E>) {
    Control(p, s) && OrderAgrees(p, s)
  }

  lemma InitInv<V, E>(p: Script<V, E>)
    ensures Inv(p, Init())
  {
  }

  lemma PushKeepsControl<V, E>(p: Script<V, E>, s: State<V, E>)
    requires Inv(p, s) && Enabled(p, s, ProducerStep)
    requires s.sent < |p.values|
    ensures Control(p, PushStep(p.values[s.sent], s))
  {
    hide OrderAgrees;
  }

  lemma PushKeepsOrder<V, E>(p: Script<V, E>, s: State<V, E>)
    requires Inv(p, s) && Enabled(p, s, ProducerStep)
    requires s.sent < |p.values|
    ensures OrderAgrees(p, PushStep(p.values[s.sent], s))
  {
    hide LockAgrees;
  }

  lemma CloseKeepsControl<V, E>(p: Script<V, E>, s: State<V, E>)
    requires Inv(p, s) && Enabled(p, s, ProducerStep)
    requires s.sent == |p.values|
    ensures Control(p, CloseStep(p.close, s))
  {
    hide OrderAgrees;
  }

  lemma CloseKeepsOrder<V, E>(p: Script<V, E>, s: State<V, E>)
    requires Inv(p, s) && Enabled(p, s, ProducerStep)
    requires s.sent == |p.values|
    ensures OrderAgrees(p, CloseStep(p.close, s))
  {
    hide LockAgrees;
  }

  lemma HandlerKeepsControl<V, E>(p: Script<V, E>, s: State<V, E>)
    requires Inv(p, s) && ConsumerEnabled(s)
    ensures Control(p, HandlerStep(s))
  {
    hide OrderAgrees;
  }

  lemma HandlerKeepsOrder<V, E>(p: Script<V, E>, s: State<V, E>)
    requires Inv(p, s) && ConsumerEnabled(s)
    ensures OrderAgrees(p, HandlerStep(s))
  {
    hide LockAgrees;
  }

  lemma DropKeepsInv<V, E>(p: Script<V, E>, s: State<V, E>)
    requires Inv(p, s) && Enabled(p, s, DropFuture)
    ensures Inv(p, Step(p, s, DropFuture))
  {
  }

  lemma StepKeepsInv<V, E>(p: Script<V, E>, s: State<V, E>, e: Event)
    requires Inv(p, s) && Enabled(p, s, e)
    ensures Inv(p, Step(p, s, e))
  {
    match e
    case ProducerStep =>
      if s.sent < |p.values| {
        PushKeepsControl(p, s);
        PushKeepsOrder(p, s);
      } else {
        CloseKeepsControl(p, s);
        CloseKeepsOrder(p, s);
      }
    case ConsumerStep =>
      HandlerKeepsControl(p, s);
      HandlerKeepsOrder(p, s);
    case DropFuture => DropKeepsInv(p, s);
  }

  // ---- What counts as a fault ----

  /** The step calls the handler. */
  predicate Invokes<V, E>(s: State<V, E>, e: Event) {
    || (e.ProducerStep? && (s.producer.PushDirect? || s.producer.CloseDirect?))
    || (e.ConsumerStep? && s.consumer.Replaying? && s.consumer.i < |s.buffer|)
    || (e.ConsumerStep? && s.consumer.CallClose? && s.consumer.pending.Some?)
  }

  /** The step destroys the storage. */
  predicate Destroys<V, E>(s: State<V, E>, e: Event) {
    && s.life.refCount == 1
    && ((e.ProducerStep? && s.producer.Done?) || (e.ConsumerStep? && s.consumer.CDone?) || e.DropFuture?)
  }

  /**
   * A step faults if and only if the storage is gone, it calls or destroys a handler that is not there, or a push begins
   * on a closed stream; and a storage that was not destroyed before is destroyed with an indeterminate callback_ if and
   * only if no handler was ever built.
   */
  lemma FaultsIff<V, E>(p: Script<V, E>, s: State<V, E>, e: Event)
    requires Enabled(p, s, e) && !s.fault
    ensures Step(p, s, e).fault <==>
            || !s.life.alive
            || (Invokes(s, e) && !s.handler.Installed?)
            || (Destroys(s, e) && s.handler.Destroyed?)
            || (e.ProducerStep? && s.producer.Idle? && s.sent < |p.values| && s.closed.Some?)
    ensures s.life.alive && !s.life.wildRead ==>
            (Step(p, s, e).life.wildRead <==> Destroys(s, e) && s.handler.Indeterminate?)
  {
  }

  /** Once a handler is ready, a push is one look at the flags and one call; the mutex is left alone. */
  lemma PushIsDirectOnceReady<V, E>(p: Script<V, E>, s: State<V, E>)
    requires Inv(p, s) && s.ready && s.producer.Idle? && s.sent < |p.values|
    ensures Enabled(p, s, ProducerStep)
    ensures var t := Step(p, s, ProducerStep);
            && Enabled(p, t, ProducerStep) && t.lock == s.lock && t.calls == s.calls
            && var w := Step(p, t, ProducerStep);
               w.lock == s.lock && w.calls == s.calls + [Push(p.values[s.sent])] && w.sent == s.sent + 1 && w.producer.Idle?
  {
  }

  // ---- Runs ----

  ghost predicate ValidRun<V, E>(p: Script<V, E>, s: State<V, E>, es: seq<Event>)
    decreases |es|
  {
    es == [] || (Enabled(p, s, es[0]) && ValidRun(p, Step(p, s, es[0]), es[1..]))
  }

  ghost function Run<V, E>(p: Script<V, E>, s: State<V, E>, es: seq<Event>): State<V, E>
    requires ValidRun(p, s, es)
    decreases |es|
  {
    if es == [] then s else Run(p, Step(p, s, es[0]), es[1..])
  }

  lemma {:induction false} RunKeepsInv<V, E>(p: Script<V, E>, s: State<V, E>, es: seq<Event>)
    requires Inv(p, s) && ValidRun(p, s, es)
    ensures Inv(p, Run(p, s, es))
    decreases |es|
  {
    if es != [] {
      StepKeepsInv(p, s, es[0]);
      RunKeepsInv(p, Step(p, s, es[0]), es[1..]);
    }
  }

  /**
   * In every interleaving, at every point of it: nothing faults, and what the
   * handler has been called with is a prefix of the producer's values in order, followed by the
   * closing call only after all of them.
   */
  lemma DeliveredInOrder<V, E>(p: Script<V, E>, es: seq<Event>)
    requires ValidRun(p, Init(), es)
    ensures var t := Run(p, Init(), es);
            && !t.fault
            && t.calls <= Pushes(p.values) + [Closed(p.close)]
  {
    InitInv(p);
    RunKeepsInv(p, Init(), es);
    var t := Run(p, Init(), es);
    if !CloseCalled(t) {
      assert Pushes<V, E>(p.values[..Delivered(t)]) == Pushes<V, E>(p.values)[..Delivered(t)];
    }
  }

  // ---- Progress ----

  /** Steps each side has left, counting a push as six and a close with the release as five. */
  function ProducerRank<V, E>(p: Script<V, E>, s: State<V, E>): nat
    requires OnScript(p, s)
  {
    if s.producer.PReleased? then 0
    else if s.sent == |p.values| then
      (match s.producer
       case Idle => 5
       case CloseLocked => 4
       case CloseUnlockDirect => 3
       case Done => 1
       case _ => 2)
    else
      5 + 6 * (|p.values| - s.sent - 1) +
      (match s.producer
       case Idle => 6
       case PushWantsLock => 5
       case PushLocked => 4
       case PushUnlockDirect => 3
       case PushDirect => 2
       case _ => 1)
  }

  function ConsumerRank<V, E>(p: Script<V, E>, s: State<V, E>): nat
    requires s.consumer.Replaying? ==> s.consumer.i <= |p.values|
  {
    match s.consumer
    case CStart => |p.values| + 6
    case HandlerBuilt => |p.values| + 5
    case Replaying(i) => |p.values| - i + 4
    case SetReady(_) => 3
    case CallClose(_) => 2
    case CDone => 1
    case CReleased => 0
    case Dropped => 0
  }

  lemma ProducerStepCounts<V, E>(p: Script<V, E>, s: State<V, E>)
    requires Inv(p, s) && Enabled(p, s, ProducerStep)
    ensures var t := Step(p, s, ProducerStep);
            t.consumer == s.consumer && (OnScript(p, t) ==> ProducerRank(p, t) < ProducerRank(p, s))
  {
  }

  lemma ConsumerStepCounts<V, E>(p: Script<V, E>, s: State<V, E>)
    requires Inv(p, s) && ConsumerEnabled(s)
    ensures var t := HandlerStep(s);
            && t.producer == s.producer && t.sent == s.sent
            && ((t.consumer.Replaying? ==> t.consumer.i <= |p.values|) ==> ConsumerRank(p, t) < ConsumerRank(p, s))
  {
  }

  lemma EveryStepCounts<V, E>(p: Script<V, E>, s: State<V, E>, e: Event)
    requires Inv(p, s) && Enabled(p, s, e)
    ensures Inv(p, Step(p, s, e))
    ensures ProducerRank(p, Step(p, s, e)) + ConsumerRank(p, Step(p, s, e)) < ProducerRank(p, s) + ConsumerRank(p, s)
  {
    hide PushStep, CloseStep, HandlerStep;
    StepKeepsInv(p, s, e);
    match e
    case ProducerStep => ProducerStepCounts(p, s);
    case ConsumerStep => ConsumerStepCounts(p, s);
    case DropFuture =>
  }

  /** The two threads cannot block each other: until both are through, one of them has a step to take. */
  lemma NoDeadlock<V, E>(p: Script<V, E>, s: State<V, E>)
    requires Inv(p, s) && !(s.producer.PReleased? && (s.consumer.CReleased? || s.consumer.Dropped?))
    ensures Enabled(p, s, ProducerStep) || Enabled(p, s, ConsumerStep)
  {
  }

  lemma {:induction false} RunLength<V, E>(p: Script<V, E>, s: State<V, E>, es: seq<Event>)
    requires Inv(p, s) && ValidRun(p, s, es)
    ensures Inv(p, Run(p, s, es))
    ensures |es| + ProducerRank(p, Run(p, s, es)) + ConsumerRank(p, Run(p, s, es)) <= ProducerRank(p, s) + ConsumerRank(p, s)
    decreases |es|
  {
    if es != [] {
      EveryStepCounts(p, s, es[0]);
      RunLength(p, Step(p, s, es[0]), es[1..]);
    }
  }

  /** set_handler has been entered. */
  predicate Installing<E>(c: Consumer<E>) {
    !c.CStart? && !c.Dropped?
  }

  /** What the flags of a state say about the run that led there. */
  lemma {:induction false} History<V, E>(p: Script<V, E>, s: State<V, E>, es: seq<Event>)
    requires Inv(p, s) && ValidRun(p, s, es)
    ensures var t := Run(p, s, es);
            && (Installing(t.consumer) <==> Installing(s.consumer) || ConsumerStep in es)
            && (t.consumer.Dropped? <==> s.consumer.Dropped? || DropFuture in es)
    decreases |es|
  {
    hide PushStep, CloseStep;
    if es != [] {
      StepKeepsInv(p, s, es[0]);
      if es[0].ProducerStep? {
        ProducerStepCounts(p, s);
      }
      History(p, Step(p, s, es[0]), es[1..]);
      assert es == [es[0]] + es[1..];
    }
  }

  /**
   * Every run ends.  One that cannot continue has freed the storage; unless the future was dropped, every value has been
   * delivered exactly once, in order, and the stream has been closed once after them.
   */
  lemma EveryRunDeliversAll<V, E>(p: Script<V, E>, es: seq<Event>)
    requires ValidRun(p, Init(), es)
    ensures |es| <= 7 * |p.values| + 11
    ensures var t := Run(p, Init(), es);
            !Enabled(p, t, ProducerStep) && !Enabled(p, t, ConsumerStep)
            ==> && !t.life.alive
                && t.calls == if DropFuture in es then [] else Pushes(p.values) + [Closed(p.close)]
  {
    InitInv(p);
    RunLength(p, Init(), es);
    History(p, Init(), es);
    var t := Run(p, Init(), es);
    if !Enabled(p, t, ProducerStep) && !Enabled(p, t, ConsumerStep) {
      if !(t.producer.PReleased? && (t.consumer.CReleased? || t.consumer.Dropped?)) {
        NoDeadlock(p, t);
      }
    }
  }

  /**
   * ~Stream_storage tests callback_, which only set_handler ever writes.  A storage that is destroyed has had an
   * indeterminate pointer tested exactly if no handler was being installed, that is, if the stream future was dropped
   * without for_each; otherwise its handler's memory was given back as another type's.
   */
  lemma DestructorNeedsHandler<V, E>(p: Script<V, E>, es: seq<Event>)
    requires ValidRun(p, Init(), es)
    ensures var t := Run(p, Init<V, E>(), es);
            && (t.life.wildRead <==> !t.life.alive && ConsumerStep !in es)
            && (t.life.mismatched <==> !t.life.alive && ConsumerStep in es)
  {
    InitInv(p);
    RunKeepsInv(p, Init(), es);
    History(p, Init(), es);
  }

  /** A run, one step on. */
  lemma RunAt<V, E>(p: Script<V, E>, s: State<V, E>, es: seq<Event>, k: nat)
    requires k < |es| && Enabled(p, s, es[k])
    ensures ValidRun(p, s, es[k..]) <==> ValidRun(p, Step(p, s, es[k]), es[k + 1..])
    ensures ValidRun(p, s, es[k..]) ==> Run(p, s, es[k..]) == Run(p, Step(p, s, es[k]), es[k + 1..])
    ensures es[0..] == es
    ensures k + 1 == |es| ==> ValidRun(p, s, es[k..]) && Run(p, s, es[k..]) == Step(p, s, es[k])
  {
    assert es[k..][1..] == es[k + 1..];
  }

  /** A stream future that is dropped, and a stream that is closed at once: the destructor tests an indeterminate pointer. */
  lemma DroppedStreamFuture<V, E>(c: Close<E>)
    ensures var p: Script<V, E> := Script([], c);
            var es := [DropFuture, ProducerStep, ProducerStep, ProducerStep, ProducerStep];
            ValidRun(p, Init(), es) && !Run(p, Init(), es).life.alive && Run(p, Init(), es).life.wildRead
  {
    hide Run, ValidRun, PushStep, HandlerStep, Invoke;
    var p: Script<V, E> := Script([], c);
    var es := [DropFuture, ProducerStep, ProducerStep, ProducerStep, ProducerStep];
    var s0: State<V, E> := Init();
    var s1 := Step(p, s0, es[0]);
    var s2 := Step(p, s1, es[1]);
    var s3 := Step(p, s2, es[2]);
    var s4 := Step(p, s3, es[3]);
    assert s1.life == Lifetime(1, true, false, false) && s1.handler.Indeterminate? && s1.consumer.Dropped?;
    RunAt(p, s0, es, 0);
    RunAt(p, s1, es, 1);
    RunAt(p, s2, es, 2);
    RunAt(p, s3, es, 3);
    RunAt(p, s4, es, 4);
  }
}
