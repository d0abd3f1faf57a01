/**
 * The lock-free state shared by a promise and its future
 * (include/var_future/impl/storage_decl.h, storage_impl.h, promise.h, future.h), as a state machine
 * over the atomic steps of two threads: the producer, who completes the storage, and the consumer, who installs a
 * handler once.  Each holds a Storage_ptr; any number of further copies may come and go.
 *
 * What goes wrong is recorded in three flags.  Storage.fault: a call through a missing or destroyed handler, a read of
 * an unconstructed union member, construction over a live one or over an installed handler, an access after the
 * storage is freed.  Storage.reused: a call of a handler whose members an earlier call has moved out, so that then() and
 * then_expect() dereference a null dst_ and finally() invokes a moved-from callback.  Storage.mismatched: memory given
 * back through an allocator for another type than it was taken with.
 *
 * The producer completes the storage once, unless that call throws: a then-job catches the exception and fails the
 * storage with it, and the destructor of a promise whose set_value threw fails it with Unfullfilled_promise.
 */
module FutureStorage {
  import opened Wrappers
  import opened Results

  /** Spent: it has been called, and the call has moved its members out. */
  datatype Handler = NoHandler | Live | Spent | Gone

  /** The type an allocator is rebound to: Handler_t, or its base Future_handler_iface. */
  datatype Element = HandlerType | InterfaceType

  /** The union member finished_. */
  datatype Slot<+V, +E> = Unbuilt | Built(fields: seq<Field<V, E>>) | MovedFrom | Destroyed

  /** Where the producer stands; the name says what the last step established. */
  datatype Producer = PStart | SawReady | SawNotReady | BuiltFinished | SawReadyLate | PReturned | PDone

  datatype Consumer = Unborn | CStart | Installed | SawFinished | CReturned | CDone

  /** The kinds of the storage's fields, and what the producer completes it with. */
  datatype Setup<+V, +E> = Setup(shape: Shape, op: Completion<V, E>)

  /** Future_storage, and what has become of it. */
  datatype Storage<+V, +E> = Storage(
    ready: bool, finished: bool,     // the two bits of state_
    handler: Handler,                // cb_data_.callback_
    block: Option<Element>,          // the memory callback_ points to, by the type it was allocated for
    slot: Slot<V, E>,                // finished_
    refCount: nat,                   // ref_count_, a std::uint8_t
    alive: bool,
    calls: seq<Delivery<V, E>>,      // the calls made to the handler
    fault: bool, reused: bool, mismatched: bool)

  datatype State<+V, +E> = State(
    mem: Storage<V, E>,
    producer: Producer, consumer: Consumer, extras: nat,
    overwritten: bool,               // another promise was move-assigned over the producer's
    again: Option<E>)                // completing the storage threw; it is failed with this

  /**
   * The producer's calls of the handler may throw, if the queue runs its jobs at once; Some(e) says that they do and
   * that the producer then fails the storage with e.  A throw out of the consumer's call changes nothing here: it leaves
   * set_handler, and the future lets go later.
   */
  datatype Event<+E> =
    // complete the storage, release the promise's Storage_ptr; or lose the promise to a move assignment
    | Load | CallFullfill(again: Option<E>) | Build | PublishFinished | CallLate(again: Option<E>)
    | ReleasePromise | OverwritePromise
    // get_future; install a handler, release the future's Storage_ptr; or drop the future unused
    | GetFuture | Install | PublishReady | CallStored | ReleaseFuture | DropFuture
    | CopyRef | DropRef

  /** A promise has just been constructed. */
  function Init<V, E>(): State<V, E> {
    State(
      Storage(false, false, NoHandler, None, Unbuilt, 1, true, [], false, false, false),
      PStart, Unborn, 0, false, None)
  }

  predicate Fitting<V, E>(u: Setup<V, E>) {
    |u.shape| > 0 && CompletionFits(u.shape, u.op)
  }

  function Holders<V, E>(s: State<V, E>): nat {
    (if s.producer.PDone? then 0 else 1) +
    (if s.consumer.Unborn? || s.consumer.CDone? then 0 else 1) +
    s.extras
  }

  // ---- What a step does to memory ----

  function Call<V, E>(s: Storage<V, E>, d: Delivery<V, E>): Storage<V, E> {
    if s.alive && (s.handler.Live? || s.handler.Spent?)
    then s.(calls := s.calls + [d], handler := Spent, reused := s.reused || s.handler.Spent?)
    else s.(fault := true)
  }

  /** The argument std::move(finished_). */
  function CallWithStored<V, E>(s: Storage<V, E>): Storage<V, E> {
    if s.slot.Built? then Call(s, Finished(s.slot.fields)).(slot := MovedFrom) else s.(fault := true)
  }

  /** ~Future_storage and the deallocation after it. */
  function Free<V, E>(s: Storage<V, E>): Storage<V, E> {
    var a := if !s.ready then s
             else if s.handler.Live? || s.handler.Spent? then
               s.(handler := Gone, block := None, mismatched := s.mismatched || s.block != Some(InterfaceType))
             else s.(fault := true);
    var b := if !s.finished then a
             else if a.slot.Built? || a.slot.MovedFrom? then a.(slot := Destroyed)
             else a.(fault := true);
    b.(alive := false)
  }

  /** The arithmetic of a std::uint8_t. */
  function Up(n: nat): nat {
    (n + 1) % 256
  }

  function Down(n: nat): nat {
    (n + 255) % 256
  }

  /** What the count reads when n holders are there. */
  function CountOf(n: nat): nat {
    n % 256
  }

  lemma CountMoves(n: nat)
    ensures Up(CountOf(n)) == CountOf(n + 1)
    ensures n > 0 ==> Down(CountOf(n)) == CountOf(n - 1)
    ensures CountOf(0) == 0 && CountOf(1) == 1
  {
  }

  /** Storage_ptr::inc: the count wraps at 256. */
  function Acquire<V, E>(s: Storage<V, E>): Storage<V, E> {
    if s.alive then s.(refCount := Up(s.refCount)) else s.(fault := true)
  }

  /** Storage_ptr::clear: whoever fetches 1 frees the storage. */
  function Release<V, E>(s: Storage<V, E>): Storage<V, E> {
    if !s.alive then s.(fault := true)
    else
      var t := s.(refCount := Down(s.refCount));
      if s.refCount == 1 then Free(t) else t
  }

  /** What the storage is being completed with. */
  function Current<V, E>(u: Setup<V, E>, s: State<V, E>): (op: Completion<V, E>)
    requires Fitting(u)
    ensures CompletionFits(u.shape, op)
  {
    if s.again.Some? then Fail(s.again.value) else u.op
  }

  /** The tuple built in finished_ when no handler was seen. */
  function ToStore<V, E>(shape: Shape, op: Completion<V, E>): seq<Field<V, E>>
    requires CompletionFits(shape, op)
  {
    match op
    case Fullfill(v) => FullfillToFinish(shape, v)
    case Finish(f) => f
    case Fail(e) => FailToExpect(shape, e)
  }

  /** The call made when the first load already sees a handler. */
  function FastDelivery<V, E>(shape: Shape, op: Completion<V, E>): Delivery<V, E> {
    match op
    case Fullfill(v) => Fullfilled(v)
    case Finish(f) => Finished(f)
    case Fail(e) => Finished(FailToExpect(shape, e))
  }

  /** A call ends, by returning or by a throw that makes the producer complete the storage once more. */
  function EndOfCall<V, E>(s: State<V, E>, mem: Storage<V, E>, again: Option<E>): State<V, E> {
    if again.Some? then s.(mem := mem, again := again, producer := PStart) else s.(mem := mem, producer := PReturned)
  }

  function Faulty<V, E>(s: State<V, E>): State<V, E> {
    s.(mem := s.mem.(fault := true))
  }

  // ---- Steps ----

  predicate Enabled<V, E>(s: State<V, E>, e: Event<E>) {
    match e
    case Load => s.producer.PStart?
    case CallFullfill(again) => s.producer.SawReady? && (again.Some? ==> s.again.None?)
    case Build => s.producer.SawNotReady?
    case PublishFinished => s.producer.BuiltFinished?
    case CallLate(again) => s.producer.SawReadyLate? && (again.Some? ==> s.again.None?)
    case ReleasePromise => s.producer.PReturned?
    case OverwritePromise => s.producer.PStart?
    case GetFuture => s.consumer.Unborn? && (s.producer.PStart? || s.producer.PReturned?)
    case Install => s.consumer.CStart?
    case PublishReady => s.consumer.Installed?
    case CallStored => s.consumer.SawFinished?
    case ReleaseFuture => s.consumer.CReturned?
    case DropFuture => s.consumer.CStart?
    case CopyRef => Holders(s) > 0
    case DropRef => s.extras > 0
  }

  predicate ByProducer<E>(e: Event<E>) {
    e.Load? || e.CallFullfill? || e.Build? || e.PublishFinished? || e.CallLate? || e.ReleasePromise? || e.OverwritePromise?
  }

  predicate ByConsumer<E>(e: Event<E>) {
    e.GetFuture? || e.Install? || e.PublishReady? || e.CallStored? || e.ReleaseFuture? || e.DropFuture?
  }

  function ProducerStep<V, E>(u: Setup<V, E>, s: State<V, E>, e: Event<E>): State<V, E>
    requires Fitting(u) && Enabled(s, e) && ByProducer(e)
  {
    var op, m := Current(u, s), s.mem;
    match e
    case Load =>
      if !m.alive then Faulty(s)
      else s.(producer := if m.ready then SawReady else SawNotReady)
    case CallFullfill(again) =>
      EndOfCall(s, Call(m, FastDelivery(u.shape, op)), again)
    case Build =>
      if m.alive && m.slot.Unbuilt? then s.(mem := m.(slot := Built(ToStore(u.shape, op))), producer := BuiltFinished)
      else Faulty(s)
    case PublishFinished =>
      if !m.alive then Faulty(s)
      else s.(mem := m.(finished := true), producer := if m.ready then SawReadyLate else PReturned)
    case CallLate(again) =>
      // fail() rebuilds its argument, the other two move finished_ out
      EndOfCall(s, if op.Fail? then Call(m, Finished(FailToExpect(u.shape, op.error))) else CallWithStored(m), again)
    case ReleasePromise => s.(mem := Release(m), producer := PDone)
    case OverwritePromise => s.(mem := Release(m), producer := PDone, overwritten := true)
  }

  function ConsumerStep<V, E>(s: State<V, E>, e: Event<E>): State<V, E>
    requires Enabled(s, e) && ByConsumer(e)
  {
    var m := s.mem;
    match e
    case GetFuture => s.(mem := Acquire(m), consumer := CStart)
    case Install =>
      if m.alive && m.handler.NoHandler? then
        s.(mem := m.(handler := Live, block := Some(HandlerType)), consumer := Installed)
      else Faulty(s)
    case PublishReady =>
      if !m.alive then Faulty(s)
      else s.(mem := m.(ready := true), consumer := if m.finished then SawFinished else CReturned)
    case CallStored => s.(mem := CallWithStored(m), consumer := CReturned)
    case ReleaseFuture => s.(mem := Release(m), consumer := CDone)
    case DropFuture => s.(mem := Release(m), consumer := CDone)
  }

  function Step<V, E>(u: Setup<V, E>, s: State<V, E>, e: Event<E>): State<V, E>
    requires Fitting(u) && Enabled(s, e)
  {
    if ByProducer(e) then ProducerStep(u, s, e)
    else if ByConsumer(e) then ConsumerStep(s, e)
    else if e.CopyRef? then s.(mem := Acquire(s.mem), extras := s.extras + 1)
    else s.(mem := Release(s.mem), extras := s.extras - 1)
  }

  predicate IsRelease<E>(e: Event<E>) {
    e.ReleasePromise? || e.OverwritePromise? || e.ReleaseFuture? || e.DropFuture? || e.DropRef?
  }

  /** A holder lets go while the count has wrapped round to 1, and others are left. */
  predicate FreesEarly<V, E>(s: State<V, E>, e: Event<E>) {
    IsRelease(e) && Holders(s) > 1 && CountOf(Holders(s)) == 1
  }

  // ---- The invariant ----

  predicate HandlerInstalled<V, E>(s: State<V, E>) {
    s.consumer.Installed? || s.consumer.SawFinished? || s.consumer.CReturned? || (s.consumer.CDone? && s.mem.ready)
  }

  /** The completion under way has settled who makes the call: it took the fast path, or it has published. */
  predicate Settled<V, E>(s: State<V, E>) {
    || (s.mem.finished && s.again.None?)
    || s.producer.SawReady?
    || ((s.producer.PReturned? || s.producer.PDone?) && !s.overwritten)
  }

  /** Calls somebody is committed to making. */
  function Owed<V, E>(s: State<V, E>): nat {
    (if s.producer.SawReady? || s.producer.SawReadyLate? then 1 else 0) +
    (if s.consumer.SawFinished? then 1 else 0)
  }

  /** The delivery means what the producer completed the storage with. */
  ghost predicate Faithful<V, E>(u: Setup<V, E>, d: Delivery<V, E>)
    requires Fitting(u)
  {
    && DeliveryFits(u.shape, d) && DeliveredFields(u.shape, d) == Meaning(u.shape, u.op)
    && (d.Fullfilled? ==> u.op == Fullfill(d.values))
  }

  ghost predicate BitsAgree<V, E>(s: State<V, E>) {
    && (s.mem.ready ==> s.consumer.SawFinished? || s.consumer.CReturned? || s.consumer.CDone?)
    && (s.consumer.SawFinished? || s.consumer.CReturned? ==> s.mem.ready)
    && (s.mem.finished ==> s.producer.SawReadyLate? || s.producer.PReturned? || s.producer.PDone? || s.again.Some?)
    && (s.producer.SawReady? || s.producer.SawReadyLate? ==> s.mem.ready)
    && (s.producer.SawReadyLate? || s.consumer.SawFinished? ==> s.mem.finished)
    && (s.overwritten ==> s.producer.PDone? && (!s.mem.finished || s.again.Some?))
    && ((s.producer.PReturned? || s.producer.PDone?) && !s.overwritten && !s.mem.finished ==> s.mem.ready)
    && (s.again.Some? ==>
          && s.mem.ready && |s.mem.calls| > 0 && !s.consumer.SawFinished?
          && (s.producer.PStart? || s.producer.SawReady? || s.producer.PReturned? || s.producer.PDone?))
  }

  ghost predicate HandlerAgrees<V, E>(s: State<V, E>) {
    && s.mem.handler == (if !HandlerInstalled(s) then NoHandler
                     else if !s.mem.alive then Gone
                     else if s.mem.calls == [] then Live else Spent)
    && s.mem.block == (if HandlerInstalled(s) && s.mem.alive then Some(HandlerType) else None)
    && (s.mem.mismatched <==> s.mem.ready && !s.mem.alive)
    && (s.mem.reused <==> |s.mem.calls| > 1)
  }

  ghost predicate MemoryAgrees<V, E>(u: Setup<V, E>, s: State<V, E>)
    requires Fitting(u)
  {
    && s.mem.refCount == CountOf(Holders(s))
    && (s.mem.alive <==> Holders(s) > 0)
    && (s.mem.finished || s.producer.BuiltFinished?
        ==> if s.mem.alive then s.mem.slot == Built(Meaning(u.shape, u.op)) || s.mem.slot.MovedFrom? else s.mem.slot.Destroyed?)
    && (!s.mem.finished && !s.producer.BuiltFinished? ==> s.mem.slot.Unbuilt?)
    && (s.mem.slot.MovedFrom? ==> s.mem.ready)
    && (s.producer.BuiltFinished? || s.producer.SawReadyLate? || s.consumer.SawFinished? ==> s.mem.slot.Built?)
  }

  ghost predicate CallsAgree<V, E>(u: Setup<V, E>, s: State<V, E>)
    requires Fitting(u)
  {
    && |s.mem.calls| + Owed(s) == (if !s.mem.ready then 0
                               else (if s.again.Some? then 1 else 0) + (if Settled(s) then 1 else 0))
    && (s.mem.calls != [] ==> Faithful(u, s.mem.calls[0]))
    && (|s.mem.calls| > 1 ==> s.again.Some? && s.mem.calls[1] == Finished(FailToExpect(u.shape, s.again.value)))
  }

  ghost predicate Inv<V, E>(u: Setup<V, E>, s: State<V, E>) {
    Fitting(u) && !s.mem.fault && BitsAgree(s) && HandlerAgrees(s) && MemoryAgrees(u, s) && CallsAgree(u, s)
  }

  lemma InitInv<V, E>(u: Setup<V, E>)
    requires Fitting(u)
    ensures Inv(u, Init())
  {
  }

  lemma LookKeepsInv<V, E>(u: Setup<V, E>, s: State<V, E>, e: Event<E>)
    requires Inv(u, s) && Enabled(s, e) && (e == Load || e == Build || e == PublishFinished)
    ensures Inv(u, ProducerStep(u, s, e))
  {
    hide CountOf, Call, CallWithStored, Release;
  }

  lemma ProducerCallKeepsInv<V, E>(u: Setup<V, E>, s: State<V, E>, e: Event<E>)
    requires Inv(u, s) && Enabled(s, e) && (e.CallFullfill? || e.CallLate?)
    ensures Inv(u, ProducerStep(u, s, e))
  {
    hide CountOf, Release;
  }

  lemma PromiseReleaseKeepsInv<V, E>(u: Setup<V, E>, s: State<V, E>, e: Event<E>)
    requires Inv(u, s) && Enabled(s, e) && ByProducer(e) && IsRelease(e) && !FreesEarly(s, e)
    ensures Inv(u, ProducerStep(u, s, e))
  {
    hide Up, Down, CountOf, Meaning, Call, CallWithStored;
    CountMoves(Holders(s) - 1);
    CountMoves(Holders(s));
  }

  lemma ConsumerKeepsInv<V, E>(u: Setup<V, E>, s: State<V, E>, e: Event<E>)
    requires Inv(u, s) && Enabled(s, e) && ByConsumer(e) && !FreesEarly(s, e)
    ensures Inv(u, ConsumerStep(s, e))
  {
    hide Up, Down, CountOf;
    CountMoves(Holders(s));
  }

  lemma CopyKeepsInv<V, E>(u: Setup<V, E>, s: State<V, E>, e: Event<E>)
    requires Inv(u, s) && Enabled(s, e) && !ByProducer(e) && !ByConsumer(e) && !FreesEarly(s, e)
    ensures Inv(u, Step(u, s, e))
  {
    hide Up, Down, CountOf;
    CountMoves(Holders(s));
  }

  /** A step breaks the invariant exactly if it lets go of a storage whose count has wrapped. */
  lemma StepKeepsInv<V, E>(u: Setup<V, E>, s: State<V, E>, e: Event<E>)
    requires Inv(u, s) && Enabled(s, e)
    ensures Inv(u, Step(u, s, e)) <==> !FreesEarly(s, e)
  {
    hide ProducerStep, ConsumerStep;
    if FreesEarly(s, e) {
      FreedEarly(u, s, e);
    } else if ByProducer(e) {
      if IsRelease(e) {
        PromiseReleaseKeepsInv(u, s, e);
      } else if e.CallFullfill? || e.CallLate? {
        ProducerCallKeepsInv(u, s, e);
      } else {
        LookKeepsInv(u, s, e);
      }
    } else if ByConsumer(e) {
      ConsumerKeepsInv(u, s, e);
    } else {
      CopyKeepsInv(u, s, e);
    }
  }

  // ---- Storage that is freed with holders left ----

  /** What is safe at any moment: nothing undefined has happened, and the storage is there exactly while it is held. */
  predicate Sound<V, E>(s: State<V, E>) {
    !s.mem.fault && (s.mem.alive <==> Holders(s) > 0)
  }

  /** The storage is gone, and somebody still holds it or has already touched it. */
  predicate Dangling<V, E>(s: State<V, E>) {
    !s.mem.alive && (s.mem.fault || Holders(s) > 0)
  }

  lemma ReadyStays<V, E>(m: Storage<V, E>, d: Delivery<V, E>)
    ensures Call(m, d).ready == CallWithStored(m).ready == Acquire(m).ready == Release(m).ready == m.ready
  {
    ReadySurvivesFree(m.(refCount := Down(m.refCount)));
    hide Free, Down, Up;
  }

  lemma ReadySurvivesFree<V, E>(m: Storage<V, E>)
    ensures Free(m).ready == m.ready
  {
  }

  lemma ProducerMoves<V, E>(u: Setup<V, E>, s: State<V, E>, e: Event<E>)
    requires Fitting(u) && Enabled(s, e) && ByProducer(e)
    ensures var t := ProducerStep(u, s, e);
            && t.consumer == s.consumer && t.extras == s.extras && t.mem.ready == s.mem.ready
            && !s.producer.PDone? && (t.producer.PDone? <==> IsRelease(e))
            && (t.overwritten <==> s.overwritten || e == OverwritePromise)
            && t.again == (if Retries(e) then e.again else s.again)
            && (Retries(e) ==> s.again.None?)
  {
    hide Call, CallWithStored, Release, Current, Meaning, FullfillToFinish, FailToExpect;
    var op := Current(u, s);
    ReadyStays(s.mem, FastDelivery(u.shape, op));
    if op.Fail? {
      ReadyStays(s.mem, Finished(FailToExpect(u.shape, op.error)));
    }
  }

  lemma ConsumerMoves<V, E>(s: State<V, E>, e: Event<E>)
    requires Enabled(s, e) && ByConsumer(e)
    ensures var t := ConsumerStep(s, e);
            && t.producer == s.producer && t.extras == s.extras && t.overwritten == s.overwritten && t.again == s.again
            && (s.consumer.Unborn? <==> e.GetFuture?) && !t.consumer.Unborn?
            && !s.consumer.CDone? && (t.consumer.CDone? <==> IsRelease(e))
            && (s.mem.alive ==> (t.mem.ready <==> s.mem.ready || e == PublishReady))
  {
    hide Acquire, Release, CallWithStored;
    ReadyStays(s.mem, Finished([]));
  }

  lemma HoldersMove<V, E>(u: Setup<V, E>, s: State<V, E>, e: Event<E>)
    requires Fitting(u) && Enabled(s, e)
    ensures Holders(Step(u, s, e)) ==
            Holders(s) + if e.GetFuture? || e.CopyRef? then 1 else if IsRelease(e) then -1 else 0
  {
    hide ProducerStep, ConsumerStep, Acquire, Release;
    ReadyStays(s.mem, Finished([]));
    if ByProducer(e) {
      ProducerMoves(u, s, e);
    } else if ByConsumer(e) {
      ConsumerMoves(s, e);
    }
  }

  lemma FreedEarly<V, E>(u: Setup<V, E>, s: State<V, E>, e: Event<E>)
    requires Inv(u, s) && Enabled(s, e) && FreesEarly(s, e)
    ensures Dangling(Step(u, s, e))
  {
    hide Meaning, FullfillToFinish, FailToExpect, Current;
  }

  lemma DanglingStays<V, E>(u: Setup<V, E>, s: State<V, E>, e: Event<E>)
    requires Fitting(u) && Dangling(s) && Enabled(s, e)
    ensures Dangling(Step(u, s, e))
  {
  }

  // ---- What counts as a fault ----

  predicate CallsHandler<E>(e: Event<E>) {
    e.CallFullfill? || e.CallLate? || e.CallStored?
  }

  /** The step passes finished_ on, rather than a value of its own. */
  predicate MovesStored<V, E>(u: Setup<V, E>, s: State<V, E>, e: Event<E>) {
    e.CallStored? || (e.CallLate? && s.again.None? && !u.op.Fail?)
  }

  /** The step frees the storage. */
  predicate Destroys<V, E>(s: State<V, E>, e: Event<E>) {
    IsRelease(e) && s.mem.refCount == 1
  }

  ghost predicate Undefined<V, E>(u: Setup<V, E>, s: State<V, E>, e: Event<E>) {
    var m := s.mem;
    || !m.alive
    || (CallsHandler(e) && (m.handler.NoHandler? || m.handler.Gone?))
    || (MovesStored(u, s, e) && !m.slot.Built?)
    || (e == Build && !m.slot.Unbuilt?)
    || (e == Install && !m.handler.NoHandler?)
    || (Destroys(s, e) && m.ready && (m.handler.NoHandler? || m.handler.Gone?))
    || (Destroys(s, e) && m.finished && !m.slot.Built? && !m.slot.MovedFrom?)
  }

  lemma ProducerFaultsIff<V, E>(u: Setup<V, E>, s: State<V, E>, e: Event<E>)
    requires Fitting(u) && Enabled(s, e) && !s.mem.fault && ByProducer(e)
    ensures ProducerStep(u, s, e).mem.fault <==> Undefined(u, s, e)
  {
    hide Release, Current, Meaning, FullfillToFinish, FailToExpect;
    ReleaseFaultsIff(s.mem);
    CurrentFails(u, s);
  }

  lemma ConsumerFaultsIff<V, E>(u: Setup<V, E>, s: State<V, E>, e: Event<E>)
    requires Fitting(u) && Enabled(s, e) && !s.mem.fault && ByConsumer(e)
    ensures ConsumerStep(s, e).mem.fault <==> Undefined(u, s, e)
  {
    hide Release, Up;
    ReleaseFaultsIff(s.mem);
  }

  /**
   * A step faults if and only if the storage is gone, or it calls a handler, reads or constructs a finished_, installs a
   * handler or destroys either, and that one is not as it must be.
   */
  lemma FaultsIff<V, E>(u: Setup<V, E>, s: State<V, E>, e: Event<E>)
    requires Fitting(u) && Enabled(s, e) && !s.mem.fault
    ensures Step(u, s, e).mem.fault <==>
            || !s.mem.alive
            || (CallsHandler(e) && (s.mem.handler.NoHandler? || s.mem.handler.Gone?))
            || (MovesStored(u, s, e) && !s.mem.slot.Built?)
            || (e == Build && !s.mem.slot.Unbuilt?)
            || (e == Install && !s.mem.handler.NoHandler?)
            || (Destroys(s, e) && s.mem.ready && (s.mem.handler.NoHandler? || s.mem.handler.Gone?))
            || (Destroys(s, e) && s.mem.finished && !s.mem.slot.Built? && !s.mem.slot.MovedFrom?)
  {
    hide Release, ProducerStep, ConsumerStep, Up;
    ReleaseFaultsIff(s.mem);
    if ByProducer(e) {
      ProducerFaultsIff(u, s, e);
    } else if ByConsumer(e) {
      ConsumerFaultsIff(u, s, e);
    }
  }

  /** A stored result is moved out by the call that passes it on; the producer of a failure passes on one of its own. */
  lemma PassesOn<V, E>(u: Setup<V, E>, s: State<V, E>, e: Event<E>)
    requires Inv(u, s) && Enabled(s, e) && CallsHandler(e)
    ensures var m, t := s.mem, Step(u, s, e).mem;
            && |t.calls| == |m.calls| + 1 && t.calls[..|m.calls|] == m.calls
            && if MovesStored(u, s, e) then t.slot.MovedFrom? && t.calls[|m.calls|] == Finished(m.slot.fields)
               else t.slot == m.slot
  {
    hide Meaning, FullfillToFinish, FailToExpect, Free, Release;
    CurrentFails(u, s);
  }

  lemma CurrentFails<V, E>(u: Setup<V, E>, s: State<V, E>)
    requires Fitting(u)
    ensures Current(u, s).Fail? <==> s.again.Some? || u.op.Fail?
  {
  }

  lemma ReleaseFaultsIff<V, E>(m: Storage<V, E>)
    requires !m.fault
    ensures Release(m).fault <==>
            || !m.alive
            || (m.refCount == 1 && m.ready && (m.handler.NoHandler? || m.handler.Gone?))
            || (m.refCount == 1 && m.finished && !m.slot.Built? && !m.slot.MovedFrom?)
  {
  }

  // ---- Runs ----

  ghost predicate ValidRun<V, E>(u: Setup<V, E>, s: State<V, E>, es: seq<Event<E>>)
    requires Fitting(u)
    decreases |es|
  {
    es == [] || (Enabled(s, es[0]) && ValidRun(u, Step(u, s, es[0]), es[1..]))
  }

  ghost function Run<V, E>(u: Setup<V, E>, s: State<V, E>, es: seq<Event<E>>): State<V, E>
    requires Fitting(u) && ValidRun(u, s, es)
    decreases |es|
  {
    if es == [] then s else Run(u, Step(u, s, es[0]), es[1..])
  }

  /** Nobody lets go while the count has wrapped. */
  ghost predicate CountHolds<V, E>(u: Setup<V, E>, s: State<V, E>, es: seq<Event<E>>)
    requires Fitting(u) && ValidRun(u, s, es)
    decreases |es|
  {
    es == [] || (!FreesEarly(s, es[0]) && CountHolds(u, Step(u, s, es[0]), es[1..]))
  }

  /** At no point of the run are there more than n holders. */
  ghost predicate AtMost<V, E>(n: nat, u: Setup<V, E>, s: State<V, E>, es: seq<Event<E>>)
    requires Fitting(u) && ValidRun(u, s, es)
    decreases |es|
  {
    Holders(s) <= n && (es == [] || AtMost(n, u, Step(u, s, es[0]), es[1..]))
  }

  /** A call threw, and the producer completed the storage again. */
  predicate Retries<E>(e: Event<E>) {
    (e.CallFullfill? || e.CallLate?) && e.again.Some?
  }

  /** What the first call that threw makes the producer fail the storage with. */
  function Thrown<E>(es: seq<Event<E>>): Option<E> {
    if es == [] then None else if Retries(es[0]) then es[0].again else Thrown(es[1..])
  }

  lemma {:induction false} RunKeepsInv<V, E>(u: Setup<V, E>, s: State<V, E>, es: seq<Event<E>>)
    requires Inv(u, s) && ValidRun(u, s, es) && CountHolds(u, s, es)
    ensures Inv(u, Run(u, s, es))
    decreases |es|
  {
    if es != [] {
      StepKeepsInv(u, s, es[0]);
      RunKeepsInv(u, Step(u, s, es[0]), es[1..]);
    }
  }

  lemma {:induction false} RunStaysDangling<V, E>(u: Setup<V, E>, s: State<V, E>, es: seq<Event<E>>)
    requires Fitting(u) && Dangling(s) && ValidRun(u, s, es)
    ensures Dangling(Run(u, s, es))
    decreases |es|
  {
    if es != [] {
      DanglingStays(u, s, es[0]);
      RunStaysDangling(u, Step(u, s, es[0]), es[1..]);
    }
  }

  lemma {:induction false} SoundFrom<V, E>(u: Setup<V, E>, s: State<V, E>, es: seq<Event<E>>)
    requires Inv(u, s) && ValidRun(u, s, es)
    ensures Sound(Run(u, s, es)) <==> CountHolds(u, s, es)
    decreases |es|
  {
    if es != [] {
      StepKeepsInv(u, s, es[0]);
      if FreesEarly(s, es[0]) {
        FreedEarly(u, s, es[0]);
        RunStaysDangling(u, Step(u, s, es[0]), es[1..]);
      } else {
        SoundFrom(u, Step(u, s, es[0]), es[1..]);
      }
    }
  }

  lemma {:induction false} CountedFrom<V, E>(u: Setup<V, E>, s: State<V, E>, es: seq<Event<E>>)
    requires Inv(u, s) && ValidRun(u, s, es)
    ensures AtMost(256, u, s, es) ==> CountHolds(u, s, es)
    ensures Holders(Run(u, s, es)) <= 256 && CountHolds(u, s, es) ==> AtMost(256, u, s, es)
    decreases |es|
  {
    hide ProducerStep, ConsumerStep, Acquire, Release;
    if es != [] {
      HoldersMove(u, s, es[0]);
      StepKeepsInv(u, s, es[0]);
      if !FreesEarly(s, es[0]) {
        CountedFrom(u, Step(u, s, es[0]), es[1..]);
      }
    }
  }

  /** A run that ends with at most 256 holders was counted correctly exactly if it never had more. */
  lemma CountedIffAtMost256<V, E>(u: Setup<V, E>, es: seq<Event<E>>)
    requires Fitting(u) && ValidRun(u, Init(), es)
    ensures AtMost(256, u, Init(), es) ==> CountHolds(u, Init(), es)
    ensures Holders(Run(u, Init(), es)) <= 256 ==> (CountHolds(u, Init(), es) <==> AtMost(256, u, Init(), es))
  {
    InitInv(u);
    CountedFrom(u, Init(), es);
  }

  /** Nothing is left to do: both owners and every copy are gone. */
  predicate Quiescent<V, E>(s: State<V, E>) {
    s.producer.PDone? && (s.consumer.Unborn? || s.consumer.CDone?) && s.extras == 0
  }

  /**
   * In every interleaving, at every point of it: nothing faults, and the storage is there exactly while somebody holds
   * it, if and only if nobody let go while the count had wrapped.
   */
  lemma SoundIffCounted<V, E>(u: Setup<V, E>, es: seq<Event<E>>)
    requires Fitting(u) && ValidRun(u, Init(), es)
    ensures Sound(Run(u, Init(), es)) <==> CountHolds(u, Init(), es)
  {
    InitInv(u);
    SoundFrom(u, Init(), es);
  }

  /** What the flags of a state say about the run that led there. */
  lemma {:induction false} History<V, E>(u: Setup<V, E>, s: State<V, E>, es: seq<Event<E>>)
    requires Inv(u, s) && ValidRun(u, s, es) && CountHolds(u, s, es)
    ensures var t := Run(u, s, es);
            && (t.mem.ready <==> s.mem.ready || PublishReady in es)
            && (t.overwritten <==> s.overwritten || OverwritePromise in es)
            && t.again == if s.again.Some? then s.again else Thrown(es)
    decreases |es|
  {
    if es != [] {
      var e := es[0];
      StepKeepsInv(u, s, e);
      StepHistory(u, s, e);
      History(u, Step(u, s, e), es[1..]);
      assert es == [e] + es[1..];
    }
  }

  lemma StepHistory<V, E>(u: Setup<V, E>, s: State<V, E>, e: Event<E>)
    requires Inv(u, s) && Enabled(s, e) && !FreesEarly(s, e)
    ensures var t := Step(u, s, e);
            && (t.mem.ready <==> s.mem.ready || e == PublishReady)
            && (t.overwritten <==> s.overwritten || e == OverwritePromise)
            && t.again == (if s.again.Some? then s.again else if Retries(e) then e.again else None)
  {
    hide ProducerStep, ConsumerStep, Acquire, Release;
    ReadyStays(s.mem, Finished([]));
    if ByProducer(e) {
      ProducerMoves(u, s, e);
    } else if ByConsumer(e) {
      ConsumerMoves(s, e);
    }
  }

  /**
   * In every such run, at every point of it, nothing faults; the handler's first call brings what the producer completed
   * the storage with, field by field; it is called a second time only if the first call threw, with the error that the
   * producer then failed the storage with in every field, and that is when a handler is reused; and its memory is given
   * back as another type's exactly when it is given back.
   */
  lemma EveryRunIsSafe<V, E>(u: Setup<V, E>, es: seq<Event<E>>)
    requires Fitting(u) && ValidRun(u, Init(), es) && CountHolds(u, Init(), es)
    ensures var t := Run(u, Init(), es);
            var calls := t.mem.calls;
            && Sound(t)
            && (calls != [] ==>
                  && DeliveryFits(u.shape, calls[0]) && DeliveredFields(u.shape, calls[0]) == Meaning(u.shape, u.op)
                  && if calls[0].Fullfilled? then u.op == Fullfill(calls[0].values)
                     else Spells(u.shape, u.op, calls[0].fields))
            && |calls| <= (if Thrown(es).Some? then 2 else 1)
            && (|calls| == 2 ==> calls[1].Finished? && Spells(u.shape, Fail(Thrown(es).value), calls[1].fields))
            && (t.mem.reused <==> |calls| == 2)
            && (t.mem.mismatched <==> PublishReady in es && !t.mem.alive)
  {
    InitInv(u);
    RunKeepsInv(u, Init(), es);
    History(u, Init(), es);
    var calls := Run(u, Init(), es).mem.calls;
    MeaningIsSpelled(u.shape, u.op, Meaning(u.shape, u.op));
    if |calls| == 2 {
      var again: Completion<V, E> := Fail(Thrown(es).value);
      MeaningIsSpelled(u.shape, again, Meaning(u.shape, again));
    }
  }

  /**
   * When both sides are through: the handler, if installed, has been called once for every time the producer completed
   * the storage, which is once, unless the promise was overwritten and unless a call threw and it was failed again; so
   * it was called exactly once if and only if both or neither of these happened.  The storage is freed, and every
   * handler and every stored result that was built has been destroyed.
   */
  lemma CalledExactlyOnce<V, E>(u: Setup<V, E>, es: seq<Event<E>>)
    requires Fitting(u) && ValidRun(u, Init(), es) && AtMost(256, u, Init(), es)
    requires Quiescent(Run(u, Init(), es))
    ensures var t := Run(u, Init(), es);
            && |t.mem.calls| == (if PublishReady !in es then 0
                             else (if OverwritePromise in es then 0 else 1) + (if Thrown(es).Some? then 1 else 0))
            && (|t.mem.calls| == 1 <==> PublishReady in es && (OverwritePromise in es <==> Thrown(es).Some?))
            && !t.mem.alive && (t.mem.handler.NoHandler? || t.mem.handler.Gone?) && t.mem.block.None?
            && (t.mem.slot.Unbuilt? || t.mem.slot.Destroyed?)
  {
    InitInv(u);
    CountedFrom(u, Init(), es);
    RunKeepsInv(u, Init(), es);
    History(u, Init(), es);
  }

  /** However two runs are interleaved, the first call makes a handler of any kind do the same thing. */
  lemma ScheduleIsInvisible<V, E>(u: Setup<V, E>, es1: seq<Event<E>>, es2: seq<Event<E>>, kind: HandlerKind)
    requires Fitting(u)
    requires ValidRun(u, Init(), es1) && CountHolds(u, Init(), es1) && Run(u, Init(), es1).mem.calls != []
    requires ValidRun(u, Init(), es2) && CountHolds(u, Init(), es2) && Run(u, Init(), es2).mem.calls != []
    ensures var d1 := Run(u, Init(), es1).mem.calls[0];
            var d2 := Run(u, Init(), es2).mem.calls[0];
            && DeliveryFits(u.shape, d1) && DeliveryFits(u.shape, d2)
            && Handle(kind, u.shape, d1) == Handle(kind, u.shape, d2)
            && Handle(kind, u.shape, d1) == Handle(kind, u.shape, Finished(Meaning(u.shape, u.op)))
  {
    EveryRunIsSafe(u, es1);
    EveryRunIsSafe(u, es2);
    var d1 := Run(u, Init(), es1).mem.calls[0];
    var d2 := Run(u, Init(), es2).mem.calls[0];
    HandlersSeeOnlyTheMeaning(kind, u.shape, d1, d2);
    HandlersSeeOnlyTheMeaning(kind, u.shape, d1, Finished(Meaning(u.shape, u.op)));
  }

  // ---- Neither thread waits for the other ----

  /** Steps the producer has left, until a call throws. */
  function ProducerRank<V, E>(s: State<V, E>): nat {
    match s.producer
    case PStart => if s.again.Some? then 3 else 5
    case SawNotReady => 4
    case BuiltFinished => 3
    case SawReadyLate => 2
    case SawReady => 2
    case PReturned => 1
    case PDone => 0
  }

  function ConsumerRank<V, E>(s: State<V, E>): nat {
    match s.consumer
    case Unborn => 5
    case CStart => 4
    case Installed => 3
    case SawFinished => 2
    case CReturned => 1
    case CDone => 0
  }

  predicate By<E>(e: Event<E>, producer: bool) {
    if producer then ByProducer(e) else ByConsumer(e)
  }

  function CountBy<E>(es: seq<Event<E>>, producer: bool): nat {
    if es == [] then 0 else (if By(es[0], producer) then 1 else 0) + CountBy(es[1..], producer)
  }

  ghost function StepsOf<E>(es: seq<Event<E>>, producer: bool): set<int> {
    set i | 0 <= i < |es| && By(es[i], producer)
  }

  lemma {:induction false} CountOfLonger<E>(es: seq<Event<E>>, e: Event<E>, producer: bool)
    ensures CountBy(es + [e], producer) == CountBy(es, producer) + if By(e, producer) then 1 else 0
  {
    hide By;
    if es != [] {
      assert (es + [e])[1..] == es[1..] + [e];
      CountOfLonger(es[1..], e, producer);
    }
  }

  lemma StepsOfLonger<E>(es: seq<Event<E>>, e: Event<E>, producer: bool)
    ensures StepsOf(es + [e], producer) == StepsOf(es, producer) + if By(e, producer) then {|es|} else {}
  {
    hide By;
  }

  lemma {:induction false} CountIsCardinality<E>(es: seq<Event<E>>, producer: bool)
    ensures CountBy(es, producer) == |StepsOf(es, producer)|
  {
    hide By;
    if es == [] {
      assert StepsOf(es, producer) == {};
    } else {
      var k := |es| - 1;
      CountIsCardinality(es[..k], producer);
      CountOfLonger(es[..k], es[k], producer);
      StepsOfLonger(es[..k], es[k], producer);
      assert es[..k] + [es[k]] == es;
    }
  }

  /** A thread that is not through can take its next step whatever the other one is doing. */
  lemma NobodyWaits<V, E>(u: Setup<V, E>, s: State<V, E>)
    requires Inv(u, s)
    ensures !s.producer.PDone? ==> exists e: Event<E> :: ByProducer(e) && Enabled(s, e)
    ensures !s.consumer.Unborn? && !s.consumer.CDone? ==> exists e: Event<E> :: ByConsumer(e) && Enabled(s, e)
  {
    var p := match s.producer
      case PStart => Load
      case SawReady => CallFullfill(None)
      case SawNotReady => Build
      case BuiltFinished => PublishFinished
      case SawReadyLate => CallLate(None)
      case _ => ReleasePromise;
    var c := match s.consumer
      case CStart => Install
      case Installed => PublishReady
      case SawFinished => CallStored
      case _ => ReleaseFuture;
    assert ByProducer(p) && ByConsumer(c);
    assert !s.producer.PDone? ==> Enabled(s, p);
    assert !s.consumer.Unborn? && !s.consumer.CDone? ==> Enabled(s, c);
  }

  /** Failing the storage after a call that threw costs two steps more. */
  lemma StepLowersRank<V, E>(u: Setup<V, E>, s: State<V, E>, e: Event<E>)
    requires Inv(u, s) && Enabled(s, e)
    ensures ProducerRank(Step(u, s, e)) + (if ByProducer(e) then 1 else 0)
            <= ProducerRank(s) + if Retries(e) then 2 else 0
    ensures ConsumerRank(Step(u, s, e)) + (if ByConsumer(e) then 1 else 0) <= ConsumerRank(s)
  {
    hide Call, CallWithStored, Release, Acquire, Current, Meaning, CallsAgree, CountOf;
  }

  lemma {:induction false} StepsAreBounded<V, E>(u: Setup<V, E>, s: State<V, E>, es: seq<Event<E>>)
    requires Inv(u, s) && ValidRun(u, s, es) && CountHolds(u, s, es)
    ensures CountBy(es, true) + ProducerRank(Run(u, s, es)) <= ProducerRank(s) + if s.again.None? && Thrown(es).Some? then 2 else 0
    ensures CountBy(es, false) + ConsumerRank(Run(u, s, es)) <= ConsumerRank(s)
    decreases |es|
  {
    hide Step;
    if es != [] {
      StepKeepsInv(u, s, es[0]);
      StepLowersRank(u, s, es[0]);
      StepHistory(u, s, es[0]);
      StepsAreBounded(u, Step(u, s, es[0]), es[1..]);
    }
  }

  /**
   * The protocol is wait-free: in any run each thread is through after at most five steps of its own, the producer after
   * seven if a call threw, and until then each always has one to take.
   */
  lemma WaitFree<V, E>(u: Setup<V, E>, es: seq<Event<E>>)
    requires Fitting(u) && ValidRun(u, Init(), es) && CountHolds(u, Init(), es)
    ensures |set i | 0 <= i < |es| && ByProducer(es[i])| <= if Thrown(es).Some? then 7 else 5
    ensures |set i | 0 <= i < |es| && ByConsumer(es[i])| <= 5
    ensures var t := Run(u, Init(), es);
            && (!t.producer.PDone? ==> exists e: Event<E> :: ByProducer(e) && Enabled(t, e))
            && (!t.consumer.Unborn? && !t.consumer.CDone? ==> exists e: Event<E> :: ByConsumer(e) && Enabled(t, e))
  {
    InitInv(u);
    RunKeepsInv(u, Init(), es);
    StepsAreBounded(u, Init(), es);
    CountIsCardinality(es, true);
    CountIsCardinality(es, false);
    assert StepsOf(es, true) == set i | 0 <= i < |es| && ByProducer(es[i]);
    assert StepsOf(es, false) == set i | 0 <= i < |es| && ByConsumer(es[i]);
    NobodyWaits(u, Run(u, Init(), es));
  }

  // ---- Every way the call can be made ----

  /** A run, one step on. */
  lemma RunAt<V, E>(u: Setup<V, E>, s: State<V, E>, es: seq<Event<E>>, k: nat)
    requires Fitting(u) && k < |es| && Enabled(s, es[k])
    ensures ValidRun(u, s, es[k..]) <==> ValidRun(u, Step(u, s, es[k]), es[k + 1..])
    ensures ValidRun(u, s, es[k..]) ==> Run(u, s, es[k..]) == Run(u, Step(u, s, es[k]), es[k + 1..])
    ensures es[0..] == es
  {
    assert es[k..][1..] == es[k + 1..];
  }

  lemma RunNothing<V, E>(u: Setup<V, E>, s: State<V, E>)
    requires Fitting(u)
    ensures ValidRun(u, s, []) && Run(u, s, []) == s
  {
  }

  /** The call has been made, and both sides have only to let go. */
  predicate CalledOnce<V, E>(s: State<V, E>) {
    && s.producer.PReturned? && s.consumer.CReturned? && s.extras == 0
    && s.mem.alive && !s.mem.fault && s.mem.refCount == 2
    && s.mem.ready && s.mem.finished && s.mem.handler.Spent? && !s.mem.slot.Unbuilt? && !s.mem.slot.Destroyed?
    && |s.mem.calls| == 1
  }

  lemma BothLetGo<V, E>(u: Setup<V, E>, s: State<V, E>, es: seq<Event<E>>, k: nat)
    requires Fitting(u) && CalledOnce(s) && k + 2 == |es| && es[k] == ReleasePromise && es[k + 1] == ReleaseFuture
    ensures ValidRun(u, s, es[k..])
    ensures var t := Run(u, s, es[k..]);
            Quiescent(t) && Sound(t) && |t.mem.calls| == 1 && t.mem.slot.Destroyed?
  {
    hide Run, ValidRun;
    var s1 := Step(u, s, ReleasePromise);
    RunAt(u, s, es, k);
    RunAt(u, s1, es, k + 1);
    RunNothing(u, Step(u, s1, ReleaseFuture));
    assert es[k + 2..] == [];
  }

  /** The producer finds no handler and leaves the result; the consumer, coming later, makes the call. */
  lemma ConsumerCalls<V, E>(u: Setup<V, E>)
    requires Fitting(u)
    ensures var es := [Load, Build, PublishFinished, GetFuture, Install, PublishReady, CallStored, ReleasePromise, ReleaseFuture];
            && ValidRun(u, Init(), es)
            && var t := Run(u, Init(), es);
               Quiescent(t) && Sound(t) && |t.mem.calls| == 1 && t.mem.slot.Destroyed?
  {
    hide Run, ValidRun, Meaning, FullfillToFinish, FailToExpect;
    var es := [Load, Build, PublishFinished, GetFuture, Install, PublishReady, CallStored, ReleasePromise, ReleaseFuture];
    var s0: State<V, E> := Init();
    var s1 := Step(u, s0, es[0]);
    var s2 := Step(u, s1, es[1]);
    var s3 := Step(u, s2, es[2]);
    var s4 := Step(u, s3, es[3]);
    var s5 := Step(u, s4, es[4]);
    var s6 := Step(u, s5, es[5]);
    var s7 := Step(u, s6, es[6]);
    RunAt(u, s0, es, 0);
    RunAt(u, s1, es, 1);
    RunAt(u, s2, es, 2);
    RunAt(u, s3, es, 3);
    RunAt(u, s4, es, 4);
    RunAt(u, s5, es, 5);
    RunAt(u, s6, es, 6);
    BothLetGo(u, s7, es, 7);
  }

  /** The handler is installed between the producer's two looks; the producer makes the call with what it left. */
  lemma ProducerCallsLate<V, E>(u: Setup<V, E>)
    requires Fitting(u)
    ensures var es := [GetFuture, Load, Build, Install, PublishReady, PublishFinished, CallLate(None), ReleasePromise, ReleaseFuture];
            && ValidRun(u, Init(), es)
            && var t := Run(u, Init(), es);
               Quiescent(t) && Sound(t) && |t.mem.calls| == 1 && t.mem.slot.Destroyed?
  {
    hide Run, ValidRun, Meaning, FullfillToFinish, FailToExpect;
    var es := [GetFuture, Load, Build, Install, PublishReady, PublishFinished, CallLate(None), ReleasePromise, ReleaseFuture];
    var s0: State<V, E> := Init();
    var s1 := Step(u, s0, es[0]);
    var s2 := Step(u, s1, es[1]);
    var s3 := Step(u, s2, es[2]);
    var s4 := Step(u, s3, es[3]);
    var s5 := Step(u, s4, es[4]);
    var s6 := Step(u, s5, es[5]);
    var s7 := Step(u, s6, es[6]);
    RunAt(u, s0, es, 0);
    RunAt(u, s1, es, 1);
    RunAt(u, s2, es, 2);
    RunAt(u, s3, es, 3);
    RunAt(u, s4, es, 4);
    RunAt(u, s5, es, 5);
    RunAt(u, s6, es, 6);
    BothLetGo(u, s7, es, 7);
  }

  /** A future that is dropped with a copy made in between: nobody is called, and the result is destroyed. */
  lemma DroppedFutureIsSilent<V, E>(u: Setup<V, E>)
    requires Fitting(u)
    ensures var es := [GetFuture, CopyRef, DropFuture, DropRef, Load, Build, PublishFinished, ReleasePromise];
            && ValidRun(u, Init(), es)
            && var t := Run(u, Init(), es);
               Quiescent(t) && Sound(t) && t.mem.calls == [] && t.mem.slot.Destroyed?
  {
    hide Run, ValidRun, Meaning, FullfillToFinish, FailToExpect;
    var es := [GetFuture, CopyRef, DropFuture, DropRef, Load, Build, PublishFinished, ReleasePromise];
    var s0: State<V, E> := Init();
    var s1 := Step(u, s0, es[0]);
    var s2 := Step(u, s1, es[1]);
    var s3 := Step(u, s2, es[2]);
    var s4 := Step(u, s3, es[3]);
    var s5 := Step(u, s4, es[4]);
    var s6 := Step(u, s5, es[5]);
    var s7 := Step(u, s6, es[6]);
    var s8 := Step(u, s7, es[7]);
    RunAt(u, s0, es, 0);
    RunAt(u, s1, es, 1);
    RunAt(u, s2, es, 2);
    RunAt(u, s3, es, 3);
    RunAt(u, s4, es, 4);
    RunAt(u, s5, es, 5);
    RunAt(u, s6, es, 6);
    RunAt(u, s7, es, 7);
    RunNothing(u, s8);
    assert es[8..] == [];
  }

  // ---- Runs that go wrong ----

  /** The consumer has come and gone, before the producer did anything. */
  function AfterConsumer<V, E>(): State<V, E> {
    var s := Init<V, E>();
    s.(mem := s.mem.(ready := true, handler := Live, block := Some(HandlerType)), consumer := CDone)
  }

  lemma Consumed<V, E>(u: Setup<V, E>, es: seq<Event<E>>)
    requires Fitting(u) && [GetFuture, Install, PublishReady, ReleaseFuture] <= es
    ensures ValidRun(u, Init(), es) <==> ValidRun(u, AfterConsumer(), es[4..])
    ensures ValidRun(u, Init(), es) ==> Run(u, Init(), es) == Run(u, AfterConsumer(), es[4..])
  {
    hide Run, ValidRun;
    var s0: State<V, E> := Init();
    var s1 := Step(u, s0, GetFuture);
    var s2 := Step(u, s1, Install);
    var s3 := Step(u, s2, PublishReady);
    RunAt(u, s0, es, 0);
    RunAt(u, s1, es, 1);
    RunAt(u, s2, es, 2);
    RunAt(u, s3, es, 3);
  }

  /**
   * A promise that is assigned over loses its future: the handler is installed, everything is destroyed in order, and
   * nothing was ever called, not even with Unfullfilled_promise.
   */
  lemma OverwriteLosesTheCall<V, E>(u: Setup<V, E>)
    requires Fitting(u)
    ensures var es := [GetFuture, Install, PublishReady, ReleaseFuture, OverwritePromise];
            && ValidRun(u, Init(), es)
            && var t := Run(u, Init(), es);
               Quiescent(t) && t.mem.ready && t.mem.calls == []
  {
    var es := [GetFuture, Install, PublishReady, ReleaseFuture, OverwritePromise];
    Consumed(u, es);
    RunAt(u, AfterConsumer(), es, 4);
  }

  /**
   * A handler whose call throws is called again.  This is f.then(g).finally(h) with an h that throws and a queue that
   * runs its jobs at once: g's job catches what h threw and fails the storage that h is waiting on.
   */
  lemma ThrowingCallIsRepeated<V, E>(u: Setup<V, E>, e: E)
    requires Fitting(u)
    ensures var es := [GetFuture, Install, PublishReady, ReleaseFuture, Load, CallFullfill(Some(e)), Load, CallFullfill(None)];
            && ValidRun(u, Init(), es)
            && var t := Run(u, Init(), es);
               t.mem.reused && |t.mem.calls| == 2 && t.mem.calls[1] == Finished(FailToExpect(u.shape, e))
  {
    var es := [GetFuture, Install, PublishReady, ReleaseFuture, Load, CallFullfill(Some(e)), Load, CallFullfill(None)];
    var s4: State<V, E> := AfterConsumer();
    var s5 := Step(u, s4, Load);
    var s6 := Step(u, s5, CallFullfill(Some(e)));
    var s7 := Step(u, s6, Load);
    Consumed(u, es);
    RunAt(u, s4, es, 4);
    RunAt(u, s5, es, 5);
    RunAt(u, s6, es, 6);
    RunAt(u, s7, es, 7);
  }

  /** n copies of the promise's Storage_ptr have been made. */
  function Copied<V, E>(n: nat): State<V, E> {
    var s := Init<V, E>();
    s.(mem := s.mem.(refCount := CountOf(n + 1)), extras := n)
  }

  lemma {:induction false} AfterCopies<V, E>(u: Setup<V, E>, es: seq<Event<E>>, n: nat)
    requires Fitting(u) && n <= |es| && forall k | 0 <= k < n :: es[k] == CopyRef
    ensures ValidRun(u, Init(), es) <==> ValidRun(u, Copied(n), es[n..])
    ensures ValidRun(u, Init(), es) ==> Run(u, Init(), es) == Run(u, Copied(n), es[n..])
  {
    hide Run, ValidRun, CountOf, Up;
    CountMoves(n);
    if n == 0 {
      assert es[0..] == es && Copied<V, E>(0) == Init();
    } else {
      AfterCopies(u, es, n - 1);
      RunAt(u, Copied(n - 1), es, n - 1);
      assert Step(u, Copied(n - 1), CopyRef) == Copied(n);
    }
  }

  /**
   * With 257 holders the count reads 1: the first of them to let go frees the storage under the other 256, and the
   * producer's first access is undefined.
   */
  lemma TooManyHolders<V, E>(u: Setup<V, E>)
    requires Fitting(u)
    ensures var es := seq<Event<E>>(256, _ => CopyRef) + [DropRef, Load];
            && ValidRun(u, Init(), es[..257]) && ValidRun(u, Init(), es)
            && var t := Run(u, Init(), es[..257]);
               !t.mem.alive && Holders(t) == 256 && Run(u, Init(), es).mem.fault
  {
    var es := seq<Event<E>>(256, _ => CopyRef) + [DropRef, Load];
    var s: State<V, E> := Copied(256);
    AfterCopies(u, es[..257], 256);
    RunAt(u, s, es[..257], 256);
    AfterCopies(u, es, 256);
    RunAt(u, s, es, 256);
    RunAt(u, Step(u, s, DropRef), es, 257);
  }
}
