/**
 * A chain of then() and then_expect() over real storages (include/var_future/impl/then.h, then_expect.h,
 * storage_impl.h, future.h): each storage is completed by the handler of the one before, and each has its own producer
 * and consumer threads that interleave as they please.
 */
module FutureChain {
  import opened Results
  import opened FutureStorage

  /** Scheduled as es says, the threads at the storage set up by u keep it counted and have called its handler. */
  ghost predicate Called<V, E>(u: Setup<V, E>, es: seq<Event<E>>)
    requires Fitting(u)
  {
    ValidRun(u, Init(), es) && CountHolds(u, Init(), es) && Run(u, Init(), es).mem.calls != []
  }

  /** That call; should it throw and be repeated, the first one. */
  ghost function FirstCall<V, E>(u: Setup<V, E>, es: seq<Event<E>>): (d: Delivery<V, E>)
    requires Fitting(u) && Called(u, es)
    ensures DeliveryFits(u.shape, d) && DeliveredFields(u.shape, d) == Meaning(u.shape, u.op)
  {
    EveryRunIsSafe(u, es);
    Run(u, Init(), es).mem.calls[0]
  }

  ghost function NextSetup<V(!new), E(!new)>(u: Setup<V, E>, es: seq<Event<E>>, s: Stage<V, E>): (w: Setup<V, E>)
    requires Fitting(u) && Called(u, es) && WellTypedStage(s)
    ensures Fitting(w)
  {
    Setup(s.shape, Next(s, Handle(KindOf(s), u.shape, FirstCall(u, es))))
  }

  /** schedules[i] interleaves the threads of the i-th storage, up to a point where its handler has been called. */
  ghost predicate AllCalled<V(!new), E(!new)>(u: Setup<V, E>, stages: seq<Stage<V, E>>, schedules: seq<seq<Event<E>>>)
    requires Fitting(u) && WellTyped(stages) && |schedules| == |stages| + 1
    decreases |stages|
  {
    && Called(u, schedules[0])
    && (stages == [] || AllCalled(NextSetup(u, schedules[0], stages[0]), stages[1..], schedules[1..]))
  }

  lemma StorageCanRun<V, E>(u: Setup<V, E>) returns (es: seq<Event<E>>)
    requires Fitting(u)
    ensures Called(u, es)
  {
    ConsumerCalls(u);
    es := [Load, Build, PublishFinished, GetFuture, Install, PublishReady, CallStored, ReleasePromise, ReleaseFuture];
    SoundIffCounted(u, es);
  }

  /** Every chain can be scheduled so: let each producer finish before its consumer comes. */
  lemma {:induction false} ChainCanRun<V(!new), E(!new)>(u: Setup<V, E>, stages: seq<Stage<V, E>>)
    returns (schedules: seq<seq<Event<E>>>)
    requires Fitting(u) && WellTyped(stages)
    ensures |schedules| == |stages| + 1 && AllCalled(u, stages, schedules)
    decreases |stages|
  {
    hide Called;
    var es := StorageCanRun(u);
    schedules := [es];
    if stages != [] {
      var rest := ChainCanRun(NextSetup(u, es, stages[0]), stages[1..]);
      schedules := [es] + rest;
      assert schedules[1..] == rest;
    }
  }

  /** The fields that the last handler of the chain is called with. */
  ghost function Arrives<V(!new), E(!new)>(u: Setup<V, E>, stages: seq<Stage<V, E>>, schedules: seq<seq<Event<E>>>)
    : seq<Field<V, E>>
    requires Fitting(u) && WellTyped(stages) && |schedules| == |stages| + 1
    requires AllCalled(u, stages, schedules)
    decreases |stages|
  {
    if stages == [] then DeliveredFields(u.shape, FirstCall(u, schedules[0]))
    else
      Arrives(NextSetup(u, schedules[0], stages[0]), stages[1..], schedules[1..])
  }

  lemma {:induction false} ArrivesAsRunChain<V(!new), E(!new)>(
    u: Setup<V, E>, stages: seq<Stage<V, E>>, schedules: seq<seq<Event<E>>>)
    requires Fitting(u) && WellTyped(stages) && |schedules| == |stages| + 1
    requires AllCalled(u, stages, schedules)
    ensures Arrives(u, stages, schedules) == RunChain(u.shape, Meaning(u.shape, u.op), stages).0
    decreases |stages|
  {
    if stages != [] {
      var d, f := FirstCall(u, schedules[0]), Meaning(u.shape, u.op);
      HandlersSeeOnlyTheMeaning(KindOf(stages[0]), u.shape, d, Finished(f));
      ArrivesAsRunChain(NextSetup(u, schedules[0], stages[0]), stages[1..], schedules[1..]);
    }
  }

  /**
   * However the threads at each storage of a chain are scheduled, what arrives at its end is what evaluating the
   * callbacks one after the other gives.
   */
  lemma ChainUnderAnySchedule<V(!new), E(!new)>(u: Setup<V, E>, stages: seq<Stage<V, E>>, schedules: seq<seq<Event<E>>>)
    requires Fitting(u) && WellTyped(stages) && |schedules| == |stages| + 1
    requires AllCalled(u, stages, schedules)
    ensures Observe(Meaning(u.shape, u.op)).Done? ==> FitsValues(u.shape, Observe(Meaning(u.shape, u.op)).values)
    ensures Observe(Arrives(u, stages, schedules)) ==
            Evaluate(u.shape, Observe(Meaning(u.shape, u.op)), stages).0
  {
    ArrivesAsRunChain(u, stages, schedules);
    ChainIsEvaluation(u.shape, Meaning(u.shape, u.op), stages);
  }

  /** The last storage of a chain, as it is set up under the given schedules. */
  ghost function LastSetup<V(!new), E(!new)>(u: Setup<V, E>, stages: seq<Stage<V, E>>, schedules: seq<seq<Event<E>>>)
    : (w: Setup<V, E>)
    requires Fitting(u) && WellTyped(stages) && |schedules| == |stages| + 1
    requires AllCalled(u, stages, schedules)
    ensures Fitting(w) && Called(w, schedules[|stages|])
    ensures w.shape == if stages == [] then u.shape else stages[|stages| - 1].shape
    decreases |stages|
  {
    if stages == [] then u
    else LastSetup(NextSetup(u, schedules[0], stages[0]), stages[1..], schedules[1..])
  }

  lemma {:induction false} ArrivesAtLast<V(!new), E(!new)>(
    u: Setup<V, E>, stages: seq<Stage<V, E>>, schedules: seq<seq<Event<E>>>)
    requires Fitting(u) && WellTyped(stages) && |schedules| == |stages| + 1
    requires AllCalled(u, stages, schedules)
    ensures var w := LastSetup(u, stages, schedules);
            Arrives(u, stages, schedules) == DeliveredFields(w.shape, FirstCall(w, schedules[|stages|]))
    decreases |stages|
  {
    if stages != [] {
      ArrivesAtLast(NextSetup(u, schedules[0], stages[0]), stages[1..], schedules[1..]);
    }
  }

  /**
   * A chain that ends in finally(): however the threads are scheduled, its callback is called with one field per
   * template argument of the last future.  They hold what evaluating the callbacks one after the other ends with: its
   * values, each in the place of its field, or its errors.
   */
  lemma FinallySeesTheResult<V(!new), E(!new)>(u: Setup<V, E>, stages: seq<Stage<V, E>>, schedules: seq<seq<Event<E>>>)
    requires Fitting(u) && WellTyped(stages) && |schedules| == |stages| + 1
    requires AllCalled(u, stages, schedules)
    ensures Observe(Meaning(u.shape, u.op)).Done? ==> FitsValues(u.shape, Observe(Meaning(u.shape, u.op)).values)
    ensures var w := LastSetup(u, stages, schedules);
            var job := Handle(Finally, w.shape, FirstCall(w, schedules[|stages|]));
            var end := Evaluate(u.shape, Observe(Meaning(u.shape, u.op)), stages).0;
            && job.CallWithFields? && |job.fields| == |w.shape|
            && if end.Failed? then job.fields == end.errors
               else FitsValues(w.shape, end.values) && Spells(w.shape, Fullfill(end.values), job.fields)
  {
    ChainUnderAnySchedule(u, stages, schedules);
    ArrivesAtLast(u, stages, schedules);
    var w := LastSetup(u, stages, schedules);
    var d := FirstCall(w, schedules[|stages|]);
    var f := DeliveredFields(w.shape, d);
    CallbackArguments(Finally, w.shape, d);
    MeaningIsSpelled(w.shape, AsCompletion(d), f);
    HandleByFields(Finally, w.shape, d);
    if AllValues(f) {
      FieldsRoundTrip(w.shape, f);
      MeaningIsSpelled(w.shape, Fullfill(FinishToFullfill(f)), f);
    }
  }
}
