/**
 * The tuples a future carries, the conversions between them, and what a handler does with the
 * one it is given (include/var_future/impl/utils.h, then.h, then_expect.h, then_finally_expect.h).
 *
 * A future with fields Ts... is finished with one expected<T> per field.  A fullfilment lists only the
 * values of the non-void fields.  A storage hands its handler either form, depending on which of two
 * threads came first, so the two forms must be interchangeable.
 */
module Results {
  import opened Wrappers

  datatype Kind = Void | Typed

  /** The kinds of the fields of a future, one per template argument. */
  type Shape = seq<Kind>

  /** One expected<T>; Unit is a successful expected<void>. */
  datatype Field<+V, +E> = Value(value: V) | Unit | Error(error: E)

  predicate FieldFits<V, E>(k: Kind, f: Field<V, E>) {
    f.Error? || (if k.Void? then f.Unit? else f.Value?)
  }

  predicate Fits<V, E>(shape: Shape, f: seq<Field<V, E>>) {
    |f| == |shape| && forall i | 0 <= i < |f| :: FieldFits(shape[i], f[i])
  }

  predicate AllValues<V, E>(f: seq<Field<V, E>>) {
    forall i | 0 <= i < |f| :: !f[i].Error?
  }

  /** The number of non-void fields among the first n: the index a field's value has in a fullfilment. */
  function TypedBefore(shape: Shape, n: nat): nat
    requires n <= |shape|
  {
    if n == 0 then 0
    else TypedBefore(shape, n - 1) + if shape[n - 1].Typed? then 1 else 0
  }

  lemma {:induction false} TypedBeforeMonotone(shape: Shape, m: nat, n: nat)
    requires m <= n <= |shape|
    ensures TypedBefore(shape, m) <= TypedBefore(shape, n)
    decreases n
  {
    if m < n {
      TypedBeforeMonotone(shape, m, n - 1);
    }
  }

  predicate FitsValues<V>(shape: Shape, v: seq<V>) {
    |v| == TypedBefore(shape, |shape|)
  }

  // ---- Conversions ----

  /** fullfill_to_finish<i, j>: fields i and up, reading values from j and up. */
  function FullfillToFinishFrom<V, E>(shape: Shape, v: seq<V>, i: nat, j: nat): seq<Field<V, E>>
    requires FitsValues(shape, v)
    requires i <= |shape| && j == TypedBefore(shape, i)
    decreases |shape| - i
  {
    if i == |shape| then []
    else if shape[i].Void? then
      [Unit] + FullfillToFinishFrom(shape, v, i + 1, j)
    else
      TypedBeforeMonotone(shape, i + 1, |shape|);
      [Value(v[j])] + FullfillToFinishFrom(shape, v, i + 1, j + 1)
  }

  function FullfillToFinish<V, E>(shape: Shape, v: seq<V>): seq<Field<V, E>>
    requires FitsValues(shape, v)
  {
    FullfillToFinishFrom(shape, v, 0, 0)
  }

  /** finish_to_fullfill<n - 1>: the values of the first n fields, built from the last one down. */
  function FinishToFullfillUpTo<V, E>(f: seq<Field<V, E>>, n: nat): seq<V>
    requires n <= |f| && AllValues(f)
  {
    if n == 0 then []
    else if f[n - 1].Unit? then FinishToFullfillUpTo(f, n - 1)
    else FinishToFullfillUpTo(f, n - 1) + [f[n - 1].value]
  }

  function FinishToFullfill<V, E>(f: seq<Field<V, E>>): seq<V>
    requires AllValues(f)
  {
    FinishToFullfillUpTo(f, |f|)
  }

  /** fail_to_expect: every field holds the one error. */
  function FailToExpect<V, E>(shape: Shape, e: E): seq<Field<V, E>> {
    seq(|shape|, _ => Error(e))
  }

  /** get_first_error. */
  function FirstError<V, E>(f: seq<Field<V, E>>): (r: Option<E>)
    ensures r.None? <==> AllValues(f)
  {
    if f == [] then None
    else if f[0].Error? then Some(f[0].error)
    else
      assert forall k | 0 <= k < |f[1..]| :: f[1..][k] == f[k + 1];
      assert AllValues(f) <==> AllValues(f[1..]) by {
        if AllValues(f[1..]) {
          forall k | 0 <= k < |f| ensures !f[k].Error? {
            if k > 0 { assert f[k] == f[1..][k - 1]; }
          }
        }
      }
      FirstError(f[1..])
  }

  /** It is the error of the leftmost failed field. */
  lemma {:induction false} FirstErrorIsLeftmost<V, E>(f: seq<Field<V, E>>, i: nat)
    requires i < |f| && f[i].Error?
    requires forall k | 0 <= k < i :: !f[k].Error?
    ensures FirstError(f) == Some(f[i].error)
  {
    if i > 0 {
      assert !f[0].Error?;
      FirstErrorIsLeftmost(f[1..], i - 1);
    }
  }

  lemma {:induction false} FullfillToFinishAt<V, E>(shape: Shape, v: seq<V>, i: nat, j: nat, k: nat)
    requires FitsValues(shape, v)
    requires i <= k < |shape| && j == TypedBefore(shape, i)
    ensures TypedBefore(shape, k) <= |v|
    ensures shape[k].Typed? ==> TypedBefore(shape, k) < |v|
    ensures var f := FullfillToFinishFrom<V, E>(shape, v, i, j);
            && |f| == |shape| - i
            && f[k - i] == if shape[k].Void? then Unit else Value(v[TypedBefore(shape, k)])
    decreases |shape| - i
  {
    TypedBeforeMonotone(shape, k + 1, |shape|);
    var j' := TypedBefore(shape, i + 1);
    FullfillToFinishLength<V, E>(shape, v, i + 1, j');
    if i < k {
      FullfillToFinishAt<V, E>(shape, v, i + 1, j', k);
    }
  }

  lemma {:induction false} FullfillToFinishLength<V, E>(shape: Shape, v: seq<V>, i: nat, j: nat)
    requires FitsValues(shape, v)
    requires i <= |shape| && j == TypedBefore(shape, i)
    ensures |FullfillToFinishFrom<V, E>(shape, v, i, j)| == |shape| - i
    decreases |shape| - i
  {
    if i < |shape| {
      FullfillToFinishLength<V, E>(shape, v, i + 1, TypedBefore(shape, i + 1));
    }
  }

  /** Restoring the void fields of a fullfilment gives a well-typed tuple without errors. */
  lemma FullfillToFinishFits<V, E>(shape: Shape, v: seq<V>)
    requires FitsValues(shape, v)
    ensures Fits(shape, FullfillToFinish<V, E>(shape, v))
    ensures AllValues(FullfillToFinish<V, E>(shape, v))
  {
    FullfillToFinishLength<V, E>(shape, v, 0, 0);
    forall k | 0 <= k < |shape|
      ensures FieldFits(shape[k], FullfillToFinish<V, E>(shape, v)[k]) && !FullfillToFinish<V, E>(shape, v)[k].Error?
    {
      FullfillToFinishAt<V, E>(shape, v, 0, 0, k);
    }
  }

  lemma {:induction false} DropsVoids<V, E>(shape: Shape, v: seq<V>, n: nat)
    requires FitsValues(shape, v) && n <= |shape|
    requires AllValues(FullfillToFinish<V, E>(shape, v))
    ensures |FullfillToFinish<V, E>(shape, v)| == |shape|
    ensures TypedBefore(shape, n) <= |v|
    ensures FinishToFullfillUpTo(FullfillToFinish<V, E>(shape, v), n) == v[..TypedBefore(shape, n)]
  {
    FullfillToFinishLength<V, E>(shape, v, 0, 0);
    TypedBeforeMonotone(shape, n, |shape|);
    if n > 0 {
      DropsVoids<V, E>(shape, v, n - 1);
      FullfillToFinishAt<V, E>(shape, v, 0, 0, n - 1);
    }
  }

  /** Values, restored to fields and stripped again, come back unchanged and in order. */
  lemma ValuesRoundTrip<V, E>(shape: Shape, v: seq<V>)
    requires FitsValues(shape, v)
    ensures AllValues(FullfillToFinish<V, E>(shape, v))
    ensures FinishToFullfill(FullfillToFinish<V, E>(shape, v)) == v
  {
    FullfillToFinishFits<V, E>(shape, v);
    DropsVoids<V, E>(shape, v, |shape|);
  }

  lemma {:induction false} StripCount<V, E>(shape: Shape, f: seq<Field<V, E>>, n: nat)
    requires Fits(shape, f) && AllValues(f) && n <= |f|
    ensures |FinishToFullfillUpTo(f, n)| == TypedBefore(shape, n)
  {
    if n > 0 {
      StripCount(shape, f, n - 1);
    }
  }

  lemma {:induction false} StripAt<V, E>(shape: Shape, f: seq<Field<V, E>>, n: nat, k: nat)
    requires Fits(shape, f) && AllValues(f) && k < n <= |f| && shape[k].Typed?
    ensures TypedBefore(shape, k) < |FinishToFullfillUpTo(f, n)|
    ensures FinishToFullfillUpTo(f, n)[TypedBefore(shape, k)] == f[k].value
  {
    StripCount(shape, f, n - 1);
    StripCount(shape, f, n);
    if k < n - 1 {
      StripAt(shape, f, n - 1, k);
    }
  }

  /** An error-free tuple, stripped of its void fields and restored, comes back unchanged. */
  lemma FieldsRoundTrip<V, E>(shape: Shape, f: seq<Field<V, E>>)
    requires Fits(shape, f) && AllValues(f)
    ensures FitsValues(shape, FinishToFullfill(f))
    ensures FullfillToFinish<V, E>(shape, FinishToFullfill(f)) == f
  {
    StripCount(shape, f, |f|);
    var v := FinishToFullfill(f);
    FullfillToFinishLength<V, E>(shape, v, 0, 0);
    forall k | 0 <= k < |f| ensures FullfillToFinish<V, E>(shape, v)[k] == f[k] {
      FullfillToFinishAt<V, E>(shape, v, 0, 0, k);
      if shape[k].Typed? {
        StripAt(shape, f, |f|, k);
      }
    }
  }

  // ---- Completing a storage ----

  /** The three ways to complete a storage. */
  datatype Completion<+V, +E> = Fullfill(values: seq<V>) | Finish(fields: seq<Field<V, E>>) | Fail(error: E)

  predicate CompletionFits<V, E>(shape: Shape, c: Completion<V, E>) {
    match c
    case Fullfill(v) => FitsValues(shape, v)
    case Finish(f) => Fits(shape, f)
    case Fail(_) => |shape| > 0
  }

  /** What a completion means: one field per template argument. */
  function Meaning<V, E>(shape: Shape, c: Completion<V, E>): (f: seq<Field<V, E>>)
    requires CompletionFits(shape, c)
    ensures Fits(shape, f)
  {
    match c
    case Fullfill(v) => FullfillToFinishFits<V, E>(shape, v); FullfillToFinish(shape, v)
    case Finish(f) => f
    case Fail(e) => FailToExpect(shape, e)
  }

  /**
   * Field by field: a value stands in the place of its field among the non-void ones, void fields succeed, and a failure
   * puts its error in every field.
   */
  ghost predicate Spells<V, E>(shape: Shape, c: Completion<V, E>, f: seq<Field<V, E>>)
    requires CompletionFits(shape, c)
  {
    && |f| == |shape|
    && forall k | 0 <= k < |shape| ::
         if c.Finish? then f[k] == c.fields[k]
         else if c.Fail? then f[k] == Error(c.error)
         else if shape[k].Void? then f[k] == Unit
         else TypedBefore(shape, k) < |c.values| && f[k] == Value(c.values[TypedBefore(shape, k)])
  }

  /** And nothing else is what a completion means. */
  lemma MeaningIsSpelled<V, E>(shape: Shape, c: Completion<V, E>, f: seq<Field<V, E>>)
    requires CompletionFits(shape, c)
    ensures Spells(shape, c, f) <==> f == Meaning(shape, c)
  {
    if c.Fullfill? {
      FullfillToFinishLength<V, E>(shape, c.values, 0, 0);
      forall k | 0 <= k < |shape|
        ensures shape[k].Typed? ==> TypedBefore(shape, k) < |c.values|
        ensures FullfillToFinish<V, E>(shape, c.values)[k] ==
                if shape[k].Void? then Unit else Value(c.values[TypedBefore(shape, k)])
      {
        FullfillToFinishAt<V, E>(shape, c.values, 0, 0, k);
      }
    }
  }

  // ---- Handlers ----

  /** How a storage calls its handler. */
  datatype Delivery<+V, +E> = Fullfilled(values: seq<V>) | Finished(fields: seq<Field<V, E>>)

  datatype HandlerKind = Then | ThenExpect | Finally

  /** What a handler enqueues: a call of the user's callback, or a direct failure of the result. */
  datatype Job<+V, +E> = CallWithValues(values: seq<V>) | CallWithFields(fields: seq<Field<V, E>>) | FailResult(error: E)

  predicate DeliveryFits<V, E>(shape: Shape, d: Delivery<V, E>) {
    match d
    case Fullfilled(v) => FitsValues(shape, v)
    case Finished(f) => Fits(shape, f)
  }

  function DeliveredFields<V, E>(shape: Shape, d: Delivery<V, E>): seq<Field<V, E>>
    requires DeliveryFits(shape, d)
  {
    match d
    case Fullfilled(v) => FullfillToFinish(shape, v)
    case Finished(f) => f
  }

  /** The handler's fullfill and finish members. */
  function Handle<V, E>(kind: HandlerKind, shape: Shape, d: Delivery<V, E>): Job<V, E>
    requires DeliveryFits(shape, d)
  {
    match kind
    case Then => (
      match d
      case Fullfilled(v) => CallWithValues(v)
      case Finished(f) => (
        match FirstError(f)
        case Some(e) => FailResult(e)
        case None => CallWithValues(FinishToFullfill(f))))
    case ThenExpect => CallWithFields(DeliveredFields(shape, d))
    case Finally => CallWithFields(DeliveredFields(shape, d))
  }

  /**
   * A handler cannot tell which form it was given: two deliveries that mean the same fields
   * enqueue the same job, for every kind of handler.
   */
  lemma HandlersSeeOnlyTheMeaning<V, E>(kind: HandlerKind, shape: Shape, d1: Delivery<V, E>, d2: Delivery<V, E>)
    requires DeliveryFits(shape, d1) && DeliveryFits(shape, d2)
    requires DeliveredFields(shape, d1) == DeliveredFields(shape, d2)
    ensures Handle(kind, shape, d1) == Handle(kind, shape, d2)
  {
    HandleByFields(kind, shape, d1);
    HandleByFields(kind, shape, d2);
  }

  lemma {:induction false} FirstFailed<V, E>(f: seq<Field<V, E>>) returns (i: nat)
    requires !AllValues(f)
    ensures i < |f| && f[i].Error? && forall k | 0 <= k < i :: !f[k].Error?
  {
    i := 0;
    while !f[i].Error?
      invariant i < |f| && forall k | 0 <= k < i :: !f[k].Error?
      decreases |f| - i
    {
      i := i + 1;
    }
  }

  /** What a delivery brings, as the completion that it makes of the future. */
  function AsCompletion<V, E>(d: Delivery<V, E>): Completion<V, E> {
    if d.Fullfilled? then Fullfill(d.values) else Finish(d.fields)
  }

  /**
   * What the user's callback is called with: then_expect() and finally() get every field, then() gets the values of the
   * non-void fields in their order, unless a field has failed.
   */
  lemma CallbackArguments<V, E>(kind: HandlerKind, shape: Shape, d: Delivery<V, E>)
    requires DeliveryFits(shape, d)
    ensures CompletionFits(shape, AsCompletion(d))
    ensures var job := Handle(kind, shape, d);
            if kind != Then then job.CallWithFields? && Spells(shape, AsCompletion(d), job.fields)
            else if d.Finished? && !AllValues(d.fields) then
              job.FailResult? && exists i | 0 <= i < |d.fields| ::
                d.fields[i] == Error(job.error) && forall k | 0 <= k < i :: !d.fields[k].Error?
            else
              && job.CallWithValues? && FitsValues(shape, job.values)
              && if d.Fullfilled? then job.values == d.values else Spells(shape, Fullfill(job.values), d.fields)
  {
    MeaningIsSpelled(shape, AsCompletion(d), DeliveredFields(shape, d));
    if kind == Then && d.Finished? {
      if AllValues(d.fields) {
        FieldsRoundTrip(shape, d.fields);
        MeaningIsSpelled(shape, Fullfill(FinishToFullfill(d.fields)), d.fields);
      } else {
        var i := FirstFailed(d.fields);
        FirstErrorIsLeftmost(d.fields, i);
      }
    }
  }

  lemma HandleByFields<V, E>(kind: HandlerKind, shape: Shape, d: Delivery<V, E>)
    requires DeliveryFits(shape, d)
    ensures d.Fullfilled? ==> AllValues(DeliveredFields(shape, d)) && Fits(shape, DeliveredFields(shape, d))
    ensures Fits(shape, DeliveredFields(shape, d))
    ensures Handle(kind, shape, d) == Handle(kind, shape, Finished(DeliveredFields(shape, d)))
  {
    if d.Fullfilled? {
      FullfillToFinishFits<V, E>(shape, d.values);
      ValuesRoundTrip<V, E>(shape, d.values);
    }
  }

  // ---- Chains of then() and then_expect() ----

  /** What a callback does; a void callback returns no values, segmented(...) returns several. */
  datatype Reply<+V, +E> = Returns(values: seq<V>) | ReturnsExpected(field: Field<V, E>) | Throws(error: E)

  /** A then() or a then_expect(): its callback and the shape of the future it returns. */
  datatype Stage<!V, !E> =
    | OnValues(onValues: seq<V> -> Reply<V, E>, shape: Shape)
    | OnFields(onFields: seq<Field<V, E>> -> Reply<V, E>, shape: Shape)

  /** The handler that a stage installs. */
  function KindOf<V, E>(s: Stage<V, E>): HandlerKind {
    if s.OnValues? then Then else ThenExpect
  }

  /** The callback's reply, if the job calls it. */
  function CallIt<V, E>(s: Stage<V, E>, job: Job<V, E>): Reply<V, E>
    requires if s.OnValues? then job.CallWithValues? else job.CallWithFields?
  {
    if s.OnValues? then s.onValues(job.values) else s.onFields(job.fields)
  }

  /** The job's body: run the callback and complete the result storage with what it did. */
  function Complete<V, E>(r: Reply<V, E>): Completion<V, E> {
    match r
    case Returns(v) => Fullfill(v)
    case ReturnsExpected(f) => Finish([f])
    case Throws(e) => Fail(e)
  }

  ghost predicate WellTypedStage<V(!new), E(!new)>(s: Stage<V, E>) {
    && |s.shape| > 0
    && (s.OnValues? ==> forall a :: CompletionFits(s.shape, Complete(s.onValues(a))))
    && (s.OnFields? ==> forall f :: CompletionFits(s.shape, Complete(s.onFields(f))))
  }

  ghost predicate WellTyped<V(!new), E(!new)>(stages: seq<Stage<V, E>>) {
    forall i | 0 <= i < |stages| :: WellTypedStage(stages[i])
  }

  /** What the job of a stage's handler does to the storage of its result. */
  ghost function Next<V(!new), E(!new)>(s: Stage<V, E>, job: Job<V, E>): (c: Completion<V, E>)
    requires WellTypedStage(s)
    requires if s.OnValues? then !job.CallWithFields? else job.CallWithFields?
    ensures CompletionFits(s.shape, c)
  {
    if job.FailResult? then Fail(job.error) else Complete(CallIt(s, job))
  }

  /** The fields the last future of a chain is finished with, and the callbacks' arguments, in order of call. */
  ghost function RunChain<V(!new), E(!new)>(shape: Shape, f: seq<Field<V, E>>, stages: seq<Stage<V, E>>)
    : (r: (seq<Field<V, E>>, seq<Job<V, E>>))
    requires Fits(shape, f) && WellTyped(stages)
    decreases |stages|
  {
    if stages == [] then (f, [])
    else
      var s := stages[0];
      var job := Handle(KindOf(s), shape, Finished(f));
      var rest := RunChain(s.shape, Meaning(s.shape, Next(s, job)), stages[1..]);
      (rest.0, (if job.FailResult? then [] else [job]) + rest.1)
  }

  /** How ordinary code ends: with values, or with an exception; where it is looked at, one error per field. */
  datatype Evaluation<+V, +E> = Done(values: seq<V>) | Failed(errors: seq<Field<V, E>>)

  /** What a callback's reply is, as the end of a piece of code whose result has the given shape. */
  function EndOf<V, E>(shape: Shape, r: Reply<V, E>): Evaluation<V, E> {
    match r
    case Returns(w) => Done(w)
    case ReturnsExpected(Value(x)) => Done([x])
    case ReturnsExpected(Unit) => Done([])
    case ReturnsExpected(Error(e)) => Failed(FailToExpect(shape, e))
    case Throws(e) => Failed(FailToExpect(shape, e))
  }

  /**
   * The same chain as ordinary code.  A then() is a statement: it runs on the values of the one before, and an
   * exception skips it.  A then_expect() is an exception handler: it runs in any case, and the code goes on with its
   * reply.
   */
  ghost function Evaluate<V(!new), E(!new)>(shape: Shape, o: Evaluation<V, E>, stages: seq<Stage<V, E>>)
    : (r: (Evaluation<V, E>, seq<Job<V, E>>))
    requires o.Done? ==> FitsValues(shape, o.values)
    requires o.Failed? ==> Fits(shape, o.errors) && FirstError(o.errors).Some?
    requires WellTyped(stages)
    decreases |stages|
  {
    if stages == [] then (o, [])
    else
      var s := stages[0];
      match s
      case OnValues(callback, _) =>
        if o.Failed? then
          Evaluate(s.shape, Failed(FailToExpect(s.shape, FirstError(o.errors).value)), stages[1..])
        else
          var next := EndOf(s.shape, callback(o.values));
          EndFits(s.shape, callback(o.values));
          var rest := Evaluate(s.shape, next, stages[1..]);
          (rest.0, [CallWithValues(o.values)] + rest.1)
      case OnFields(callback, _) =>
        var f := if o.Done? then FullfillToFinish(shape, o.values) else o.errors;
        EndFits(s.shape, callback(f));
        var rest := Evaluate(s.shape, EndOf(s.shape, callback(f)), stages[1..]);
        (rest.0, [CallWithFields(f)] + rest.1)
  }

  lemma EndFits<V, E>(shape: Shape, r: Reply<V, E>)
    requires |shape| > 0 && CompletionFits(shape, Complete(r))
    ensures var o := EndOf(shape, r);
            && (o.Done? ==> FitsValues(shape, o.values))
            && (o.Failed? ==> Fits(shape, o.errors) && FirstError(o.errors).Some?)
            && o == Observe(Meaning(shape, Complete(r)))
  {
    match r
    case Returns(w) => ValuesRoundTrip<V, E>(shape, w);
    case ReturnsExpected(f) =>
      SingleField(shape, f);
    case Throws(e) => FirstOfFailure<V, E>(shape, e);
  }

  /** What a consumer reading the final future learns. */
  function Observe<V, E>(f: seq<Field<V, E>>): Evaluation<V, E> {
    if FirstError(f).Some? then Failed(f) else Done(FinishToFullfill(f))
  }

  lemma FirstOfFailure<V, E>(shape: Shape, e: E)
    requires |shape| > 0
    ensures FirstError<V, E>(FailToExpect(shape, e)) == Some(e)
  {
  }

  lemma SingleField<V, E>(shape: Shape, x: Field<V, E>)
    requires Fits(shape, [x])
    ensures x.Error? ==> [x] == FailToExpect(shape, x.error) && FirstError([x]) == Some(x.error)
    ensures !x.Error? ==> Observe([x]) == Done(if x.Unit? then [] else [x.value])
    ensures !x.Error? ==> FitsValues(shape, FinishToFullfill([x]))
  {
    if !x.Error? {
      assert AllValues([x]);
      FieldsRoundTrip(shape, [x]);
      assert FinishToFullfillUpTo([x], 0) == [];
    }
  }

  /** A failed future fails every then() after it with the first of its errors, and no callback runs. */
  lemma {:induction false} FailurePropagates<V(!new), E(!new)>(shape: Shape, f: seq<Field<V, E>>, stages: seq<Stage<V, E>>)
    requires Fits(shape, f) && WellTyped(stages) && FirstError(f).Some?
    requires forall i | 0 <= i < |stages| :: stages[i].OnValues?
    ensures RunChain(shape, f, stages).1 == []
    ensures FirstError(RunChain(shape, f, stages).0) == FirstError(f)
    decreases |stages|
  {
    if stages != [] {
      var s := stages[0];
      FirstOfFailure<V, E>(s.shape, FirstError(f).value);
      FailurePropagates(s.shape, FailToExpect(s.shape, FirstError(f).value), stages[1..]);
    }
  }

  /** The next then_expect() is the first to be called again; after a then() it sees that one error in every field. */
  lemma {:induction false} ErrorReachesHandler<V(!new), E(!new)>(
    shape: Shape, f: seq<Field<V, E>>, stages: seq<Stage<V, E>>, k: nat)
    requires Fits(shape, f) && WellTyped(stages) && FirstError(f).Some?
    requires k < |stages| && stages[k].OnFields? && forall i | 0 <= i < k :: stages[i].OnValues?
    ensures var calls := RunChain(shape, f, stages).1;
            && calls != []
            && calls[0].CallWithFields?
            && if k == 0 then calls[0].fields == f
               else && |calls[0].fields| == |stages[k - 1].shape|
                    && forall i | 0 <= i < |calls[0].fields| :: calls[0].fields[i] == Error(FirstError(f).value)
    decreases |stages|
  {
    var s, e := stages[0], FirstError(f).value;
    if k > 0 {
      FirstOfFailure<V, E>(s.shape, e);
      ErrorReachesHandler(s.shape, FailToExpect(s.shape, e), stages[1..], k - 1);
    }
  }

  /**
   * A chain of then() and then_expect() means what the same code without futures means: the last future is
   * finished with what direct evaluation ends with, values or errors, and exactly the same callbacks run on the same
   * arguments.  An error skips the then()s up to the next then_expect(), which sees it and may recover.
   */
  lemma {:induction false} ChainIsEvaluation<V(!new), E(!new)>(shape: Shape, f: seq<Field<V, E>>, stages: seq<Stage<V, E>>)
    requires Fits(shape, f) && WellTyped(stages)
    ensures Observe(f).Done? ==> FitsValues(shape, Observe(f).values)
    ensures var (fields, calls) := RunChain(shape, f, stages);
            (Observe(fields), calls) == Evaluate(shape, Observe(f), stages)
    decreases |stages|
  {
    var o := Observe(f);
    if o.Done? {
      FieldsRoundTrip(shape, f);
    }
    if stages != [] {
      var s := stages[0];
      var job := Handle(KindOf(s), shape, Finished(f));
      var next := Next(s, job);
      if job.FailResult? {
        FirstOfFailure<V, E>(s.shape, job.error);
      } else {
        EndFits(s.shape, CallIt(s, job));
      }
      ChainIsEvaluation(s.shape, Meaning(s.shape, next), stages[1..]);
      var calls := RunChain(s.shape, Meaning(s.shape, next), stages[1..]).1;
      assert [] + calls == calls;
    }
  }
}
