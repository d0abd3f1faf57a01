/**
 * join() (include/var_future/impl/join.h): n futures finish in n threads; each writes its own landing
 * slot and increments a shared counter, and whoever brings it to n finishes the joined future.
 */
module Join {
  import opened Wrappers

  /** A thread has not run its callback yet; has written its slot; found itself last; is through. */
  datatype Progress = Waiting | Written | Last | Through

  datatype Landing<+R> = Landing(
    slots: seq<Option<R>>,               // landing_, by argument position
    count: nat,                          // fullfilled_
    threads: seq<Progress>,
    finishes: seq<seq<Option<R>>>)       // the tuples dst_->finish() was called with

  datatype Event = Write(id: nat) | Ping(id: nat) | Finish(id: nat)

  function Init<R>(n: nat): Landing<R> {
    Landing(seq(n, _ => None), 0, seq(n, _ => Waiting), [])
  }

  predicate Enabled<R>(s: Landing<R>, e: Event) {
    && e.id < |s.threads|
    && match e
       case Write(i) => s.threads[i].Waiting?
       case Ping(i) => s.threads[i].Written?
       case Finish(i) => s.threads[i].Last?
  }

  /** results[i] is what the i-th future is finished with. */
  function Step<R>(results: seq<R>, s: Landing<R>, e: Event): Landing<R>
    requires |results| == |s.slots| == |s.threads| && Enabled(s, e)
  {
    match e
    case Write(i) =>
      s.(slots := s.slots[i := Some(results[i])], threads := s.threads[i := Written])
    case Ping(i) =>
      s.(count := s.count + 1,
         threads := s.threads[i := if s.count + 1 == |results| then Last else Through])
    case Finish(i) =>
      s.(finishes := s.finishes + [s.slots], threads := s.threads[i := Through])
  }

  // ---- Counting threads ----

  predicate HasPinged(p: Progress) {
    p.Last? || p.Through?
  }

  function PingedAmong(threads: seq<Progress>): nat {
    if threads == [] then 0
    else (if HasPinged(threads[0]) then 1 else 0) + PingedAmong(threads[1..])
  }

  function LastAmong(threads: seq<Progress>): nat {
    if threads == [] then 0
    else (if threads[0].Last? then 1 else 0) + LastAmong(threads[1..])
  }

  lemma {:induction false} CountsAfterUpdate(threads: seq<Progress>, i: nat, p: Progress)
    requires i < |threads|
    ensures PingedAmong(threads[i := p]) ==
            PingedAmong(threads) - (if HasPinged(threads[i]) then 1 else 0) + (if HasPinged(p) then 1 else 0)
    ensures LastAmong(threads[i := p]) ==
            LastAmong(threads) - (if threads[i].Last? then 1 else 0) + (if p.Last? then 1 else 0)
  {
    if i == 0 {
      assert threads[i := p][1..] == threads[1..];
    } else {
      assert threads[i := p][1..] == threads[1..][i - 1 := p];
      CountsAfterUpdate(threads[1..], i - 1, p);
    }
  }

  lemma {:induction false} PingedBound(threads: seq<Progress>)
    ensures PingedAmong(threads) <= |threads|
    ensures PingedAmong(threads) == |threads| <==> forall i | 0 <= i < |threads| :: HasPinged(threads[i])
  {
    if threads != [] {
      PingedBound(threads[1..]);
      assert forall i | 0 < i < |threads| :: threads[i] == threads[1..][i - 1];
      if forall i | 0 <= i < |threads[1..]| :: HasPinged(threads[1..][i]) {
        assert HasPinged(threads[0]) ==> forall i | 0 <= i < |threads| :: HasPinged(threads[i]);
      }
    }
  }

  lemma {:induction false} LastBound(threads: seq<Progress>)
    ensures LastAmong(threads) == 0 <==> forall i | 0 <= i < |threads| :: !threads[i].Last?
  {
    if threads != [] {
      LastBound(threads[1..]);
      assert forall i | 0 < i < |threads| :: threads[i] == threads[1..][i - 1];
      if forall i | 0 <= i < |threads[1..]| :: !threads[1..][i].Last? {
        assert !threads[0].Last? ==> forall i | 0 <= i < |threads| :: !threads[i].Last?;
      }
    }
  }

  // ---- The invariant ----

  function AllSome<R>(results: seq<R>): seq<Option<R>> {
    seq(|results|, i requires 0 <= i < |results| => Some(results[i]))
  }

  ghost predicate Inv<R>(results: seq<R>, s: Landing<R>) {
    && |results| == |s.slots| == |s.threads|
    && (forall i | 0 <= i < |s.slots| :: s.slots[i] == if s.threads[i].Waiting? then None else Some(results[i]))
    && s.count == PingedAmong(s.threads)
    && |s.finishes| + LastAmong(s.threads) == (if s.count == |results| then 1 else 0)
    && forall f | f in s.finishes :: f == AllSome(results)
  }

  lemma {:induction false} NobodyYet(n: nat)
    ensures PingedAmong(seq(n, _ => Waiting)) == LastAmong(seq(n, _ => Waiting)) == 0
  {
    if n > 0 {
      assert seq(n, _ => Waiting)[1..] == seq(n - 1, _ => Waiting);
      NobodyYet(n - 1);
    }
  }

  lemma InitInv<R>(results: seq<R>)
    requires results != []
    ensures Inv(results, Init(|results|))
  {
    NobodyYet(|results|);
  }

  lemma StepKeepsInv<R>(results: seq<R>, s: Landing<R>, e: Event)
    requires results != [] && Inv(results, s) && Enabled(s, e)
    ensures Inv(results, Step(results, s, e))
  {
    var t := Step(results, s, e);
    CountsAfterUpdate(s.threads, e.id, t.threads[e.id]);
    PingedBound(s.threads);
    PingedBound(t.threads);
    LastBound(s.threads);
    if e.Finish? {
      assert HasPinged(s.threads[e.id]);
      assert s.slots == AllSome(results) by {
        forall i | 0 <= i < |results| ensures s.slots[i] == Some(results[i]) {
          assert HasPinged(s.threads[i]);
        }
      }
    }
  }

  // ---- Runs ----

  ghost predicate ValidRun<R>(results: seq<R>, s: Landing<R>, es: seq<Event>)
    requires |results| == |s.slots| == |s.threads|
    decreases |es|
  {
    es == [] || (Enabled(s, es[0]) && ValidRun(results, Step(results, s, es[0]), es[1..]))
  }

  ghost function Run<R>(results: seq<R>, s: Landing<R>, es: seq<Event>): Landing<R>
    requires |results| == |s.slots| == |s.threads| && ValidRun(results, s, es)
    decreases |es|
  {
    if es == [] then s else Run(results, Step(results, s, es[0]), es[1..])
  }

  lemma {:induction false} RunKeepsInv<R>(results: seq<R>, s: Landing<R>, es: seq<Event>)
    requires results != [] && Inv(results, s) && ValidRun(results, s, es)
    ensures Inv(results, Run(results, s, es))
    decreases |es|
  {
    if es != [] {
      StepKeepsInv(results, s, es[0]);
      RunKeepsInv(results, Step(results, s, es[0]), es[1..]);
    }
  }

  /**
   * However the n threads interleave, the joined future is finished at most once, with every input's
   * result in argument order; and exactly once by the time all of them are through.
   */
  lemma JoinedOnceInOrder<R>(results: seq<R>, es: seq<Event>)
    requires results != [] && ValidRun(results, Init(|results|), es)
    ensures var t := Run(results, Init(|results|), es);
            && (t.finishes == [] || t.finishes == [AllSome(results)])
            && ((forall i | 0 <= i < |t.threads| :: t.threads[i].Through?) ==> t.finishes == [AllSome(results)])
  {
    InitInv(results);
    RunKeepsInv(results, Init(|results|), es);
    var t := Run(results, Init(|results|), es);
    PingedBound(t.threads);
    LastBound(t.threads);
    if t.finishes != [] {
      assert t.finishes == [t.finishes[0]] && t.finishes[0] in t.finishes;
    }
  }

  /** The joined future is never finished while some input is still outstanding. */
  lemma NeverEarly<R>(results: seq<R>, es: seq<Event>, i: nat)
    requires i < |results| && ValidRun(results, Init(|results|), es)
    requires Run(results, Init(|results|), es).finishes != []
    ensures |Run(results, Init(|results|), es).threads| == |results|
    ensures HasPinged(Run(results, Init(|results|), es).threads[i])
  {
    InitInv(results);
    RunKeepsInv(results, Init(|results|), es);
    PingedBound(Run(results, Init(|results|), es).threads);
  }

  /** Every thread that is not through can take a step, whatever the others do. */
  lemma NobodyWaits<R>(results: seq<R>, s: Landing<R>, i: nat)
    requires i < |results| && Inv(results, s) && !s.threads[i].Through?
    ensures exists e: Event :: e.id == i && Enabled(s, e)
  {
    var e := match s.threads[i]
      case Waiting => Write(i)
      case Written => Ping(i)
      case _ => Finish(i);
    assert e.id == i && Enabled(s, e);
  }

  function WrittenAmong(threads: seq<Progress>): nat {
    if threads == [] then 0
    else (if threads[0].Waiting? then 0 else 1) + WrittenAmong(threads[1..])
  }

  lemma {:induction false} WrittenAfterUpdate(threads: seq<Progress>, i: nat, p: Progress)
    requires i < |threads|
    ensures WrittenAmong(threads[i := p]) ==
            WrittenAmong(threads) - (if threads[i].Waiting? then 0 else 1) + (if p.Waiting? then 0 else 1)
  {
    if i == 0 {
      assert threads[i := p][1..] == threads[1..];
    } else {
      assert threads[i := p][1..] == threads[1..][i - 1 := p];
      WrittenAfterUpdate(threads[1..], i - 1, p);
    }
  }

  lemma {:induction false} AllWritten(threads: seq<Progress>)
    ensures WrittenAmong(threads) <= |threads|
    ensures (forall i | 0 <= i < |threads| :: !threads[i].Waiting?) ==> WrittenAmong(threads) == |threads|
    ensures (forall i | 0 <= i < |threads| :: threads[i].Waiting?) ==> WrittenAmong(threads) == 0
  {
    if threads != [] {
      AllWritten(threads[1..]);
    }
  }

  lemma {:induction false} StepsAreCounted<R>(results: seq<R>, s: Landing<R>, es: seq<Event>)
    requires results != [] && Inv(results, s) && ValidRun(results, s, es)
    ensures var t := Run(results, s, es);
            WrittenAmong(t.threads) + t.count + |t.finishes| == WrittenAmong(s.threads) + s.count + |s.finishes| + |es|
    decreases |es|
  {
    if es != [] {
      var s' := Step(results, s, es[0]);
      StepKeepsInv(results, s, es[0]);
      WrittenAfterUpdate(s.threads, es[0].id, s'.threads[es[0].id]);
      StepsAreCounted(results, s', es[1..]);
    }
  }

  ghost predicate Finished<R>(results: seq<R>, s: Landing<R>) {
    |s.threads| == |results| && forall i | 0 <= i < |results| :: s.threads[i].Through?
  }

  lemma FinishedMeans<R>(results: seq<R>, s: Landing<R>)
    requires results != [] && Inv(results, s) && Finished(results, s)
    ensures WrittenAmong(s.threads) + s.count + |s.finishes| == 2 * |results| + 1
    ensures s.finishes == [AllSome(results)]
  {
    AllWritten(s.threads);
    PingedBound(s.threads);
    LastBound(s.threads);
    assert s.finishes == [s.finishes[0]] && s.finishes[0] in s.finishes;
  }

  lemma StuckMeansFinished<R>(results: seq<R>, s: Landing<R>)
    requires Inv(results, s) && forall e :: !Enabled(s, e)
    ensures Finished(results, s)
  {
    forall i | 0 <= i < |results| ensures s.threads[i].Through? {
      if !s.threads[i].Through? {
        NobodyWaits(results, s, i);
      }
    }
  }

  /**
   * Every run ends: n threads take at most two steps each and one more to finish the joined future, and a run that
   * cannot continue has taken them all, so the joined future is finished.
   */
  lemma EveryRunFinishes<R>(results: seq<R>, es: seq<Event>)
    requires results != [] && ValidRun(results, Init(|results|), es)
    ensures |es| <= 2 * |results| + 1
    ensures var t := Run(results, Init(|results|), es);
            (forall e :: !Enabled(t, e)) ==> |es| == 2 * |results| + 1 && t.finishes == [AllSome(results)]
  {
    hide Inv, Enabled;
    InitInv(results);
    RunKeepsInv(results, Init(|results|), es);
    StepsAreCounted(results, Init(|results|), es);
    AllWritten(Init<R>(|results|).threads);
    RunBound(results, Run(results, Init(|results|), es));
  }

  lemma RunBound<R>(results: seq<R>, t: Landing<R>)
    requires results != [] && Inv(results, t)
    ensures WrittenAmong(t.threads) + t.count + |t.finishes| <= 2 * |results| + 1
    ensures (forall e :: !Enabled(t, e)) ==>
              WrittenAmong(t.threads) + t.count + |t.finishes| == 2 * |results| + 1 && t.finishes == [AllSome(results)]
  {
    AllWritten(t.threads);
    PingedBound(t.threads);
    if forall e :: !Enabled(t, e) {
      StuckMeansFinished(results, t);
      FinishedMeans(results, t);
    }
  }

  /** Whatever has happened so far, the threads can all get through. */
  lemma {:induction false} CanFinish<R>(results: seq<R>, s: Landing<R>) returns (es: seq<Event>)
    requires results != [] && Inv(results, s)
    ensures ValidRun(results, s, es) && Finished(results, Run(results, s, es))
    decreases 2 * |results| + 1 - WrittenAmong(s.threads) - s.count - |s.finishes|
  {
    if Finished(results, s) {
      es := [];
    } else {
      var i :| 0 <= i < |results| && !s.threads[i].Through?;
      NobodyWaits(results, s, i);
      var e: Event :| e.id == i && Enabled(s, e);
      var t := Step(results, s, e);
      StepKeepsInv(results, s, e);
      WrittenAfterUpdate(s.threads, i, t.threads[i]);
      RunBound(results, t);
      var rest := CanFinish(results, t);
      es := [e] + rest;
      assert es[1..] == rest;
    }
  }
}
