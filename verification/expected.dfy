/**
 * nonstd::expected (include/nonstd/expected.hpp): a bool beside an untagged union whose members are
 * constructed, moved and destroyed by hand.  Members do not throw.
 *
 * Nothing in the running program says which member of the union is alive; Slot records it, and the
 * preconditions of its functions are the lifetime rules of C++.
 */
module Expected {

  /** A living object; a moved-from one is alive but its content is unspecified. */
  datatype Obj<+A> = Holds(content: A) | Husk

  /** detail::storage_t. */
  datatype Slot<+T, +E> = Empty | HasValue(v: Obj<T>) | HasError(e: Obj<E>) {
    function ConstructValue(v: Obj<T>): Slot<T, E>
      requires Empty?
    {
      HasValue(v)
    }

    function ConstructError(e: Obj<E>): Slot<T, E>
      requires Empty?
    {
      HasError(e)
    }

    function DestructValue(): Slot<T, E>
      requires HasValue?
    {
      Empty
    }

    function DestructError(): Slot<T, E>
      requires HasError?
    {
      Empty
    }

    /** What std::move leaves behind once its target has been constructed. */
    function MovedFrom(): Slot<T, E>
      requires !Empty?
    {
      match this
      case HasValue(_) => HasValue(Husk)
      case HasError(_) => HasError(Husk)
    }
  }

  /** The objects of type T and E alive in some region of the program. */
  class Ledger {
    ghost var live: int

    ghost constructor ()
      ensures live == 0
    {
      live := 0;
    }

    ghost method Record(change: int)
      modifies this
      ensures live == old(live) + change
    {
      live := live + change;
    }
  }

  class Expected<T, E> {
    var hasValue: bool
    var contained: Slot<T, E>

    /** The union member named by has_value_ is alive. */
    ghost predicate Valid()
      reads this
    {
      if hasValue then contained.HasValue? else contained.HasError?
    }

    constructor OfValue(v: Obj<T>, ghost ledger: Ledger)
      modifies ledger
      ensures Valid() && contained == HasValue(v) && ledger.live == old(ledger.live) + 1
    {
      hasValue := true;
      contained := Slot<T, E>.Empty.ConstructValue(v);
      new;
      ledger.Record(1);
    }

    constructor OfError(e: Obj<E>, ghost ledger: Ledger)
      modifies ledger
      ensures Valid() && contained == HasError(e) && ledger.live == old(ledger.live) + 1
    {
      hasValue := false;
      contained := Slot<T, E>.Empty.ConstructError(e);
      new;
      ledger.Record(1);
    }

    constructor CopyOf(other: Expected<T, E>, ghost ledger: Ledger)
      requires other.Valid()
      modifies ledger
      ensures Valid() && contained == other.contained && ledger.live == old(ledger.live) + 1
    {
      hasValue := other.hasValue;
      if other.hasValue {
        contained := Slot<T, E>.Empty.ConstructValue(other.contained.v);
      } else {
        contained := Slot<T, E>.Empty.ConstructError(other.contained.e);
      }
      new;
      ledger.Record(1);
    }

    constructor MoveOf(other: Expected<T, E>, ghost ledger: Ledger)
      requires other.Valid()
      modifies other, ledger
      ensures Valid() && other.Valid() && contained == old(other.contained)
      ensures other.contained == old(other.contained).MovedFrom()
      ensures ledger.live == old(ledger.live) + 1
    {
      hasValue := other.hasValue;
      if other.hasValue {
        contained := Slot<T, E>.Empty.ConstructValue(other.contained.v);
      } else {
        contained := Slot<T, E>.Empty.ConstructError(other.contained.e);
      }
      new;
      other.contained := other.contained.MovedFrom();
      ledger.Record(1);
    }

    /** ~expected. */
    method Destroy(ghost ledger: Ledger)
      requires Valid()
      modifies this, ledger
      ensures contained.Empty? && ledger.live == old(ledger.live) - 1
    {
      if hasValue {
        contained := contained.DestructValue();
      } else {
        contained := contained.DestructError();
      }
      ledger.Record(-1);
    }

    /** Exchanges the two states exactly, also when both are the same object. */
    method Swap(other: Expected<T, E>, ghost ledger: Ledger)
      requires Valid() && other.Valid()
      modifies this, other, ledger
      ensures Valid() && other.Valid()
      ensures contained == old(other.contained) && other.contained == old(contained)
      ensures ledger.live == old(ledger.live)
      decreases !hasValue
    {
      if hasValue && other.hasValue {
        var t := contained.v;
        contained := HasValue(other.contained.v);
        other.contained := HasValue(t);
      } else if !hasValue && !other.hasValue {
        var t := contained.e;
        contained := HasError(other.contained.e);
        other.contained := HasError(t);
      } else if hasValue && !other.hasValue {
        var t := other.contained.e;
        other.contained := other.contained.MovedFrom();
        ledger.Record(1);
        other.contained := other.contained.DestructError();
        ledger.Record(-1);
        other.contained := other.contained.ConstructValue(contained.v);
        contained := contained.MovedFrom();
        ledger.Record(1);
        contained := contained.DestructValue();
        ledger.Record(-1);
        contained := contained.ConstructError(t);
        ledger.Record(1);
        hasValue, other.hasValue := other.hasValue, hasValue;
        ledger.Record(-1); // t goes out of scope
      } else {
        other.Swap(this, ledger);
      }
    }

    /** operator=(expected const &). */
    method CopyAssign(other: Expected<T, E>, ghost ledger: Ledger)
      requires Valid() && other.Valid()
      modifies this, ledger
      ensures Valid() && contained == old(other.contained)
      ensures ledger.live == old(ledger.live)
    {
      var tmp := new Expected<T, E>.CopyOf(other, ledger);
      tmp.Swap(this, ledger);
      tmp.Destroy(ledger);
    }

    /** operator=(expected &&); assigning an object to itself changes nothing. */
    method MoveAssign(other: Expected<T, E>, ghost ledger: Ledger)
      requires Valid() && other.Valid()
      modifies this, other, ledger
      ensures Valid() && other.Valid() && contained == old(other.contained)
      ensures this != other ==> other.contained == old(other.contained).MovedFrom()
      ensures ledger.live == old(ledger.live)
    {
      var tmp := new Expected<T, E>.MoveOf(other, ledger);
      tmp.Swap(this, ledger);
      tmp.Destroy(ledger);
    }

    /** operator=(U &&) and emplace(). */
    method AssignValue(v: Obj<T>, ghost ledger: Ledger)
      requires Valid()
      modifies this, ledger
      ensures Valid() && contained == HasValue(v) && ledger.live == old(ledger.live)
    {
      var tmp := new Expected<T, E>.OfValue(v, ledger);
      tmp.Swap(this, ledger);
      tmp.Destroy(ledger);
    }

    /** operator=(unexpected_type). */
    method AssignError(e: Obj<E>, ghost ledger: Ledger)
      requires Valid()
      modifies this, ledger
      ensures Valid() && contained == HasError(e) && ledger.live == old(ledger.live)
    {
      var tmp := new Expected<T, E>.OfError(e, ledger);
      tmp.Swap(this, ledger);
      tmp.Destroy(ledger);
    }
  }

  // ---- Whole programs ----

  datatype Command<T, E> =
    | NewValue(id: nat, v: T) | NewError(id: nat, e: E)
    | NewCopy(id: nat, from: nat) | NewMove(id: nat, from: nat)
    | CopyAssign(id: nat, from: nat) | MoveAssign(id: nat, from: nat)
    | SetValue(id: nat, v: T) | SetError(id: nat, e: E)
    | Swap(id: nat, from: nat)
    | Delete(id: nat)

  /** The names in scope and what each one contains. */
  type Contents<T, E> = map<nat, Slot<T, E>>

  predicate AllAlive<T, E>(m: Contents<T, E>) {
    forall i | i in m :: !m[i].Empty?
  }

  predicate Legal<T, E>(m: Contents<T, E>, c: Command<T, E>) {
    match c
    case NewValue(i, _) => i !in m
    case NewError(i, _) => i !in m
    case NewCopy(i, j) => i !in m && j in m
    case NewMove(i, j) => i !in m && j in m
    case CopyAssign(i, j) => i in m && j in m
    case MoveAssign(i, j) => i in m && j in m
    case SetValue(i, _) => i in m
    case SetError(i, _) => i in m
    case Swap(i, j) => i in m && j in m
    case Delete(i) => i in m
  }

  /** Value semantics: what each command means if an expected were a plain sum type. */
  function Apply<T, E>(m: Contents<T, E>, c: Command<T, E>): Contents<T, E>
    requires Legal(m, c) && AllAlive(m)
  {
    match c
    case NewValue(i, v) => m[i := HasValue(Holds(v))]
    case NewError(i, e) => m[i := HasError(Holds(e))]
    case NewCopy(i, j) => m[i := m[j]]
    case NewMove(i, j) => m[i := m[j]][j := m[j].MovedFrom()]
    case CopyAssign(i, j) => m[i := m[j]]
    case MoveAssign(i, j) => m[j := m[j].MovedFrom()][i := m[j]]
    case SetValue(i, v) => m[i := HasValue(Holds(v))]
    case SetError(i, e) => m[i := HasError(Holds(e))]
    case Swap(i, j) => m[i := m[j]][j := m[i]]
    case Delete(i) => m - {i}
  }

  lemma ApplyKeepsAlive<T, E>(m: Contents<T, E>, c: Command<T, E>)
    requires Legal(m, c) && AllAlive(m)
    ensures AllAlive(Apply(m, c))
  {
  }

  ghost predicate LegalProgram<T, E>(m: Contents<T, E>, program: seq<Command<T, E>>)
    requires AllAlive(m)
    decreases |program|
  {
    program == [] ||
    (Legal(m, program[0]) && (ApplyKeepsAlive(m, program[0]); LegalProgram(Apply(m, program[0]), program[1..])))
  }

  ghost function Outcome<T, E>(m: Contents<T, E>, program: seq<Command<T, E>>): Contents<T, E>
    requires AllAlive(m) && LegalProgram(m, program)
    decreases |program|
  {
    if program == [] then m
    else ApplyKeepsAlive(m, program[0]); Outcome(Apply(m, program[0]), program[1..])
  }

  type Objects<T(!new), E(!new)> = map<nat, Expected<T, E>>

  /** The objects in scope are distinct, each keeps the member named by its flag alive, and they contain m. */
  ghost predicate Represents<T(!new), E(!new)>(objects: Objects<T, E>, m: Contents<T, E>)
    reads objects.Values
  {
    && objects.Keys == m.Keys
    && (forall i | i in objects :: objects[i].Valid() && objects[i].contained == m[i])
    && (forall i, j | i in objects && j in objects && i != j :: objects[i] != objects[j])
  }

  predicate Declares<T, E>(c: Command<T, E>) {
    c.NewValue? || c.NewError? || c.NewCopy? || c.NewMove?
  }

  method Declare<T(!new), E(!new)>(objects: Objects<T, E>, c: Command<T, E>, ghost m: Contents<T, E>, ghost ledger: Ledger)
    returns (after: Objects<T, E>)
    requires Represents(objects, m) && AllAlive(m) && Legal(m, c) && Declares(c) && !c.NewMove?
    modifies ledger
    ensures Represents(after, Apply(m, c))
    ensures fresh(after.Values - objects.Values)
    ensures ledger.live - old(ledger.live) == |after| - |objects|
  {
    var x: Expected<T, E>;
    if c.NewValue? {
      x := new Expected<T, E>.OfValue(Holds(c.v), ledger);
    } else if c.NewError? {
      x := new Expected<T, E>.OfError(Holds(c.e), ledger);
    } else {
      x := new Expected<T, E>.CopyOf(objects[c.from], ledger);
    }
    after := objects[c.id := x];
  }

  method DeclareMoved<T(!new), E(!new)>(objects: Objects<T, E>, c: Command<T, E>, ghost m: Contents<T, E>, ghost ledger: Ledger)
    returns (after: Objects<T, E>)
    requires Represents(objects, m) && AllAlive(m) && Legal(m, c) && c.NewMove?
    modifies objects.Values, ledger
    ensures Represents(after, Apply(m, c))
    ensures fresh(after.Values - objects.Values)
    ensures ledger.live - old(ledger.live) == |after| - |objects|
  {
    var x := new Expected<T, E>.MoveOf(objects[c.from], ledger);
    after := objects[c.id := x];
  }

  method Undeclare<T(!new), E(!new)>(objects: Objects<T, E>, id: nat, ghost m: Contents<T, E>, ghost ledger: Ledger)
    returns (after: Objects<T, E>)
    requires Represents(objects, m) && id in m
    modifies objects.Values, ledger
    ensures Represents(after, m - {id})
    ensures after.Values <= objects.Values
    ensures ledger.live - old(ledger.live) == |after| - |objects|
  {
    objects[id].Destroy(ledger);
    after := objects - {id};
    assert objects.Keys == after.Keys + {id};
  }

  /** One command, carried out on the objects by the member functions above. */
  method ExecuteOne<T(!new), E(!new)>(objects: Objects<T, E>, c: Command<T, E>, ghost m: Contents<T, E>, ghost ledger: Ledger)
    returns (after: Objects<T, E>)
    requires Represents(objects, m) && AllAlive(m) && Legal(m, c)
    modifies objects.Values, ledger
    ensures Represents(after, Apply(m, c))
    ensures fresh(after.Values - objects.Values)
    ensures ledger.live - old(ledger.live) == |after| - |objects|
  {
    hide Represents;
    after := objects;
    if Declares(c) {
      if c.NewMove? {
        after := DeclareMoved(objects, c, m, ledger);
      } else {
        after := Declare(objects, c, m, ledger);
      }
      return;
    }
    if c.Delete? {
      after := Undeclare(objects, c.id, m, ledger);
      return;
    }
    Change(objects, c, m, ledger);
  }

  method Change<T(!new), E(!new)>(objects: Objects<T, E>, c: Command<T, E>, ghost m: Contents<T, E>, ghost ledger: Ledger)
    requires Represents(objects, m) && AllAlive(m) && Legal(m, c) && !Declares(c) && !c.Delete?
    modifies objects.Values, ledger
    ensures Represents(objects, Apply(m, c))
    ensures ledger.live == old(ledger.live)
  {
    var x := objects[c.id];
    match c
    case CopyAssign(_, j) => x.CopyAssign(objects[j], ledger);
    case MoveAssign(_, j) => x.MoveAssign(objects[j], ledger);
    case SetValue(_, v) => x.AssignValue(Holds(v), ledger);
    case SetError(_, e) => x.AssignError(Holds(e), ledger);
    case Swap(_, j) => x.Swap(objects[j], ledger);
  }

  /**
   * Any legal program behaves as on plain values.  No union member is ever constructed over a living
   * one or destroyed when dead, and it leaves behind exactly one living object per expected still in scope.
   */
  method Execute<T(!new), E(!new)>(program: seq<Command<T, E>>, ghost ledger: Ledger) returns (objects: Objects<T, E>)
    requires LegalProgram<T, E>(map[], program)
    modifies ledger
    ensures Represents(objects, Outcome<T, E>(map[], program))
    ensures fresh(objects.Values)
    ensures ledger.live - old(ledger.live) == |objects|
  {
    objects := map[];
    ghost var m: Contents<T, E> := map[];
    for k := 0 to |program|
      invariant AllAlive(m) && LegalProgram(m, program[k..])
      invariant Outcome(m, program[k..]) == Outcome<T, E>(map[], program)
      invariant Represents(objects, m)
      invariant fresh(objects.Values)
      invariant ledger.live - old(ledger.live) == |objects|
    {
      ApplyKeepsAlive(m, program[k]);
      assert program[k..][0] == program[k] && program[k..][1..] == program[k + 1..];
      objects := ExecuteOne(objects, program[k], m, ledger);
      m := Apply(m, program[k]);
    }
  }
}
