/**
 * The specialization expected<void, E> (include/nonstd/expected.hpp).  Its swap constructs an error in one
 * object from the other's without destroying the one it moved from, so the lifetime law
 * of the primary template fails here; the contracts say exactly when.
 */
module ExpectedVoid {
  import opened Expected

  /** storage_t<void, E>: holds an error or nothing. */
  datatype VoidSlot<+E> = NoObject | AnError(e: Obj<E>)

  class ExpectedOfVoid<E> {
    var hasValue: bool
    var contained: VoidSlot<E>

    /** An error is alive exactly when has_value_ is false. */
    ghost predicate Valid()
      reads this
    {
      hasValue <==> contained.NoObject?
    }

    constructor OfNothing()
      ensures Valid() && hasValue
    {
      hasValue, contained := true, NoObject;
    }

    constructor OfError(e: Obj<E>, ghost ledger: Ledger)
      modifies ledger
      ensures Valid() && contained == AnError(e) && ledger.live == old(ledger.live) + 1
    {
      hasValue, contained := false, AnError(e);
      new;
      ledger.Record(1);
    }

    constructor CopyOf(other: ExpectedOfVoid<E>, ghost ledger: Ledger)
      requires other.Valid()
      modifies ledger
      ensures Valid() && contained == other.contained && hasValue == other.hasValue
      ensures ledger.live == old(ledger.live) + if other.hasValue then 0 else 1
    {
      hasValue, contained := other.hasValue, NoObject;
      if !other.hasValue {
        contained := AnError(other.contained.e);
      }
      new;
      if !hasValue {
        ledger.Record(1);
      }
    }

    /** ~expected: destroys the error the flag promises, and nothing else. */
    method Destroy(ghost ledger: Ledger)
      requires !hasValue ==> contained.AnError?
      modifies this, ledger
      ensures hasValue == old(hasValue)
      ensures contained == if hasValue then old(contained) else NoObject
      ensures ledger.live == old(ledger.live) - if hasValue then 0 else 1
    {
      if !hasValue {
        contained := NoObject;
        ledger.Record(-1);
      }
    }

    /**
     * The flags are always exchanged, and so are the errors; but both objects keep their lifetimes in order
     * if and only if the flags were equal.  Otherwise the one that now claims a value still holds the
     * moved-from error, and one object more is alive than before.
     */
    method Swap(other: ExpectedOfVoid<E>, ghost ledger: Ledger)
      requires Valid() && other.Valid()
      modifies this, other, ledger
      ensures hasValue == old(other.hasValue) && other.hasValue == old(hasValue)
      ensures !old(other.hasValue) ==> contained == old(other.contained)
      ensures !old(hasValue) ==> other.contained == old(contained)
      ensures Valid() && other.Valid() <==> old(hasValue) == old(other.hasValue)
      ensures old(other.hasValue) && !old(hasValue) ==> contained == AnError(Husk)
      ensures old(hasValue) && !old(other.hasValue) ==> other.contained == AnError(Husk)
      ensures old(hasValue) && old(other.hasValue) ==> contained.NoObject? && other.contained.NoObject?
      ensures ledger.live == old(ledger.live) + if old(hasValue) == old(other.hasValue) then 0 else 1
      decreases !hasValue
    {
      if !hasValue && !other.hasValue {
        var t := contained.e;
        contained := AnError(other.contained.e);
        other.contained := AnError(t);
      } else if hasValue && !other.hasValue {
        contained := AnError(other.contained.e);
        other.contained := AnError(Husk);
        ledger.Record(1);
        hasValue, other.hasValue := other.hasValue, hasValue;
      } else if !hasValue && other.hasValue {
        other.Swap(this, ledger);
      }
    }

    /**
     * operator=(expected const &), copy and swap.  The target ends up with the right flag and error, but
     * an object is leaked exactly when the flags differed; and the target itself is left holding it
     * exactly when an error is overwritten by success.
     */
    method CopyAssign(other: ExpectedOfVoid<E>, ghost ledger: Ledger)
      requires Valid() && other.Valid()
      modifies this, ledger
      ensures hasValue == old(other.hasValue)
      ensures !hasValue ==> contained == old(other.contained)
      ensures Valid() <==> !(!old(hasValue) && old(other.hasValue))
      ensures ledger.live - old(ledger.live) ==
              (if hasValue then 0 else 1) - (if old(hasValue) then 0 else 1) +
              (if old(hasValue) == old(other.hasValue) then 0 else 1)
    {
      var tmp := new ExpectedOfVoid<E>.CopyOf(other, ledger);
      tmp.Swap(this, ledger);
      tmp.Destroy(ledger);
    }
  }

  /** A concrete victim: success assigned over an error leaves one object alive that nothing will destroy. */
  method AssignSuccessOverError<E>(e: E, ghost ledger: Ledger) returns (x: ExpectedOfVoid<E>)
    modifies ledger
    ensures fresh(x) && x.hasValue && !x.Valid()
    ensures ledger.live == old(ledger.live) + 1
  {
    x := new ExpectedOfVoid<E>.OfError(Holds(e), ledger);
    var nothing := new ExpectedOfVoid<E>.OfNothing();
    x.CopyAssign(nothing, ledger);
    nothing.Destroy(ledger);
    x.Destroy(ledger);
  }
}
