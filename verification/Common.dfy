/** Result shapes, refusals and small arithmetic shared by the other modules. */
module Common {

  datatype Option<+T> = None | Some(value: T)

  /** A refusal carries the error the caller sees; it never carries a state. */
  datatype Result<+T, +E> = Ok(value: T) | Err(error: E)

  /** Why a slot operation is refused. */
  datatype Error =
    | NotFound | Forbidden | Conflict | InvalidPath | NoFreePath | InvalidLog | WrongSlot
    | CountQuota | SizeQuota
    | NameReserved | NameMalformed | NameTaken | NameNotFound | AlsoKnownAsMismatch
    | InvalidProof | NoLog | InvalidTarget | NotInAcl

  function Min(a: nat, b: nat): nat {
    if a < b then a else b
  }

  /** Subtraction that stops at zero. */
  function SatSub(a: nat, b: nat): nat {
    if a < b then 0 else a - b
  }

  lemma {:induction false} SubsetSize<T>(a: set<T>, b: set<T>)
    requires a <= b
    ensures |a| <= |b|
  {
    if a != {} {
      var x :| x in a;
      SubsetSize(a - {x}, b - {x});
    }
  }
}
