/** Values shared by every part of the store model: optional values for
    Java's nullable references, the typed errors the services raise, and
    identifiers. */
module Common {

  /** A database identity (a Java `Long`). */
  type Id = int

  /** A timestamp handed in by the caller in place of `LocalDateTime.now()`. */
  type Time = int

  /** A nullable reference: `None` is Java's `null`. */
  datatype Option<+T> = None | Some(value: T)

  /** The table (or lookup) an error is about. */
  datatype Table =
    | Products
    | Users
    | Emails
    | Categories
    | FeatureKeys
    | Images
    | Files
    | RolesTable

  /** The exceptions the services throw: `NotFoundException` and
      `AlreadyExistException`. */
  datatype Error = NotFound(table: Table) | AlreadyExists(table: Table)

  /** A service call either returns a value or throws one of the errors. */
  datatype Result<+T> = Ok(value: T) | Err(error: Error) {

    predicate IsFailure() {
      Err?
    }

    function PropagateFailure<U>(): Result<U>
      requires Err?
    {
      Err(error)
    }

    function Extract(): T
      requires Ok?
    {
      value
    }
  }

  /** The set of the elements of a list of ids. */
  function Elems(xs: seq<Id>): set<Id> {
    set k | 0 <= k < |xs| :: xs[k]
  }

  /** Every id of the list is present in the table. */
  predicate AllIn(xs: seq<Id>, table: set<Id>) {
    forall k :: 0 <= k < |xs| ==> xs[k] in table
  }

  /** A non-empty set has an element to pick. */
  lemma NonEmptyHasElement<T>(s: set<T>) returns (x: T)
    requires s != {}
    ensures x in s
  {
    if forall y :: y !in s {
      assert false;
    }
    x :| x in s;
  }
}
