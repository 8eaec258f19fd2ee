/** Option and Result values, and the exceptions of the Python code as data. */
module Wrappers {

  datatype Option<+T> = None | Some(value: T)

  /** The exceptions the original program raises, named after their Python classes.
      `DatabaseError` stands for any failure reported by the database driver. */
  datatype Error =
    | AssertionError
    | ValueError
    | KeyError
    | TypeError
    | NameError
    | FileNotFoundError
    | SameFileError
    | DatabaseError

  /** Either a value or the exception that interrupted the computation. */
  datatype Result<+T> = Ok(value: T) | Err(error: Error)

  /** A non-empty set of ids has a member (what a `for` over a Python set draws next). */
  lemma NonEmptyHasMember(s: set<int>)
    requires s != {}
    ensures exists x :: x in s
  {
    if forall x :: x !in s {
      assert false;
    }
  }
}
