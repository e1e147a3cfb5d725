/** Shared value types: optional values and the error type of the database layer. */
module Collections {

  datatype Option<+T> = None | Some(value: T)

  /** The errors a query function can return, after `DatabaseError`. */
  datatype DbError =
    | NotFound(what: string)
    | AlreadyExists(what: string)
    | ConstraintViolation(what: string) // a foreign key, CHECK or range error raised by the database
    | TypeMismatch                      // DatabaseTypeError

  /** What a query function returns; `:-` propagates the error, which rolls back. */
  datatype Result<+T> = Success(value: T) | Failure(error: DbError) {
    predicate IsFailure() {
      Failure?
    }

    function PropagateFailure<U>(): Result<U> {
      match this
      case Failure(e) => Failure(e)
      case Success(_) => Failure(TypeMismatch)
    }

    function Extract(): T
      requires Success?
    {
      value
    }
  }

  predicate NoDuplicates<T(==)>(s: seq<T>) {
    forall i, j :: 0 <= i < j < |s| ==> s[i] != s[j]
  }

  function Elements<T>(s: seq<T>): set<T> {
    set x | x in s
  }

  /** A sequence is as long as the set of its elements exactly when nothing repeats:
      this is what comparing `rows.len()` with the number of requested ids tests. */
  lemma {:induction false} DistinctLength<T>(s: seq<T>)
    ensures |Elements(s)| <= |s|
    ensures |Elements(s)| == |s| <==> NoDuplicates(s)
  {
    if s != [] {
      var tail := s[1..];
      DistinctLength(tail);
      assert s == [s[0]] + tail;
      assert Elements(s) == Elements(tail) + {s[0]};
      if s[0] in tail {
        var i :| 0 <= i < |tail| && tail[i] == s[0];
        assert s[0] == s[i + 1];
      } else if !NoDuplicates(tail) {
        var i, j :| 0 <= i < j < |tail| && tail[i] == tail[j];
        assert s[i + 1] == s[j + 1];
      }
    }
  }

  lemma ElementsAppend<T>(s: seq<T>, x: T)
    ensures Elements(s + [x]) == Elements(s) + {x}
  {
  }

  lemma SubsetCardinality<T>(a: set<T>, b: set<T>)
    requires a <= b
    ensures |a| <= |b|
  {
    assert b == a + (b - a);
  }
}
