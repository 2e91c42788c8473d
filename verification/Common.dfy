/** Values shared by every module: optional values and the outcome of a repository call. */
module Common {

  /** A random 128-bit identifier; only its identity matters. */
  type Uuid = nat

  datatype Option<+T> = None | Some(value: T)

  datatype RepositoryError = NotFound | Conflict | InvalidData | Database

  datatype Result<+T> = Ok(value: T) | Err(error: RepositoryError)

  /** SQL's two-argument COALESCE: the first value unless it is NULL. */
  function Coalesce<T>(first: Option<T>, second: Option<T>): Option<T> {
    if first.Some? then first else second
  }

  /** No value occurs at two positions. */
  ghost predicate Distinct<T>(s: seq<T>) {
    forall i, j :: 0 <= i < j < |s| ==> s[i] != s[j]
  }
}
