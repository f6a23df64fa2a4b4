/** `cobalt.vortex.type`: a closed two-case union and its `Result` reading,
    where the left side carries an exception and the right side a success
    value. */
module EitherType {
  import opened Kotlin

  /** The sealed class `Either<A, B>` with its only two subclasses. Payloads are
      immutable: a datatype value cannot be updated after construction. */
  datatype Either<+A, +B> = Left(left: A) | Right(right: B)

  /** `Result<V>`: an `Either` whose left side is an exception. */
  type Result<+V> = Either<Exception, V>

  /** `Success(v)`: a `Right` holding `v`. */
  function Success<V>(v: V): (r: Result<V>)
    ensures r.Right? && !r.Left? && r.right == v
  {
    Right(v)
  }

  /** `Failure(e)`: a `Left` holding `e`. */
  function Failure<V>(e: Exception): (r: Result<V>)
    ensures r.Left? && !r.Right? && r.left == e
  {
    Left(e)
  }

  /** The union is closed: every value is exactly one of the two cases. */
  lemma ExactlyOneCase<A, B>(x: Either<A, B>)
    ensures x.Left? != x.Right?
  {
  }
}
