/** Values shared by every layer of the catalog: optional values, the
    exceptions that cross layer boundaries, and the width of a Java `int`. */
module Basics {

  datatype Option<T> = None | Some(value: T)

  /** The exceptions the catalog code lets escape: `SQLException` from the
      JDBC driver, and `IllegalArgumentException` from `Role.valueOf` on a
      role column that names no role. */
  datatype Error = SqlException | IllegalArgument

  /** A call that returns a value or throws. */
  datatype Result<T> = Ok(value: T) | Err(error: Error)

  /** A `void` call that returns normally or throws. */
  datatype Status = Done | Failed(error: Error)

  const IntMin: int := -0x8000_0000
  const IntMax: int := 0x7fff_ffff

  /** The values a Java `int` can hold. */
  predicate InIntRange(n: int) {
    IntMin <= n <= IntMax
  }
}
