/** Values shared by the employee API: Java's nullable references and the JDK value types. */
module Common {
  /** A Java reference or boxed value that may be null. */
  datatype Option<T> = None | Some(value: T)

  /** A `java.time.Instant`, as a count of time units on one totally ordered axis. */
  type Instant = int

  /** A `java.util.UUID`: 128 bits. */
  type UUID = n: nat | n < 0x1_0000_0000_0000_0000_0000_0000_0000_0000

  /** A Java `int` (what an `Integer` unboxes to). */
  type Int32 = n: int | -0x8000_0000 <= n < 0x8000_0000
}
