/** Platform types the core relies on: Kotlin/JVM throwables, the standard
    library's Pair and Triple, and the 32-bit Int with its `inc` and
    `toString`. These are not part of the repository; they are modelled here
    only as far as the core and its scenarios use them. */
module Kotlin {

  /** A JVM throwable, reduced to its class name and message. Java splits
      throwables into exceptions and errors; `Result<V>` only admits the
      former. */
  datatype Throwable =
    | ExceptionThrowable(className: string, message: string)
    | ErrorThrowable(className: string, message: string)

  /** `kotlin.Exception`: the throwables that are exceptions. */
  type Exception = t: Throwable | t.ExceptionThrowable? witness ExceptionThrowable("java.lang.Exception", "")

  /** `kotlin.Pair`, an immutable two-field record. */
  datatype Pair<+A, +B> = Pair(first: A, second: B)

  /** `kotlin.Triple`, an immutable three-field record. */
  datatype Triple<+A, +B, +C> = Triple(first: A, second: B, third: C)

  /** Kotlin's `Int` is a 32-bit two's-complement integer. */
  newtype Int = x: int | -0x8000_0000 <= x < 0x8000_0000

  const IntMax: Int := 0x7fff_ffff
  const IntMin: Int := -0x8000_0000

  /** `Int.inc()`: adds one, wrapping from the largest Int to the smallest. */
  function Inc(x: Int): (r: Int)
    ensures x < IntMax ==> r as int == x as int + 1
    ensures x == IntMax ==> r == IntMin
  {
    if x == IntMax then IntMin else x + 1
  }

  function Digit(d: nat): (c: char)
    requires d < 10
  {
    "0123456789"[d]
  }

  /** Decimal digits of a natural number, most significant first. */
  function NatToString(n: nat): (s: string)
    ensures |s| >= 1
    ensures forall i :: 0 <= i < |s| ==> '0' <= s[i] <= '9'
  {
    if n < 10 then [Digit(n)] else NatToString(n / 10) + [Digit(n % 10)]
  }

  /** `Int.toString()`: an optional minus sign followed by the decimal digits. */
  function IntToString(x: Int): (s: string)
    ensures (x < 0) == (|s| > 0 && s[0] == '-')
  {
    if x < 0 then "-" + NatToString(-(x as int)) else NatToString(x as int)
  }
}
