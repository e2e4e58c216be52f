/** The parts of the Java language the library leans on: exceptions, null
    references to boxed values, and the fixed-width primitive integer types. */
module Java {

  /** The unchecked exceptions the library throws or lets escape. */
  datatype Exception =
    | NullPointer
    | IllegalArgument
    | NoSuchElement
    | UnsupportedOperation
    | IllegalState

  /** How a Java call ends: it returns a value or throws. */
  datatype Outcome<+T> = Return(value: T) | Throw(exception: Exception)

  /** A reference to a boxed value (`Integer`, `Character`, ...), which may be null. */
  datatype Boxed<+T> = Null | Box(value: T)

  /** The primitive integer types, with their Java ranges. */
  type Byte = x: int | -0x80 <= x < 0x80
  type Short = x: int | -0x8000 <= x < 0x8000
  type Char = x: int | 0 <= x < 0x1_0000
  type Int = x: int | -0x8000_0000 <= x < 0x8000_0000
  type Long = x: int | -0x8000_0000_0000_0000 <= x < 0x8000_0000_0000_0000

  /** `float` and `double` values are only stored and copied by the library,
      never computed with, so they are represented by their bit patterns. */
  type Float = bv32
  type Double = bv64
}
