/** Small shared vocabulary: Java's nullable references and 32-bit ints. */
module Common {

  /** A Java reference that may be null (None), or an optional protobuf field. */
  datatype Option<+T> = None | Some(value: T)

  /** Java's `int`. */
  type Int32 = x: int | -0x8000_0000 <= x < 0x8000_0000

  /** `s == null || s.isEmpty()` on a Java String. */
  predicate Blank(s: Option<string>)
  {
    s.None? || s.value == ""
  }

  /** What Java's string concatenation prints for a possibly-null String. */
  function JavaText(s: Option<string>): string
  {
    match s
    case None => "null"
    case Some(t) => t
  }

  predicate IsHexDigit(c: char)
  {
    '0' <= c <= '9' || 'a' <= c <= 'f'
  }

  /** The text form of `java.util.UUID`: 36 characters, hyphens at 8, 13, 18 and 23, hex digits elsewhere. */
  predicate IsUuidText(u: string)
  {
    && |u| == 36
    && forall k :: 0 <= k < |u| ==>
         if k == 8 || k == 13 || k == 18 || k == 23 then u[k] == '-' else IsHexDigit(u[k])
  }
}
