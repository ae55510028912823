/** Values of the Java runtime that the rest of the model needs. */
module Java {

  /** A nullable reference: None is Java's null. */
  datatype Option<+T> = None | Some(value: T)

  /** A java.lang.String reference, which may be null. */
  type JString = Option<string>

  /** The text that Java's string concatenation `"..." + s` appends for s:
      the string itself, or the four letters "null" for a null reference. */
  function Str(s: JString): string
  {
    match s
    case None => "null"
    case Some(text) => text
  }

  /** The number of UTF-16 code units Java's String.length() counts for s: one per
      character, and two (a surrogate pair) for a character above U+FFFF. */
  function Utf16Length(s: string): (n: nat)
    ensures n >= |s|
    ensures n == 0 <==> s == []
  {
    if s == [] then 0
    else (if s[0] as int > 0xFFFF then 2 else 1) + Utf16Length(s[1..])
  }

  /** For text without characters above U+FFFF (ASCII, say) the two lengths agree. */
  lemma {:induction false} Utf16LengthOfBasicPlane(s: string)
    requires forall i :: 0 <= i < |s| ==> s[i] as int <= 0xFFFF
    ensures Utf16Length(s) == |s|
  {
    if s != [] {
      Utf16LengthOfBasicPlane(s[1..]);
    }
  }

  /** A Java float, kept as its IEEE 754 bit pattern. The client only copies
      confidences from response to result, so no arithmetic is defined. */
  datatype Float32 = Float32(bits: bv32)

  /** The default value of a float field: positive zero. */
  const FloatZero := Float32(0)
}
