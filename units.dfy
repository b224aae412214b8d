/** Code units, text and the two failure-carrying wrappers used throughout the model. */
module Units {

  /** A UTF-16 code unit: the element of a JavaScript string, as returned by `charCodeAt`. */
  type CodeUnit = u: int | 0 <= u < 0x1_0000

  /** A JavaScript string as its sequence of code units. */
  type Text = seq<CodeUnit>

  datatype Option<+T> = None | Some(value: T)

  datatype Result<+T, +E> = Ok(value: T) | Err(error: E)

  /** The code units of a literal written in the Basic Multilingual Plane. */
  function Lit(s: string): Text
    requires forall i :: 0 <= i < |s| ==> s[i] as int < 0x1_0000
  {
    seq(|s|, i requires 0 <= i < |s| => s[i] as int)
  }

  // Delimiters of the wire format.
  const NUL: CodeUnit := 0
  const QUOTE: CodeUnit := '"' as int
  const COLON: CodeUnit := ':' as int
  const SEMICOLON: CodeUnit := ';' as int
  const CLOSE_BRACE: CodeUnit := '}' as int
  const STAR: CodeUnit := '*' as int
  const MINUS: CodeUnit := '-' as int
  const PLUS: CodeUnit := '+' as int
  const DIGIT_ZERO: CodeUnit := '0' as int
  const DIGIT_ONE: CodeUnit := '1' as int

  // Type tags of values and keys.
  const TAG_INT: CodeUnit := 'i' as int
  const TAG_FLOAT: CodeUnit := 'd' as int
  const TAG_BOOL: CodeUnit := 'b' as int
  const TAG_STRING: CodeUnit := 's' as int
  const TAG_ESCAPED_STRING: CodeUnit := 'E' as int
  const TAG_ARRAY: CodeUnit := 'a' as int
  const TAG_OBJECT: CodeUnit := 'O' as int
  const TAG_CUSTOM: CodeUnit := 'C' as int
  const TAG_REF_VALUE: CodeUnit := 'r' as int
  const TAG_REF: CodeUnit := 'R' as int
  const TAG_NULL: CodeUnit := 'N' as int

  predicate IsDigit(u: CodeUnit) {
    DIGIT_ZERO <= u <= DIGIT_ZERO + 9
  }

  predicate AllDigits(t: Text) {
    forall i :: 0 <= i < |t| ==> IsDigit(t[i])
  }
}
