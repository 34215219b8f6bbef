/**
 * The decoded JSON body of a request, reduced to what the route handlers test:
 * whether a property is missing, a string, or some other JSON value.
 */
module RequestBody {
  import Text

  datatype Field = Absent | Str(value: string) | NonString

  /**
   * `!f || typeof f !== 'string' || f.trim() === ''`: the field is missing or falsy,
   * not a string, or white space only.
   */
  predicate Blank(f: Field): (b: bool)
    ensures b <==> !f.Str? || Text.Trim(f.value) == ""
  {
    !f.Str? || f.value == "" || Text.Trim(f.value) == ""
  }

  /** A field passes the guard exactly when it is a string with a non-space character. */
  lemma BlankIff(f: Field)
    ensures !Blank(f) <==> f.Str? && exists i :: 0 <= i < |f.value| && !Text.IsSpace(f.value[i])
  {
    if f.Str? {
      Text.TrimBlank(f.value);
    }
  }

  /** A string that starts with a non-space character passes the guard. */
  lemma NotBlankWhenStartsSolid(s: string)
    requires s != "" && !Text.IsSpace(s[0])
    ensures !Blank(Str(s))
  {
    Text.TrimBlank(s);
  }

  /** The trimmed value of a field that passes the guard is non-empty and already trimmed. */
  lemma {:induction false} TrimmedNonBlank(f: Field)
    requires !Blank(f)
    ensures Text.Trim(f.value) != "" && Text.Trim(Text.Trim(f.value)) == Text.Trim(f.value)
  {
    Text.TrimIdempotent(f.value);
  }
}
