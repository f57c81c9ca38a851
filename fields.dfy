/**
 * The part of the REST framework's CharField that every text input of the core goes through:
 * surrounding whitespace is trimmed (`trim_whitespace` is on by default) and a value that is
 * empty once trimmed is refused as blank (`allow_blank` is off by default). The field's value
 * is the trimmed text, and length limits apply to that. A NUL character in the value is
 * refused as well.
 */
module CharFields {
  import opened Wrappers
  import opened Http

  /** Python's `str.isspace` for one character. */
  predicate IsSpace(c: char) {
    || c == ' ' || ('\t' <= c <= '\r') || ('\U{1c}' <= c <= '\U{1f}') || c == '\U{85}' || c == '\U{a0}'
    || c == '\U{1680}' || ('\U{2000}' <= c <= '\U{200a}') || c == '\U{2028}' || c == '\U{2029}'
    || c == '\U{202f}' || c == '\U{205f}' || c == '\U{3000}'
  }

  predicate AllSpace(s: string) {
    forall i :: 0 <= i < |s| ==> IsSpace(s[i])
  }

  /** `str.lstrip()`: the suffix left once the leading whitespace is dropped. */
  function TrimStart(s: string): (r: string)
    ensures |r| <= |s| && r == s[|s| - |r|..]
    ensures forall i :: 0 <= i < |s| - |r| ==> IsSpace(s[i])
    ensures r != [] ==> !IsSpace(r[0])
    decreases |s|
  {
    if |s| > 0 && IsSpace(s[0]) then TrimStart(s[1..]) else s
  }

  /** `str.rstrip()`: the prefix left once the trailing whitespace is dropped. */
  function TrimEnd(s: string): (r: string)
    ensures |r| <= |s| && r == s[..|r|]
    ensures forall i :: |r| <= i < |s| ==> IsSpace(s[i])
    ensures r != [] ==> !IsSpace(r[|r| - 1])
    decreases |s|
  {
    if |s| > 0 && IsSpace(s[|s| - 1]) then TrimEnd(s[..|s| - 1]) else s
  }

  /**
   * `str.strip()`: the text between the leading and the trailing whitespace. It is empty exactly
   * when the text is all whitespace, and text with no whitespace at either end is kept as is.
   */
  function Trim(s: string): (r: string)
    ensures r == "" <==> AllSpace(s)
    ensures r != "" ==> !IsSpace(r[0]) && !IsSpace(r[|r| - 1])
    ensures |s| == 0 || (!IsSpace(s[0]) && !IsSpace(s[|s| - 1])) ==> r == s
  {
    var t := TrimStart(s);
    var r := TrimEnd(t);
    assert r == "" ==> AllSpace(s) by {
      if r == "" {
        assert t == "";
      }
    }
    assert r != "" ==> !IsSpace(r[0]) by {
      if r != "" {
        assert r[0] == t[0];
      }
    }
    r
  }

  /** Trimming twice is trimming once. */
  lemma TrimIdempotent(s: string)
    ensures Trim(Trim(s)) == Trim(s)
  {
  }

  const BlankMessage: string := "This field may not be blank."
  const NullMessage: string := "Null characters are not allowed."

  /** A supplied value is blank when nothing but whitespace is left of it. */
  predicate IsBlank(s: string) {
    AllSpace(s)
  }

  /**
   * What a CharField accepts: a value that is not blank and whose trimmed text holds no NUL
   * character (the field's default ProhibitNullCharactersValidator).
   */
  predicate Acceptable(s: string) {
    !IsBlank(s) && '\0' !in Trim(s)
  }

  /**
   * A CharField's validation of one supplied value: the blank error (400) when it is all
   * whitespace, the null-character error (400) when its trimmed text holds a NUL, otherwise
   * the trimmed text.
   */
  function CleanText(s: string): (r: Result<string, ApiError>)
    ensures r.Ok? <==> Acceptable(s)
    ensures IsBlank(s) ==> r == Err(ValidationError(BlankMessage))
    ensures !IsBlank(s) && !Acceptable(s) ==> r == Err(ValidationError(NullMessage))
    ensures r.Err? ==> Status(r.error) == 400
    ensures r.Ok? ==> r.value != "" && r.value == Trim(s) && Trim(r.value) == r.value && '\0' !in r.value
  {
    if IsBlank(s) then Err(ValidationError(BlankMessage))
    else if '\0' in Trim(s) then Err(ValidationError(NullMessage))
    else Ok(Trim(s))
  }
}
