/** The character-level helpers the similarity functions rely on: .NET's white-space test
    and a lower-casing that maps the ASCII capitals to their small letters. */
module Text {
  import opened Wrappers

  /** char.IsWhiteSpace: the space, line and paragraph separators of Unicode, together with
      the control characters U+0009 to U+000D and U+0085. */
  predicate IsWhiteSpace(c: char) {
    c == ' ' || '\t' <= c <= '\r' || c == '\U{85}' || c == '\U{A0}' || c == '\U{1680}'
    || '\U{2000}' <= c <= '\U{200A}' || c == '\U{2028}' || c == '\U{2029}' || c == '\U{202F}'
    || c == '\U{205F}' || c == '\U{3000}'
  }

  /** string.IsNullOrWhiteSpace: a null reference, the empty string, or only white space. */
  predicate IsNullOrWhiteSpace(s: Option<string>) {
    match s
    case None => true
    case Some(v) => forall k :: 0 <= k < |v| ==> IsWhiteSpace(v[k])
  }

  /** A string that is not null or white space holds at least one character. */
  lemma NotBlankIsNonEmpty(s: Option<string>)
    requires !IsNullOrWhiteSpace(s)
    ensures s.Some? && |s.value| > 0
  {
  }

  /** One character that is not white space makes a string pass the guard. */
  lemma NotWhiteSpaceCharIsNotBlank(s: string, k: nat)
    requires k < |s| && !IsWhiteSpace(s[k])
    ensures !IsNullOrWhiteSpace(Some(s))
  {
  }

  predicate IsAsciiUpper(c: char) {
    'A' <= c <= 'Z'
  }

  function ToLowerChar(c: char): (r: char)
    ensures !IsAsciiUpper(r)
    ensures IsAsciiUpper(c) ==> r as int == c as int + 32
    ensures !IsAsciiUpper(c) ==> r == c
  {
    if IsAsciiUpper(c) then (c as int + 32) as char else c
  }

  /** string.ToLower, restricted to the ASCII capitals: a new string of the same length in
      which no ASCII capital remains. */
  function ToLower(s: string): (r: string)
    ensures |r| == |s|
    ensures forall k :: 0 <= k < |r| ==> !IsAsciiUpper(r[k])
    ensures forall k :: 0 <= k < |r| && IsAsciiUpper(s[k]) ==> r[k] as int == s[k] as int + 32
    ensures forall k :: 0 <= k < |r| && !IsAsciiUpper(s[k]) ==> r[k] == s[k]
  {
    seq(|s|, k requires 0 <= k < |s| => ToLowerChar(s[k]))
  }
}
