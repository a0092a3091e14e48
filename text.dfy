/** The `System.String` and `System.Char` operations the core calls. */
module Text {
  import opened Wrappers

  /** `char.ToLowerInvariant` on Basic Latin and Latin-1: 'A'..'Z' and 'À'..'Þ' (except '×')
      map to the letter 32 code points higher; every other character is left as it is. */
  function ToLowerChar(c: char): (r: char)
  {
    if 'A' <= c <= 'Z' || ('\U{00C0}' <= c <= '\U{00DE}' && c != '\U{00D7}') then
      (c as int + 32) as char
    else
      c
  }

  /** `string.ToLowerInvariant`: lower-cases each character, position by position. */
  function ToLowerInvariant(s: string): (r: string)
    ensures |r| == |s|
    ensures forall i :: 0 <= i < |s| ==> r[i] == ToLowerChar(s[i])
  {
    if s == [] then [] else [ToLowerChar(s[0])] + ToLowerInvariant(s[1..])
  }

  /** Lower-casing a lower-cased string changes nothing: a normalised email is its own normal form. */
  lemma ToLowerInvariantIdempotent(s: string)
    ensures ToLowerInvariant(ToLowerInvariant(s)) == ToLowerInvariant(s)
  {
    var once := ToLowerInvariant(s);
    var twice := ToLowerInvariant(once);
    assert forall i :: 0 <= i < |s| ==> twice[i] == once[i];
  }

  /** Two strings are case variants of each other when they lower-case to the same string. */
  predicate SameIgnoringCase(a: string, b: string)
  {
    ToLowerInvariant(a) == ToLowerInvariant(b)
  }

  /** `char.IsWhiteSpace`: the Unicode space separators, line and paragraph separators,
      U+0009..U+000D, U+0085 and U+00A0. */
  predicate IsWhiteSpace(c: char)
    ensures IsWhiteSpace(c) ==> ToLowerChar(c) == c
  {
    || c == ' ' || ('\t' <= c <= '\r') || c == '\U{0085}' || c == '\U{00A0}'
    || c == '\U{1680}' || ('\U{2000}' <= c <= '\U{200A}') || c == '\U{2028}' || c == '\U{2029}'
    || c == '\U{202F}' || c == '\U{205F}' || c == '\U{3000}'
  }

  /** `string.IsNullOrEmpty`. */
  predicate IsNullOrEmpty(s: Option<string>)
    ensures IsNullOrEmpty(s) <==> s.None? || |s.value| == 0
  {
    s.None? || s.value == ""
  }

  /** `string.IsNullOrWhiteSpace`: null, empty, or white space only. */
  predicate IsNullOrWhiteSpace(s: Option<string>)
    ensures IsNullOrEmpty(s) ==> IsNullOrWhiteSpace(s)
    ensures IsNullOrWhiteSpace(s) && s.Some? && |s.value| > 0 ==> IsWhiteSpace(s.value[0])
  {
    s.None? || forall i :: 0 <= i < |s.value| ==> IsWhiteSpace(s.value[i])
  }
}
