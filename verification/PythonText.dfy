/** Python's `str.strip`. */
module PythonText {
  import opened Prelude

  /** What Python's `str.strip` removes. */
  predicate IsSpace(c: char) {
    || '\t' <= c <= '\r' || '\U{1C}' <= c <= ' ' || c == '\U{85}' || c == '\U{A0}' || c == '\U{1680}'
    || '\U{2000}' <= c <= '\U{200A}' || c == '\U{2028}' || c == '\U{2029}' || c == '\U{202F}'
    || c == '\U{205F}' || c == '\U{3000}'
  }

  function StripLeft(s: string): string {
    if s != [] && IsSpace(s[0]) then StripLeft(s[1..]) else s
  }

  function StripRight(s: string): (r: string)
    ensures r <= s
  {
    if s != [] && IsSpace(Last(s)) then StripRight(s[..|s| - 1]) else s
  }

  function Strip(s: string): string {
    StripRight(StripLeft(s))
  }

  predicate Blank(line: string) {
    Strip(line) == []
  }

  lemma {:induction false} StripKeepsFirst(s: string)
    ensures s != [] && !IsSpace(s[0]) ==> StripLeft(s) == s && Strip(s) != [] && Strip(s)[0] == s[0]
  {
    if s != [] && !IsSpace(s[0]) { StripRightKeepsFirst(s); }
  }

  lemma {:induction false} StripRightKeepsFirst(s: string)
    requires s != [] && !IsSpace(s[0])
    ensures StripRight(s) != []
  {
    if |s| > 1 && IsSpace(Last(s)) { StripRightKeepsFirst(s[..|s| - 1]); }
  }

  lemma {:induction false} StripLeftFirst(s: string)
    ensures StripLeft(s) != [] ==> s != [] && !IsSpace(StripLeft(s)[0]) && (IsSpace(s[0]) || s[0] == StripLeft(s)[0])
  {
    if s != [] && IsSpace(s[0]) { StripLeftFirst(s[1..]); }
  }
}
