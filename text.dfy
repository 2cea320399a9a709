/**
 * The string operations the task form relies on: JavaScript's
 * `String.prototype.trim` and the "blank after trimming" test built on it.
 */
module Text {

  /**
   * The characters `trim` strips: the ECMAScript WhiteSpace characters
   * (tab, vertical tab, form feed, space, no-break space, zero-width
   * no-break space and every other Unicode space separator) and the
   * LineTerminator characters (line feed, carriage return, line and
   * paragraph separators).
   */
  predicate IsWhitespace(c: char) {
    || c == '\t' || c == '\n' || c == '\U{000B}' || c == '\U{000C}' || c == '\r'
    || c == ' ' || c == '\U{00A0}' || c == '\U{1680}'
    || ('\U{2000}' <= c <= '\U{200A}')
    || c == '\U{2028}' || c == '\U{2029}' || c == '\U{202F}' || c == '\U{205F}'
    || c == '\U{3000}' || c == '\U{FEFF}'
  }

  /** Every character of `s` is whitespace. */
  predicate AllWhitespace(s: string) {
    forall i :: 0 <= i < |s| ==> IsWhitespace(s[i])
  }

  /** `s` with its leading whitespace removed. */
  function TrimStart(s: string): string {
    if s != [] && IsWhitespace(s[0]) then TrimStart(s[1..]) else s
  }

  /** `s` with its trailing whitespace removed. */
  function TrimEnd(s: string): string {
    if s != [] && IsWhitespace(s[|s| - 1]) then TrimEnd(s[..|s| - 1]) else s
  }

  /** JavaScript's `s.trim()`. */
  function Trim(s: string): string {
    TrimEnd(TrimStart(s))
  }

  /** `!s.trim()` in the source: the trimmed string is empty, hence falsy. */
  predicate IsBlank(s: string) {
    Trim(s) == []
  }

  /**
   * `TrimStart` drops a whitespace prefix and nothing more: what is left is
   * a suffix of `s` that is empty or starts with a character it keeps.
   */
  lemma {:induction false} TrimStartSpec(s: string)
    ensures |TrimStart(s)| <= |s| && TrimStart(s) == s[|s| - |TrimStart(s)|..]
    ensures AllWhitespace(s[..|s| - |TrimStart(s)|])
    ensures TrimStart(s) == [] || !IsWhitespace(TrimStart(s)[0])
  {
    if s != [] && IsWhitespace(s[0]) {
      TrimStartSpec(s[1..]);
      var r := TrimStart(s[1..]);
      assert s[1..][|s| - 1 - |r|..] == s[|s| - |r|..];
      var p := s[..|s| - |r|];
      forall i | 0 <= i < |p| ensures IsWhitespace(p[i]) {
        if i > 0 { assert p[i] == s[1..][..|s| - 1 - |r|][i - 1]; }
      }
    }
  }

  /**
   * `TrimEnd` drops a whitespace suffix and nothing more: what is left is
   * a prefix of `s` that is empty or ends with a character it keeps.
   */
  lemma {:induction false} TrimEndSpec(s: string)
    ensures |TrimEnd(s)| <= |s| && TrimEnd(s) == s[..|TrimEnd(s)|]
    ensures AllWhitespace(s[|TrimEnd(s)|..])
    ensures TrimEnd(s) == [] || !IsWhitespace(TrimEnd(s)[|TrimEnd(s)| - 1])
  {
    if s != [] && IsWhitespace(s[|s| - 1]) {
      var s' := s[..|s| - 1];
      TrimEndSpec(s');
      var r := TrimEnd(s');
      assert s'[..|r|] == s[..|r|];
      var q := s[|r|..];
      forall i | 0 <= i < |q| ensures IsWhitespace(q[i]) {
        if i < |q| - 1 { assert q[i] == s'[|r|..][i]; }
      }
    }
  }

  /**
   * `trim` yields the empty string exactly when every character is
   * whitespace; otherwise its result starts and ends with a character
   * that is not whitespace.
   */
  lemma TrimSpec(s: string)
    ensures Trim(s) == [] <==> AllWhitespace(s)
    ensures Trim(s) != [] ==> !IsWhitespace(Trim(s)[0]) && !IsWhitespace(Trim(s)[|Trim(s)| - 1])
  {
    var t := TrimStart(s);
    TrimStartSpec(s);
    TrimEndSpec(t);
    assert forall i :: 0 <= i < |t| ==> t[i] == s[|s| - |t| + i];
    assert forall i :: 0 <= i < |s| - |t| ==> s[..|s| - |t|][i] == s[i];
  }

  /**
   * A string is non-blank exactly when it holds a character `trim` keeps:
   * the source's "title is required" test.
   */
  lemma NonBlankIffVisibleChar(s: string)
    ensures !IsBlank(s) <==> exists i :: 0 <= i < |s| && !IsWhitespace(s[i])
  {
    TrimSpec(s);
  }

  /**
   * A sanity witness for `TrimSpec`: `trim` is idempotent. The dialog never
   * trims a string twice; this only confirms the model behaves as `trim`.
   */
  lemma TrimIdempotent(s: string)
    ensures Trim(Trim(s)) == Trim(s)
  {
    TrimSpec(s);
    var r := Trim(s);
    if r != [] {
      assert TrimStart(r) == r;
      assert TrimEnd(r) == r;
    }
  }
}
