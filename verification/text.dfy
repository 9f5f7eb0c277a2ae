/** The blank-name test of the task form: JavaScript's `String.prototype.trim` and what it means
    for the trimmed string to be empty. */
module Text {

  /** The characters `trim` strips: the WhiteSpace and LineTerminator code points of ECMA-262
      (tab, vertical tab, form feed, space, no-break space, zero-width no-break space, every
      other Unicode "Space_Separator", line feed, carriage return, line and paragraph separator). */
  const Spaces: set<char> := {
    '\t', '\n', '\U{000B}', '\U{000C}', '\r', ' ', '\U{00A0}', '\U{1680}',
    '\U{2000}', '\U{2001}', '\U{2002}', '\U{2003}', '\U{2004}', '\U{2005}',
    '\U{2006}', '\U{2007}', '\U{2008}', '\U{2009}', '\U{200A}',
    '\U{2028}', '\U{2029}', '\U{202F}', '\U{205F}', '\U{3000}', '\U{FEFF}'
  }

  /** `c` is stripped by `trim`. */
  predicate IsSpace(c: char) {
    c in Spaces
  }

  /** Every character of `s` is one `trim` strips. */
  predicate IsBlank(s: string) {
    forall k :: 0 <= k < |s| ==> IsSpace(s[k])
  }

  /** `s` without its leading spaces; nothing is left exactly when `s` is blank. */
  function TrimStart(s: string): (r: string)
    ensures |r| <= |s| && r == s[|s| - |r|..]
    ensures r != [] ==> !IsSpace(r[0])
    ensures forall k :: 0 <= k < |s| - |r| ==> IsSpace(s[k])
    ensures r == [] <==> IsBlank(s)
  {
    if s != [] && IsSpace(s[0]) then
      assert IsBlank(s) <==> IsBlank(s[1..]) by {
        assert forall k :: 1 <= k < |s| ==> s[k] == s[1..][k - 1];
      }
      TrimStart(s[1..])
    else s
  }

  /** `s` without its trailing spaces; nothing is left exactly when `s` is blank. */
  function TrimEnd(s: string): (r: string)
    ensures |r| <= |s| && r == s[..|r|]
    ensures r != [] ==> !IsSpace(r[|r| - 1])
    ensures forall k :: |r| <= k < |s| ==> IsSpace(s[k])
    ensures r == [] <==> IsBlank(s)
  {
    if s != [] && IsSpace(s[|s| - 1]) then
      assert IsBlank(s) <==> IsBlank(s[..|s| - 1]) by {
        assert forall k :: 0 <= k < |s| - 1 ==> s[k] == s[..|s| - 1][k];
      }
      TrimEnd(s[..|s| - 1])
    else s
  }

  /** `s.trim()`: `s` with the spaces at both ends stripped. */
  function Trim(s: string): (r: string)
    ensures |r| <= |s|
    ensures r != [] ==> !IsSpace(r[0]) && !IsSpace(r[|r| - 1])
    ensures r == [] <==> IsBlank(s)
  {
    var t := TrimStart(s);
    assert TrimEnd(t) != [] ==> TrimEnd(t)[0] == t[0];
    TrimEnd(t)
  }
}
