/**
 * The few string operations the plugin relies on: Python's `str.strip()`,
 * `s.split("/")[-1]`, `"::" in s` with `s.split("::")[0]`, and substring
 * containment.
 */
module Text {

  /** The ASCII characters Python's `str.isspace()` accepts. */
  predicate IsSpace(c: char) {
    c == ' ' || c == '\t' || c == '\n' || c == '\r' || c == '\U{0B}' || c == '\U{0C}'
    || ('\U{1C}' <= c <= '\U{1F}')
  }

  /** `s.lstrip()`: drops leading whitespace. */
  function TrimLeft(s: string): (r: string)
    ensures |r| <= |s| && r == s[|s| - |r|..]
    ensures r == [] || !IsSpace(r[0])
    ensures forall i :: 0 <= i < |s| - |r| ==> IsSpace(s[i])
  {
    if s != [] && IsSpace(s[0]) then TrimLeft(s[1..]) else s
  }

  /** `s.rstrip()`: drops trailing whitespace. */
  function TrimRight(s: string): (r: string)
    ensures |r| <= |s| && r == s[..|r|]
    ensures r == [] || !IsSpace(r[|r| - 1])
    ensures forall i :: |r| <= i < |s| ==> IsSpace(s[i])
  {
    if s != [] && IsSpace(s[|s| - 1]) then TrimRight(s[..|s| - 1]) else s
  }

  /** `r` is the slice of `s` starting at `k`, and everything around it in `s` is whitespace. */
  predicate SpaceAround(s: string, r: string, k: int) {
    && 0 <= k <= |s| - |r| && r == s[k..k + |r|]
    && (forall i :: 0 <= i < k ==> IsSpace(s[i]))
    && (forall i :: k + |r| <= i < |s| ==> IsSpace(s[i]))
  }

  /** `s.strip()`: the infix of `s` left once whitespace is dropped from both ends. */
  function Strip(s: string): (r: string)
    ensures r == [] || (!IsSpace(r[0]) && !IsSpace(r[|r| - 1]))
    ensures exists k :: 0 <= k <= |s| && SpaceAround(s, r, k)
  {
    var t := TrimLeft(s);
    var r := TrimRight(t);
    assert SpaceAround(s, r, |s| - |t|);
    r
  }

  /** `s.split("/")[-1]`: the text after the last slash, or all of `s`. */
  function LastComponent(s: string): (r: string)
    ensures |r| <= |s| && r == s[|s| - |r|..]
    ensures '/' !in r
    ensures |r| < |s| ==> s[|s| - |r| - 1] == '/'
  {
    if s == [] then []
    else if s[|s| - 1] == '/' then []
    else LastComponent(s[..|s| - 1]) + [s[|s| - 1]]
  }

  /** A "::" scope separator starts at index `i` of `s`. */
  predicate SepAt(s: string, i: int) {
    0 <= i && i + 1 < |s| && s[i] == ':' && s[i + 1] == ':'
  }

  /** `"::" in s`. */
  predicate HasSep(s: string) {
    exists i :: 0 <= i < |s| && SepAt(s, i)
  }

  /** `s.split("::")[0]`: the text before the first "::", or all of `s`. */
  function FilePart(s: string): (r: string)
    ensures |r| <= |s| && r == s[..|r|]
    ensures forall i :: 0 <= i < |r| ==> !SepAt(s, i)
    ensures |r| < |s| ==> SepAt(s, |r|)
    ensures HasSep(s) <==> |r| < |s|
  {
    if |s| < 2 then s
    else if s[0] == ':' && s[1] == ':' then assert SepAt(s, 0); []
    else
      var t := FilePart(s[1..]);
      assert forall i :: 0 < i < |s| ==> (SepAt(s, i) <==> SepAt(s[1..], i - 1));
      assert HasSep(s) ==> HasSep(s[1..]) by {
        if HasSep(s) {
          var i :| 0 <= i < |s| && SepAt(s, i);
          assert SepAt(s[1..], i - 1);
        }
      }
      assert HasSep(s[1..]) ==> HasSep(s) by {
        if HasSep(s[1..]) {
          var i :| 0 <= i < |s| - 1 && SepAt(s[1..], i);
          assert SepAt(s, i + 1);
        }
      }
      [s[0]] + t
  }

  /** `sub` occurs in `s` starting at index `i`. */
  predicate OccursAt(sub: string, s: string, i: int) {
    0 <= i <= |s| - |sub| && s[i..i + |sub|] == sub
  }

  /** `sub in s` for strings. */
  predicate IsInfix(sub: string, s: string) {
    exists i :: 0 <= i <= |s| && OccursAt(sub, s, i)
  }

  /** A string occurs in itself. */
  lemma InfixOfSelf(s: string)
    ensures IsInfix(s, s)
  {
    assert OccursAt(s, s, 0);
  }

  /** An occurrence survives appending text on either side. */
  lemma InfixExtend(sub: string, pre: string, s: string, post: string)
    requires IsInfix(sub, s)
    ensures IsInfix(sub, pre + s) && IsInfix(sub, s + post)
  {
    var i :| 0 <= i <= |s| && OccursAt(sub, s, i);
    assert (pre + s)[|pre| + i..|pre| + i + |sub|] == s[i..i + |sub|];
    assert OccursAt(sub, pre + s, |pre| + i);
    assert (s + post)[i..i + |sub|] == s[i..i + |sub|];
    assert OccursAt(sub, s + post, i);
  }
}
