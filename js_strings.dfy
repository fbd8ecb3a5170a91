/** JavaScript string behaviour the handlers rely on: `String.prototype.trim`,
    which strips WhiteSpace and LineTerminator characters from both ends. */
module JsStrings {

  /** The characters ECMAScript counts as WhiteSpace or LineTerminator:
      TAB, LF, VT, FF, CR, SPACE, NBSP, ZWNBSP (BOM), the other Unicode
      space separators (category Zs) and LS / PS. On ASCII these are exactly
      SPACE and TAB through CR; NEL (U+0085) and ZERO WIDTH SPACE (U+200B)
      are not among them, so `trim` keeps them. */
  predicate IsSpace(c: char): (r: bool)
    ensures c <= '\U{7F}' ==> (r <==> c == ' ' || '\t' <= c <= '\r')
    ensures c == '\U{85}' || c == '\U{200B}' ==> !r
  {
    c == '\t' || c == '\n' || c == '\U{B}' || c == '\U{C}' || c == '\r' ||
    c == ' ' || c == '\U{A0}' || c == '\U{FEFF}' || c == '\U{1680}' ||
    ('\U{2000}' <= c <= '\U{200A}') || c == '\U{2028}' || c == '\U{2029}' ||
    c == '\U{202F}' || c == '\U{205F}' || c == '\U{3000}'
  }

  /** A string with no whitespace at either end: what `trim` produces. */
  predicate IsTrimmed(s: string) {
    s == [] || (!IsSpace(s[0]) && !IsSpace(s[|s| - 1]))
  }

  predicate AllSpace(s: string) {
    forall k :: 0 <= k < |s| ==> IsSpace(s[k])
  }

  /** From position `i`, the first position that is not whitespace (or `|s|`). */
  function SkipStart(s: string, i: nat): (j: nat)
    requires i <= |s|
    ensures i <= j <= |s|
    ensures forall k :: i <= k < j ==> IsSpace(s[k])
    ensures j == |s| || !IsSpace(s[j])
    decreases |s| - i
  {
    if i < |s| && IsSpace(s[i]) then SkipStart(s, i + 1) else i
  }

  /** Going down from `hi` but not below `lo`, the end of the last character
      that is not whitespace (or `lo`). */
  function SkipEnd(s: string, lo: nat, hi: nat): (j: nat)
    requires lo <= hi <= |s|
    ensures lo <= j <= hi
    ensures forall k :: j <= k < hi ==> IsSpace(s[k])
    ensures j == lo || !IsSpace(s[j - 1])
    decreases hi - lo
  {
    if lo < hi && IsSpace(s[hi - 1]) then SkipEnd(s, lo, hi - 1) else hi
  }

  /** Where the result of `Trim(s)` starts inside `s`. */
  function TrimOffset(s: string): (i: nat)
    ensures i <= |s|
  {
    SkipStart(s, 0)
  }

  /** `s.trim()`: a contiguous slice of `s` with no whitespace at either end,
      everything cut away being whitespace. It is empty exactly when `s` is
      all whitespace (this is the `name.trim() === ''` test of the handlers). */
  function Trim(s: string): (r: string)
    ensures IsTrimmed(r)
    ensures TrimOffset(s) + |r| <= |s| && r == s[TrimOffset(s)..TrimOffset(s) + |r|]
    ensures forall k :: 0 <= k < TrimOffset(s) ==> IsSpace(s[k])
    ensures forall k :: TrimOffset(s) + |r| <= k < |s| ==> IsSpace(s[k])
    ensures r == [] <==> AllSpace(s)
  {
    var i := SkipStart(s, 0);
    var j := SkipEnd(s, i, |s|);
    assert i < j ==> s[i..j][0] == s[i] && s[i..j][j - i - 1] == s[j - 1];
    s[i..j]
  }

  /** Trimming a string that has no whitespace at its ends changes nothing. */
  lemma {:induction false} TrimTrimmed(s: string)
    requires IsTrimmed(s)
    ensures Trim(s) == s
  {
    assert SkipStart(s, 0) == 0;
    assert SkipEnd(s, 0, |s|) == |s|;
    assert s[0..|s|] == s;
  }
}
