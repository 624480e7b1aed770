/**
 * The part of Rust's `str::trim` that the note entity relies on.
 * `trim` removes every leading and trailing character for which
 * `char::is_whitespace` holds; the entity only asks whether the
 * trimmed string is empty.
 */
module Text {

  /**
   * `char::is_whitespace`: the code points with the Unicode
   * `White_Space` property.
   */
  predicate IsWs(c: char) {
    ('\U{0009}' <= c <= '\U{000D}') || c == '\U{0020}' || c == '\U{0085}' || c == '\U{00A0}'
    || c == '\U{1680}' || ('\U{2000}' <= c <= '\U{200A}')
    || c == '\U{2028}' || c == '\U{2029}' || c == '\U{202F}'
    || c == '\U{205F}' || c == '\U{3000}'
  }

  /**
   * Among the ASCII characters, the whitespace ones are exactly tab, line
   * feed, vertical tab, form feed, carriage return and space; no whitespace
   * code point lies above U+3000.
   */
  lemma WhitespaceRange(c: char)
    ensures c < '\U{0080}' ==> (IsWs(c) <==> c in "\t\n\U{000B}\U{000C}\r ")
    ensures IsWs(c) ==> c <= '\U{3000}'
  {
  }

  /** Every character of `s` is whitespace (the empty string included). */
  predicate Blank(s: string) {
    forall i :: 0 <= i < |s| ==> IsWs(s[i])
  }

  /**
   * Drops the leading whitespace: the result is a suffix of `s`, what was
   * dropped is all whitespace, and the result does not start with whitespace.
   */
  function TrimStart(s: string): (r: string)
    ensures |r| <= |s| && r == s[|s| - |r|..]
    ensures Blank(s[..|s| - |r|])
    ensures r == [] || !IsWs(r[0])
    decreases |s|
  {
    if |s| > 0 && IsWs(s[0]) then
      var r := TrimStart(s[1..]);
      assert s[..|s| - |r|] == [s[0]] + s[1..][..|s| - 1 - |r|];
      r
    else
      s
  }

  /**
   * Drops the trailing whitespace: the result is a prefix of `s`, what was
   * dropped is all whitespace, and the result does not end with whitespace.
   */
  function TrimEnd(s: string): (r: string)
    ensures |r| <= |s| && r == s[..|r|]
    ensures Blank(s[|r|..])
    ensures r == [] || !IsWs(r[|r| - 1])
    decreases |s|
  {
    if |s| > 0 && IsWs(s[|s| - 1]) then
      var r := TrimEnd(s[..|s| - 1]);
      assert s[|r|..] == s[..|s| - 1][|r|..] + [s[|s| - 1]];
      r
    else
      s
  }

  /**
   * `str::trim`: both ends stripped of whitespace. The result is empty
   * exactly when `s` is blank, and otherwise has no whitespace at either end.
   */
  function Trim(s: string): (r: string)
    ensures |r| == 0 <==> Blank(s)
    ensures r == [] || (!IsWs(r[0]) && !IsWs(r[|r| - 1]))
  {
    var t := TrimStart(s);
    assert s == s[..|s| - |t|] + t;
    assert t[0..] == t;
    var r := TrimEnd(t);
    assert r != [] ==> r[0] == t[0];
    r
  }

  /**
   * Trimming keeps a contiguous slice of `s` with whitespace only on either
   * side.
   */
  lemma TrimIsInnerSlice(s: string)
    ensures exists i, j :: (0 <= i <= j <= |s| && Trim(s) == s[i..j]
                            && Blank(s[..i]) && Blank(s[j..]))
  {
    var t := TrimStart(s);
    var u := TrimEnd(t);
    var i := |s| - |t|;
    var j := i + |u|;
    assert u == s[i..j];
    assert t[|u|..] == s[j..];
  }
}
