/** Python's notion of whitespace and its str.strip(), which the cleaning stage uses twice:
    to recognise blank text and to trim normalised text. */
module Whitespace {

  /** The characters for which Python's str.isspace() holds; str.strip() without an argument
      removes exactly these from both ends. */
  predicate IsSpace(c: char) {
    ('\t' <= c <= '\r')                  // tab, line feed, vertical tab, form feed, carriage return
    || ('\U{1C}' <= c <= '\U{1F}')       // file, group, record and unit separators
    || c == ' ' || c == '\U{85}' || c == '\U{A0}' || c == '\U{1680}'
    || ('\U{2000}' <= c <= '\U{200A}')
    || c == '\U{2028}' || c == '\U{2029}' || c == '\U{202F}' || c == '\U{205F}' || c == '\U{3000}'
  }

  predicate AllSpace(s: string) {
    forall k :: 0 <= k < |s| ==> IsSpace(s[k])
  }

  /** Neither the first nor the last character is whitespace. */
  predicate NoOuterSpace(s: string) {
    s == [] || (!IsSpace(s[0]) && !IsSpace(s[|s| - 1]))
  }

  /** r is the slice s[i..j] of s, only whitespace lies outside the slice, and the slice
      itself neither starts nor ends with whitespace. */
  predicate StripAt(r: string, s: string, i: int, j: int) {
    0 <= i <= j <= |s| && r == s[i..j] && AllSpace(s[..i]) && AllSpace(s[j..]) && NoOuterSpace(r)
  }

  /** Reference meaning of stripping: r is what is left of s between two runs of whitespace. */
  ghost predicate IsStripOf(r: string, s: string) {
    exists i, j :: StripAt(r, s, i, j)
  }

  /** Drops the leading whitespace of s. */
  function TrimStart(s: string): (r: string)
    ensures |r| <= |s| && r == s[|s| - |r|..]
    ensures AllSpace(s[..|s| - |r|])
    ensures r == [] || !IsSpace(r[0])
  {
    if |s| > 0 && IsSpace(s[0]) then
      var r := TrimStart(s[1..]);
      assert s[..|s| - |r|] == [s[0]] + s[1..][..|s| - 1 - |r|];
      r
    else
      s
  }

  /** Drops the trailing whitespace of s. */
  function TrimEnd(s: string): (r: string)
    ensures |r| <= |s| && r == s[..|r|]
    ensures AllSpace(s[|r|..])
    ensures r == [] || !IsSpace(r[|r| - 1])
  {
    if |s| > 0 && IsSpace(s[|s| - 1]) then
      var r := TrimEnd(s[..|s| - 1]);
      assert s[|r|..] == s[..|s| - 1][|r|..] + [s[|s| - 1]];
      r
    else
      s
  }

  /** Python's str.strip() with no argument. */
  function Strip(s: string): string {
    TrimEnd(TrimStart(s))
  }

  /** Strip meets the reference meaning of stripping. */
  lemma StripMeetsReference(s: string)
    ensures IsStripOf(Strip(s), s)
  {
    var t := TrimStart(s);
    var r := TrimEnd(t);
    var i := |s| - |t|;
    var j := i + |r|;
    assert r == s[i..j];
    assert s[j..] == t[|r|..];
    assert r != [] ==> r[0] == t[0];
    assert StripAt(r, s, i, j);
  }

  /** A non-empty stripped slice of s lies within every other stripped slice of s: its first and
      last characters are not whitespace, so no other slice may leave them outside. */
  lemma StripAtCovers(s: string, r1: string, i1: int, j1: int, r2: string, i2: int, j2: int)
    requires StripAt(r1, s, i1, j1) && StripAt(r2, s, i2, j2) && i1 < j1
    ensures i2 <= i1 && j1 <= j2 && i2 < j2
  {
    assert s[i1] == r1[0] && s[j1 - 1] == r1[|r1| - 1];
    assert forall k :: 0 <= k < i2 ==> s[..i2][k] == s[k];
    assert forall k :: j2 <= k < |s| ==> s[j2..][k - j2] == s[k];
  }

  /** At most one string meets the reference meaning of stripping s. */
  lemma StripReferenceUnique(s: string, r1: string, r2: string)
    requires IsStripOf(r1, s) && IsStripOf(r2, s)
    ensures r1 == r2
  {
    var i1, j1 :| StripAt(r1, s, i1, j1);
    var i2, j2 :| StripAt(r2, s, i2, j2);
    if i1 < j1 {
      StripAtCovers(s, r1, i1, j1, r2, i2, j2);
      StripAtCovers(s, r2, i2, j2, r1, i1, j1);
    } else if i2 < j2 {
      StripAtCovers(s, r2, i2, j2, r1, i1, j1);
    }
  }

  /** Strip(s) is exactly the string that meets the reference meaning of stripping s. */
  lemma StripCharacterized(s: string, r: string)
    ensures IsStripOf(r, s) <==> r == Strip(s)
  {
    StripMeetsReference(s);
    if IsStripOf(r, s) {
      StripReferenceUnique(s, r, Strip(s));
    }
  }

  /** Stripping leaves nothing exactly when the string is all whitespace. */
  lemma StripEmptyIffAllSpace(s: string)
    ensures Strip(s) == [] <==> AllSpace(s)
  {
    StripMeetsReference(s);
    var i, j :| StripAt(Strip(s), s, i, j);
    if Strip(s) == [] {
      assert i == j;
      forall k | 0 <= k < |s| ensures IsSpace(s[k]) {
        if k < i {
          assert s[..i][k] == s[k];
        } else {
          assert s[j..][k - j] == s[k];
        }
      }
    } else {
      assert s[i] == Strip(s)[0] && !IsSpace(s[i]);
    }
  }

  /** A string already without outer whitespace is its own strip. */
  lemma StripOfTrimmed(s: string)
    requires NoOuterSpace(s)
    ensures Strip(s) == s
  {
  }
}
