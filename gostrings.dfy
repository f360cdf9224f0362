/**
 * The functions of Go's `strings` package that the adapters call, over
 * strings of characters (a Go string is UTF-8 bytes; every character these
 * functions compare with is ASCII or a whole Unicode space character, so
 * characters are the right grain here).
 */
module GoStrings {

  /** strings.HasSuffix */
  predicate HasSuffix(s: string, suffix: string)
  {
    |suffix| <= |s| && s[|s| - |suffix|..] == suffix
  }

  /** strings.TrimSuffix: drops the suffix once if it is there, and nothing otherwise. */
  function TrimSuffix(s: string, suffix: string): (r: string)
    ensures HasSuffix(s, suffix) ==> r + suffix == s
    ensures !HasSuffix(s, suffix) ==> r == s
  {
    if HasSuffix(s, suffix) then s[..|s| - |suffix|] else s
  }

  /** With suffix ".", TrimSuffix removes exactly one trailing dot when there is one. */
  lemma TrimSuffixDot(s: string)
    ensures s != [] && s[|s| - 1] == '.' ==> TrimSuffix(s, ".") == s[..|s| - 1]
    ensures (s == [] || s[|s| - 1] != '.') ==> TrimSuffix(s, ".") == s
    ensures |s| - 1 <= |TrimSuffix(s, ".")| <= |s|
  {
    if s != [] && s[|s| - 1] == '.' {
      assert HasSuffix(s, ".");
    }
  }

  /** A second trailing dot survives: only one is removed. */
  lemma TrimSuffixDotOnce(t: string)
    ensures TrimSuffix(t + "..", ".") == t + "."
  {
    var s := t + "..";
    assert HasSuffix(s, ".");
    assert s[..|s| - 1] == t + ".";
  }

  /**
   * strings.TrimLeft: removes every leading character that belongs to the
   * character SET `cutset` (not the prefix `cutset`). The result is the
   * suffix of `s` after the longest prefix made only of cutset characters.
   */
  function TrimLeft(s: string, cutset: string): (r: string)
    ensures |r| <= |s| && r == s[|s| - |r|..]
    ensures forall i :: 0 <= i < |s| - |r| ==> s[i] in cutset
    ensures r == [] || r[0] !in cutset
  {
    if s != [] && s[0] in cutset then TrimLeft(s[1..], cutset) else s
  }

  /** The three properties of TrimLeft determine its result: it cuts exactly at the first non-cutset character. */
  lemma TrimLeftCutsAtFirstOther(s: string, cutset: string, k: nat)
    requires k <= |s|
    requires forall i :: 0 <= i < k ==> s[i] in cutset
    requires k == |s| || s[k] !in cutset
    ensures TrimLeft(s, cutset) == s[k..]
  {
    var r := TrimLeft(s, cutset);
    assert |s| - |r| == k;
  }

  /** strings.TrimRight: the mirror image of TrimLeft. */
  function TrimRight(s: string, cutset: string): (r: string)
    ensures |r| <= |s| && r == s[..|r|]
    ensures forall i :: |r| <= i < |s| ==> s[i] in cutset
    ensures r == [] || r[|r| - 1] !in cutset
  {
    if s != [] && s[|s| - 1] in cutset then TrimRight(s[..|s| - 1], cutset) else s
  }

  /** TrimRight cuts exactly after the last non-cutset character. */
  lemma TrimRightCutsAfterLastOther(s: string, cutset: string, k: nat)
    requires k <= |s|
    requires forall i :: k <= i < |s| ==> s[i] in cutset
    requires k == 0 || s[k - 1] !in cutset
    ensures TrimRight(s, cutset) == s[..k]
  {
    var r := TrimRight(s, cutset);
    assert |r| == k;
  }

  /** The characters unicode.IsSpace accepts. */
  const UnicodeSpace: string :=
    "\t\n\U{0B}\U{0C}\r \U{85}\U{A0}\U{1680}" +
    "\U{2000}\U{2001}\U{2002}\U{2003}\U{2004}\U{2005}\U{2006}\U{2007}\U{2008}\U{2009}\U{200A}" +
    "\U{2028}\U{2029}\U{202F}\U{205F}\U{3000}"

  /** strings.TrimSpace: leading and trailing Unicode white space removed. */
  function TrimSpace(s: string): (r: string)
    ensures |r| <= |s|
    ensures r == [] || (r[0] !in UnicodeSpace && r[|r| - 1] !in UnicodeSpace)
  {
    TrimRight(TrimLeft(s, UnicodeSpace), UnicodeSpace)
  }

  /** TrimSpace returns a slice of its input with only white space cut off around it. */
  lemma TrimSpaceIsSlice(s: string)
    ensures exists a, b :: 0 <= a <= b <= |s| && TrimSpace(s) == s[a..b] &&
                           (forall i :: 0 <= i < a ==> s[i] in UnicodeSpace) &&
                           (forall i :: b <= i < |s| ==> s[i] in UnicodeSpace)
  {
    TrimBothIsSlice(s, UnicodeSpace);
  }

  /** Trimming a cutset from both ends leaves a slice of the input with only cutset characters around it. */
  lemma TrimBothIsSlice(s: string, cutset: string)
    ensures var r := TrimRight(TrimLeft(s, cutset), cutset);
      exists a, b :: 0 <= a <= b <= |s| && r == s[a..b] &&
                     (forall i :: 0 <= i < a ==> s[i] in cutset) &&
                     (forall i :: b <= i < |s| ==> s[i] in cutset)
  {
    var left := TrimLeft(s, cutset);
    var r := TrimRight(left, cutset);
    var a := |s| - |left|;
    var b := a + |r|;
    assert r == s[a..b];
    assert forall i :: b <= i < |s| ==> s[i] == left[i - a];
  }

  /** TrimSpace of a text padded with white space on both sides gives back exactly the text. */
  lemma TrimSpaceOfPadded(pre: string, t: string, post: string)
    requires forall i :: 0 <= i < |pre| ==> pre[i] in UnicodeSpace
    requires forall i :: 0 <= i < |post| ==> post[i] in UnicodeSpace
    requires t == [] || (t[0] !in UnicodeSpace && t[|t| - 1] !in UnicodeSpace)
    ensures TrimSpace(pre + t + post) == t
  {
    TrimBothOfPadded(pre, t, post, UnicodeSpace);
  }

  /** Trimming a cutset from both ends of a padded text gives back exactly the text. */
  lemma TrimBothOfPadded(pre: string, t: string, post: string, cutset: string)
    requires forall i :: 0 <= i < |pre| ==> pre[i] in cutset
    requires forall i :: 0 <= i < |post| ==> post[i] in cutset
    requires t == [] || (t[0] !in cutset && t[|t| - 1] !in cutset)
    ensures TrimRight(TrimLeft(pre + t + post, cutset), cutset) == t
  {
    var s := pre + t + post;
    if t == [] {
      assert forall i :: 0 <= i < |s| ==> s[i] in cutset by {
        assert forall i :: |pre| <= i < |s| ==> s[i] == post[i - |pre|];
        assert forall i :: 0 <= i < |pre| ==> s[i] == pre[i];
      }
      TrimLeftCutsAtFirstOther(s, cutset, |s|);
    } else {
      assert s == pre + (t + post);
      TrimLeftOfPadded(pre, t + post, cutset);
      TrimRightOfPadded(t, post, cutset);
    }
  }

  /** TrimLeft drops a leading run of cutset characters up to a non-cutset character. */
  lemma TrimLeftOfPadded(pre: string, u: string, cutset: string)
    requires forall i :: 0 <= i < |pre| ==> pre[i] in cutset
    requires u != [] && u[0] !in cutset
    ensures TrimLeft(pre + u, cutset) == u
  {
    var s := pre + u;
    assert s[|pre|] == u[0];
    assert forall i :: 0 <= i < |pre| ==> s[i] == pre[i];
    TrimLeftCutsAtFirstOther(s, cutset, |pre|);
    assert s[|pre|..] == u;
  }

  /** TrimRight drops a trailing run of cutset characters back to a non-cutset character. */
  lemma TrimRightOfPadded(t: string, post: string, cutset: string)
    requires forall i :: 0 <= i < |post| ==> post[i] in cutset
    requires t != [] && t[|t| - 1] !in cutset
    ensures TrimRight(t + post, cutset) == t
  {
    var u := t + post;
    assert u[|t| - 1] == t[|t| - 1];
    assert forall i :: |t| <= i < |u| ==> u[i] == post[i - |t|];
    TrimRightCutsAfterLastOther(u, cutset, |t|);
    assert u[..|t|] == t;
  }

  /** `substr` occurs in `s` starting at position `j`. */
  predicate OccursAt(s: string, substr: string, j: int)
  {
    0 <= j <= |s| && substr <= s[j..]
  }

  /**
   * strings.Index: the position of the first occurrence of `substr` in `s`,
   * or -1 when there is none. The empty string occurs at 0.
   */
  function Index(s: string, substr: string): (r: int)
    ensures -1 <= r <= |s|
    ensures 0 <= r ==> OccursAt(s, substr, r)
    ensures 0 <= r ==> forall j :: 0 <= j < r ==> !OccursAt(s, substr, j)
    ensures r == -1 ==> forall j :: !OccursAt(s, substr, j)
  {
    if substr <= s then 0
    else if s == [] then -1
    else
      var k := Index(s[1..], substr);
      assert forall j :: 1 <= j <= |s| ==> s[1..][j - 1..] == s[j..];
      assert forall j :: OccursAt(s, substr, j) && j != 0 ==> OccursAt(s[1..], substr, j - 1);
      if k == -1 then -1 else k + 1
  }

  /** `strings.Index(s, p) == 0` is exactly "s starts with p". */
  lemma IndexZeroIffPrefix(s: string, p: string)
    ensures Index(s, p) == 0 <==> p <= s
  {
    assert s[0..] == s;
    assert p <= s <==> OccursAt(s, p, 0);
  }
}
