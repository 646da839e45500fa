/**
 * The handle extraction of the social-account linking dialog: whatever the
 * user types or pastes into the user-name field, the dialog keeps only the
 * text after the last '/'. A full profile URL and a bare handle therefore
 * give the same name.
 */
module Handle {

  /**
   * String.prototype.lastIndexOf for a single character: the index of the
   * last occurrence of `c` in `s`, or -1 when `c` does not occur.
   */
  function LastIndexOf(s: string, c: char): (i: int)
    ensures -1 <= i < |s|
    ensures 0 <= i ==> s[i] == c
    ensures forall j :: i < j < |s| ==> s[j] != c
  {
    if s == [] then -1
    else if s[|s| - 1] == c then |s| - 1
    else LastIndexOf(s[..|s| - 1], c)
  }

  /**
   * `h` is the handle of `s`: the longest suffix of `s` that contains no '/'.
   * Either `h` is all of `s`, or the character just before it is a '/'.
   */
  ghost predicate IsHandleOf(s: string, h: string) {
    && |h| <= |s|
    && s[|s| - |h|..] == h
    && '/' !in h
    && (|h| == |s| || s[|s| - |h| - 1] == '/')
  }

  /**
   * `text.substring(text.lastIndexOf('/') + 1)`. The start index lies in
   * 0..|text|, so the clamping that String.prototype.substring performs
   * on out-of-range indices never applies.
   */
  function Extract(s: string): (h: string)
    ensures IsHandleOf(s, h)
  {
    s[LastIndexOf(s, '/') + 1..]
  }

  /** Every handle of `s` starts right after the last '/' of `s`. */
  lemma HandleStart(s: string, h: string)
    requires IsHandleOf(s, h)
    ensures |h| == |s| - 1 - LastIndexOf(s, '/')
  {
    var m := |s| - |h|;
    assert forall j :: m <= j < |s| ==> s[j] == h[j - m];
  }

  /** A string has at most one handle. */
  lemma HandleOfUnique(s: string, h1: string, h2: string)
    requires IsHandleOf(s, h1) && IsHandleOf(s, h2)
    ensures h1 == h2
  {
    HandleStart(s, h1);
    HandleStart(s, h2);
  }

  /** With a '/' at index k and none after it, the handle is the text after k. */
  lemma ExtractAfterLastSlash(s: string, k: nat)
    requires k < |s| && s[k] == '/'
    requires '/' !in s[k + 1..]
    ensures Extract(s) == s[k + 1..]
  {
    HandleOfUnique(s, Extract(s), s[k + 1..]);
  }

  /** Input without any '/' is kept whole: lastIndexOf gives -1 and substring(0) is the input. */
  lemma ExtractWhole(s: string)
    requires '/' !in s
    ensures Extract(s) == s
  {
    HandleOfUnique(s, Extract(s), s);
  }

  /** Input ending in '/' gives the empty handle. */
  lemma ExtractTrailingSlash(s: string)
    requires |s| > 0 && s[|s| - 1] == '/'
    ensures Extract(s) == []
  {
    HandleOfUnique(s, Extract(s), []);
  }

  /** Extracting again changes nothing: a handle has no '/' left in it. */
  lemma {:induction false} ExtractIdempotent(s: string)
    ensures Extract(Extract(s)) == Extract(s)
  {
    ExtractWhole(Extract(s));
  }
}
