/**
 * The JavaScript string operations the completion test uses:
 * `slice`, `includes`, `indexOf` and `lastIndexOf`.
 */
module JsString {

  /** `pat` occurs in `s` starting at index `i`. */
  predicate OccursAt(s: string, pat: string, i: int) {
    0 <= i && i + |pat| <= |s| && s[i..i + |pat|] == pat
  }

  /** `pat` occurs somewhere in `s` (possibly overlapping other occurrences). */
  ghost predicate Occurs(s: string, pat: string) {
    exists i :: OccursAt(s, pat, i)
  }

  /** `s.indexOf(pat, from)`: the first occurrence at or after `from`, or -1. */
  function IndexOfFrom(s: string, pat: string, from: nat): (r: int)
    ensures r == -1 || (from <= r && OccursAt(s, pat, r))
    ensures forall j :: from <= j && (r == -1 || j < r) ==> !OccursAt(s, pat, j)
    decreases |s| - from
  {
    if from + |pat| > |s| then -1
    else if s[from..from + |pat|] == pat then from
    else IndexOfFrom(s, pat, from + 1)
  }

  /** `s.indexOf(pat)`: the first occurrence, or -1 when there is none. */
  function IndexOf(s: string, pat: string): (r: int)
    ensures r == -1 <==> !Occurs(s, pat)
    ensures r != -1 ==> OccursAt(s, pat, r) && forall j :: 0 <= j < r ==> !OccursAt(s, pat, j)
  {
    IndexOfFrom(s, pat, 0)
  }

  /** `s.lastIndexOf(pat)` searching downward from index `at`. */
  function LastIndexOfAt(s: string, pat: string, at: int): (r: int)
    requires at + |pat| <= |s|
    ensures r == -1 || (r <= at && OccursAt(s, pat, r))
    ensures forall j :: j <= at && (r == -1 || r < j) ==> !OccursAt(s, pat, j)
    decreases at + 1
  {
    if at < 0 then -1
    else if s[at..at + |pat|] == pat then at
    else LastIndexOfAt(s, pat, at - 1)
  }

  /** `s.lastIndexOf(pat)`: the last occurrence, or -1 when there is none. */
  function LastIndexOf(s: string, pat: string): (r: int)
    ensures r == -1 <==> !Occurs(s, pat)
    ensures r != -1 ==> OccursAt(s, pat, r) && forall j :: r < j ==> !OccursAt(s, pat, j)
  {
    LastIndexOfAt(s, pat, |s| - |pat|)
  }

  /** `s.includes(pat)`, which searches as `indexOf` does. */
  function Includes(s: string, pat: string): (b: bool)
    ensures b <==> Occurs(s, pat)
  {
    IndexOf(s, pat) != -1
  }

  /**
   * `s.slice(start, end)` for non-negative offsets: both ends are clamped to
   * the length, and an empty string results when `end` is not after `start`.
   */
  function Slice(s: string, start: nat, end: nat): (r: string)
    ensures start <= end <= |s| ==> r == s[start..end]
    ensures start <= |s| <= end ==> r == s[start..]
    ensures end <= start || |s| <= start ==> r == ""
  {
    var from := if start < |s| then start else |s|;
    var to := if end < |s| then end else |s|;
    if from < to then s[from..to] else ""
  }
}
