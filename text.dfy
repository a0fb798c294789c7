/** String helpers: `uri.split("/")[-1]`, `toLowerCase` and `includes`. */
module Text {

  /** The last `/`-separated segment of `uri` (Python's `uri.split("/")[-1]`): the longest
      suffix without a slash. It is empty when `uri` ends in `/`, and all of `uri` when it
      has no slash. */
  function LastSegment(uri: string): (seg: string)
    ensures '/' !in seg
    ensures |seg| <= |uri| && forall i :: 0 <= i < |seg| ==> seg[i] == uri[|uri| - |seg| + i]
    ensures |seg| == |uri| || uri[|uri| - |seg| - 1] == '/'
  {
    if uri == [] || uri[|uri| - 1] == '/' then []
    else LastSegment(uri[..|uri| - 1]) + [uri[|uri| - 1]]
  }

  function LowerChar(c: char): char {
    if 'A' <= c <= 'Z' then (c as int + 32) as char else c
  }

  /** `String.prototype.toLowerCase`, restricted to the ASCII letters. */
  function Lower(s: string): (r: string)
    ensures |r| == |s|
    ensures forall i :: 0 <= i < |s| ==> r[i] == LowerChar(s[i])
    ensures forall i :: 0 <= i < |r| ==> !('A' <= r[i] <= 'Z')
  {
    if s == [] then [] else [LowerChar(s[0])] + Lower(s[1..])
  }

  /** Lower-casing twice is lower-casing once. */
  lemma LowerIdempotent(s: string)
    ensures Lower(Lower(s)) == Lower(s)
  {
  }

  /** `needle` occurs in `hay` starting at position `i`. */
  predicate OccursAt(hay: string, needle: string, i: int) {
    0 <= i <= |hay| - |needle| && hay[i..i + |needle|] == needle
  }

  /** `hay.includes(needle)`: `needle` occurs in `hay` at some position. */
  function Contains(hay: string, needle: string): (b: bool)
    ensures b <==> exists i :: OccursAt(hay, needle, i)
  {
    ContainsFrom(hay, needle, 0)
  }

  /** `needle` occurs in `hay` at position `from` or later. */
  function ContainsFrom(hay: string, needle: string, from: nat): (b: bool)
    ensures b <==> exists i :: from <= i && OccursAt(hay, needle, i)
    decreases |hay| - from
  {
    if from + |needle| > |hay| then false
    else OccursAt(hay, needle, from) || ContainsFrom(hay, needle, from + 1)
  }
}
