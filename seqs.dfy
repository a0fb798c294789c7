/** Order-preserving sequence operations used by the view code (`Array.prototype.filter`,
    `map`, `[...new Set(xs)]`) and by the extraction script (insertion-ordered dicts). */
module Seqs {

  /** No element occurs twice. */
  predicate Distinct<T(==)>(s: seq<T>) {
    forall i, j :: 0 <= i < j < |s| ==> s[i] != s[j]
  }

  /** `idx` lists, in increasing order, the positions in `s` that the elements of `r` come from:
      `r` is `s` with some elements removed and the rest kept in their relative order. */
  ghost predicate Embeds<T>(r: seq<T>, s: seq<T>, idx: seq<nat>) {
    && |idx| == |r|
    && (forall i :: 0 <= i < |idx| ==> idx[i] < |s| && r[i] == s[idx[i]])
    && (forall i, j :: 0 <= i < j < |idx| ==> idx[i] < idx[j])
  }

  /** The stable filter of `Array.prototype.filter`. */
  function Filter<T(!new)>(s: seq<T>, p: T -> bool): (r: seq<T>)
    ensures |r| <= |s|
    ensures forall x :: x in r <==> x in s && p(x)
  {
    if s == [] then [] else (if p(s[0]) then [s[0]] else []) + Filter(s[1..], p)
  }

  /** `Array.prototype.map`. */
  function Map<T, U>(f: T -> U, s: seq<T>): (r: seq<U>)
    ensures |r| == |s|
    ensures forall i :: 0 <= i < |s| ==> r[i] == f(s[i])
  {
    if s == [] then [] else Map(f, s[..|s| - 1]) + [f(s[|s| - 1])]
  }

  lemma {:induction false} FilterConcat<T(!new)>(a: seq<T>, b: seq<T>, p: T -> bool)
    ensures Filter(a + b, p) == Filter(a, p) + Filter(b, p)
  {
    if a == [] {
      assert a + b == b;
    } else {
      assert (a + b)[1..] == a[1..] + b;
      FilterConcat(a[1..], b, p);
    }
  }

  /** A filter that keeps everything is the identity. */
  lemma {:induction false} FilterKeepsAll<T(!new)>(s: seq<T>, p: T -> bool)
    requires forall x :: x in s ==> p(x)
    ensures Filter(s, p) == s
  {
    if s != [] {
      FilterKeepsAll(s[1..], p);
    }
  }

  /** A filter that keeps nothing is empty. */
  lemma FilterKeepsNone<T(!new)>(s: seq<T>, p: T -> bool)
    requires forall x :: x in s ==> !p(x)
    ensures Filter(s, p) == []
  {
    if Filter(s, p) != [] {
      assert Filter(s, p)[0] in Filter(s, p);
    }
  }

  /** Two predicates that agree on the elements of `s` filter it alike. */
  lemma {:induction false} FilterCongruent<T(!new)>(s: seq<T>, p: T -> bool, q: T -> bool)
    requires forall x :: x in s ==> p(x) == q(x)
    ensures Filter(s, p) == Filter(s, q)
  {
    if s != [] {
      FilterCongruent(s[1..], p, q);
    }
  }

  /** The filter keeps exactly the positions of `s` whose element passes, in their order. */
  lemma {:induction false} FilterEmbeds<T(!new)>(s: seq<T>, p: T -> bool) returns (idx: seq<nat>)
    ensures Embeds(Filter(s, p), s, idx)
    ensures forall j :: 0 <= j < |s| && p(s[j]) ==> j in idx
  {
    if s == [] {
      idx := [];
    } else {
      var rest := FilterEmbeds(s[1..], p);
      idx := ConsEmbeds(s, p, rest);
      ShiftCovers(s, p, rest);
    }
  }

  /** The positions covered for `s[1..]`, shifted, cover the passing positions of `s` after the first. */
  lemma ShiftCovers<T(!new)>(s: seq<T>, p: T -> bool, rest: seq<nat>)
    requires s != []
    requires forall j :: 0 <= j < |s[1..]| && p(s[1..][j]) ==> j in rest
    ensures forall j :: 0 < j < |s| && p(s[j]) ==> j in Shift(rest)
  {
    forall j | 0 < j < |s| && p(s[j]) ensures j in Shift(rest) {
      assert s[1..][j - 1] == s[j];
    }
  }

  /** One step of `FilterEmbeds`: from the positions for `s[1..]` to those for `s`. */
  lemma ConsEmbeds<T(!new)>(s: seq<T>, p: T -> bool, rest: seq<nat>) returns (idx: seq<nat>)
    requires s != [] && Embeds(Filter(s[1..], p), s[1..], rest)
    ensures Embeds(Filter(s, p), s, idx)
    ensures idx == if p(s[0]) then [0] + Shift(rest) else Shift(rest)
  {
    var tail := Filter(s[1..], p);
    var shifted := Shift(rest);
    forall i | 0 <= i < |shifted| ensures shifted[i] < |s| && tail[i] == s[shifted[i]] {
      assert tail[i] == s[1..][rest[i]];
    }
    assert Embeds(tail, s, shifted);
    if p(s[0]) {
      idx := [0] + shifted;
      assert Filter(s, p) == [s[0]] + tail;
    } else {
      idx := shifted;
      assert Filter(s, p) == tail;
    }
  }

  /** Every position moved one place to the right. */
  function Shift(idx: seq<nat>): (r: seq<nat>)
    ensures |r| == |idx|
    ensures forall i :: 0 <= i < |idx| ==> r[i] == idx[i] + 1
    ensures forall j :: j in idx ==> j + 1 in r
    ensures forall k :: k in r ==> k > 0
  {
    if idx == [] then [] else [idx[0] + 1] + Shift(idx[1..])
  }

  /** `[...new Set(s)]`: the distinct elements of `s` in first-occurrence order. */
  function Dedup<T(==,!new)>(s: seq<T>): (r: seq<T>)
    ensures Distinct(r)
    ensures forall x :: x in r <==> x in s
    ensures |r| <= |s|
  {
    if s == [] then []
    else
      var d := Dedup(s[..|s| - 1]);
      if s[|s| - 1] in d then d else d + [s[|s| - 1]]
  }

  /** Deduplicating a prefix gives a prefix of the deduplicated whole: an element's place in
      the result is fixed by its first occurrence and never moves. */
  lemma {:induction false} DedupPrefix<T(!new)>(s: seq<T>, k: nat)
    requires k <= |s|
    ensures Dedup(s[..k]) <= Dedup(s)
  {
    if k < |s| {
      DedupPrefix(s[..|s| - 1], k);
      assert s[..|s| - 1][..k] == s[..k];
    } else {
      assert s[..k] == s;
    }
  }

  /** Appending one element to the input of `Dedup`. */
  lemma DedupSnoc<T(!new)>(s: seq<T>, x: T)
    ensures Dedup(s + [x]) == if x in s then Dedup(s) else Dedup(s) + [x]
  {
    assert (s + [x])[..|s + [x]| - 1] == s;
  }

  /** `Map` of a non-empty sequence: the first element's image, then `Map` of the rest. */
  lemma MapCons<T, U>(f: T -> U, s: seq<T>)
    requires s != []
    ensures Map(f, s) == [f(s[0])] + Map(f, s[1..])
  {
    var r := [f(s[0])] + Map(f, s[1..]);
    forall i | 0 <= i < |s| ensures Map(f, s)[i] == r[i] {
      if i > 0 {
        assert r[i] == Map(f, s[1..])[i - 1];
      }
    }
  }

  /** The positions `outer[inner[i]]`: an embedding of an embedding. */
  function Compose(outer: seq<nat>, inner: seq<nat>): (r: seq<nat>)
    requires forall i :: 0 <= i < |inner| ==> inner[i] < |outer|
    ensures |r| == |inner| && forall i :: 0 <= i < |inner| ==> r[i] == outer[inner[i]]
  {
    seq(|inner|, i requires 0 <= i < |inner| => outer[inner[i]])
  }

  /** Increasing positions into increasing positions are increasing. */
  lemma ComposeIncreasing(outer: seq<nat>, inner: seq<nat>)
    requires forall i :: 0 <= i < |inner| ==> inner[i] < |outer|
    requires forall i, j :: 0 <= i < j < |outer| ==> outer[i] < outer[j]
    requires forall i, j :: 0 <= i < j < |inner| ==> inner[i] < inner[j]
    ensures forall i, j :: 0 <= i < j < |inner| ==> Compose(outer, inner)[i] < Compose(outer, inner)[j]
  {
  }

  lemma MapSnoc<T, U>(f: T -> U, s: seq<T>, x: T)
    ensures Map(f, s + [x]) == Map(f, s) + [f(x)]
  {
    assert (s + [x])[..|s|] == s;
  }

  /** `Map` of a non-empty sequence: that of all but the last element, and the last one's image. */
  lemma MapLast<T, U>(f: T -> U, s: seq<T>)
    requires s != []
    ensures Map(f, s) == Map(f, s[..|s| - 1]) + [f(s[|s| - 1])]
  {
  }

  lemma FilterSnoc<T(!new)>(s: seq<T>, x: T, p: T -> bool)
    ensures Filter(s + [x], p) == Filter(s, p) + (if p(x) then [x] else [])
  {
    FilterConcat(s, [x], p);
  }

  /** The prefix of length `i + 1` is the prefix of length `i` and one more element. */
  lemma PrefixSnoc<T>(s: seq<T>, i: nat)
    requires i < |s|
    ensures s[..i + 1] == s[..i] + [s[i]]
  {
  }

  /** The prefix of full length is the whole sequence. */
  lemma PrefixAll<T>(s: seq<T>)
    ensures s[..|s|] == s
  {
  }

  /** Filtering keeps a sequence free of repeats. */
  lemma {:induction false} FilterDistinct<T(!new)>(s: seq<T>, p: T -> bool)
    requires Distinct(s)
    ensures Distinct(Filter(s, p))
  {
    if s != [] {
      assert Distinct(s[1..]);
      FilterDistinct(s[1..], p);
    }
  }

  /** Two repeat-free sequences with no common element join into a repeat-free sequence. */
  lemma DistinctConcat<T>(a: seq<T>, b: seq<T>)
    requires Distinct(a) && Distinct(b)
    requires forall x :: x in a ==> x !in b
    ensures Distinct(a + b)
  {
    forall i, j | 0 <= i < j < |a + b| ensures (a + b)[i] != (a + b)[j] {
      if i < |a| && j >= |a| {
        assert (a + b)[i] in a && (a + b)[j] == b[j - |a|];
      }
    }
  }
}
