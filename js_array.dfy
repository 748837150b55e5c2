/**
 * The JavaScript array primitives the reducers and views build on:
 * `Array.prototype.findIndex`, `Array.prototype.slice` (with its reading of
 * negative and out-of-range indices) and `Array.prototype.filter`.
 */
module JsArray {

  /** `s.findIndex(item => key(item) === id)`: the first matching position, or -1. */
  function FindIndex<T>(s: seq<T>, key: T -> int, id: int): (r: int)
    ensures -1 <= r < |s|
    ensures r == -1 <==> forall k :: 0 <= k < |s| ==> key(s[k]) != id
    ensures 0 <= r ==> key(s[r]) == id && forall k :: 0 <= k < r ==> key(s[k]) != id
  {
    if |s| == 0 then -1
    else if key(s[0]) == id then 0
    else
      var r := FindIndex(s[1..], key, id);
      if r == -1 then -1 else r + 1
  }

  /** How `slice` reads one of its arguments: a negative index counts back from the end, and the result is clamped to 0..len. */
  function RelativeIndex(k: int, len: nat): (r: nat)
    ensures r <= len
    ensures 0 <= k <= len ==> r == k
    ensures k < 0 && 0 <= len + k ==> r == len + k
  {
    if k < 0 then (if len + k < 0 then 0 else len + k)
    else if k > len then len
    else k
  }

  /** `s.slice(start, end)`; the one-argument `s.slice(start)` is `Slice(s, start, |s|)`. */
  function Slice<T>(s: seq<T>, start: int, end: int): (r: seq<T>)
    ensures |r| <= |s|
    ensures 0 <= start <= end <= |s| ==> r == s[start..end]
    ensures 0 <= end <= start ==> r == []
    ensures 0 <= start && end < 0 && start <= |s| + end ==> r == s[start..|s| + end]
  {
    var from := RelativeIndex(start, |s|);
    var to := RelativeIndex(end, |s|);
    if from < to then s[from..to] else []
  }

  /** `s.slice(0, -1)`: everything but the last element, and `[]` for `[]`. */
  function DropLast<T>(s: seq<T>): (r: seq<T>)
    ensures r == Slice(s, 0, -1)
    ensures s != [] ==> r + [s[|s| - 1]] == s
  {
    if s == [] then [] else s[..|s| - 1]
  }

  /** The two slices around a found index `i` are the elements before and after it. */
  lemma SliceAround<T>(s: seq<T>, i: int)
    requires 0 <= i < |s|
    ensures Slice(s, 0, i) == s[..i] && Slice(s, i + 1, |s|) == s[i + 1..]
  {
  }

  /** The two slices around index -1 (nothing found) are `slice(0, -1)` and the whole list. */
  lemma SliceAroundMissing<T>(s: seq<T>)
    ensures Slice(s, 0, -1) == DropLast(s) && Slice(s, 0, |s|) == s
  {
  }

  /** `s` is obtained from `t` by deleting elements, keeping the order of the rest. */
  predicate IsSubsequence<T(==)>(s: seq<T>, t: seq<T>)
    decreases |t|
  {
    if s == [] then true
    else if t == [] then false
    else (s[0] == t[0] && IsSubsequence(s[1..], t[1..])) || IsSubsequence(s, t[1..])
  }

  lemma {:induction false} SubsequenceOfItself<T>(s: seq<T>)
    ensures IsSubsequence(s, s)
  {
    if s != [] {
      SubsequenceOfItself(s[1..]);
    }
  }

  /** `s.filter(keep)`. */
  function FilterBy<T(==,!new)>(s: seq<T>, keep: T -> bool): (r: seq<T>)
    ensures |r| <= |s|
    ensures forall x :: x in r <==> x in s && keep(x)
    ensures forall x :: multiset(r)[x] == if keep(x) then multiset(s)[x] else 0
    ensures IsSubsequence(r, s)
  {
    if s == [] then []
    else
      var rest := FilterBy(s[1..], keep);
      assert s == [s[0]] + s[1..];
      if keep(s[0]) then [s[0]] + rest else rest
  }
}
