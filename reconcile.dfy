/**
 * How the containers reconcile their list with a server reply after an update
 * or a delete. All three (the todo slice, the category slice and the status
 * page) locate the record with `findIndex` and rebuild the list from two
 * `slice`s around that index, so an id that is not in the list (index -1)
 * does not leave the list alone: `slice(0, -1)` drops the last element and
 * `slice(0)` is the whole list.
 */
module Reconcile {
  import opened JsArray

  /** The record with this key occurs somewhere in the list. */
  predicate Present<T>(s: seq<T>, key: T -> int, id: int)
  {
    exists k :: 0 <= k < |s| && key(s[k]) == id
  }

  /** `[...s.slice(0, i), x, ...s.slice(i + 1)]` where `i` is the first index whose key is `id`. */
  function Replaced<T>(s: seq<T>, key: T -> int, id: int, x: T): (r: seq<T>)
    ensures var i := FindIndex(s, key, id);
      (0 <= i ==> r == s[i := x]) &&
      (i == -1 ==> r == DropLast(s) + [x] + s)
  {
    var i := FindIndex(s, key, id);
    if 0 <= i then
      SliceAround(s, i);
      assert s[..i] + [x] + s[i + 1..] == s[i := x];
      Slice(s, 0, i) + [x] + Slice(s, i + 1, |s|)
    else
      SliceAroundMissing(s);
      Slice(s, 0, i) + [x] + Slice(s, i + 1, |s|)
  }

  /** `[...s.slice(0, i), ...s.slice(i + 1)]` where `i` is the first index whose key is `id`. */
  function Removed<T>(s: seq<T>, key: T -> int, id: int): (r: seq<T>)
    ensures var i := FindIndex(s, key, id);
      (0 <= i ==> r == s[..i] + s[i + 1..] && |r| == |s| - 1) &&
      (i == -1 ==> r == DropLast(s) + s)
  {
    var i := FindIndex(s, key, id);
    if 0 <= i then
      SliceAround(s, i);
      Slice(s, 0, i) + Slice(s, i + 1, |s|)
    else
      SliceAroundMissing(s);
      Slice(s, 0, i) + Slice(s, i + 1, |s|)
  }

  /** FindIndex finds a present id. */
  lemma Found<T>(s: seq<T>, key: T -> int, id: int)
    requires Present(s, key, id)
    ensures 0 <= FindIndex(s, key, id)
  {
  }

  /** Reference meaning of "replace the record with this id": the first match, and nothing if there is none. */
  function ReplaceFirst<T>(s: seq<T>, key: T -> int, id: int, x: T): seq<T>
  {
    if s == [] then []
    else if key(s[0]) == id then [x] + s[1..]
    else [s[0]] + ReplaceFirst(s[1..], key, id, x)
  }

  /** Reference meaning of "remove the record with this id": the first match, and nothing if there is none. */
  function RemoveFirst<T>(s: seq<T>, key: T -> int, id: int): seq<T>
  {
    if s == [] then []
    else if key(s[0]) == id then s[1..]
    else [s[0]] + RemoveFirst(s[1..], key, id)
  }

  /** With the id present, the slice-based update is the reference replacement. */
  lemma ReplacedIsReplaceFirst<T>(s: seq<T>, key: T -> int, id: int, x: T)
    requires Present(s, key, id)
    ensures Replaced(s, key, id, x) == ReplaceFirst(s, key, id, x)
  {
    Found(s, key, id);
    ReplaceFirstAt(s, key, id, x);
  }

  /** With the id present, the slice-based delete is the reference removal. */
  lemma RemovedIsRemoveFirst<T>(s: seq<T>, key: T -> int, id: int)
    requires Present(s, key, id)
    ensures Removed(s, key, id) == RemoveFirst(s, key, id)
  {
    Found(s, key, id);
    RemoveFirstAt(s, key, id);
  }

  /** The reference replacement changes exactly the position `findIndex` reports. */
  lemma {:induction false} ReplaceFirstAt<T>(s: seq<T>, key: T -> int, id: int, x: T)
    requires 0 <= FindIndex(s, key, id)
    ensures ReplaceFirst(s, key, id, x) == s[FindIndex(s, key, id) := x]
  {
    var i := FindIndex(s, key, id);
    if key(s[0]) == id {
      assert i == 0;
      assert s[0 := x] == [x] + s[1..];
    } else {
      assert FindIndex(s[1..], key, id) == i - 1;
      ReplaceFirstAt(s[1..], key, id, x);
      assert s[i := x] == [s[0]] + s[1..][i - 1 := x];
    }
  }

  /** The reference removal drops exactly the position `findIndex` reports. */
  lemma {:induction false} RemoveFirstAt<T>(s: seq<T>, key: T -> int, id: int)
    requires 0 <= FindIndex(s, key, id)
    ensures RemoveFirst(s, key, id) == s[..FindIndex(s, key, id)] + s[FindIndex(s, key, id) + 1..]
  {
    var i := FindIndex(s, key, id);
    if key(s[0]) == id {
      assert i == 0;
      assert s[..0] + s[1..] == s[1..];
    } else {
      assert FindIndex(s[1..], key, id) == i - 1;
      RemoveFirstAt(s[1..], key, id);
      assert s[1..][..i - 1] + s[1..][i..] == s[1..i] + s[i + 1..];
      assert [s[0]] + (s[1..i] + s[i + 1..]) == s[..i] + s[i + 1..];
    }
  }

  /** The reference replacement leaves a list without the id unchanged. */
  lemma {:induction false} ReplaceFirstAbsent<T>(s: seq<T>, key: T -> int, id: int, x: T)
    requires !Present(s, key, id)
    ensures ReplaceFirst(s, key, id, x) == s
  {
    if s != [] {
      assert key(s[0]) != id;
      assert !Present(s[1..], key, id) by {
        forall k | 0 <= k < |s[1..]| ensures key(s[1..][k]) != id {
          assert s[1..][k] == s[k + 1];
        }
      }
      ReplaceFirstAbsent(s[1..], key, id, x);
    }
  }

  /** The reference removal leaves a list without the id unchanged. */
  lemma {:induction false} RemoveFirstAbsent<T>(s: seq<T>, key: T -> int, id: int)
    requires !Present(s, key, id)
    ensures RemoveFirst(s, key, id) == s
  {
    if s != [] {
      assert key(s[0]) != id;
      assert !Present(s[1..], key, id) by {
        forall k | 0 <= k < |s[1..]| ensures key(s[1..][k]) != id {
          assert s[1..][k] == s[k + 1];
        }
      }
      RemoveFirstAbsent(s[1..], key, id);
    }
  }

  /** Unlike the reference, the slice-based update never leaves a list without the id unchanged: it becomes `slice(0, -1)`, the reply, then the whole old list. */
  lemma UpdateAbsentIsNotNoop<T>(s: seq<T>, key: T -> int, id: int, x: T)
    requires !Present(s, key, id)
    ensures |Replaced(s, key, id, x)| == if s == [] then 1 else 2 * |s|
    ensures Replaced(s, key, id, x) != s
  {
  }

  /** Unlike the reference, the slice-based delete with an absent id is a no-op only on lists of at most one record. */
  lemma DeleteAbsentNoopIffShort<T>(s: seq<T>, key: T -> int, id: int)
    requires !Present(s, key, id)
    ensures Removed(s, key, id) == s <==> |s| <= 1
  {
    if |s| > 1 {
      assert |Removed(s, key, id)| == 2 * |s| - 1;
    }
  }

  /** Deleting a present id removes exactly one occurrence of the record found, and nothing else. */
  lemma {:induction false} RemovedMultiset<T>(s: seq<T>, key: T -> int, id: int)
    requires Present(s, key, id)
    ensures var i := FindIndex(s, key, id);
      0 <= i && multiset(Removed(s, key, id)) + multiset{s[i]} == multiset(s)
  {
    Found(s, key, id);
    var i := FindIndex(s, key, id);
    assert s == s[..i] + [s[i]] + s[i + 1..];
  }
}
