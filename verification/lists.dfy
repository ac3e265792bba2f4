/**
The array operations the request handlers are built from (`find`,
`findIndex`, `splice(i, 1)`, `filter(...).length`), stated over immutable
sequences, together with the predicates the store invariants are made of
and the facts about how those predicates survive an append or a removal.
*/
module Lists {

  /** An optional value; `None` stands for JavaScript's "not found". */
  datatype Option<+T> = None | Some(value: T)

  /** `Array.prototype.findIndex`: the position of the first element that
      satisfies `p`, or `None` where JavaScript answers -1. */
  function FindIndex<T>(s: seq<T>, p: T -> bool): (r: Option<nat>)
    ensures r.Some? ==> r.value < |s| && p(s[r.value])
    ensures r.Some? ==> forall j :: 0 <= j < r.value ==> !p(s[j])
    ensures r.None? <==> forall j :: 0 <= j < |s| ==> !p(s[j])
  {
    if |s| == 0 then None
    else if p(s[0]) then Some(0)
    else match FindIndex(s[1..], p)
      case None => None
      case Some(i) => Some(i + 1)
  }

  /** The position of the first element whose `key` is `k`: the
      `x => x.field === k` lookups of the handlers. */
  function IndexOf<T, K(==)>(s: seq<T>, key: T -> K, k: K): (r: Option<nat>)
    ensures r.Some? ==> r.value < |s| && key(s[r.value]) == k
    ensures r.Some? ==> forall j :: 0 <= j < r.value ==> key(s[j]) != k
    ensures r.None? <==> forall j :: 0 <= j < |s| ==> key(s[j]) != k
  {
    FindIndex(s, (x: T) => key(x) == k)
  }

  /** `splice(i, 1)`: drop the element at `i`, keep the others in order. */
  function RemoveAt<T>(s: seq<T>, i: nat): (r: seq<T>)
    requires i < |s|
    ensures |r| == |s| - 1
    ensures forall j :: 0 <= j < i ==> r[j] == s[j]
    ensures forall j :: i <= j < |r| ==> r[j] == s[j + 1]
    ensures multiset(r) + multiset{s[i]} == multiset(s)
  {
    assert s == s[..i] + [s[i]] + s[i + 1..];
    s[..i] + s[i + 1..]
  }

  /** The shape shared by every delete-by-id route: find the first record
      whose id is the parsed path id and splice it out. `id` is `None` when
      the path segment is not a number (`parseInt` gives NaN, which equals
      nothing). `None` as the result means "not found". */
  function DeleteById<T>(s: seq<T>, key: T -> int, id: Option<int>): (r: Option<seq<T>>)
    ensures r.None? <==> id.None? || forall j :: 0 <= j < |s| ==> key(s[j]) != id.value
    ensures r.Some? ==>
      exists i :: 0 <= i < |s| && key(s[i]) == id.value
        && (forall j :: 0 <= j < i ==> key(s[j]) != id.value)
        && r.value == RemoveAt(s, i)
  {
    if id.None? then None
    else match IndexOf(s, key, id.value)
      case None => None
      case Some(i) => Some(RemoveAt(s, i))
  }

  /** How many elements have key `k`. */
  function Occurrences<T, K(==)>(s: seq<T>, key: T -> K, k: K): (n: nat)
    ensures n <= |s|
    ensures n == 0 <==> forall j :: 0 <= j < |s| ==> key(s[j]) != k
  {
    if |s| == 0 then 0
    else (if key(s[0]) == k then 1 else 0) + Occurrences(s[1..], key, k)
  }

  /** `filter(x => stamp(x) > cutoff).length`. */
  function CountAbove<T>(s: seq<T>, stamp: T -> int, cutoff: int): (n: nat)
    ensures n <= |s|
    ensures n == |s| <==> forall j :: 0 <= j < |s| ==> stamp(s[j]) > cutoff
    ensures n == 0 <==> forall j :: 0 <= j < |s| ==> stamp(s[j]) <= cutoff
  {
    if |s| == 0 then 0
    else (if stamp(s[0]) > cutoff then 1 else 0) + CountAbove(s[1..], stamp, cutoff)
  }

  ghost predicate Every<T>(s: seq<T>, p: T -> bool) {
    forall i :: 0 <= i < |s| ==> p(s[i])
  }

  /** No two elements share a key. */
  ghost predicate Distinct<T, K>(s: seq<T>, key: T -> K) {
    forall i, j :: 0 <= i < j < |s| ==> key(s[i]) != key(s[j])
  }

  /** Keys strictly increase from the oldest element to the newest. */
  ghost predicate Increasing<T>(s: seq<T>, key: T -> int) {
    forall i, j :: 0 <= i < j < |s| ==> key(s[i]) < key(s[j])
  }

  /** Every key is below `bound` (the next id a counter will hand out). */
  ghost predicate Below<T>(s: seq<T>, key: T -> int, bound: int) {
    forall i :: 0 <= i < |s| ==> key(s[i]) < bound
  }

  /** The element at position `i` has key `i + 1`: what `length + 1` ids
      give as long as nothing is ever removed. */
  ghost predicate Positional<T>(s: seq<T>, key: T -> int) {
    forall i :: 0 <= i < |s| ==> key(s[i]) == i + 1
  }

  lemma IncreasingIsDistinct<T>(s: seq<T>, key: T -> int)
    requires Increasing(s, key)
    ensures Distinct(s, key)
  {
  }

  lemma PositionalIsIncreasing<T>(s: seq<T>, key: T -> int)
    requires Positional(s, key)
    ensures Increasing(s, key)
  {
  }

  /** A removal keeps each of the invariant shapes. */
  lemma RemoveAtKeeps<T, K>(s: seq<T>, i: nat, p: T -> bool, name: T -> K, id: T -> int, bound: int)
    requires i < |s|
    ensures Every(s, p) ==> Every(RemoveAt(s, i), p)
    ensures Distinct(s, name) ==> Distinct(RemoveAt(s, i), name)
    ensures Increasing(s, id) ==> Increasing(RemoveAt(s, i), id)
    ensures Below(s, id, bound) ==> Below(RemoveAt(s, i), id, bound)
  {
    var r := RemoveAt(s, i);
    // Position j of r holds position j or j + 1 of s, monotonically in j.
    forall j | 0 <= j < |r|
      ensures r[j] == s[if j < i then j else j + 1]
    {
    }
  }

  /** Once the id is unique, deleting it twice finds nothing the second time. */
  lemma {:induction false} DeleteByIdOnce<T>(s: seq<T>, key: T -> int, id: Option<int>)
    requires Distinct(s, key)
    requires DeleteById(s, key, id).Some?
    ensures DeleteById(DeleteById(s, key, id).value, key, id).None?
  {
    var i :| 0 <= i < |s| && key(s[i]) == id.value
      && (forall j :: 0 <= j < i ==> key(s[j]) != id.value)
      && DeleteById(s, key, id).value == RemoveAt(s, i);
    var r := RemoveAt(s, i);
    forall j | 0 <= j < |r|
      ensures key(r[j]) != id.value
    {
      if j >= i {
        assert r[j] == s[j + 1];
        assert key(s[i]) != key(s[j + 1]);
      }
    }
  }

  /** Distinct keys means each key occurs at most once, and conversely. */
  lemma {:induction false} DistinctIffAtMostOnce<T, K>(s: seq<T>, key: T -> K)
    ensures Distinct(s, key) <==> forall k :: Occurrences(s, key, k) <= 1
  {
    if Distinct(s, key) {
      forall k
        ensures Occurrences(s, key, k) <= 1
      {
        AtMostOnce(s, key, k);
      }
    } else {
      var i, j :| 0 <= i < j < |s| && key(s[i]) == key(s[j]);
      TwiceCounted(s, key, i, j);
      assert Occurrences(s, key, key(s[i])) > 1;
    }
  }

  lemma {:induction false} AtMostOnce<T, K>(s: seq<T>, key: T -> K, k: K)
    requires Distinct(s, key)
    ensures Occurrences(s, key, k) <= 1
  {
    if |s| > 0 {
      assert Distinct(s[1..], key) by {
        forall i, j | 0 <= i < j < |s[1..]|
          ensures key(s[1..][i]) != key(s[1..][j])
        {
          assert s[1..][i] == s[i + 1] && s[1..][j] == s[j + 1];
        }
      }
      AtMostOnce(s[1..], key, k);
      if key(s[0]) == k {
        forall j | 0 <= j < |s[1..]|
          ensures key(s[1..][j]) != k
        {
          assert s[1..][j] == s[j + 1];
        }
      }
    }
  }

  lemma {:induction false} TwiceCounted<T, K>(s: seq<T>, key: T -> K, i: nat, j: nat)
    requires i < j < |s| && key(s[i]) == key(s[j])
    ensures Occurrences(s, key, key(s[i])) >= 2
  {
    if i == 0 {
      assert s[1..][j - 1] == s[j];
      assert Occurrences(s[1..], key, key(s[i])) != 0;
    } else {
      assert s[1..][i - 1] == s[i] && s[1..][j - 1] == s[j];
      TwiceCounted(s[1..], key, i - 1, j - 1);
    }
  }

  /** Appending one element adds one to the count exactly when it is above
      the cutoff. */
  lemma {:induction false} CountAboveAppend<T>(s: seq<T>, stamp: T -> int, cutoff: int, x: T)
    ensures CountAbove(s + [x], stamp, cutoff)
         == CountAbove(s, stamp, cutoff) + (if stamp(x) > cutoff then 1 else 0)
  {
    if |s| == 0 {
      assert s + [x] == [x];
    } else {
      assert (s + [x])[1..] == s[1..] + [x];
      CountAboveAppend(s[1..], stamp, cutoff, x);
    }
  }
}
