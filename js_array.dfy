/**
 * The array operations the reconciliation code is built from, on sequences:
 * the index rule of `Array.prototype.slice` and `splice`, inserting with two
 * slices, removing with `splice(i, 1)`, and `arrayMove` of the sortable
 * drag-and-drop library.
 */
module JsArray {

  /** How `slice` and `splice` read a position `k` against a length `len`:
      a negative `k` counts back from the end, and the result is clamped to `0..len`. */
  function RelativeIndex(k: int, len: nat): (p: nat)
    ensures p <= len
    ensures 0 <= k <= len ==> p == k
    ensures k < 0 && 0 <= len + k ==> p == len + k
  {
    if k < 0 then (if len + k < 0 then 0 else len + k)
    else if k < len then k
    else len
  }

  /** `s.splice(i, 1)`: the sequence without its element at `i`. */
  function RemoveAt<T>(s: seq<T>, i: nat): (r: seq<T>)
    requires i < |s|
    ensures |r| == |s| - 1
    ensures forall j :: 0 <= j < i ==> r[j] == s[j]
    ensures forall j :: i <= j < |r| ==> r[j] == s[j + 1]
  {
    s[..i] + s[i + 1..]
  }

  /** Removal takes exactly the one element out of the multiset. */
  lemma RemoveAtMultiset<T>(s: seq<T>, i: nat)
    requires i < |s|
    ensures multiset(RemoveAt(s, i)) + multiset{s[i]} == multiset(s)
  {
    assert s == s[..i] + [s[i]] + s[i + 1..];
  }

  /** `[...s.slice(0, k), x, ...s.slice(k)]`: `x` inserted at the position `k` names. */
  function InsertAt<T>(s: seq<T>, k: int, x: T): (r: seq<T>)
    ensures |r| == |s| + 1
    ensures r[RelativeIndex(k, |s|)] == x
  {
    var p := RelativeIndex(k, |s|);
    s[..p] + [x] + s[p..]
  }

  /** Removing the inserted element gives the sequence back, and the multiset
      gains exactly that element. */
  lemma InsertAtInverse<T>(s: seq<T>, k: int, x: T)
    ensures RemoveAt(InsertAt(s, k, x), RelativeIndex(k, |s|)) == s
    ensures multiset(InsertAt(s, k, x)) == multiset(s) + multiset{x}
  {
    var p := RelativeIndex(k, |s|);
    assert s == s[..p] + s[p..];
    assert RemoveAt(InsertAt(s, k, x), p) == s[..p] + s[p..];
  }

  /** Where `ArrayMove(s, from, to)` puts the moved element, for `|s| == n`. */
  function MoveTarget(n: nat, to: int): (p: nat)
    requires n > 0
    ensures p < n
  {
    RelativeIndex(if to < 0 then n + to else to, n - 1)
  }

  /**
   * `arrayMove(array, from, to)` of the sortable library: copy the array, splice
   * the element at `from` out, and splice it back in at `to`, where a negative
   * `to` is taken against the length BEFORE the removal (that argument is
   * evaluated first). The moved element lands at `MoveTarget(|s|, to)`, and
   * everything else keeps its relative order.
   */
  function ArrayMove<T>(s: seq<T>, from: nat, to: int): (r: seq<T>)
    requires from < |s|
    ensures |r| == |s|
    ensures r[MoveTarget(|s|, to)] == s[from]
  {
    InsertAt(RemoveAt(s, from), if to < 0 then |s| + to else to, s[from])
  }

  /** `arrayMove` is a permutation: the other elements keep their relative order,
      and the multiset is unchanged. */
  lemma ArrayMovePermutation<T>(s: seq<T>, from: nat, to: int)
    requires from < |s|
    ensures RemoveAt(ArrayMove(s, from, to), MoveTarget(|s|, to)) == RemoveAt(s, from)
    ensures multiset(ArrayMove(s, from, to)) == multiset(s)
  {
    InsertAtInverse(RemoveAt(s, from), if to < 0 then |s| + to else to, s[from]);
    RemoveAtMultiset(s, from);
  }

  /** Removing an element and inserting it back where it was gives the sequence back. */
  lemma RemoveInsertRoundTrip<T>(s: seq<T>, i: nat)
    requires i < |s|
    ensures InsertAt(RemoveAt(s, i), i, s[i]) == s
  {
    var r := InsertAt(RemoveAt(s, i), i, s[i]);
    assert |r| == |s|;
    forall j | 0 <= j < |s| ensures r[j] == s[j] {
      if j < i {
        assert r[j] == RemoveAt(s, i)[j];
      } else if j > i {
        assert r[j] == RemoveAt(s, i)[j - 1];
      }
    }
  }

  /** An index inside the array is taken as it is: the element ends exactly at `to`. */
  lemma MoveTargetInside(n: nat, to: int)
    requires 0 <= to < n
    ensures MoveTarget(n, to) == to
  {
  }

  /** `to == -1` names the last slot of the result: the element is moved to the end. */
  lemma ArrayMoveToLast<T>(s: seq<T>, from: nat)
    requires from < |s|
    ensures ArrayMove(s, from, -1) == RemoveAt(s, from) + [s[from]]
  {
    var rest := RemoveAt(s, from);
    assert RelativeIndex(|s| - 1, |rest|) == |rest|;
    assert rest[..|rest|] == rest;
  }

  /** Moving an element onto its own position changes nothing. */
  lemma ArrayMoveOntoItself<T>(s: seq<T>, i: nat)
    requires i < |s|
    ensures ArrayMove(s, i, i) == s
  {
    RemoveInsertRoundTrip(s, i);
  }

  /** The index of `s` that `ArrayMove(s, from, to)` puts at position `q`. */
  function MoveSource(n: nat, from: nat, to: int, q: nat): (src: nat)
    requires from < n && q < n
    ensures src < n
  {
    var p := MoveTarget(n, to);
    if q == p then from
    else
      var q' := if q < p then q else q - 1;
      if q' < from then q' else q' + 1
  }

  /** Every position of the result holds the element `MoveSource` names. */
  lemma ArrayMoveAt<T>(s: seq<T>, from: nat, to: int, q: nat)
    requires from < |s| && q < |s|
    ensures ArrayMove(s, from, to)[q] == s[MoveSource(|s|, from, to, q)]
  {
    var p := MoveTarget(|s|, to);
    var r := ArrayMove(s, from, to);
    ArrayMovePermutation(s, from, to);
    if q != p {
      var q' := if q < p then q else q - 1;
      assert r[q] == RemoveAt(r, p)[q'];
    }
  }

  /** Distinct positions of the result come from distinct positions of the input:
      `ArrayMove` is a permutation of positions. */
  lemma MoveSourceInjective(n: nat, from: nat, to: int, i: nat, j: nat)
    requires from < n && i < n && j < n && i != j
    ensures MoveSource(n, from, to, i) != MoveSource(n, from, to, j)
  {
  }
}
