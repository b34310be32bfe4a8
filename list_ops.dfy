/**
 * The JavaScript array built-ins the stores and the toast list rely on, on sequences:
 * `findIndex`, `filter` and the one-element forms of `splice`, with the start-index
 * normalisation of Array.prototype.splice in the ECMAScript Language Specification
 * (a negative start counts from the end, a start past the end is clamped to the length).
 */
module ListOps {

  /** `s.findIndex(p)`: the first index whose element satisfies `p`, or -1. */
  function FindIndex<T>(s: seq<T>, p: T -> bool): (r: int)
    ensures -1 <= r < |s|
    ensures r == -1 <==> forall i :: 0 <= i < |s| ==> !p(s[i])
    ensures 0 <= r ==> p(s[r]) && forall i :: 0 <= i < r ==> !p(s[i])
  {
    if |s| == 0 then -1
    else if p(s[0]) then 0
    else
      var k := FindIndex(s[1..], p);
      if k == -1 then -1 else k + 1
  }

  /** `s.filter(p)`: the elements satisfying `p`, in their original order. */
  function Filter<T>(s: seq<T>, p: T -> bool): (r: seq<T>)
    ensures |r| <= |s|
    ensures forall i :: 0 <= i < |r| ==> p(r[i]) && r[i] in s
    ensures forall i :: 0 <= i < |s| && p(s[i]) ==> s[i] in r
  {
    if s == [] then []
    else
      assert s == [s[0]] + s[1..];
      (if p(s[0]) then [s[0]] else []) + Filter(s[1..], p)
  }

  /** Filtering distributes over concatenation, so the filter keeps the relative order of what it keeps. */
  lemma {:induction false} FilterConcat<T>(a: seq<T>, b: seq<T>, p: T -> bool)
    ensures Filter(a + b, p) == Filter(a, p) + Filter(b, p)
  {
    if a == [] {
      assert a + b == b;
    } else {
      assert (a + b)[0] == a[0];
      assert (a + b)[1..] == a[1..] + b;
      FilterConcat(a[1..], b, p);
    }
  }

  /** Filtering a one-element list keeps it exactly when the element satisfies `p`. */
  lemma FilterSingleton<T>(x: T, p: T -> bool)
    ensures Filter([x], p) == if p(x) then [x] else []
  {
    assert [x][1..] == [];
  }

  /** The index Array.prototype.splice starts at when given `start` on a list of length `len`. */
  function SpliceStart(start: int, len: nat): (k: nat)
    ensures k <= len
  {
    if start < 0 then (if len + start < 0 then 0 else len + start)
    else if start > len then len
    else start
  }

  /** `s` without its element at index `k`. */
  function RemoveAt<T>(s: seq<T>, k: nat): (r: seq<T>)
    requires k < |s|
    ensures |r| == |s| - 1
    ensures forall j :: 0 <= j < k ==> r[j] == s[j]
    ensures forall j :: k <= j < |r| ==> r[j] == s[j + 1]
    ensures multiset(r) + multiset{s[k]} == multiset(s)
  {
    assert s == s[..k] + [s[k]] + s[k + 1..];
    s[..k] + s[k + 1..]
  }

  /** What `s.splice(start, 1)` leaves in the list. */
  function SpliceRemove<T>(s: seq<T>, start: int): (r: seq<T>)
    // a start inside the list removes that element, one past the end removes nothing
    ensures var k := SpliceStart(start, |s|);
      && (k < |s| ==> r == s[..k] + s[k + 1..])
      && (k == |s| ==> r == s)
    // `splice(-1, 1)` removes the last element
    ensures start == -1 && s != [] ==> r == s[..|s| - 1]
  {
    var k := SpliceStart(start, |s|);
    if k < |s| then RemoveAt(s, k) else s
  }

  /** What `s.splice(start, 0, x)` leaves in the list. */
  function SpliceInsert<T>(s: seq<T>, start: int, x: T): (r: seq<T>)
    ensures |r| == |s| + 1
    ensures r[SpliceStart(start, |s|)] == x
    ensures RemoveAt(r, SpliceStart(start, |s|)) == s
    ensures multiset(r) == multiset(s) + multiset{x}
  {
    var k := SpliceStart(start, |s|);
    var r := s[..k] + [x] + s[k..];
    assert r[..k] == s[..k] && r[k + 1..] == s[k..];
    assert s == s[..k] + s[k..];
    r
  }

  /**
   * `const [x] = s.splice(from, 1); s.splice(to, 0, x)`: the element at `from` moved to
   * `to`, where `to` is read as an index of the list AFTER the removal.
   */
  function SpliceMove<T>(s: seq<T>, from: nat, to: int): (r: seq<T>)
    requires from < |s|
  {
    SpliceInsert(RemoveAt(s, from), to, s[from])
  }

  /**
   * A move is a permutation that puts the moved element at the clamped target index and
   * keeps every other element in its relative order: those before the target index stay where
   * they are in the list without the moved element, those after it shift up by one.
   */
  lemma SpliceMoveFacts<T>(s: seq<T>, from: nat, to: int)
    requires from < |s|
    ensures var r := SpliceMove(s, from, to);
      var pos := SpliceStart(to, |s| - 1);
      && |r| == |s|
      && multiset(r) == multiset(s)
      && r[pos] == s[from]
      && RemoveAt(r, pos) == RemoveAt(s, from)
      && (forall j :: 0 <= j < pos ==> r[j] == RemoveAt(s, from)[j])
      && (forall j :: pos < j < |r| ==> r[j] == RemoveAt(s, from)[j - 1])
  {
    var r, pos := SpliceMove(s, from, to), SpliceStart(to, |s| - 1);
    forall j | pos < j < |r|
      ensures r[j] == RemoveAt(s, from)[j - 1]
    {
      assert r[j] == RemoveAt(r, pos)[j - 1];
    }
  }
}
