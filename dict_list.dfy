/**
 * The by-id list operations both dictionary stores (src/stores/dictStore.ts and its older
 * src/stores/dictStore.js) perform on their list of dictionary entries: find the first entry
 * with an id, delete it, and move one entry before or after another with a pair of splices.
 * Entries are of any type `T` with an id given by `idOf`.
 */
module DictList {
  import opened ListOps

  /** `items.findIndex((dict) => dict.id === id)`. */
  function IndexOf<T>(items: seq<T>, idOf: T -> string, id: string): (k: int)
    ensures -1 <= k < |items|
    ensures k == -1 <==> forall j :: 0 <= j < |items| ==> idOf(items[j]) != id
    ensures 0 <= k ==> idOf(items[k]) == id && forall j :: 0 <= j < k ==> idOf(items[j]) != id
  {
    FindIndex(items, (x: T) => idOf(x) == id)
  }

  /** `deleteDict(id)`: the list without the first entry with the id, or as it was when there is none. */
  function Deleted<T>(items: seq<T>, idOf: T -> string, id: string): (r: seq<T>)
    ensures IndexOf(items, idOf, id) == -1 ==> r == items
    ensures var k := IndexOf(items, idOf, id);
      0 <= k ==>
        && |r| == |items| - 1
        && r == items[..k] + items[k + 1..]
        && multiset(r) + multiset{items[k]} == multiset(items)
  {
    var k := IndexOf(items, idOf, id);
    if k == -1 then items else RemoveAt(items, k)
  }

  /**
   * `items.find((dict) => dict.id === id)` followed by an update of the entry found, in place:
   * only the first entry with the id changes.
   */
  function Updated<T>(items: seq<T>, idOf: T -> string, id: string, update: T -> T): (r: seq<T>)
    ensures |r| == |items|
    ensures IndexOf(items, idOf, id) == -1 ==> r == items
    ensures var k := IndexOf(items, idOf, id);
      0 <= k ==> r[k] == update(items[k]) && forall j :: 0 <= j < |items| && j != k ==> r[j] == items[j]
  {
    var k := IndexOf(items, idOf, id);
    if k == -1 then items else items[k := update(items[k])]
  }

  /** An update that keeps the id keeps every entry where it is for later lookups by id. */
  lemma UpdatedKeepsIndex<T>(items: seq<T>, idOf: T -> string, id: string, update: T -> T, other: string)
    requires forall x :: idOf(update(x)) == idOf(x)
    ensures IndexOf(Updated(items, idOf, id, update), idOf, other) == IndexOf(items, idOf, other)
  {
    var r := Updated(items, idOf, id, update);
    assert forall j :: 0 <= j < |r| ==> idOf(r[j]) == idOf(items[j]);
  }

  /**
   * `moveDictBefore(id, beforeId)`: with both present, the entry with `id` is taken out and put
   * back at the index `beforeId` had BEFORE the removal.
   */
  function MovedBefore<T>(items: seq<T>, idOf: T -> string, id: string, beforeId: string): (r: seq<T>)
    ensures IndexOf(items, idOf, id) == -1 || IndexOf(items, idOf, beforeId) == -1 ==> r == items
    ensures var i, b := IndexOf(items, idOf, id), IndexOf(items, idOf, beforeId);
      0 <= i && 0 <= b ==>
        && |r| == |items|
        && multiset(r) == multiset(items)
        && r[b] == items[i]
        && RemoveAt(r, b) == RemoveAt(items, i)
  {
    var i := IndexOf(items, idOf, id);
    var b := IndexOf(items, idOf, beforeId);
    if i == -1 || b == -1 then items
    else
      SpliceMoveFacts(items, i, b);
      SpliceMove(items, i, b)
  }

  /**
   * `moveDictAfter(id, afterId)`: with both present, the entry with `id` is taken out and put
   * back at the index after the one `afterId` had BEFORE the removal, clamped to the end.
   */
  function MovedAfter<T>(items: seq<T>, idOf: T -> string, id: string, afterId: string): (r: seq<T>)
    ensures IndexOf(items, idOf, id) == -1 || IndexOf(items, idOf, afterId) == -1 ==> r == items
    ensures var i, a := IndexOf(items, idOf, id), IndexOf(items, idOf, afterId);
      0 <= i && 0 <= a ==>
        var p := if a + 1 < |items| then a + 1 else |items| - 1;
        && |r| == |items|
        && multiset(r) == multiset(items)
        && r[p] == items[i]
        && RemoveAt(r, p) == RemoveAt(items, i)
  {
    var i := IndexOf(items, idOf, id);
    var a := IndexOf(items, idOf, afterId);
    if i == -1 || a == -1 then items
    else
      SpliceMoveFacts(items, i, a + 1);
      SpliceMove(items, i, a + 1)
  }

  /** Moving an entry towards the front, the index read before the removal is still right. */
  lemma MovesAgreeUpwards<T>(items: seq<T>, idOf: T -> string, id: string, targetId: string)
    requires 0 <= IndexOf(items, idOf, targetId) < IndexOf(items, idOf, id)
    ensures MovedBefore(items, idOf, id, targetId) == MovedBeforeIntended(items, idOf, id, targetId)
    ensures MovedAfter(items, idOf, id, targetId) == MovedAfterIntended(items, idOf, id, targetId)
  {
    MoveBeforeAgreesUpwards(items, idOf, id, targetId);
    MoveAfterAgreesUpwards(items, idOf, id, targetId);
  }

  lemma MoveBeforeAgreesUpwards<T>(items: seq<T>, idOf: T -> string, id: string, targetId: string)
    requires 0 <= IndexOf(items, idOf, targetId) < IndexOf(items, idOf, id)
    ensures MovedBefore(items, idOf, id, targetId) == MovedBeforeIntended(items, idOf, id, targetId)
  {
    var i, t := IndexOf(items, idOf, id), IndexOf(items, idOf, targetId);
    assert MovedBefore(items, idOf, id, targetId) == SpliceMove(items, i, t);
    assert MovedBeforeIntended(items, idOf, id, targetId) == MoveBeforeIndex(items, i, t) == SpliceMove(items, i, t);
  }

  lemma MoveAfterAgreesUpwards<T>(items: seq<T>, idOf: T -> string, id: string, targetId: string)
    requires 0 <= IndexOf(items, idOf, targetId) < IndexOf(items, idOf, id)
    ensures MovedAfter(items, idOf, id, targetId) == MovedAfterIntended(items, idOf, id, targetId)
  {
    var i, t := IndexOf(items, idOf, id), IndexOf(items, idOf, targetId);
    assert MovedAfter(items, idOf, id, targetId) == SpliceMove(items, i, t + 1);
    assert MovedAfterIntended(items, idOf, id, targetId) == MoveAfterIndex(items, i, t) == SpliceMove(items, i, t + 1);
  }

  /**
   * As written, `moveDictBefore` of an entry that stands ahead of the target puts it just
   * AFTER the target: the target has moved up by one when the entry is reinserted.
   */
  lemma MoveBeforeFromAhead<T>(items: seq<T>, idOf: T -> string, id: string, beforeId: string)
    requires 0 <= IndexOf(items, idOf, id) < IndexOf(items, idOf, beforeId)
    ensures var r, i, b := MovedBefore(items, idOf, id, beforeId), IndexOf(items, idOf, id), IndexOf(items, idOf, beforeId);
      r[b - 1] == items[b] && r[b] == items[i]
  {
    var r, i, b := MovedBefore(items, idOf, id, beforeId), IndexOf(items, idOf, id), IndexOf(items, idOf, beforeId);
    SpliceMoveFacts(items, i, b);
  }

  /** The ids of the first two entries, when they differ, are found at indices 0 and 1. */
  lemma IndexOfFirstTwo<T>(items: seq<T>, idOf: T -> string, first: string, second: string)
    requires 2 <= |items| && idOf(items[0]) == first && idOf(items[1]) == second && first != second
    ensures IndexOf(items, idOf, first) == 0 && IndexOf(items, idOf, second) == 1
  {
    var k := IndexOf(items, idOf, second);
    assert k != -1 && k != 0;
    assert !(1 < k);
  }

  /** In any two-entry list, moving the first entry before the second swaps them. */
  lemma MoveBeforeOfTwo<T>(items: seq<T>, idOf: T -> string, id: string, beforeId: string)
    requires |items| == 2 && idOf(items[0]) == id && idOf(items[1]) == beforeId && id != beforeId
    ensures MovedBefore(items, idOf, id, beforeId) == [items[1], items[0]]
  {
    IndexOfFirstTwo(items, idOf, id, beforeId);
    MoveBeforeFromAhead(items, idOf, id, beforeId);
    var r := MovedBefore(items, idOf, id, beforeId);
    assert |r| == 2 && r[0] == items[1] && r[1] == items[0];
  }

  /** The smallest instance: moving `a` before `b` in `[a, b]` gives `[b, a]`. */
  lemma MoveBeforeCounterexample()
    ensures MovedBefore(["a", "b"], (s: string) => s, "a", "b") == ["b", "a"]
  {
    MoveBeforeOfTwo(["a", "b"], (s: string) => s, "a", "b");
  }

  /**
   * As written, `moveDictAfter` of an entry that stands ahead of the target, when the target
   * is not last, leaves the entry that followed the target between the two.
   */
  lemma MoveAfterFromAhead<T>(items: seq<T>, idOf: T -> string, id: string, afterId: string)
    requires 0 <= IndexOf(items, idOf, id) < IndexOf(items, idOf, afterId) < |items| - 1
    ensures var r, i, a := MovedAfter(items, idOf, id, afterId), IndexOf(items, idOf, id), IndexOf(items, idOf, afterId);
      r[a - 1] == items[a] && r[a] == items[a + 1] && r[a + 1] == items[i]
  {
    var r, i, a := MovedAfter(items, idOf, id, afterId), IndexOf(items, idOf, id), IndexOf(items, idOf, afterId);
    SpliceMoveFacts(items, i, a + 1);
  }

  /** In any three-entry list, moving the first entry after the second puts it last. */
  lemma MoveAfterOfThree<T>(items: seq<T>, idOf: T -> string, id: string, afterId: string)
    requires |items| == 3 && idOf(items[0]) == id && idOf(items[1]) == afterId && id != afterId
    ensures MovedAfter(items, idOf, id, afterId) == [items[1], items[2], items[0]]
  {
    IndexOfFirstTwo(items, idOf, id, afterId);
    MoveAfterFromAhead(items, idOf, id, afterId);
    var r := MovedAfter(items, idOf, id, afterId);
    assert |r| == 3 && r[0] == items[1] && r[1] == items[2] && r[2] == items[0];
  }

  /** The smallest instance: moving `a` after `b` in `[a, b, c]` gives `[b, c, a]`. */
  lemma MoveAfterCounterexample()
    ensures MovedAfter(["a", "b", "c"], (s: string) => s, "a", "b") == ["b", "c", "a"]
  {
    MoveAfterOfThree(["a", "b", "c"], (s: string) => s, "a", "b");
  }

  /** Moving the element at `i` to immediately before the one at `b`, with `b` read before the removal. */
  function MoveBeforeIndex<T>(s: seq<T>, i: nat, b: nat): (r: seq<T>)
    requires i < |s| && b < |s| && i != b
    ensures var p := if i < b then b - 1 else b;
      && |r| == |s|
      && multiset(r) == multiset(s)
      && r[p] == s[i] && r[p + 1] == s[b]
      && RemoveAt(r, p) == RemoveAt(s, i)
  {
    if i < b then
      SpliceMoveFacts(s, i, b - 1);
      assert RemoveAt(s, i)[b - 1] == s[b];
      SpliceMove(s, i, b - 1)
    else
      SpliceMoveFacts(s, i, b);
      assert RemoveAt(s, i)[b] == s[b];
      SpliceMove(s, i, b)
  }

  /** Moving the element at `i` to immediately after the one at `a`, with `a` read before the removal. */
  function MoveAfterIndex<T>(s: seq<T>, i: nat, a: nat): (r: seq<T>)
    requires i < |s| && a < |s| && i != a
    ensures var p := if i < a then a else a + 1;
      && |r| == |s|
      && multiset(r) == multiset(s)
      && r[p - 1] == s[a] && r[p] == s[i]
      && RemoveAt(r, p) == RemoveAt(s, i)
  {
    if i < a then
      SpliceMoveFacts(s, i, a);
      assert RemoveAt(s, i)[a - 1] == s[a];
      SpliceMove(s, i, a)
    else
      SpliceMoveFacts(s, i, a + 1);
      assert RemoveAt(s, i)[a] == s[a];
      SpliceMove(s, i, a + 1)
  }

  /**
   * The evidently intended `moveDictBefore`: the entry ends up immediately before the target,
   * and the other entries keep their order. Moving an entry before itself changes nothing.
   */
  function MovedBeforeIntended<T>(items: seq<T>, idOf: T -> string, id: string, beforeId: string): (r: seq<T>)
    ensures IndexOf(items, idOf, id) == -1 || IndexOf(items, idOf, beforeId) == -1 ==> r == items
    ensures IndexOf(items, idOf, id) == IndexOf(items, idOf, beforeId) ==> r == items
    ensures var i, b := IndexOf(items, idOf, id), IndexOf(items, idOf, beforeId);
      0 <= i && 0 <= b && i != b ==>
        var p := if i < b then b - 1 else b;
        && |r| == |items|
        && multiset(r) == multiset(items)
        && r[p] == items[i] && r[p + 1] == items[b]
        && RemoveAt(r, p) == RemoveAt(items, i)
  {
    var i := IndexOf(items, idOf, id);
    var b := IndexOf(items, idOf, beforeId);
    if i == -1 || b == -1 || i == b then items else MoveBeforeIndex(items, i, b)
  }

  /**
   * The evidently intended `moveDictAfter`: the entry ends up immediately after the target,
   * and the other entries keep their order. Moving an entry after itself changes nothing.
   */
  function MovedAfterIntended<T>(items: seq<T>, idOf: T -> string, id: string, afterId: string): (r: seq<T>)
    ensures IndexOf(items, idOf, id) == -1 || IndexOf(items, idOf, afterId) == -1 ==> r == items
    ensures IndexOf(items, idOf, id) == IndexOf(items, idOf, afterId) ==> r == items
    ensures var i, a := IndexOf(items, idOf, id), IndexOf(items, idOf, afterId);
      0 <= i && 0 <= a && i != a ==>
        var p := if i < a then a else a + 1;
        && |r| == |items|
        && multiset(r) == multiset(items)
        && r[p - 1] == items[a] && r[p] == items[i]
        && RemoveAt(r, p) == RemoveAt(items, i)
  {
    var i := IndexOf(items, idOf, id);
    var a := IndexOf(items, idOf, afterId);
    if i == -1 || a == -1 || i == a then items else MoveAfterIndex(items, i, a)
  }
}
