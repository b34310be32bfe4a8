/**
 * src/composables/useToast.js: the shared list of toast notifications and the counter that
 * numbers them. Ids are issued by pre-incrementing the counter, so they start at 1.
 */
module UseToast {
  import opened Wrappers
  import opened ListOps

  /** A toast; `kind` is the source's `type`. */
  datatype Toast = Toast(id: int, message: string, kind: string, duration: int, show: bool)

  const DefaultKind: string := "info"
  const DefaultDuration: int := 3000

  /** Ids strictly increase along the list, so no two toasts share one. */
  predicate Increasing(toasts: seq<Toast>) {
    forall i, j :: 0 <= i < j < |toasts| ==> toasts[i].id < toasts[j].id
  }

  /** `toasts.findIndex(toast => toast.id === id)`. */
  function IndexOfToast(toasts: seq<Toast>, id: int): (k: int)
    ensures -1 <= k < |toasts|
    ensures k == -1 <==> forall i :: 0 <= i < |toasts| ==> toasts[i].id != id
    ensures 0 <= k ==> toasts[k].id == id && forall i :: 0 <= i < k ==> toasts[i].id != id
  {
    FindIndex(toasts, (t: Toast) => t.id == id)
  }

  /**
   * What `removeToast(id)` leaves: without the toast with the id if there is one; otherwise
   * `findIndex` gives -1, and `splice(-1, 1)` removes the LAST toast.
   */
  function Removed(toasts: seq<Toast>, id: int): (r: seq<Toast>)
    ensures var k := IndexOfToast(toasts, id);
      0 <= k ==> toasts[k].id == id && r == toasts[..k] + toasts[k + 1..]
    ensures IndexOfToast(toasts, id) == -1 && toasts != [] ==> r == toasts[..|toasts| - 1]
    ensures toasts == [] ==> r == []
  {
    var k := IndexOfToast(toasts, id);
    var r := SpliceRemove(toasts, k);
    assert k == -1 && toasts != [] ==> r == RemoveAt(toasts, |toasts| - 1);
    r
  }

  /**
   * Removal keeps the ids increasing: it keeps the others in order. With increasing ids, a
   * present id is gone afterwards, and nothing else is; an absent id removes only the last toast.
   */
  lemma RemovedIncreasing(toasts: seq<Toast>, id: int)
    requires Increasing(toasts)
    ensures Increasing(Removed(toasts, id))
    ensures forall i :: 0 <= i < |Removed(toasts, id)| ==> Removed(toasts, id)[i].id != id
    ensures |toasts| - 1 <= |Removed(toasts, id)| <= |toasts|
    ensures forall i :: 0 <= i < |Removed(toasts, id)| ==> Removed(toasts, id)[i] in toasts
  {
    var r := Removed(toasts, id);
    var k := IndexOfToast(toasts, id);
    if 0 <= k {
      DropKeepsIncreasing(toasts, k);
    } else if toasts != [] {
      assert forall i :: 0 <= i < |r| ==> r[i] == toasts[i];
    }
  }

  /**
   * Dropping the toast at `k` from a list with increasing ids keeps them increasing, and
   * leaves no toast with its id: every remaining toast comes from another index.
   */
  lemma DropKeepsIncreasing(toasts: seq<Toast>, k: nat)
    requires k < |toasts| && Increasing(toasts)
    ensures var r := toasts[..k] + toasts[k + 1..];
      && Increasing(r)
      && (forall i :: 0 <= i < |r| ==> r[i].id != toasts[k].id && r[i] in toasts)
  {
    var r := toasts[..k] + toasts[k + 1..];
    forall i | 0 <= i < |r|
      ensures r[i] == toasts[Skip(i, k)] && r[i] in toasts
    {
    }
    forall i, j | 0 <= i < j < |r|
      ensures r[i].id < r[j].id
    {
      assert r[i] == toasts[Skip(i, k)] && r[j] == toasts[Skip(j, k)];
    }
    forall i | 0 <= i < |r|
      ensures r[i].id != toasts[k].id
    {
      var i' := Skip(i, k);
      assert r[i] == toasts[i'];
      assert i' < k || k < i';
    }
  }

  /** The index in the original list of entry `i` of the list without entry `k`. */
  function Skip(i: nat, k: nat): (j: nat)
    ensures j == i || j == i + 1
    ensures j != k
    ensures i < k <==> j < k
  {
    if i < k then i else i + 1
  }

  /** The toast list and the id counter. */
  class ToastList {
    var toastId: int
    var toasts: seq<Toast>

    /** Every listed id was issued: positive and at most the counter. */
    predicate Valid()
      reads this
    {
      && 0 <= toastId
      && Increasing(toasts)
      && forall i :: 0 <= i < |toasts| ==> 0 < toasts[i].id <= toastId
    }

    constructor()
      ensures Valid() && toastId == 0 && toasts == []
    {
      toastId := 0;
      toasts := [];
    }

    /**
     * `showToast(message, type, duration)`: issues the next id, greater than every id issued
     * before, and appends a shown toast with it; the type defaults to `'info'` and the
     * duration to 3000.
     */
    method ShowToast(message: string, kind: Option<string>, duration: Option<int>) returns (id: int)
      requires Valid()
      modifies this
      ensures Valid()
      ensures id == old(toastId) + 1 && toastId == id
      ensures forall i :: 0 <= i < |old(toasts)| ==> old(toasts)[i].id < id
      ensures toasts == old(toasts) + [Toast(id, message, kind.GetOr(DefaultKind), duration.GetOr(DefaultDuration), true)]
    {
      toastId := toastId + 1;
      id := toastId;
      var toast := Toast(id, message, if kind.None? then DefaultKind else kind.value, if duration.None? then DefaultDuration else duration.value, true);
      toasts := toasts + [toast];
    }

    /** `removeToast(id)`. */
    method RemoveToast(id: int)
      requires Valid()
      modifies this
      ensures Valid()
      ensures toastId == old(toastId)
      ensures toasts == Removed(old(toasts), id)
    {
      RemovedIncreasing(toasts, id);
      ghost var before := toasts;
      toasts := SpliceRemove(toasts, IndexOfToast(toasts, id));
      assert toasts == Removed(before, id);
      forall i | 0 <= i < |toasts|
        ensures 0 < toasts[i].id <= toastId
      {
        assert toasts[i] in before;
      }
    }

    /** `success(message, duration)`. */
    method Success(message: string, duration: Option<int>) returns (id: int)
      requires Valid()
      modifies this
      ensures Valid() && id == old(toastId) + 1 && toastId == id
      ensures toasts == old(toasts) + [Toast(id, message, "success", duration.GetOr(DefaultDuration), true)]
    {
      id := ShowToast(message, Some("success"), duration);
    }

    /** `error(message, duration)`. */
    method Error(message: string, duration: Option<int>) returns (id: int)
      requires Valid()
      modifies this
      ensures Valid() && id == old(toastId) + 1 && toastId == id
      ensures toasts == old(toasts) + [Toast(id, message, "error", duration.GetOr(DefaultDuration), true)]
    {
      id := ShowToast(message, Some("error"), duration);
    }

    /** `warning(message, duration)`. */
    method Warning(message: string, duration: Option<int>) returns (id: int)
      requires Valid()
      modifies this
      ensures Valid() && id == old(toastId) + 1 && toastId == id
      ensures toasts == old(toasts) + [Toast(id, message, "warning", duration.GetOr(DefaultDuration), true)]
    {
      id := ShowToast(message, Some("warning"), duration);
    }

    /** `info(message, duration)`. */
    method Info(message: string, duration: Option<int>) returns (id: int)
      requires Valid()
      modifies this
      ensures Valid() && id == old(toastId) + 1 && toastId == id
      ensures toasts == old(toasts) + [Toast(id, message, "info", duration.GetOr(DefaultDuration), true)]
    {
      id := ShowToast(message, Some("info"), duration);
    }
  }
}
