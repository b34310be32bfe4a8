/**
 * src/stores/dictStore.ts: the list of installed dictionaries the renderer shows, in the
 * user's order, each with the checksum of its file and whether it takes part in searches.
 * Persistence (`saveDictItems`, a deep copy into uTools' database) and the toast messages
 * change nothing here.
 */
module DictStore {
  import opened Wrappers
  import opened ListOps
  import opened DictList

  /** An installed dictionary. */
  datatype DictItem = DictItem(id: string, name: string, checksum: string, enabled: bool)

  function IdOf(d: DictItem): string {
    d.id
  }

  /** The message thrown when the name or the path is empty. */
  const EmptyNameOrPath: string := "字典名称和路径不能为空"

  /** `dictItems.some((dict) => dict.checksum === checksum)`. */
  function HasChecksum(items: seq<DictItem>, checksum: string): (b: bool)
    ensures b <==> exists i :: 0 <= i < |items| && items[i].checksum == checksum
  {
    FindIndex(items, (d: DictItem) => d.checksum == checksum) != -1
  }

  /** `dictItems.filter((dict) => dict.enabled)`. */
  function Enabled(items: seq<DictItem>): (r: seq<DictItem>)
    ensures |r| <= |items|
    ensures forall i :: 0 <= i < |r| ==> r[i].enabled && r[i] in items
    ensures forall i :: 0 <= i < |items| && items[i].enabled ==> items[i] in r
  {
    Filter(items, (d: DictItem) => d.enabled)
  }

  /** Appending an entry adds it to the enabled entries exactly when it is enabled, at the end. */
  lemma EnabledAppend(items: seq<DictItem>, d: DictItem)
    ensures Enabled(items + [d]) == Enabled(items) + (if d.enabled then [d] else [])
  {
    FilterConcat(items, [d], (d: DictItem) => d.enabled);
    FilterSingleton(d, (d: DictItem) => d.enabled);
  }

  /** The in-place update `dict.enabled = enabled`. */
  function SetEnabled(enabled: bool): DictItem -> DictItem {
    (d: DictItem) => d.(enabled := enabled)
  }

  class Store {
    var dictItems: seq<DictItem>

    constructor()
      ensures dictItems == []
    {
      dictItems := [];
    }

    /** The getter `enabledDicts`. */
    function EnabledDicts(): (r: seq<DictItem>)
      reads this
      ensures forall i :: 0 <= i < |r| ==> r[i].enabled && r[i] in dictItems
      ensures forall i :: 0 <= i < |dictItems| && dictItems[i].enabled ==> dictItems[i] in r
    {
      Enabled(dictItems)
    }

    /** The getter `dictCount`: the number of dictionaries, of which the enabled ones are a part. */
    function DictCount(): (n: nat)
      reads this
      ensures n == |dictItems|
      ensures |EnabledDicts()| <= n
    {
      |dictItems|
    }

    /**
     * `addDict(name, path)`. The file's checksum (or the error computing it), the new id and
     * the outcome of installing the dictionary (`window.services.dicts.addDict`) are
     * parameters. Answers `false` for a dictionary whose checksum is already listed, `true`
     * once the new entry, enabled, is appended; every error leaves the list as it was.
     */
    method AddDict(name: string, path: string, checksum: Result<string, string>, newId: string, install: Outcome<string>)
      returns (r: Result<bool, string>)
      modifies this
      ensures name == "" || path == "" ==> r == Err(EmptyNameOrPath) && dictItems == old(dictItems)
      ensures name != "" && path != "" && checksum.Err? ==> r == Err(checksum.error) && dictItems == old(dictItems)
      ensures name != "" && path != "" && checksum.Ok? && HasChecksum(old(dictItems), checksum.value) ==>
        r == Ok(false) && dictItems == old(dictItems)
      ensures name != "" && path != "" && checksum.Ok? && !HasChecksum(old(dictItems), checksum.value) ==>
        && (install.Fail? ==> r == Err(install.error) && dictItems == old(dictItems))
        && (install.Pass? ==> r == Ok(true) && dictItems == old(dictItems) + [DictItem(newId, name, checksum.value, true)])
    {
      if name == "" || path == "" {
        return Err(EmptyNameOrPath);
      }
      if checksum.Err? {
        return Err(checksum.error);
      }
      if HasChecksum(dictItems, checksum.value) {
        return Ok(false);
      }
      var dictItem := DictItem(newId, name, checksum.value, true);
      if install.Fail? {
        return Err(install.error);
      }
      dictItems := dictItems + [dictItem];
      return Ok(true);
    }

    /**
     * `deleteDict(id)`: removes the first entry with the id; `removed` says whether it did,
     * which is when the dictionary's files are removed as well (`window.services.dicts.removeDict`).
     */
    method DeleteDict(id: string) returns (removed: bool)
      modifies this
      ensures removed <==> IndexOf(old(dictItems), IdOf, id) != -1
      ensures dictItems == Deleted(old(dictItems), IdOf, id)
    {
      var index := IndexOf(dictItems, IdOf, id);
      if index != -1 {
        dictItems := RemoveAt(dictItems, index);
        return true;
      }
      return false;
    }

    /** `moveDictBefore(id, beforeId)`, with the insertion index read before the removal. */
    method MoveDictBefore(id: string, beforeId: string)
      modifies this
      ensures dictItems == MovedBefore(old(dictItems), IdOf, id, beforeId)
    {
      var index := IndexOf(dictItems, IdOf, id);
      var beforeIndex := IndexOf(dictItems, IdOf, beforeId);
      if index == -1 || beforeIndex == -1 {
        return;
      }
      var dict := dictItems[index];
      dictItems := RemoveAt(dictItems, index);
      dictItems := SpliceInsert(dictItems, beforeIndex, dict);
    }

    /** `moveDictAfter(id, afterId)`, with the insertion index read before the removal. */
    method MoveDictAfter(id: string, afterId: string)
      modifies this
      ensures dictItems == MovedAfter(old(dictItems), IdOf, id, afterId)
    {
      var index := IndexOf(dictItems, IdOf, id);
      var afterIndex := IndexOf(dictItems, IdOf, afterId);
      if index == -1 || afterIndex == -1 {
        return;
      }
      var dict := dictItems[index];
      dictItems := RemoveAt(dictItems, index);
      dictItems := SpliceInsert(dictItems, afterIndex + 1, dict);
    }

    /** `updateDictEnabled(id, enabled)`; `found` says whether an entry has the id. */
    method UpdateDictEnabled(id: string, enabled: bool) returns (found: bool)
      modifies this
      ensures found <==> IndexOf(old(dictItems), IdOf, id) != -1
      ensures dictItems == Updated(old(dictItems), IdOf, id, SetEnabled(enabled))
    {
      var index := IndexOf(dictItems, IdOf, id);
      if index == -1 {
        return false;
      }
      dictItems := dictItems[index := dictItems[index].(enabled := enabled)];
      return true;
    }
  }
}
