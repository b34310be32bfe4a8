/**
 * src/stores/dictStore.js: the older dictionary list, whose entries carry the dictionary's
 * path instead of a checksum and are added without any duplicate check. Persistence
 * (`saveDicts`) and the toast messages change nothing here.
 */
module LegacyDictStore {
  import opened Wrappers
  import opened ListOps
  import opened DictList

  /** A listed dictionary. */
  datatype DictEntry = DictEntry(id: string, name: string, path: string, enabled: bool)

  function IdOf(d: DictEntry): string {
    d.id
  }

  /** The message thrown when the name or the path is empty. */
  const EmptyNameOrPath: string := "字典名称和路径不能为空"

  /** `dicts.filter((dict) => dict.enabled)`. */
  function Enabled(dicts: seq<DictEntry>): (r: seq<DictEntry>)
    ensures |r| <= |dicts|
    ensures forall i :: 0 <= i < |r| ==> r[i].enabled && r[i] in dicts
    ensures forall i :: 0 <= i < |dicts| && dicts[i].enabled ==> dicts[i] in r
  {
    Filter(dicts, (d: DictEntry) => d.enabled)
  }

  /** Deleting an entry never adds an enabled one, and keeps the others in order. */
  lemma {:induction false} EnabledDeleted(dicts: seq<DictEntry>, id: string)
    ensures var k := IndexOf(dicts, IdOf, id);
      0 <= k ==> Enabled(Deleted(dicts, IdOf, id)) == Enabled(dicts[..k]) + Enabled(dicts[k + 1..])
  {
    var k := IndexOf(dicts, IdOf, id);
    if 0 <= k {
      FilterConcat(dicts[..k], dicts[k + 1..], (d: DictEntry) => d.enabled);
    }
  }

  /** The in-place update `dict.enabled = enabled`. */
  function SetEnabled(enabled: bool): DictEntry -> DictEntry {
    (d: DictEntry) => d.(enabled := enabled)
  }

  class Store {
    var dicts: seq<DictEntry>

    constructor()
      ensures dicts == []
    {
      dicts := [];
    }

    /** The getter `enabledDicts`. */
    function EnabledDicts(): (r: seq<DictEntry>)
      reads this
      ensures forall i :: 0 <= i < |r| ==> r[i].enabled && r[i] in dicts
      ensures forall i :: 0 <= i < |dicts| && dicts[i].enabled ==> dicts[i] in r
    {
      Enabled(dicts)
    }

    /** The getter `dictCount`: the number of dictionaries, of which the enabled ones are a part. */
    function DictCount(): (n: nat)
      reads this
      ensures n == |dicts|
      ensures |EnabledDicts()| <= n
    {
      |dicts|
    }

    /**
     * `addDict({ id, name, path, enabled = true })`: appends an entry with the given id, or
     * `freshId` when none is given, and the given flag, or `true`.
     */
    method AddDict(id: Option<string>, name: string, path: string, enabled: Option<bool>, freshId: string)
      returns (r: Outcome<string>)
      modifies this
      ensures name == "" || path == "" ==> r == Fail(EmptyNameOrPath) && dicts == old(dicts)
      ensures name != "" && path != "" ==>
        r == Pass && dicts == old(dicts) + [DictEntry(id.GetOr(freshId), name, path, enabled.GetOr(true))]
    {
      if name == "" || path == "" {
        return Fail(EmptyNameOrPath);
      }
      var dict := DictEntry(if id.None? then freshId else id.value, name, path, if enabled.None? then true else enabled.value);
      dicts := dicts + [dict];
      return Pass;
    }

    /** `deleteDict(id)`: removes the first entry with the id; `removed` says whether there was one. */
    method DeleteDict(id: string) returns (removed: bool)
      modifies this
      ensures removed <==> IndexOf(old(dicts), IdOf, id) != -1
      ensures dicts == Deleted(old(dicts), IdOf, id)
    {
      var index := IndexOf(dicts, IdOf, id);
      if index != -1 {
        dicts := RemoveAt(dicts, index);
        return true;
      }
      return false;
    }

    /** `moveDictBefore(id, beforeId)`, with the insertion index read before the removal. */
    method MoveDictBefore(id: string, beforeId: string)
      modifies this
      ensures dicts == MovedBefore(old(dicts), IdOf, id, beforeId)
    {
      var index := IndexOf(dicts, IdOf, id);
      var beforeIndex := IndexOf(dicts, IdOf, beforeId);
      if index == -1 || beforeIndex == -1 {
        return;
      }
      var dict := dicts[index];
      dicts := RemoveAt(dicts, index);
      dicts := SpliceInsert(dicts, beforeIndex, dict);
    }

    /** `moveDictAfter(id, afterId)`, with the insertion index read before the removal. */
    method MoveDictAfter(id: string, afterId: string)
      modifies this
      ensures dicts == MovedAfter(old(dicts), IdOf, id, afterId)
    {
      var index := IndexOf(dicts, IdOf, id);
      var afterIndex := IndexOf(dicts, IdOf, afterId);
      if index == -1 || afterIndex == -1 {
        return;
      }
      var dict := dicts[index];
      dicts := RemoveAt(dicts, index);
      dicts := SpliceInsert(dicts, afterIndex + 1, dict);
    }

    /** `updateDictEnabled(id, enabled)`; `found` says whether an entry has the id. */
    method UpdateDictEnabled(id: string, enabled: bool) returns (found: bool)
      modifies this
      ensures found <==> IndexOf(old(dicts), IdOf, id) != -1
      ensures dicts == Updated(old(dicts), IdOf, id, SetEnabled(enabled))
    {
      var index := IndexOf(dicts, IdOf, id);
      if index == -1 {
        return false;
      }
      dicts := dicts[index := dicts[index].(enabled := enabled)];
      return true;
    }
  }
}
