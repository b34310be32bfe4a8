/**
 * dict-worker.js: the worker process that loads a dictionary for `addDict` (indexing its
 * headwords into the trie and writing the cache artifact) or for `search`, and reports back
 * through `process.send`, modelled as an outbox of messages.
 */
module DictWorker {
  import opened Wrappers
  import opened JsValue
  import opened Storage
  import opened SerdeMdict
  import opened Mdict
  import opened PersistentTrie

  /** `dict.keywordList.map((item) => item.keyText)`. */
  function KeyTexts(dict: Dict): (r: seq<string>)
    ensures |r| == |dict.keywordList|
    ensures forall i :: 0 <= i < |r| ==> r[i] == dict.keywordList[i].keyText
  {
    seq(|dict.keywordList|, i requires 0 <= i < |dict.keywordList| => dict.keywordList[i].keyText)
  }

  /** The reply shapes a worker sends for a task, as the coordinator would observe them. */
  predicate WellFormedReply(task: Task, reply: seq<Message>) {
    || (|reply| == 1 && reply[0].Error?)
    || (task.AddDictTask? && reply == [Done(Undefined), Closed])
    || (task.SearchTask? && |reply| == 1 && reply[0].Done?)
  }

  /** The events in which a coordinator receives the messages in order. */
  function Delivered(reply: seq<Message>): (es: seq<Event>)
    ensures |es| == |reply|
    ensures forall i :: 0 <= i < |es| ==> es[i] == Received(reply[i])
  {
    seq(|reply|, i requires 0 <= i < |reply| => Received(reply[i]))
  }

  /** The coordinator that sent a task: `addDict` sends addDict tasks, `searchDict` search tasks. */
  function Requester(task: Task): Request
    requires !task.UnknownTask?
  {
    if task.AddDictTask? then AddDictRequest else SearchRequest
  }

  /**
   * Whatever the worker replies, the coordinator's promise is settled once the reply has
   * arrived, whatever happens afterwards: rejected with the worker's message on `'error'`,
   * resolved with `undefined` after `'done'`/`'closed'` for addDict, resolved with the
   * results after `'done'` for a search. Only a successful addDict leads to the worker being
   * killed without an error, and it re-initialises the trie.
   */
  lemma {:induction false} ReplySettles(task: Task, reply: seq<Message>, rest: seq<Event>)
    requires !task.UnknownTask? && WellFormedReply(task, reply)
    ensures var c := Run(Requester(task), Started, Delivered(reply) + rest);
      && (reply[0].Error? ==> c.settled == Rejected(WorkerError(reply[0].error)) && c.killed)
      && (task.AddDictTask? && reply[0].Done? ==> c.settled == Resolved(Undefined) && c.killed && 1 <= c.trieReinits)
      && (task.SearchTask? && reply[0].Done? ==> c.settled == Resolved(reply[0].results))
  {
    if reply[0].Error? {
      assert Delivered(reply) == [Received(Error(reply[0].error))];
      ErrorRejects(Requester(task), Started, reply[0].error, rest);
    } else if task.AddDictTask? {
      assert Delivered(reply) == [Received(Done(Undefined)), Received(Closed)];
      AddDictDoneThenClosed(Started, Undefined, rest);
    } else {
      assert Delivered(reply) == [Received(Done(reply[0].results))];
      SearchDone(reply[0].results, rest);
    }
  }

  /** One worker process: its own registry and trie singleton, and what it has sent so far. */
  class Worker {
    const registry: Registry
    const store: TrieStore
    var outbox: seq<Message>

    constructor(registry: Registry, store: TrieStore)
      ensures this.registry == registry && this.store == store && outbox == []
    {
      this.registry := registry;
      this.store := store;
      outbox := [];
    }

    /**
     * The `'message'` handler for one task: dispatches on the task name. `writeFault` is the
     * I/O error, if any, that writing the cache artifact meets.
     */
    method OnMessage(task: Task, writeFault: Option<string>)
      modifies this`outbox, registry`dictMap, registry.disk`files
      modifies store`trie, if store.trie == null then {} else {store.trie}, store.disk`trieFile
      // the worker only ever appends, and always one of the reply shapes
      ensures |old(outbox)| <= |outbox| && outbox[..|old(outbox)|] == old(outbox)
      ensures WellFormedReply(task, outbox[|old(outbox)|..])
      ensures task.UnknownTask? ==>
        && outbox == old(outbox) + [Error("Unknown task")]
        && registry.dictMap == old(registry.dictMap) && registry.disk.files == old(registry.disk.files)
      // only an addDict task touches the trie or the trie file
      ensures !task.AddDictTask? ==>
        && store.trie == old(store.trie)
        && (old(store.trie) != null ==> store.trie.words == old(store.trie.words))
        && store.disk.trieFile == old(store.disk.trieFile)
    {
      match task
      case AddDictTask(dictID, typ) =>
        HandleAddDict(dictID, typ, writeFault);
      case SearchTask(dictID, searchTerm) =>
        HandleSearch(dictID, searchTerm);
      case UnknownTask(_) =>
        outbox := outbox + [Error("Unknown task")];
    }

    /**
     * An addDict task: load the dictionary, put its headwords into the trie and write its cache
     * artifact, then report `'done'`, close it and report `'closed'`; any failure is reported
     * as a single `'error'`.
     */
    method HandleAddDict(dictID: string, typ: string, writeFault: Option<string>)
      modifies this`outbox, registry`dictMap, registry.disk`files
      modifies store`trie, if store.trie == null then {} else {store.trie}, store.disk`trieFile
      ensures |old(outbox)| <= |outbox| && outbox[..|old(outbox)|] == old(outbox)
      ensures WellFormedReply(AddDictTask(dictID, typ), outbox[|old(outbox)|..])
      ensures
        var (got, loadedMap) := Loaded(registry.lib, registry.mdict, old(registry.dictMap), old(registry.disk.files), dictID, typ);
        && (got.Err? ==> outbox == old(outbox) + [Error(got.error)])
        && (got == Ok(None) ==> outbox == old(outbox) + [Error(ReadError(Undefined, "keywordList"))])
        && (!(got.Ok? && got.value.Some?) ==>
              && registry.dictMap == loadedMap && registry.disk.files == old(registry.disk.files)
              && store.trie == old(store.trie)
              && (old(store.trie) != null ==> store.trie.words == old(store.trie.words))
              && store.disk.trieFile == old(store.disk.trieFile))
      ensures
        var (got, loadedMap) := Loaded(registry.lib, registry.mdict, old(registry.dictMap), old(registry.disk.files), dictID, typ);
        got.Ok? && got.value.Some? ==>
          var dict := got.value.value;
          // the headwords are in the trie, which is persisted
          && store.trie != null
          && (old(store.trie) != null ==> store.trie == old(store.trie) && store.trie.words == old(store.trie.words) + Words(KeyTexts(dict)))
          && (old(store.trie) == null ==> store.trie.words == old(Persisted(store.disk)) + Words(KeyTexts(dict)))
          && store.disk.trieFile == Some(store.trie.words)
      ensures
        var (got, loadedMap) := Loaded(registry.lib, registry.mdict, old(registry.dictMap), old(registry.disk.files), dictID, typ);
        got.Ok? && got.value.Some? && writeFault.Some? ==>
          && outbox == old(outbox) + [Error(writeFault.value)]
          && registry.dictMap == loadedMap && registry.disk.files == old(registry.disk.files)
      ensures
        var (got, loadedMap) := Loaded(registry.lib, registry.mdict, old(registry.dictMap), old(registry.disk.files), dictID, typ);
        got.Ok? && got.value.Some? && writeFault.None? ==>
          var dict := got.value.value;
          && outbox == old(outbox) + [Done(Undefined), Closed]
          && registry.disk.files == old(registry.disk.files)[DictSerdePath(dictID, typ) := SerializeDict(registry.lib, dict)]
          && registry.dictMap == (if dict.closable then loadedMap - {dictID} else loadedMap)
    {
      ghost var loaded := Loaded(registry.lib, registry.mdict, registry.dictMap, registry.disk.files, dictID, typ);
      var got := registry.GetDict(dictID, typ);
      assert (got, registry.dictMap) == loaded;
      if got.Err? {
        outbox := outbox + [Error(got.error)];
        return;
      }
      if got.value.None? {
        outbox := outbox + [Error(ReadError(Undefined, "keywordList"))];
        return;
      }
      IndexAndCache(dictID, typ, got.value.value, SerializeDict(registry.lib, got.value.value), writeFault);
    }

    /**
     * The addDict steps after a dictionary is loaded: its headwords go into the trie and its
     * cache artifact, `data`, is written; only when both succeed is it closed between `'done'`
     * and `'closed'`.
     */
    method IndexAndCache(dictID: string, typ: string, dict: Dict, data: Bytes, writeFault: Option<string>)
      modifies this`outbox, registry`dictMap, registry.disk`files
      modifies store`trie, if store.trie == null then {} else {store.trie}, store.disk`trieFile
      ensures store.trie != null
      ensures old(store.trie) != null ==> store.trie == old(store.trie) && store.trie.words == old(store.trie.words) + Words(KeyTexts(dict))
      ensures old(store.trie) == null ==> store.trie.words == old(Persisted(store.disk)) + Words(KeyTexts(dict))
      ensures store.disk.trieFile == Some(store.trie.words)
      ensures writeFault.Some? ==>
        && outbox == old(outbox) + [Error(writeFault.value)]
        && registry.dictMap == old(registry.dictMap) && registry.disk.files == old(registry.disk.files)
      ensures writeFault.None? ==>
        && outbox == old(outbox) + [Done(Undefined), Closed]
        && registry.disk.files == old(registry.disk.files)[DictSerdePath(dictID, typ) := data]
        && registry.dictMap == (if dict.closable then old(registry.dictMap) - {dictID} else old(registry.dictMap))
    {
      var inserted := store.InsertWords(KeyTexts(dict));
      var written := registry.disk.WriteFile(DictSerdePath(dictID, typ), data, writeFault);
      if written.Fail? {
        outbox := outbox + [Error(written.error)];
        return;
      }
      outbox := outbox + [Done(Undefined)];
      registry.CloseDict(dictID, Some(dict));
      outbox := outbox + [Closed];
    }

    /**
     * A search task: load the `.mdx` dictionary, look the term up and report `'done'` with the
     * results, then close it; any failure is reported as a single `'error'`.
     */
    method HandleSearch(dictID: string, searchTerm: string)
      modifies this`outbox, registry`dictMap
      ensures |old(outbox)| <= |outbox| && outbox[..|old(outbox)|] == old(outbox)
      ensures WellFormedReply(SearchTask(dictID, searchTerm), outbox[|old(outbox)|..])
      ensures
        var (got, loadedMap) := Loaded(registry.lib, registry.mdict, old(registry.dictMap), registry.disk.files, dictID, "mdx");
        && (got.Err? ==> outbox == old(outbox) + [Error(got.error)] && registry.dictMap == loadedMap)
        && (got == Ok(None) ==> outbox == old(outbox) + [Error(ReadError(Undefined, "lookupAll"))] && registry.dictMap == loadedMap)
        && (got.Ok? && got.value.Some? ==>
              var dict := got.value.value;
              var found := registry.mdict.lookupAll(dict, searchTerm);
              && (found.Err? ==> outbox == old(outbox) + [Error(found.error)] && registry.dictMap == loadedMap)
              && (found.Ok? ==>
                    && outbox == old(outbox) + [Done(found.value)]
                    && registry.dictMap == (if dict.closable then loadedMap - {dictID} else loadedMap)))
    {
      var got := registry.GetDict(dictID, "mdx");
      if got.Err? {
        outbox := outbox + [Error(got.error)];
        return;
      }
      if got.value.None? {
        outbox := outbox + [Error(ReadError(Undefined, "lookupAll"))];
        return;
      }
      var dict := got.value.value;
      var found := registry.mdict.lookupAll(dict, searchTerm);
      if found.Err? {
        outbox := outbox + [Error(found.error)];
        return;
      }
      outbox := outbox + [Done(found.value)];
      registry.CloseDict(dictID, Some(dict));
    }
  }
}
