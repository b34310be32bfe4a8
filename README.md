# utools-mdict dictionary subsystem, in Dafny

This project models the bookkeeping core of utools-mdict, a uTools plugin that installs MDict
dictionaries (`.mdx`/`.mdd`), indexes their headwords in a persistent prefix trie and looks
words up. It covers six parts:

- **Dictionary registry** (`Mdict`). It keeps the process-wide `DICT_MAP`, at most one loaded
  dictionary per id. It also names the managed copies (`dictionaries/<id>.mdx`) and the cache
  artifacts (`serde/<id>.mdx.dat`), dispatches on the file extension (`getType`), and runs the
  coordinator side of the worker protocol, as a step function over the events a coordinator
  observes.
- **Cache codec** (`SerdeMdict`). This is the field mapping between a parsed dictionary and
  its cache artifact. FlatBuffers and MessagePack are function-valued parameters, and their
  round trip is a stated hypothesis (`Sound`).
- **Trie singleton** (`PersistentTrie`). The nullable in-memory trie is modelled by its word
  set, over a persisted trie file.
- **Worker** (`DictWorker`). It is a class whose message handler appends to an outbox of
  messages.
- **Dictionary-list stores**. `DictStore` models `dictStore.ts` and `LegacyDictStore` models
  `dictStore.js`. Both share their by-id list operations in `DictList`, which uses the
  JavaScript array built-ins in `ListOps`.
- **Toast list** (`UseToast`). It has a monotone id counter and an in-place list.
- **`services.js`** (`Services`). It covers the `.mdx` guard, the candidate-to-result mapping
  and the `data:image/...;base64,` header parse of `writeImageFile`.

Some common modules support these parts:

- `Wrappers` holds `Option`, `Result` and `Outcome`.
- `JsValue` holds the JavaScript values that travel through MessagePack, the property reads
  on them and the V8 TypeError text.
- `Storage` holds the file system as a `Disk` object: a map from path to bytes plus the
  trie-file cell.

The following are parameters of the model, because their code is outside it:

- the libraries: js-mdict's `MDX`/`MDD` parsers and `lookupAll`, the native trie query, and
  FlatBuffers and MessagePack;
- environmental facts: a checksum, a fresh uuid, a write fault, and the `Date.now()` stamp.

## Model

| member | source | states |
|---|---|---|
| ListOps.FindIndex | src/stores/dictStore.ts:49 | `findIndex`: the first index whose element satisfies the predicate; -1 exactly when no element does |
| ListOps.Filter | src/stores/dictStore.ts:22-23 | `filter`: every kept element satisfies the predicate and comes from the list; every satisfying element is kept |
| ListOps.FilterConcat | src/stores/dictStore.ts:22-23 | filtering distributes over concatenation, so the filter keeps the original order |
| ListOps.RemoveAt | src/stores/dictStore.ts:52 | `splice(k, 1)`: one shorter, elements before `k` unchanged, later ones shifted down, multiset minus the removed element |
| ListOps.SpliceRemove | src/composables/useToast.js:23 | `splice(start, 1)` removes the element at the normalised start when there is one, nothing at the end of the list, and the last element for a start of -1 |
| ListOps.SpliceInsert | src/stores/dictStore.ts:88 | `splice(start, 0, x)`: `x` sits at the normalised start, removing it gives the list back, multiset plus `x` |
| ListOps.SpliceMoveFacts | src/stores/dictStore.ts:87-88 | remove-then-insert is a permutation that puts the element at the clamped target and keeps all the others in order |
| SerdeMdict.Tables | public/preload/serde-mdict/serialize-mdict-base.js:20-29 | one FlatBuffers table per record, in input order, carrying the record's four fields so that reading a table back gives the record |
| SerdeMdict.Serialize | public/preload/serde-mdict/serialize-mdict-base.js:16-44 | the bytes are the FlatBuffers encoding of the record tables; `ItemsRoundTrip` reads them back |
| SerdeMdict.DecodedItems | public/preload/serde-mdict/serialize-mdict-base.js:52-67 | `deserialize` fails exactly when the FlatBuffers decode fails, and otherwise gives one item per table |
| SerdeMdict.Deserialize | public/preload/serde-mdict/serialize-mdict-base.js:56-66 | the `for` loop pushing one item per table builds exactly `DecodedItems` |
| SerdeMdict.ItemsRoundTrip | public/preload/serde-mdict/serialize-mdict-base.js:16-67 | `deserialize(serialize(arr))` is `arr`: same length, all four fields at every index, same order |
| SerdeMdict.CacheObject | public/preload/serde-mdict/serialize-mdict-base.js:78-110 | the MessagePack object has exactly the 21 snapshot properties plus `meta` and `keywordListFBS`; its `meta` has exactly the seven listed fields |
| SerdeMdict.SerializeDict | public/preload/serde-mdict/serialize-mdict-base.js:75-113 | the bytes are the MessagePack encoding of the cache object; `DictRoundTrip` reads them back |
| SerdeMdict.CacheObjectRepresentable | public/preload/serde-mdict/serialize-mdict-base.js:78-111 | the object handed to `encode` can be carried by MessagePack when the copied properties can |
| SerdeMdict.CacheObjectProps | public/preload/serde-mdict/serialize-mdict-base.js:79-109 | each snapshot property, the rebuilt `meta` and the FlatBuffers bytes sit in the cache object under their own names |
| SerdeMdict.DeserializeDict | public/preload/serde-mdict/serialize-mdict-base.js:120-165 | a decoded dictionary has exactly the snapshot properties and the seven `meta` fields, can be closed, and has a scanner for `meta.fname` and a decoder for `meta.encoding`; a MessagePack failure is an error |
| SerdeMdict.DictRoundTrip | public/preload/serde-mdict/serialize-mdict-base.js:75-165 | `deserializeDict(serializeDict(d))` succeeds. It restores the 14 section boundaries, the 7 aggregate tables, the 7 `meta` fields and the key-word list, and rebuilds the scanner and decoder from the restored `meta` |
| SerdeMdict.ResourcesNotSerialized | public/preload/serde-mdict/serialize-mdict-base.js:160-163 | the scanner, the decoder and `close` never affect the cache bytes, and their names are not in the cache object |
| Storage.Disk.WriteFile | public/preload/dict-worker.js:23 | `fs.writeFile` creates or replaces exactly one file, or fails and changes nothing |
| Storage.Disk.Unlink | public/preload/mdict.js:189-195 | `fs.unlink` removes exactly that file |
| Mdict.Ext | public/preload/mdict.js:35 | the suffix is `.mdx` exactly for type `'mdx'`, `.mdd` otherwise |
| Mdict.GetType | public/preload/mdict.js:199-208 | `.mdx` gives `'mdx'` and `.mdd` gives `'mdd'`, the supported types, which are stored under that same extension; any other extension throws "Unsupported dictionary file type: " + ext |
| Mdict.GetTypeOfExt | public/preload/mdict.js:199-208 | `getType` inverts the naming for both supported types |
| Mdict.DictFilePath | public/preload/mdict.js:31-39 | the managed copy lives in `dictionaries`, under a name that is the id followed by the type's four-character extension |
| Mdict.DictSerdePath | public/preload/mdict.js:46-54 | the cache artifact lives in `serde`, under a name that is the id, the type's extension and `.dat` |
| Mdict.DictFilePathInjective | public/preload/mdict.js:31-39 | distinct ids never share a managed dictionary copy |
| Mdict.DictSerdePathInjective | public/preload/mdict.js:46-54 | distinct ids never share a cache artifact |
| Mdict.PathsApart | public/preload/mdict.js:31-54 | a cache artifact is never a dictionary copy |
| Mdict.Open | public/preload/mdict.js:82-88 | `.mdx` files are parsed by `MDX` and `.mdd` files by `MDD` |
| Mdict.Loaded | public/preload/mdict.js:63-92 | an unsupported type throws and changes nothing. A loaded id returns its instance, unchanged. Otherwise the cache artifact is preferred to the dictionary file, and neither gives `undefined`. Whatever is returned is what the map holds for the id; otherwise the map is unchanged |
| Mdict.Registry.GetDict | public/preload/mdict.js:63-92 | `getDict` returns and leaves in `DICT_MAP` exactly what `Loaded` describes |
| Mdict.Registry.CloseDict | public/preload/mdict.js:19-24 | the id leaves the map only for a present dictionary with `close`; otherwise nothing changes |
| Mdict.Removed | public/preload/mdict.js:182-197 | after removal neither `<id>.mdx` nor `<id>.mdx.dat` exists, and every other file is kept unchanged |
| Mdict.RemovedIdempotent | public/preload/mdict.js:182-197 | removing twice is removing once |
| Mdict.RemovedKeepsMdd | public/preload/mdict.js:188-195 | removal never touches an `.mdd` copy or artifact, of any id |
| Mdict.Registry.RemoveDict | public/preload/mdict.js:182-197 | `removeDict` answers `true`, drops the id from the map and leaves exactly the files `Removed` describes |
| Mdict.Registry.AddDict | public/preload/mdict.js:134-137 | an unsupported extension throws before anything is copied; otherwise the original is copied to the managed path for its type and the worker task names that type |
| Mdict.Step | public/preload/mdict.js:110-125 | one listener call. On a pending promise: a search `'done'` resolves with the results; an addDict `'done'` leaves it pending and re-initialises the trie once; `'closed'` resolves with `undefined`; `'error'` rejects with its message; an `'error'` event rejects; a non-zero or signal exit rejects and a zero exit does nothing. `'closed'` and `'error'` always kill, other events never do, and an unrecognised message changes nothing. A settled promise stays settled. |
| Mdict.Run | public/preload/mdict.js:159-173 | over any events the trie is re-initialised at most once per event, and never for a search |
| Mdict.RunConcat | public/preload/mdict.js:110-125 | the coordinator over two event sequences is the coordinator over the first, then the second |
| Mdict.SettledIsFinal | public/preload/mdict.js:110-125 | a settled promise stays settled the same way, a killed worker stays killed, trie re-initialisations only accumulate |
| Mdict.AddDictDoneThenClosed | public/preload/mdict.js:159-173 | in `addDict`, from any pending state, `'done'` re-initialises the trie and leaves the promise pending; the `'closed'` that follows kills and resolves, and nothing after changes that |
| Mdict.AddDictDoneThenFailure | public/preload/mdict.js:165-173 | in `addDict`, an `'error'` message, an `'error'` event or a non-zero exit after `'done'` still rejects the pending promise |
| Mdict.SearchDone | public/preload/mdict.js:110-113 | in `searchDict`, `'done'` resolves with `msg.results` without killing the worker |
| Mdict.SearchStepIntended | public/preload/mdict.js:110-113 | the intended listener: `'done'` resolves a pending search with its results and kills the worker; every other event is handled as written |
| Mdict.SearchDoneIntended | public/preload/mdict.js:110-113 | with the intended listener, a search's `'done'` resolves it and stops its worker |
| Mdict.ErrorRejects | public/preload/mdict.js:116-119 | in either coordinator, an `'error'` while the promise is pending kills the worker and rejects with its message, whatever follows |
| Mdict.ExitRejects | public/preload/mdict.js:122-124 | a non-zero or signal exit while the promise is pending rejects, whatever follows |
| PersistentTrie.Trie.Insert | public/preload/persistent-trie.js:61 | `insert` adds exactly that word |
| PersistentTrie.Trie.Load | public/preload/persistent-trie.js:24-26 | `load` adds the persisted words |
| PersistentTrie.Trie.Save | public/preload/persistent-trie.js:76 | `save` makes the trie file hold exactly the trie's words |
| PersistentTrie.Persisted | public/preload/persistent-trie.js:22-26 | a freshly initialised trie holds exactly the persisted words, and none without a trie file |
| PersistentTrie.TrieStore.Init | public/preload/persistent-trie.js:18-27 | `init` without `reinit` keeps a loaded trie; otherwise a new trie holds the persisted words, or none without a trie file |
| PersistentTrie.TrieStore.GetTrie | public/preload/persistent-trie.js:33-39 | the existing instance is returned without reloading; only when none is loaded is one initialised |
| PersistentTrie.TrieStore.InsertWords | public/preload/persistent-trie.js:58-65 | every word is inserted into the trie, loaded first if need be; the trie file then holds the trie's words; the answer is `true` |
| PersistentTrie.TrieStore.SaveTrie | public/preload/persistent-trie.js:71-78 | without a trie: `false` and nothing written; otherwise the trie file holds the trie's words and the answer is `true` |
| PersistentTrie.TrieStore.SearchPrefix | public/preload/persistent-trie.js:47-51 | initialises first, then queries. For a query meeting its documented contract, results are prefix matches from the trie. With the default limit -1, all of them |
| DictWorker.KeyTexts | public/preload/dict-worker.js:19 | the `keyText` of every key-word entry, in list order |
| DictWorker.ReplySettles | public/preload/dict-worker.js:12-48 | every reply a worker sends settles its coordinator's promise: `'error'` rejects with the message; `'done','closed'` resolves an addDict with the trie reloaded; `'done'` resolves a search with its results |
| DictWorker.Worker.OnMessage | public/preload/dict-worker.js:12-48 | each task appends one well-formed reply to the outbox; an unknown task sends `'error'` "Unknown task" and changes nothing else; only an addDict task touches the trie or the trie file |
| DictWorker.Worker.HandleAddDict | public/preload/dict-worker.js:14-33 | a failed or empty `getDict` sends a single `'error'` (the TypeError on `keywordList` when it gave `undefined`) and leaves the files, the trie and the trie file as they were. Otherwise the headwords are put in the trie and persisted. A cache-write failure sends a single `'error'`. Success writes `serializeDict(dict)` to the serde path, sends `'done'` then `'closed'`, and closes the dictionary |
| DictWorker.Worker.IndexAndCache | public/preload/dict-worker.js:18-30 | headwords indexed and the trie file written before `'done'` (an ordering the source does not guarantee, see Left out); the cache bytes written at the serde path; closed between `'done'` and `'closed'` |
| DictWorker.Worker.HandleSearch | public/preload/dict-worker.js:34-44 | loads with type `'mdx'`. A failure sends a single `'error'`, and so does an `undefined` dictionary, with the TypeError on `lookupAll`. Success sends `'done'` with the `lookupAll` results, then closes the dictionary, and never `'closed'`. A failed lookup leaves it loaded |
| DictList.IndexOf | src/stores/dictStore.ts:49 | the first index with the id, or -1 exactly when no entry has it |
| DictList.Deleted | src/stores/dictStore.ts:48-58 | exactly the first entry with the id is removed, the rest keep their order; a missing id changes nothing |
| DictList.Updated | src/stores/dictStore.ts:104-107 | only the first entry with the id is updated; a missing id changes nothing |
| DictList.UpdatedKeepsIndex | src/stores/dictStore.ts:104-107 | an update that keeps ids keeps every id's position |
| DictList.MovedBefore | src/stores/dictStore.ts:78-90 | either id missing: unchanged. Otherwise a permutation with the moved entry at `beforeId`'s pre-removal index and the rest in order |
| DictList.MovedAfter | src/stores/dictStore.ts:91-103 | either id missing: unchanged. Otherwise a permutation with the moved entry at pre-removal `afterIndex + 1`, clamped to the end, and the rest in order |
| DictList.MovesAgreeUpwards | src/stores/dictStore.ts:87-88 | moving an entry towards the front, the code as written does what was intended |
| DictList.MoveBeforeAgreesUpwards | src/stores/dictStore.ts:87-88 | moving before a target nearer the front, the code as written and the intended move give the same list |
| DictList.MoveAfterAgreesUpwards | src/stores/dictStore.ts:100-101 | moving after a target nearer the front, the code as written and the intended move give the same list |
| DictList.MoveBeforeFromAhead | src/stores/dictStore.ts:87-88 | as written, an entry moved before a later target lands just after it |
| DictList.MoveBeforeOfTwo | src/stores/dictStore.ts:87-88 | in every two-entry list, moving the first entry before the second swaps them |
| DictList.MoveBeforeCounterexample | src/stores/dictStore.ts:87-88 | moving `a` before `b` in `[a, b]` gives `[b, a]` |
| DictList.MoveAfterFromAhead | src/stores/dictStore.ts:100-101 | as written, an entry moved after a later, non-last target lands with one entry in between |
| DictList.MoveAfterOfThree | src/stores/dictStore.ts:100-101 | in every three-entry list, moving the first entry after the second puts it last, not second |
| DictList.MoveAfterCounterexample | src/stores/dictStore.ts:100-101 | moving `a` after `b` in `[a, b, c]` gives `[b, c, a]` |
| DictList.MoveBeforeIndex | src/stores/dictStore.ts:87-88 | with the index corrected for the removal, the entry lands immediately before the target, as a permutation keeping the rest in order |
| DictList.MoveAfterIndex | src/stores/dictStore.ts:100-101 | with the index corrected for the removal, the entry lands immediately after the target, as a permutation keeping the rest in order |
| DictList.MovedBeforeIntended | src/stores/dictStore.ts:78-90 | the intended move: immediately before the target, the rest in order; moving before itself or with an id missing changes nothing |
| DictList.MovedAfterIntended | src/stores/dictStore.ts:91-103 | the intended move: immediately after the target, the rest in order; moving after itself or with an id missing changes nothing |
| DictStore.Enabled | src/stores/dictStore.ts:22-23 | the enabled entries: every kept one is enabled and listed, every enabled one is kept |
| DictStore.EnabledAppend | src/stores/dictStore.ts:22-23 | appending an entry appends it to the enabled ones exactly when it is enabled |
| DictStore.HasChecksum | src/stores/dictStore.ts:34 | `some`: true exactly when a listed dictionary has the checksum |
| DictStore.Store.EnabledDicts | src/stores/dictStore.ts:22-23 | `enabledDicts` holds exactly the enabled dictionaries of the list |
| DictStore.Store.DictCount | src/stores/dictStore.ts:25 | `dictCount` is the list's length, never smaller than the number of enabled dictionaries |
| DictStore.Store.AddDict | src/stores/dictStore.ts:29-47 | an empty name or path throws, as does a failing checksum or installation, and each leaves the list unchanged. A known checksum gives `false`, unchanged. Otherwise one enabled entry with the given name and checksum is appended, and the answer is `true` |
| DictStore.Store.DeleteDict | src/stores/dictStore.ts:48-59 | the list becomes `Deleted`; `removed` says whether an entry had the id, which is when `removeDict` is called |
| DictStore.Store.MoveDictBefore | src/stores/dictStore.ts:78-90 | the list becomes `MovedBefore` of the old list |
| DictStore.Store.MoveDictAfter | src/stores/dictStore.ts:91-103 | the list becomes `MovedAfter` of the old list |
| DictStore.Store.UpdateDictEnabled | src/stores/dictStore.ts:104-115 | only the first matching entry's `enabled` flag changes; `found` says whether there was one |
| LegacyDictStore.Enabled | src/stores/dictStore.js:99-101 | the enabled entries: every kept one is enabled and listed, every enabled one is kept |
| LegacyDictStore.EnabledDeleted | src/stores/dictStore.js:33-43 | after a delete, the enabled entries are those before and after the removed one, in order |
| LegacyDictStore.Store.EnabledDicts | src/stores/dictStore.js:99-101 | `enabledDicts` holds exactly the enabled dictionaries of the list |
| LegacyDictStore.Store.DictCount | src/stores/dictStore.js:103-105 | `dictCount` is the list's length, never smaller than the number of enabled dictionaries |
| LegacyDictStore.Store.AddDict | src/stores/dictStore.js:20-32 | an empty name or path throws and changes nothing. Otherwise exactly one entry is appended, with no duplicate check. It has the given id or a fresh one, and the given flag or `true` |
| LegacyDictStore.Store.DeleteDict | src/stores/dictStore.js:33-43 | the list becomes `Deleted`; `removed` says whether an entry had the id |
| LegacyDictStore.Store.MoveDictBefore | src/stores/dictStore.js:57-67 | the list becomes `MovedBefore` of the old list |
| LegacyDictStore.Store.MoveDictAfter | src/stores/dictStore.js:68-78 | the list becomes `MovedAfter` of the old list |
| LegacyDictStore.Store.UpdateDictEnabled | src/stores/dictStore.js:79-88 | only the first matching entry's `enabled` flag changes |
| UseToast.Removed | src/composables/useToast.js:22-24 | a present id removes exactly that toast with the rest in order. An absent id removes the last toast. An empty list stays empty |
| UseToast.IndexOfToast | src/composables/useToast.js:23 | the first index with the id, or -1 exactly when no toast has it |
| UseToast.RemovedIncreasing | src/composables/useToast.js:22-24 | removal keeps ids strictly increasing, leaves no toast with the id, and removes at most one toast |
| UseToast.DropKeepsIncreasing | src/composables/useToast.js:22-24 | dropping one toast keeps ids increasing, and no remaining toast has the dropped id |
| UseToast.ToastList.ShowToast | src/composables/useToast.js:7-20 | the id is the pre-incremented counter, greater than every listed id. One shown toast is appended, with type `'info'` and duration 3000 by default. Ids stay increasing and issued |
| UseToast.ToastList.RemoveToast | src/composables/useToast.js:22-24 | the list becomes `Removed`, the counter is unchanged, ids stay increasing and issued |
| UseToast.ToastList.Success | src/composables/useToast.js:26 | `showToast` with type `'success'` |
| UseToast.ToastList.Error | src/composables/useToast.js:27 | `showToast` with type `'error'` |
| UseToast.ToastList.Warning | src/composables/useToast.js:28 | `showToast` with type `'warning'` |
| UseToast.ToastList.Info | src/composables/useToast.js:29 | `showToast` with type `'info'` |
| Services.GetDict | public/preload/services.js:5-11 | only `.mdx` is opened; any other extension throws "Unsupported dictionary file type: " + ext |
| Services.ToResults | public/preload/services.js:21-27 | one result per candidate, in order, with the candidate's `keyText` as word and its fetched definition |
| Services.ToResultsConcat | public/preload/services.js:21-27 | the mapping distributes over concatenation |
| Services.SearchDict | public/preload/services.js:15-28 | a rejected extension throws; otherwise one result per prefix candidate in order with `word = keyText`, and `[]` without candidates |
| Services.ParseImageHeader | public/preload/services.js:65-66 | the scan's `exec`: what it accepts is a match of `/^data:image\/([a-z]{1,20});base64,/i` |
| Services.ParseComplete | public/preload/services.js:65-66 | every match is found, and it is unique, so the captured letters and the match length are determined |
| Services.Downloads.WriteImageFile | public/preload/services.js:64-75 | without a match nothing is written and the answer is `undefined`. With one, the suffix after the header is written to `<stamp>.<ext>`, the captured `ext` as written, and that name is returned |

## Left out

- Directories are not modelled. The `fs.mkdir` calls in `getDictFilePath`, `getDictSerdePath`
  and `getTrieFilePath`, and the application-data root, are implicit in `Path`.
- `Mdict.DictFilePathInjective` and `Mdict.DictSerdePathInjective` hold for ids without path
  separators. `Path` joins the directory and the name without the normalisation `path.join`
  applies, so an id such as `a/../b` is not modelled. The ids the stores pass are uuidv4
  strings, which have no separators.
- `Storage.Disk.Unlink` is only called on files that exist. The existence checks before each
  `fs.unlink` are modelled in `RemoveDict`; I/O errors of `unlink`, `copyFile` and
  `readFile` are not.
- `Mdict.Registry.AddDict` covers only the part of `addDict` before the worker starts. Forking
  the worker and the listeners are the `Step`/`Run` functions. `getType` is given the
  extension that `files.getExtension` computes. files.js is not part of this model.
- `Mdict.Loaded` follows the code. A cache artifact that fails to decode makes `getDict` throw.
  It does not fall back to parsing the dictionary file, and the registry is unchanged.
- `Mdict.Removed` follows the code. `removeDict` deletes only the `.mdx` copy and the
  `.mdx.dat` artifact; `.mdd` files of a removed dictionary stay.
- `SerdeMdict.DeserializeDict` treats a `keywordListFBS` that is not a byte string as an
  error. In the code, `new Uint8Array(...)` accepts other array-likes, and the FlatBuffers
  reader then decides. Opening the scanner's file and the `TextDecoder` label check (a
  RangeError for an unknown encoding) are not modelled: `FileScanner` and `TextDecoder` are
  plain records. scanner.js is not part of this model.
- `SerdeMdict.Sound` is a hypothesis about FlatBuffers and MessagePack, not a proof. Their
  byte layouts are not modelled, nor the FlatBuffers field widths: offsets and indices are
  unbounded integers, and JavaScript numbers are integers.
- `SerdeMdict.DictRoundTrip` needs every copied property to be a value MessagePack carries.
  `undefined` is written as nil and read back as `null`, so those properties are excluded.
- The js-mdict parsers (`MDX`, `MDD`), `lookupAll`, `prefix` and `fetch` are parameters.
  Their parsing is not modelled.
- PersistentTrie: the native `cpp_persistent_trie` is modelled by its word set. Insertion
  order, the order of prefix results and `limit` truncation are not visible. In
  `PersistentTrie.TrieStore.SearchPrefix` they are the hypothesis `QuerySound` on the query
  parameter. A missing trie file or one that fails to load is not distinguished beyond
  `trieFile` being absent.
- `PersistentTrie.TrieStore.InsertWords` waits for the save. The source does not await
  `saveTrie()`, so there the file may be written after `insertWords` returns.
- `DictWorker.Worker.IndexAndCache` has the trie file written before `'done'` is sent. In the
  source the save may still be pending then, so the coordinator's `persistentTrie.init(true)`
  can load a trie file without the new headwords.
- Concurrency is not modelled. The worker's `Promise.all` is run sequentially (trie insertion,
  then the cache write). The real worker is a separate process with its own registry and
  trie. `process.send`, `fork`, `worker.kill` and the event loop are the outbox and the
  event sequences of `Step`/`Run`.
- `DictWorker.Worker.HandleAddDict` takes the trie insertion to always succeed; the native
  trie's failures are not visible. Only the cache write has a possible fault.
- `DictStore.Store.AddDict` and `LegacyDictStore.Store.AddDict` take names and paths as
  strings. `!name` is then exactly the empty string; `undefined` or `null` arguments are not
  modelled.
- Persistence of the stores (`saveDictItems`, `saveDicts`, `loadDictItems`, `loadDicts`, uTools
  `dbStorage`) and all `ElMessage` toasts are left out. The save functions do not change the list;
  the load functions replace it with the stored one, and that replacement is not modelled.
- In `useToast.js` the message and the duration are untyped. The model takes a string message
  and an integer duration.
- `Services.Downloads.WriteImageFile` records the base64 text as the file's contents. Base64
  decoding is not modelled, nor is the downloads directory path.
- `services.js` functions `getBaseName`, `isFile`, `existsSync`, `readFile` and
  `writeTextFile` are thin file-system wrappers and are not modelled. deeplx.js,
  src/main.js and the configuration files are not part of this model.

## Findings

| source | as written | input that shows it | evidently intended | confidence | as-written member | corrected member |
|---|---|---|---|---|---|---|
| public/preload/mdict.js:110-113 | on `'done'` the search coordinator resolves but never calls `worker.kill()`; the worker sends no `'closed'` and keeps listening | any successful `searchDict` leaves its forked worker running | the worker is stopped once its results arrive, as `addDict` does on `'closed'` | medium (not executed) | Mdict.SearchDone | Mdict.SearchStepIntended |
| src/stores/dictStore.ts:87-88 | the insertion index is `beforeId`'s index read before the removal | `moveDictBefore('a', 'b')` on `[a, b]` gives `[b, a]` | the moved dictionary ends immediately before `beforeId` | high (not executed) | DictList.MoveBeforeCounterexample | DictList.MovedBeforeIntended |
| src/stores/dictStore.ts:100-101 | the insertion index is `afterId`'s index before the removal, plus one | `moveDictAfter('a', 'b')` on `[a, b, c]` gives `[b, c, a]` | the moved dictionary ends immediately after `afterId` | high (not executed) | DictList.MoveAfterCounterexample | DictList.MovedAfterIntended |
| src/stores/dictStore.js:64-65 | same insertion index as the TypeScript store | `moveDictBefore('a', 'b')` on `[a, b]` gives `[b, a]` | the moved dictionary ends immediately before `beforeId` | high (not executed) | DictList.MoveBeforeFromAhead | DictList.MovedBeforeIntended |
| src/stores/dictStore.js:75-76 | same insertion index as the TypeScript store | `moveDictAfter('a', 'b')` on `[a, b, c]` gives `[b, c, a]` | the moved dictionary ends immediately after `afterId` | high (not executed) | DictList.MoveAfterFromAhead | DictList.MovedAfterIntended |

The coordinator keeps the search listener as written: `Step` and `Run` describe it, and the
intended listener is proved beside them. The store classes keep the behaviour as written: `MoveDictBefore` and `MoveDictAfter` are
specified by `MovedBefore` and `MovedAfter`. The intended versions are proved beside them.
`DictList.MovesAgreeUpwards` shows that the two agree whenever the entry moves towards the
front.
