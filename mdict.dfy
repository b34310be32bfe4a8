/**
 * mdict.js: the process-wide registry of loaded dictionaries (`DICT_MAP`), the naming of the
 * managed dictionary copies and cache artifacts, the extension dispatch `getType`, and the
 * coordinator side of the worker protocol used by `addDict` and `searchDict`.
 */
module Mdict {
  import opened Wrappers
  import opened JsValue
  import opened Storage
  import opened SerdeMdict

  const DICT_DIR: string := "dictionaries"
  const SERDE_DIR: string := "serde"

  /** The dictionary types `getDict` accepts. */
  predicate Supported(typ: string) {
    typ == "mdx" || typ == "mdd"
  }

  /** The file extension a type is stored under: `.mdx` for `'mdx'`, `.mdd` for anything else. */
  function Ext(typ: string): (e: string)
    ensures |e| == 4
    ensures e == ".mdx" <==> typ == "mdx"
    ensures typ != "mdx" ==> e == ".mdd"
  {
    if typ == "mdx" then ".mdx" else ".mdd"
  }

  /** `getDictFilePath(dictID, typ)`: `dictionaries/<id>.mdx` or `dictionaries/<id>.mdd`. */
  function DictFilePath(dictID: string, typ: string): (p: Path)
    ensures p.dir == DICT_DIR
    ensures |p.name| == |dictID| + 4 && p.name[..|dictID|] == dictID && p.name[|dictID|..] == Ext(typ)
  {
    Path(DICT_DIR, dictID + Ext(typ))
  }

  /** `getDictSerdePath(dictID, typ)`: `serde/<id>.mdx.dat` or `serde/<id>.mdd.dat`. */
  function DictSerdePath(dictID: string, typ: string): (p: Path)
    ensures p.dir == SERDE_DIR
    ensures |p.name| == |dictID| + 8 && p.name[..|dictID|] == dictID
    ensures p.name[|dictID|..|dictID| + 4] == Ext(typ) && p.name[|dictID| + 4..] == ".dat"
  {
    Path(SERDE_DIR, dictID + Ext(typ) + ".dat")
  }

  function UnsupportedType(what: string): string {
    "Unsupported dictionary file type: " + what
  }

  /** `getType(path)`, given the lower-cased extension `files.getExtension` computes. */
  function GetType(ext: string): (r: Result<string, string>)
    ensures r.Ok? <==> ext == ".mdx" || ext == ".mdd"
    ensures r.Ok? ==> Supported(r.value) && Ext(r.value) == ext
    ensures r.Err? ==> r.error == UnsupportedType(ext)
  {
    if ext == ".mdx" then Ok("mdx")
    else if ext == ".mdd" then Ok("mdd")
    else Err(UnsupportedType(ext))
  }

  /** `getType` inverts the naming: the extension a supported type is stored under maps back to it. */
  lemma GetTypeOfExt(typ: string)
    requires Supported(typ)
    ensures GetType(Ext(typ)) == Ok(typ)
  {
  }

  /** Removing the same suffix from two equal strings leaves equal strings. */
  lemma SuffixCancel(a: string, b: string, s: string, t: string)
    requires a + s == b + t && |s| == |t|
    ensures a == b && s == t
  {
    assert |a| == |b|;
    assert a == (a + s)[..|a|] && b == (b + t)[..|b|];
    assert s == (a + s)[|a|..] && t == (b + t)[|b|..];
  }

  /** Distinct dictionaries never share a managed copy, and the name tells the extension. */
  lemma DictFilePathInjective(a: string, b: string, t: string, u: string)
    requires DictFilePath(a, t) == DictFilePath(b, u)
    ensures a == b && Ext(t) == Ext(u)
  {
    SuffixCancel(a, b, Ext(t), Ext(u));
  }

  /** Distinct dictionaries never share a cache artifact. */
  lemma DictSerdePathInjective(a: string, b: string, t: string, u: string)
    requires DictSerdePath(a, t) == DictSerdePath(b, u)
    ensures a == b && Ext(t) == Ext(u)
  {
    assert a + Ext(t) + ".dat" == b + Ext(u) + ".dat";
    SuffixCancel(a + Ext(t), b + Ext(u), ".dat", ".dat");
    SuffixCancel(a, b, Ext(t), Ext(u));
  }

  /** A cache artifact is never a dictionary copy: they live in different directories. */
  lemma PathsApart(a: string, b: string, t: string, u: string)
    ensures DictFilePath(a, t) != DictSerdePath(b, u)
  {
    assert DICT_DIR[0] != SERDE_DIR[0];
  }

  /** The js-mdict library, which this model does not contain: its two parsers and `lookupAll`. */
  datatype JsMdict = JsMdict(
    openMdx: (Path, Bytes) -> Result<Dict, string>,
    openMdd: (Path, Bytes) -> Result<Dict, string>,
    lookupAll: (Dict, string) -> Result<Value, string>)

  /** `new MDX(path)` or `new MDD(path)` on a file with the given contents. */
  function Open(mdict: JsMdict, typ: string, path: Path, contents: Bytes): (r: Result<Dict, string>)
    requires Supported(typ)
    ensures typ == "mdx" ==> r == mdict.openMdx(path, contents)
    ensures typ == "mdd" ==> r == mdict.openMdd(path, contents)
  {
    if typ == "mdx" then mdict.openMdx(path, contents) else mdict.openMdd(path, contents)
  }

  /** A thrown error, or the dictionary (`Some`) or `undefined` (`None`) that `getDict` returns. */
  type Lookup = Result<Option<Dict>, string>

  function Found(r: Result<Dict, string>): Lookup {
    match r
    case Ok(d) => Ok(Some(d))
    case Err(e) => Err(e)
  }

  /**
   * What `getDict(dictID, typ)` returns and what `DICT_MAP` holds afterwards, given the map
   * and the files before the call.
   */
  function Loaded(lib: Libraries, mdict: JsMdict, dictMap: map<string, Dict>, files: map<Path, Bytes>,
                  dictID: string, typ: string): (r: (Lookup, map<string, Dict>))
    // an unsupported type throws and leaves the map as it was
    ensures !Supported(typ) ==> r == (Err(UnsupportedType(typ)), dictMap)
    // at most one loaded instance per id: a loaded dictionary is returned as it is
    ensures Supported(typ) && dictID in dictMap ==> r == (Ok(Some(dictMap[dictID])), dictMap)
    // the cache artifact is preferred to the dictionary file
    ensures Supported(typ) && dictID !in dictMap && DictSerdePath(dictID, typ) in files ==>
      r.0 == Found(DeserializeDict(lib, files[DictSerdePath(dictID, typ)]))
    ensures Supported(typ) && dictID !in dictMap && DictSerdePath(dictID, typ) !in files && DictFilePath(dictID, typ) in files ==>
      r.0 == Found(Open(mdict, typ, DictFilePath(dictID, typ), files[DictFilePath(dictID, typ)]))
    // neither exists: `undefined`
    ensures Supported(typ) && dictID !in dictMap && DictSerdePath(dictID, typ) !in files && DictFilePath(dictID, typ) !in files ==>
      r.0 == Ok(None)
    // whatever is returned is what the map holds for the id; otherwise the map is unchanged
    ensures r.0.Ok? && r.0.value.Some? ==> r.1 == dictMap[dictID := r.0.value.value]
    ensures !(r.0.Ok? && r.0.value.Some?) ==> r.1 == dictMap
  {
    if !Supported(typ) then (Err(UnsupportedType(typ)), dictMap)
    else if dictID in dictMap then (Ok(Some(dictMap[dictID])), dictMap)
    else
      var serdePath := DictSerdePath(dictID, typ);
      var dictFilePath := DictFilePath(dictID, typ);
      var found :=
        if serdePath in files then Found(DeserializeDict(lib, files[serdePath]))
        else if dictFilePath in files then Found(Open(mdict, typ, dictFilePath, files[dictFilePath]))
        else Ok(None);
      if found.Ok? && found.value.Some? then (found, dictMap[dictID := found.value.value])
      else (found, dictMap)
  }

  /** The files `removeDict(dictID)` leaves: both `.mdx` artifacts of the id are gone. */
  function Removed(files: map<Path, Bytes>, dictID: string): (r: map<Path, Bytes>)
    ensures DictFilePath(dictID, "mdx") !in r && DictSerdePath(dictID, "mdx") !in r
    ensures forall p :: p in r ==> p in files && r[p] == files[p]
    ensures forall p :: p in files && p != DictFilePath(dictID, "mdx") && p != DictSerdePath(dictID, "mdx") ==> p in r
  {
    files - {DictFilePath(dictID, "mdx"), DictSerdePath(dictID, "mdx")}
  }

  /** Removal is idempotent: a second `removeDict` of the same id changes nothing more. */
  lemma RemovedIdempotent(files: map<Path, Bytes>, dictID: string)
    ensures Removed(Removed(files, dictID), dictID) == Removed(files, dictID)
  {
  }

  /** Removal never touches the `.mdd` artifacts, of this id or any other. */
  lemma RemovedKeepsMdd(files: map<Path, Bytes>, dictID: string, other: string)
    ensures DictFilePath(other, "mdd") in files ==> DictFilePath(other, "mdd") in Removed(files, dictID)
    ensures DictSerdePath(other, "mdd") in files ==> DictSerdePath(other, "mdd") in Removed(files, dictID)
  {
    if DictFilePath(other, "mdd") == DictFilePath(dictID, "mdx") {
      DictFilePathInjective(other, dictID, "mdd", "mdx");
    }
    PathsApart(other, dictID, "mdd", "mdx");
    PathsApart(dictID, other, "mdx", "mdd");
    if DictSerdePath(other, "mdd") == DictSerdePath(dictID, "mdx") {
      DictSerdePathInjective(other, dictID, "mdd", "mdx");
    }
  }

  /** The process-wide registry: `DICT_MAP`, over the managed files on `disk`. */
  class Registry {
    const disk: Disk
    const lib: Libraries
    const mdict: JsMdict
    var dictMap: map<string, Dict>

    constructor(disk: Disk, lib: Libraries, mdict: JsMdict)
      ensures this.disk == disk && this.lib == lib && this.mdict == mdict && dictMap == map[]
    {
      this.disk := disk;
      this.lib := lib;
      this.mdict := mdict;
      dictMap := map[];
    }

    /** `closeDict(dictID, dict)`: only a present dictionary with `close` is closed and unregistered. */
    method CloseDict(dictID: string, dict: Option<Dict>)
      modifies this`dictMap
      ensures dict.Some? && dict.value.closable ==> dictMap == old(dictMap) - {dictID}
      ensures !(dict.Some? && dict.value.closable) ==> dictMap == old(dictMap)
    {
      if dict.Some? && dict.value.closable {
        dictMap := dictMap - {dictID};
      }
    }

    /** `getDict(dictID, typ)`. */
    method GetDict(dictID: string, typ: string) returns (r: Lookup)
      modifies this`dictMap
      ensures (r, dictMap) == Loaded(lib, mdict, old(dictMap), disk.files, dictID, typ)
    {
      if typ != "mdx" && typ != "mdd" {
        return Err(UnsupportedType(typ));
      }
      if dictID in dictMap {
        return Ok(Some(dictMap[dictID]));
      }
      var serdePath := DictSerdePath(dictID, typ);
      if serdePath in disk.files {
        var dict := DeserializeDict(lib, disk.files[serdePath]);
        if dict.Err? {
          return Err(dict.error);
        }
        dictMap := dictMap[dictID := dict.value];
        return Ok(Some(dictMap[dictID]));
      }
      var dictFilePath := DictFilePath(dictID, typ);
      if dictFilePath in disk.files {
        var dict := Open(mdict, typ, dictFilePath, disk.files[dictFilePath]);
        if dict.Err? {
          return Err(dict.error);
        }
        dictMap := dictMap[dictID := dict.value];
        return Ok(Some(dictMap[dictID]));
      }
      return Ok(None);
    }

    /**
     * `removeDict(dictID)`: unregisters and closes the dictionary, deletes the `.mdx` copy
     * and its cache artifact when they exist, and reports success regardless.
     */
    method RemoveDict(dictID: string) returns (ok: bool)
      modifies this`dictMap, disk`files
      ensures ok
      ensures dictMap == old(dictMap) - {dictID}
      ensures disk.files == Removed(old(disk.files), dictID)
    {
      var dict := if dictID in dictMap then Some(dictMap[dictID]) else None;
      dictMap := dictMap - {dictID};
      if dict.Some? {
        CloseDict(dictID, dict);
      }
      var dictFilePath := DictFilePath(dictID, "mdx");
      if dictFilePath in disk.files {
        disk.Unlink(dictFilePath);
      }
      var serdePath := DictSerdePath(dictID, "mdx");
      if serdePath in disk.files {
        disk.Unlink(serdePath);
      }
      return true;
    }

    /**
     * The part of `addDict(dictID, originalDictFilePath)` before the worker starts: the type
     * is taken from the extension and the original file is copied into managed storage.
     * Returns the task sent to the worker.
     */
    method AddDict(dictID: string, ext: string, original: Bytes) returns (r: Result<Task, string>)
      modifies disk`files
      ensures GetType(ext).Err? ==> r == Err(GetType(ext).error) && disk.files == old(disk.files)
      ensures GetType(ext).Ok? ==>
        && r == Ok(AddDictTask(dictID, GetType(ext).value))
        && disk.files == old(disk.files)[DictFilePath(dictID, GetType(ext).value) := original]
    {
      var typ := GetType(ext);
      if typ.Err? {
        return Err(typ.error);
      }
      var dictFilePath := DictFilePath(dictID, typ.value);
      disk.files := disk.files[dictFilePath := original];
      return Ok(AddDictTask(dictID, typ.value));
    }
  }

  /** A worker task, as the coordinator sends it. */
  datatype Task = AddDictTask(dictID: string, typ: string) | SearchTask(dictID: string, searchTerm: string) | UnknownTask(name: string)

  /** A message from a worker, by its `status`; `Done` carries `msg.results` (`undefined` when absent). */
  datatype Message = Done(results: Value) | Closed | Error(error: string) | Unrecognised

  /** What the coordinator observes of a worker: a message, an `'error'` event or an exit code (`None`: killed). */
  datatype Event = Received(msg: Message) | Failed(error: string) | Exited(code: Option<int>)

  /** Why a coordinator promise was rejected. */
  datatype Reason = WorkerError(message: string) | ProcessError(error: string) | WorkerExit(code: Option<int>)

  datatype Settlement = Pending | Resolved(value: Value) | Rejected(reason: Reason)

  /** Which coordinator function is listening: `addDict` or `searchDict`. */
  datatype Request = AddDictRequest | SearchRequest

  /** The coordinator's view of one worker: its promise, whether it killed the worker, and how often it re-initialised the trie. */
  datatype Coordinator = Coordinator(settled: Settlement, killed: bool, trieReinits: nat)

  const Started: Coordinator := Coordinator(Pending, false, 0)

  /** A promise settles once; later `resolve` and `reject` calls are ignored. */
  function Settle(c: Coordinator, s: Settlement): Coordinator {
    if c.settled.Pending? then c.(settled := s) else c
  }

  /**
   * The listeners of `addDict` and `searchDict` for one event. In `addDict` a `'done'` only
   * re-initialises the trie (`persistentTrie.init(true)`); in `searchDict` it resolves with
   * `msg.results`. In both, `'closed'` kills and resolves, `'error'` kills and rejects, an
   * `'error'` event rejects, and a non-zero (or signal) exit rejects.
   */
  function Step(req: Request, c: Coordinator, e: Event): (d: Coordinator)
    // a settled promise stays settled, a killed worker stays killed
    ensures !c.settled.Pending? ==> d.settled == c.settled
    ensures c.killed ==> d.killed
    // only `'closed'` and `'error'` messages kill the worker
    ensures d.killed != c.killed ==> e == Received(Closed) || (e.Received? && e.msg.Error?)
    // only an addDict `'done'` re-initialises the trie, once
    ensures d.trieReinits == c.trieReinits + (if req.AddDictRequest? && e.Received? && e.msg.Done? then 1 else 0)
    // how each event settles a pending promise
    ensures c.settled.Pending? && e.Received? && e.msg.Done? ==>
      d.killed == c.killed &&
      d.settled == (if req.AddDictRequest? then Pending else Resolved(e.msg.results))
    ensures e == Received(Closed) ==> d.killed && (c.settled.Pending? ==> d.settled == Resolved(Undefined))
    ensures e.Received? && e.msg.Error? ==>
      d.killed && (c.settled.Pending? ==> d.settled == Rejected(WorkerError(e.msg.error)))
    ensures e == Received(Unrecognised) ==> d == c
    ensures c.settled.Pending? && e.Failed? ==> d.killed == c.killed && d.settled == Rejected(ProcessError(e.error))
    ensures c.settled.Pending? && e.Exited? ==>
      d.killed == c.killed &&
      d.settled == (if e.code != Some(0) then Rejected(WorkerExit(e.code)) else Pending)
  {
    match e
    case Received(Done(results)) =>
      if req.AddDictRequest? then c.(trieReinits := c.trieReinits + 1) else Settle(c, Resolved(results))
    case Received(Closed) => Settle(c.(killed := true), Resolved(Undefined))
    case Received(Error(m)) => Settle(c.(killed := true), Rejected(WorkerError(m)))
    case Received(Unrecognised) => c
    case Failed(err) => Settle(c, Rejected(ProcessError(err)))
    case Exited(code) => if code != Some(0) then Settle(c, Rejected(WorkerExit(code))) else c
  }

  /** The coordinator after a sequence of events, in order. */
  function Run(req: Request, c: Coordinator, events: seq<Event>): (d: Coordinator)
    // the trie is re-initialised at most once per event, and never by a search
    ensures c.trieReinits <= d.trieReinits <= c.trieReinits + |events|
    ensures req.SearchRequest? ==> d.trieReinits == c.trieReinits
    decreases |events|
  {
    if events == [] then c else Run(req, Step(req, c, events[0]), events[1..])
  }

  /** Running over two sequences runs over the first, then the second. */
  lemma {:induction false} RunConcat(req: Request, c: Coordinator, a: seq<Event>, b: seq<Event>)
    ensures Run(req, c, a + b) == Run(req, Run(req, c, a), b)
    decreases |a|
  {
    if a == [] {
      assert a + b == b;
    } else {
      assert (a + b)[0] == a[0];
      assert (a + b)[1..] == a[1..] + b;
      RunConcat(req, Step(req, c, a[0]), a[1..], b);
    }
  }

  /** Once settled, a promise stays settled the same way, a killed worker stays killed, and re-initialisations only accumulate. */
  lemma {:induction false} SettledIsFinal(req: Request, c: Coordinator, events: seq<Event>)
    ensures var d := Run(req, c, events);
      && (!c.settled.Pending? ==> d.settled == c.settled)
      && (c.killed ==> d.killed)
      && c.trieReinits <= d.trieReinits
    decreases |events|
  {
    if events != [] {
      SettledIsFinal(req, Step(req, c, events[0]), events[1..]);
    }
  }

  /**
   * In `addDict`, `'done'` reloads the trie and leaves the promise pending; the `'closed'` that
   * follows kills the worker and resolves, and nothing after changes that.
   */
  lemma AddDictDoneThenClosed(c: Coordinator, results: Value, rest: seq<Event>)
    requires c.settled.Pending?
    ensures var d := Step(AddDictRequest, c, Received(Done(results)));
      d.settled.Pending? && d.killed == c.killed && d.trieReinits == c.trieReinits + 1
    ensures var d := Run(AddDictRequest, c, [Received(Done(results)), Received(Closed)] + rest);
      d.settled == Resolved(Undefined) && d.killed && d.trieReinits >= c.trieReinits + 1
  {
    var first := [Received(Done(results)), Received(Closed)];
    RunConcat(AddDictRequest, c, first, rest);
    var mid := Run(AddDictRequest, c, first);
    var afterDone := Step(AddDictRequest, c, Received(Done(results)));
    assert first[1..] == [Received(Closed)] && [Received(Closed)][1..] == [];
    assert mid == Step(AddDictRequest, afterDone, Received(Closed));
    SettledIsFinal(AddDictRequest, mid, rest);
  }

  /**
   * In `addDict`, a failure after `'done'` (an `'error'` message, an `'error'` event or a
   * non-zero exit, as when closing the dictionary throws) still rejects the pending promise.
   */
  lemma AddDictDoneThenFailure(c: Coordinator, results: Value, e: Event, rest: seq<Event>)
    requires c.settled.Pending?
    requires (e.Received? && e.msg.Error?) || e.Failed? || (e.Exited? && e.code != Some(0))
    ensures Run(AddDictRequest, c, [Received(Done(results)), e] + rest).settled.Rejected?
  {
    var first := [Received(Done(results)), e];
    RunConcat(AddDictRequest, c, first, rest);
    var mid := Run(AddDictRequest, c, first);
    var afterDone := Step(AddDictRequest, c, Received(Done(results)));
    assert first[1..] == [e] && [e][1..] == [];
    assert mid == Run(AddDictRequest, afterDone, [e]);
    assert mid == Step(AddDictRequest, afterDone, e);
    SettledIsFinal(AddDictRequest, mid, rest);
  }

  /** In `searchDict`, `'done'` resolves with the results and does not kill the worker. */
  lemma SearchDone(results: Value, rest: seq<Event>)
    ensures Step(SearchRequest, Started, Received(Done(results))) == Coordinator(Resolved(results), false, 0)
    ensures Run(SearchRequest, Started, [Received(Done(results))] + rest).settled == Resolved(results)
  {
    RunConcat(SearchRequest, Started, [Received(Done(results))], rest);
    SettledIsFinal(SearchRequest, Coordinator(Resolved(results), false, 0), rest);
  }

  /**
   * The evidently intended `searchDict` listener: `'done'` resolves with the results and also
   * kills the worker, which would otherwise stay alive on its message channel.
   */
  function SearchStepIntended(c: Coordinator, e: Event): (d: Coordinator)
    ensures e.Received? && e.msg.Done? ==> d.killed && d.trieReinits == c.trieReinits
    ensures e.Received? && e.msg.Done? && c.settled.Pending? ==> d.settled == Resolved(e.msg.results)
    ensures !(e.Received? && e.msg.Done?) ==> d == Step(SearchRequest, c, e)
  {
    match e
    case Received(Done(results)) => Settle(c.(killed := true), Resolved(results))
    case _ => Step(SearchRequest, c, e)
  }

  /** With the intended listener, a search's single `'done'` both resolves and stops its worker. */
  lemma SearchDoneIntended(results: Value)
    ensures SearchStepIntended(Started, Received(Done(results))) == Coordinator(Resolved(results), true, 0)
  {
  }

  /** An `'error'` message while the promise is pending kills the worker and rejects with its text, whatever follows. */
  lemma ErrorRejects(req: Request, c: Coordinator, m: string, rest: seq<Event>)
    requires c.settled.Pending?
    ensures var d := Run(req, c, [Received(Error(m))] + rest);
      d.settled == Rejected(WorkerError(m)) && d.killed
  {
    RunConcat(req, c, [Received(Error(m))], rest);
    SettledIsFinal(req, Step(req, c, Received(Error(m))), rest);
  }

  /** A worker that exits with a non-zero code (or by a signal) while the promise is pending rejects it. */
  lemma ExitRejects(req: Request, c: Coordinator, code: Option<int>, rest: seq<Event>)
    requires c.settled.Pending? && code != Some(0)
    ensures Run(req, c, [Exited(code)] + rest).settled == Rejected(WorkerExit(code))
  {
    RunConcat(req, c, [Exited(code)], rest);
    SettledIsFinal(req, Step(req, c, Exited(code)), rest);
  }
}
