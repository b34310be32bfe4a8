/**
 * The cache codec of serialize-mdict-base.js. A parsed dictionary is written as one
 * MessagePack object whose fields are the section boundaries, the aggregate tables, seven
 * fields of `meta` and, nested as a byte string, the key-word list in FlatBuffers form.
 *
 * The two libraries are not part of this model: they are function-valued fields of
 * `Libraries`, and their round trip is the hypothesis `Sound`. What is modelled and proved
 * is the repository's own mapping between a dictionary and those two encodings.
 */
module SerdeMdict {
  import opened Wrappers
  import opened JsValue

  /** One entry of a dictionary's key-word list, as js-mdict produces it. */
  datatype KeyWordItem = KeyWordItem(keyText: string, recordStartOffset: int, recordEndOffset: int, keyBlockIdx: int)

  /** One `KeyWordItem` table of the FlatBuffers `KeyWordItemList.items` vector. */
  datatype FbKeyWordItem = FbKeyWordItem(recordStartOffset: int, recordEndOffset: int, keyText: string, keyBlockIdx: int)

  /** The file handle a dictionary reads its records through (`new FileScanner(fname)`). */
  datatype FileScanner = FileScanner(filepath: Value)

  /** `new TextDecoder(encoding)`. */
  datatype TextDecoder = TextDecoder(encoding: Value)

  /**
   * A loaded dictionary object. `fields` holds its plain data properties (the section
   * boundaries and the aggregate tables), `meta` the plain fields of its `meta` object;
   * `decoder` (`meta.decoder`) and `scanner` are the resources attached to it, and
   * `closable` says whether it has a `close` method.
   */
  datatype Dict = Dict(
    fields: map<string, Value>,
    meta: map<string, Value>,
    decoder: Option<TextDecoder>,
    keywordList: seq<KeyWordItem>,
    scanner: Option<FileScanner>,
    closable: bool)

  /** The FlatBuffers and MessagePack codecs the mapping is built on. */
  datatype Libraries = Libraries(
    fbEncode: seq<FbKeyWordItem> -> Bytes,
    fbDecode: Bytes -> Result<seq<FbKeyWordItem>, string>,
    msgpackEncode: Value -> Bytes,
    msgpackDecode: Bytes -> Result<Value, string>)

  /** The round trip each library promises: decoding what it encoded gives the value back. */
  ghost predicate Sound(lib: Libraries) {
    && (forall xs :: lib.fbDecode(lib.fbEncode(xs)) == Ok(xs))
    && (forall v :: Representable(v) ==> lib.msgpackDecode(lib.msgpackEncode(v)) == Ok(v))
  }

  /** The fourteen `_...StartOffset` / `_...EndOffset` section boundaries. */
  const SectionBoundaryKeys: set<string> := {
    "_headerStartOffset", "_headerEndOffset",
    "_keyHeaderStartOffset", "_keyHeaderEndOffset",
    "_keyBlockInfoStartOffset", "_keyBlockInfoEndOffset",
    "_keyBlockStartOffset", "_keyBlockEndOffset",
    "_recordHeaderStartOffset", "_recordHeaderEndOffset",
    "_recordInfoStartOffset", "_recordInfoEndOffset",
    "_recordBlockStartOffset", "_recordBlockEndOffset"
  }

  /** The seven aggregate tables and headers copied as they are. */
  const AggregateKeys: set<string> := {
    "keyInfoList", "recordInfoList", "recordBlockDataList",
    "header", "options", "keyHeader", "recordHeader"
  }

  /** Every plain data property the cache carries. */
  const SnapshotKeys: set<string> := SectionBoundaryKeys + AggregateKeys

  /** The fields of `meta` the cache carries. */
  const MetaKeys: set<string> := {"fname", "passcode", "ext", "version", "numWidth", "encoding", "encrypt"}

  /** The builder calls for one record: its four fields become one FlatBuffers table. */
  function ToFb(record: KeyWordItem): FbKeyWordItem {
    FbKeyWordItem(record.recordStartOffset, record.recordEndOffset, record.keyText, record.keyBlockIdx)
  }

  /** The object `deserialize` pushes for one table. */
  function FromFb(item: FbKeyWordItem): KeyWordItem {
    KeyWordItem(item.keyText, item.recordStartOffset, item.recordEndOffset, item.keyBlockIdx)
  }

  /** The tables `arr.map` builds: one per record, in input order, each carrying its four fields. */
  function Tables(arr: seq<KeyWordItem>): (t: seq<FbKeyWordItem>)
    ensures |t| == |arr|
    ensures forall i :: 0 <= i < |t| ==> t[i] == ToFb(arr[i]) && FromFb(t[i]) == arr[i]
  {
    seq(|arr|, i requires 0 <= i < |arr| => ToFb(arr[i]))
  }

  /** `serialize(arr)`: the tables of `arr`, encoded by FlatBuffers. */
  function Serialize(lib: Libraries, arr: seq<KeyWordItem>): (r: Bytes)
    ensures r == lib.fbEncode(Tables(arr))
  {
    lib.fbEncode(Tables(arr))
  }

  /** What `deserialize(data)` returns: one object per table, for `i = 0 .. itemsLength() - 1`. */
  function DecodedItems(lib: Libraries, data: Bytes): (r: Result<seq<KeyWordItem>, string>)
    ensures lib.fbDecode(data).Err? <==> r.Err?
    ensures r.Ok? ==> |r.value| == |lib.fbDecode(data).value|
  {
    match lib.fbDecode(data)
    case Err(e) => Err(e)
    case Ok(items) => Ok(seq(|items|, i requires 0 <= i < |items| => FromFb(items[i])))
  }

  /** `deserialize(data)`: the loop that fills `items`, one table at a time. */
  method Deserialize(lib: Libraries, data: Bytes) returns (r: Result<seq<KeyWordItem>, string>)
    ensures r == DecodedItems(lib, data)
  {
    var obj := lib.fbDecode(data);
    if obj.Err? {
      return Err(obj.error);
    }
    var tables := obj.value;
    var items: seq<KeyWordItem> := [];
    for i := 0 to |tables|
      invariant |items| == i
      invariant forall j :: 0 <= j < i ==> items[j] == FromFb(tables[j])
    {
      items := items + [FromFb(tables[i])];
    }
    assert items == seq(|tables|, i requires 0 <= i < |tables| => FromFb(tables[i]));
    return Ok(items);
  }

  /** The key-word list survives the FlatBuffers layer entry by entry and in order. */
  lemma ItemsRoundTrip(lib: Libraries, arr: seq<KeyWordItem>)
    requires Sound(lib)
    ensures DecodedItems(lib, Serialize(lib, arr)) == Ok(arr)
  {
    var tables := Tables(arr);
    assert lib.fbDecode(lib.fbEncode(tables)) == Ok(tables);
    var back := seq(|tables|, i requires 0 <= i < |tables| => FromFb(tables[i]));
    assert back == arr;
  }

  /**
   * The MessagePack object `serializeDict` builds: the snapshot properties, the seven
   * `meta` fields and the FlatBuffers bytes of the key-word list. Nothing else.
   */
  function CacheObject(lib: Libraries, dict: Dict): (v: Value)
    ensures v.Obj? && v.props.Keys == SnapshotKeys + {"meta", "keywordListFBS"}
    ensures v.props["meta"].Obj? && v.props["meta"].props.Keys == MetaKeys
  {
    var props := map k | k in SnapshotKeys :: Lookup(dict.fields, k);
    var meta := map k | k in MetaKeys :: Lookup(dict.meta, k);
    Obj(props["meta" := Obj(meta)]["keywordListFBS" := Bin(Serialize(lib, dict.keywordList))])
  }

  /** `serializeDict(dict)`. */
  function SerializeDict(lib: Libraries, dict: Dict): (r: Bytes)
    ensures r == lib.msgpackEncode(CacheObject(lib, dict))
  {
    lib.msgpackEncode(CacheObject(lib, dict))
  }

  /**
   * `deserializeDict(data)`: the decoded object's fields are copied onto a fresh dictionary
   * with the MDX prototype (so it can be closed), `meta` is rebuilt from its seven fields,
   * the key-word list is decoded, and then a scanner for `meta.fname` and a decoder for
   * `meta.encoding` are attached. Reading through a nullish `tempObj` or `tempObj.meta`
   * throws, as do the two decoders.
   */
  function DeserializeDict(lib: Libraries, data: Bytes): (r: Result<Dict, string>)
    ensures lib.msgpackDecode(data).Err? ==> r.Err?
    ensures r.Ok? ==> r.value.fields.Keys == SnapshotKeys && r.value.meta.Keys == MetaKeys
    ensures r.Ok? ==> r.value.closable
    ensures r.Ok? ==> r.value.scanner == Some(FileScanner(r.value.meta["fname"]))
    ensures r.Ok? ==> r.value.decoder == Some(TextDecoder(r.value.meta["encoding"]))
  {
    match lib.msgpackDecode(data)
    case Err(e) => Err(e)
    case Ok(tempObj) =>
      if Nullish(tempObj) then Err(ReadError(tempObj, "_headerStartOffset"))
      else
        var metaObj := Get(tempObj, "meta");
        if Nullish(metaObj) then Err(ReadError(metaObj, "fname"))
        else
          var fbs := Get(tempObj, "keywordListFBS");
          if !fbs.Bin? then Err("keywordListFBS is not a byte string")
          else
            match DecodedItems(lib, fbs.bytes)
            case Err(e) => Err(e)
            case Ok(items) =>
              var fields := map k | k in SnapshotKeys :: Get(tempObj, k);
              var meta := map k | k in MetaKeys :: Get(metaObj, k);
              Ok(Dict(fields, meta, Some(TextDecoder(meta["encoding"])), items,
                      Some(FileScanner(meta["fname"])), true))
  }

  /** The cache carries every value MessagePack can carry, so its object is one of them. */
  lemma CacheObjectRepresentable(lib: Libraries, dict: Dict)
    requires forall k :: k in SnapshotKeys ==> Representable(Lookup(dict.fields, k))
    requires forall k :: k in MetaKeys ==> Representable(Lookup(dict.meta, k))
    ensures Representable(CacheObject(lib, dict))
  {
    var props := map k | k in SnapshotKeys :: Lookup(dict.fields, k);
    var meta := map k | k in MetaKeys :: Lookup(dict.meta, k);
    assert Representable(Obj(meta));
    UpdateRepresentable(props, "meta", Obj(meta));
    UpdateRepresentable(props["meta" := Obj(meta)], "keywordListFBS",
                        Bin(Serialize(lib, dict.keywordList)));
  }

  /** Setting one representable property keeps an object of representable values representable. */
  lemma UpdateRepresentable(props: map<string, Value>, k: string, v: Value)
    requires Representable(Obj(props)) && Representable(v)
    ensures Representable(Obj(props[k := v]))
  {
  }

  lemma KeysApart()
    ensures "meta" !in SnapshotKeys && "keywordListFBS" !in SnapshotKeys
    ensures "scanner" !in SnapshotKeys && "decoder" !in MetaKeys
  {
  }

  /** Where each part of the dictionary sits in the cache object. */
  lemma CacheObjectProps(lib: Libraries, dict: Dict)
    ensures var v := CacheObject(lib, dict);
      && (forall k :: k in SnapshotKeys ==> v.props[k] == Lookup(dict.fields, k))
      && v.props["meta"] == Obj(map k | k in MetaKeys :: Lookup(dict.meta, k))
      && v.props["keywordListFBS"] == Bin(Serialize(lib, dict.keywordList))
  {
    KeysApart();
  }

  /**
   * The cache round trip: every section boundary and aggregate table, the seven `meta`
   * fields and the key-word list come back exactly; no other property survives; and the
   * resources are rebuilt from the restored `meta` rather than carried.
   */
  lemma DictRoundTrip(lib: Libraries, dict: Dict)
    requires Sound(lib)
    requires forall k :: k in SnapshotKeys ==> Representable(Lookup(dict.fields, k))
    requires forall k :: k in MetaKeys ==> Representable(Lookup(dict.meta, k))
    ensures var r := DeserializeDict(lib, SerializeDict(lib, dict));
      && r.Ok?
      && (forall k :: k in SnapshotKeys ==> r.value.fields[k] == Lookup(dict.fields, k))
      && (forall k :: k in MetaKeys ==> r.value.meta[k] == Lookup(dict.meta, k))
      && r.value.keywordList == dict.keywordList
      && r.value.scanner == Some(FileScanner(Lookup(dict.meta, "fname")))
      && r.value.decoder == Some(TextDecoder(Lookup(dict.meta, "encoding")))
  {
    var v := CacheObject(lib, dict);
    CacheObjectRepresentable(lib, dict);
    CacheObjectProps(lib, dict);
    assert lib.msgpackDecode(SerializeDict(lib, dict)) == Ok(v);
    ItemsRoundTrip(lib, dict.keywordList);
    var metaObj := Get(v, "meta");
    assert metaObj == Obj(map k | k in MetaKeys :: Lookup(dict.meta, k));
    assert Get(v, "keywordListFBS") == Bin(Serialize(lib, dict.keywordList));
    var r := DeserializeDict(lib, SerializeDict(lib, dict));
    assert r == Ok(Dict(map k | k in SnapshotKeys :: Get(v, k), map k | k in MetaKeys :: Get(metaObj, k),
                        Some(TextDecoder(Get(metaObj, "encoding"))), dict.keywordList,
                        Some(FileScanner(Get(metaObj, "fname"))), true));
  }

  /** The attached resources and the `close` method never reach the cache bytes. */
  lemma ResourcesNotSerialized(lib: Libraries, dict: Dict, decoder: Option<TextDecoder>, scanner: Option<FileScanner>, closable: bool)
    ensures SerializeDict(lib, dict) == SerializeDict(lib, dict.(decoder := decoder, scanner := scanner, closable := closable))
    ensures "scanner" !in CacheObject(lib, dict).props && "decoder" !in CacheObject(lib, dict).props["meta"].props
  {
    KeysApart();
  }
}
