/**
 * The part of the file system the dictionary subsystem touches, below the application-data
 * directory: the managed dictionary copies and cache artifacts, as a map from path to
 * contents, and the single persisted trie file, as a cell holding the saved word set.
 */
module Storage {
  import opened Wrappers
  import opened JsValue

  /** `path.join(getAppDataPath(), dir, name)`, with the application-data root left implicit. */
  datatype Path = Path(dir: string, name: string)

  class Disk {
    /** The files that exist, with their contents. */
    var files: map<Path, Bytes>
    /** The trie persistence file: `None` when it does not exist. */
    var trieFile: Option<set<string>>

    constructor(files: map<Path, Bytes>, trieFile: Option<set<string>>)
      ensures this.files == files && this.trieFile == trieFile
    {
      this.files := files;
      this.trieFile := trieFile;
    }

    /**
     * `fs.writeFile(path, data)`: creates or overwrites the file, unless the environment
     * reports an I/O error (`fault`), in which case nothing is written.
     */
    method WriteFile(path: Path, data: Bytes, fault: Option<string>) returns (o: Outcome<string>)
      modifies this`files
      ensures fault.Some? ==> o == Fail(fault.value) && files == old(files)
      ensures fault.None? ==> o == Pass && files == old(files)[path := data]
    {
      if fault.Some? {
        return Fail(fault.value);
      }
      files := files[path := data];
      return Pass;
    }

    /** `fs.unlink(path)` on a file that exists. */
    method Unlink(path: Path)
      requires path in files
      modifies this`files
      ensures files == old(files) - {path}
    {
      files := files - {path};
    }
  }
}
