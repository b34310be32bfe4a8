/**
 * persistent-trie.js: the process-wide trie of headwords, loaded lazily from the trie file and
 * written back after insertions. The native trie is modelled by its contents, a set of words;
 * its prefix query is a parameter, since its ordering and truncation are not visible.
 */
module PersistentTrie {
  import opened Wrappers
  import opened Storage

  /** `term` is a prefix of `word`. */
  predicate HasPrefix(term: string, word: string) {
    |term| <= |word| && word[..|term|] == term
  }

  /** The native `trie.searchPrefix(term, limit)`, as a function of the trie's contents. */
  type Query = (set<string>, string, int) -> seq<string>

  /**
   * What a prefix query is documented to return: distinct words of the trie that start with
   * the term, no more than `limit` of them, and all of them when `limit` is -1 ("no limit").
   */
  ghost predicate QuerySound(query: Query) {
    forall words, term, limit ::
      var r := query(words, term, limit);
      && (forall i :: 0 <= i < |r| ==> r[i] in words && HasPrefix(term, r[i]))
      && (forall i, j :: 0 <= i < j < |r| ==> r[i] != r[j])
      && (0 <= limit ==> |r| <= limit)
      && (limit == -1 ==> forall w :: w in words && HasPrefix(term, w) ==> w in r)
  }

  /** The words of a list, as a set. */
  function Words(words: seq<string>): (r: set<string>)
    ensures forall i :: 0 <= i < |words| ==> words[i] in r
    ensures forall w :: w in r ==> w in words
  {
    set w | w in words
  }

  /** An instance of the native `Trie`. */
  class Trie {
    var words: set<string>

    /** `new Trie()`: empty. */
    constructor()
      ensures words == {}
    {
      words := {};
    }

    /** `trie.insert(word)`. */
    method Insert(word: string)
      modifies this
      ensures words == old(words) + {word}
    {
      words := words + {word};
    }

    /** `trie.load(path)` on the trie file, which exists. */
    method Load(disk: Disk)
      requires disk.trieFile.Some?
      modifies this
      ensures words == old(words) + disk.trieFile.value
    {
      words := words + disk.trieFile.value;
    }

    /** `trie.save(path)`: the trie file now holds this trie's contents. */
    method Save(disk: Disk)
      modifies disk`trieFile
      ensures disk.trieFile == Some(words)
    {
      disk.trieFile := Some(words);
    }
  }

  /** The contents a freshly initialised trie has: the persisted words, or none. */
  function Persisted(disk: Disk): (words: set<string>)
    reads disk`trieFile
    ensures disk.trieFile.None? ==> words == {}
    ensures disk.trieFile.Some? ==> words == disk.trieFile.value
  {
    if disk.trieFile.Some? then disk.trieFile.value else {}
  }

  /** The module state: the variable `trie` (null until initialised) over the trie file on `disk`. */
  class TrieStore {
    const disk: Disk
    const query: Query
    var trie: Trie?

    constructor(disk: Disk, query: Query)
      ensures this.disk == disk && this.query == query && trie == null
    {
      this.disk := disk;
      this.query := query;
      trie := null;
    }

    /**
     * `init(reinit)`: with a trie loaded and no `reinit`, nothing happens; otherwise a new trie
     * replaces it, holding the persisted words when the trie file exists and none otherwise.
     */
    method Init(reinit: bool := false)
      modifies this`trie
      ensures old(trie) != null && !reinit ==> trie == old(trie)
      ensures old(trie) == null || reinit ==> trie != null && fresh(trie) && trie.words == Persisted(disk)
    {
      if trie != null && !reinit {
        return;
      }
      var t := new Trie();
      if disk.trieFile.Some? {
        t.Load(disk);
      }
      trie := t;
    }

    /** `getTrie()`: the loaded instance as it is, or a newly initialised one. */
    method GetTrie() returns (t: Trie)
      modifies this`trie
      ensures t == trie
      ensures old(trie) != null ==> t == old(trie)
      ensures old(trie) == null ==> fresh(t) && t.words == Persisted(disk)
    {
      if trie != null {
        return trie;
      }
      Init();
      return trie;
    }

    /**
     * `saveTrie()`: without a loaded trie, reports `false` and writes nothing; otherwise writes
     * the trie's contents to the trie file and reports `true`.
     */
    method SaveTrie() returns (ok: bool)
      modifies disk`trieFile
      ensures trie == null ==> !ok && disk.trieFile == old(disk.trieFile)
      ensures trie != null ==> ok && disk.trieFile == Some(trie.words)
    {
      if trie == null {
        return false;
      }
      trie.Save(disk);
      return true;
    }

    /**
     * `insertWords(words)`: every word goes into the trie (loaded first if need be), the trie is
     * persisted, and the answer is `true`.
     */
    method InsertWords(words: seq<string>) returns (ok: bool)
      modifies this`trie, if trie == null then {} else {trie}, disk`trieFile
      ensures ok && trie != null
      ensures old(trie) != null ==> trie == old(trie) && trie.words == old(trie.words) + Words(words)
      ensures old(trie) == null ==> fresh(trie) && trie.words == old(Persisted(disk)) + Words(words)
      ensures disk.trieFile == Some(trie.words)
    {
      ghost var base := if trie != null then trie.words else Persisted(disk);
      var t := GetTrie();
      assert t.words == base;
      for i := 0 to |words|
        invariant trie == t
        invariant t.words == base + set j | 0 <= j < i :: words[j]
      {
        t.Insert(words[i]);
        assert (set j | 0 <= j < i + 1 :: words[j]) == (set j | 0 <= j < i :: words[j]) + {words[i]};
      }
      assert (set j | 0 <= j < |words| :: words[j]) == Words(words);
      ok := SaveTrie();
      return true;
    }

    /**
     * `searchPrefix(searchTerm, limit)`: initialises (without reloading a loaded trie) and runs
     * the native query. Without a limit, the answer is every word of the trie with the prefix.
     */
    method SearchPrefix(searchTerm: string, limit: int := -1) returns (results: seq<string>)
      modifies this`trie
      ensures old(trie) != null ==> trie == old(trie)
      ensures old(trie) == null ==> trie != null && fresh(trie) && trie.words == Persisted(disk)
      ensures trie != null && results == query(trie.words, searchTerm, limit)
      ensures QuerySound(query) ==> forall i :: 0 <= i < |results| ==> results[i] in trie.words && HasPrefix(searchTerm, results[i])
      ensures QuerySound(query) && limit == -1 ==>
        forall w :: w in trie.words && HasPrefix(searchTerm, w) ==> w in results
    {
      Init(false);
      results := query(trie.words, searchTerm, limit);
    }
  }
}
