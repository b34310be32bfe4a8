/**
 * services.js: the Node capabilities the renderer calls directly. Modelled are the `.mdx`-only
 * `getDict` guard, the mapping of prefix candidates to search results in `searchDict`, and
 * `writeImageFile`, which accepts a restricted `data:` URL (section 3 of RFC 2397 with the
 * media type `image/<letters>` and the `;base64` marker) and writes its payload to the
 * downloads directory.
 */
module Services {
  import opened Wrappers
  import opened SerdeMdict

  /** A `js-mdict` MDX dictionary, through the two calls `searchDict` makes. */
  datatype Mdx = Mdx(prefix: string -> seq<KeyWordItem>, fetch: KeyWordItem -> Option<string>)

  /** One search result: the headword and its definition (`null` as `None`). */
  datatype SearchResult = SearchResult(word: string, definition: Option<string>)

  /** `getDict(filePath, ext)`: only `.mdx` files are opened (`new MDX(filePath)`); anything else throws. */
  function GetDict(open: string -> Result<Mdx, string>, filePath: string, ext: string): (r: Result<Mdx, string>)
    ensures ext != ".mdx" ==> r == Err("Unsupported dictionary file type: " + ext)
    ensures ext == ".mdx" ==> r == open(filePath)
  {
    if ext == ".mdx" then open(filePath) else Err("Unsupported dictionary file type: " + ext)
  }

  /** `candidates.map(...)`: each candidate's headword with the definition fetched for it. */
  function ToResults(dict: Mdx, candidates: seq<KeyWordItem>): (r: seq<SearchResult>)
    ensures |r| == |candidates|
    ensures forall i :: 0 <= i < |r| ==> r[i] == SearchResult(candidates[i].keyText, dict.fetch(candidates[i]))
  {
    if candidates == [] then []
    else [SearchResult(candidates[0].keyText, dict.fetch(candidates[0]))] + ToResults(dict, candidates[1..])
  }

  /** The mapping is per candidate: results for a concatenation are the results for each part, in order. */
  lemma {:induction false} ToResultsConcat(dict: Mdx, a: seq<KeyWordItem>, b: seq<KeyWordItem>)
    ensures ToResults(dict, a + b) == ToResults(dict, a) + ToResults(dict, b)
  {
    if a == [] {
      assert a + b == b;
    } else {
      assert (a + b)[1..] == a[1..] + b;
      ToResultsConcat(dict, a[1..], b);
    }
  }

  /**
   * `searchDict(filePath, ext, searchTerm)`: one result per prefix candidate, in candidate
   * order, with the candidate's `keyText` as the word; none when there are no candidates.
   */
  function SearchDict(open: string -> Result<Mdx, string>, filePath: string, ext: string, searchTerm: string): (r: Result<seq<SearchResult>, string>)
    ensures GetDict(open, filePath, ext).Err? ==> r == Err(GetDict(open, filePath, ext).error)
    ensures GetDict(open, filePath, ext).Ok? ==>
      var dict := GetDict(open, filePath, ext).value;
      var candidates := dict.prefix(searchTerm);
      && r.Ok?
      && |r.value| == |candidates|
      && (candidates == [] ==> r.value == [])
      && forall i :: 0 <= i < |candidates| ==> r.value[i].word == candidates[i].keyText && r.value[i].definition == dict.fetch(candidates[i])
  {
    match GetDict(open, filePath, ext)
    case Err(e) => Err(e)
    case Ok(dict) =>
      var candidates := dict.prefix(searchTerm);
      if |candidates| == 0 then Ok([]) else Ok(ToResults(dict, candidates))
  }

  /** ASCII letters: what `[a-z]` matches under the `i` flag without the `u` flag. */
  predicate IsLetter(c: char) {
    ('a' <= c <= 'z') || ('A' <= c <= 'Z')
  }

  /** ASCII lower-casing, the case folding the `i` flag applies to the characters involved. */
  function Lower(c: char): char {
    if 'A' <= c <= 'Z' then (c as int + 32) as char else c
  }

  /** `s` equals the all-lower-case `pattern` ignoring ASCII case. */
  predicate EqualsIgnoreCase(s: string, pattern: string) {
    |s| == |pattern| && forall i :: 0 <= i < |s| ==> Lower(s[i]) == pattern[i]
  }

  const Scheme: string := "data:image/"
  const Marker: string := ";base64,"

  /** The number of letters in `s` from index `start` on, up to the first non-letter. */
  function LetterRun(s: string, start: nat): (n: nat)
    requires start <= |s|
    ensures start + n <= |s|
    ensures forall i :: start <= i < start + n ==> IsLetter(s[i])
    ensures start + n < |s| ==> !IsLetter(s[start + n])
    decreases |s| - start
  {
    if start == |s| || !IsLetter(s[start]) then 0 else 1 + LetterRun(s, start + 1)
  }

  /** A match of the header: the captured media subtype and the length of the whole match. */
  datatype ImageHeader = ImageHeader(ext: string, length: nat)

  /**
   * `url` starts with a match of `/^data:image\/([a-z]{1,20});base64,/i` whose group is `ext`
   * and whose length is `length`.
   */
  predicate Matches(url: string, ext: string, length: nat) {
    && 1 <= |ext| <= 20
    && length == |Scheme| + |ext| + |Marker| && length <= |url|
    && EqualsIgnoreCase(url[..|Scheme|], Scheme)
    && url[|Scheme|..|Scheme| + |ext|] == ext
    && (forall i :: 0 <= i < |ext| ==> IsLetter(ext[i]))
    && EqualsIgnoreCase(url[|Scheme| + |ext|..length], Marker)
  }

  /** The regular expression's `exec`, as a scan: the scheme, the maximal run of letters, the marker. */
  function ParseImageHeader(url: string): (r: Option<ImageHeader>)
    // what the scan finds is a match
    ensures r.Some? ==> Matches(url, r.value.ext, r.value.length)
  {
    if |url| < |Scheme| || !EqualsIgnoreCase(url[..|Scheme|], Scheme) then None
    else
      var n := LetterRun(url, |Scheme|);
      var length := |Scheme| + n + |Marker|;
      if n < 1 || 20 < n || |url| < length || !EqualsIgnoreCase(url[|Scheme| + n..length], Marker) then None
      else
        var ext := url[|Scheme|..|Scheme| + n];
        assert forall i :: 0 <= i < n ==> ext[i] == url[|Scheme| + i];
        Some(ImageHeader(ext, length))
  }

  /**
   * The scan finds every match, and the match is unique: the letters cannot stop early,
   * since a `;` must follow them.
   */
  lemma ParseComplete(url: string, ext: string, length: nat)
    requires Matches(url, ext, length)
    ensures ParseImageHeader(url) == Some(ImageHeader(ext, length))
  {
    var n := LetterRun(url, |Scheme|);
    assert forall i :: 0 <= i < |ext| ==> url[|Scheme| + i] == ext[i];
    assert url[|Scheme| + |ext|] == url[|Scheme| + |ext|..length][0];
    assert Lower(url[|Scheme| + |ext|]) == ';';
    assert !IsLetter(url[|Scheme| + |ext|]);
    assert n == |ext|;
  }

  /** The downloads directory, by file name. */
  class Downloads {
    /** Each file's contents, as the base64 text it was decoded from. */
    var files: map<string, string>

    constructor()
      ensures files == map[]
    {
      files := map[];
    }

    /**
     * `writeImageFile(base64Url)`: for a matching header, writes the rest of the URL to
     * `<stamp>.<ext>` and returns that name; otherwise writes nothing and returns `undefined`.
     * `stamp` is the `Date.now()` the call reads.
     */
    method WriteImageFile(base64Url: string, stamp: string) returns (path: Option<string>)
      modifies this
      ensures ParseImageHeader(base64Url).None? ==> path.None? && files == old(files)
      ensures ParseImageHeader(base64Url).Some? ==>
        var h := ParseImageHeader(base64Url).value;
        && path == Some(stamp + "." + h.ext)
        && h.length <= |base64Url|
        && files == old(files)[path.value := base64Url[h.length..]]
    {
      var matchs := ParseImageHeader(base64Url);
      if matchs.None? {
        return None;
      }
      var filePath := stamp + "." + matchs.value.ext;
      files := files[filePath := base64Url[matchs.value.length..]];
      return Some(filePath);
    }
  }
}
