/** `StoragePathBuilder` of the first file-system backend: blob ids and the paths of a
    blob's folder, `.json` and `.blob` files, as plain string concatenation over a root
    fixed at construction. */
module StoragePathBuilders {
  import opened Strings
  import opened FileSystems

  /** A directory path ending in exactly one `\`. */
  predicate EndsWithOneSeparator(p: string)
  {
    |p| >= 1 && p[|p| - 1] == Backslash && (|p| == 1 || p[|p| - 2] != Backslash)
  }

  datatype StoragePathBuilder = StoragePathBuilder(rootPath: string)
  {
    /** `GetStoreFolder(store)`: the root, a `\`, the store name trimmed of `\` and a
        closing `\`. A root that already ends in `\`, as the constructor leaves it,
        is followed by a second one. */
    function GetStoreFolder(store: string): (folder: string)
      ensures var n := |rootPath|;
        |folder| >= n + 2 && folder[..n + 1] == rootPath + "\\" && folder[|folder| - 1] == Backslash &&
        folder[n + 1..|folder| - 1] == Trim(store, Backslash) &&
        (EndsWithOneSeparator(rootPath) ==> folder[n - 1..n + 1] == [Backslash, Backslash])
    {
      var folder := rootPath + "\\" + Trim(store, Backslash) + "\\";
      var n := |rootPath|;
      assert n >= 1 ==> folder[n - 1] == rootPath[n - 1] && folder[n] == Backslash;
      assert n >= 1 ==> folder[n - 1..n + 1] == [folder[n - 1], folder[n]];
      folder
    }

    /** `GetBlobId(store, blob)`: both parts trimmed of `\`, joined by one `\`, so the
        id neither starts nor ends with `\` unless a trimmed part is empty. */
    function GetBlobId(store: string, blob: string): (id: string)
      ensures var s, t := Trim(store, Backslash), Trim(blob, Backslash);
        |id| == |s| + 1 + |t| && id[..|s|] == s && id[|s|] == Backslash && id[|s| + 1..] == t &&
        (s != [] ==> id[0] != Backslash) && (t != [] ==> id[|id| - 1] != Backslash)
    {
      TrimIdempotent(store, Backslash);
      TrimIdempotent(blob, Backslash);
      Trim(store, Backslash) + "\\" + Trim(blob, Backslash)
    }

    /** `GetJsonFile(store, blob)`: the metadata file, the blob id under the root with
        `.json` after it. */
    function GetJsonFile(store: string, blob: string): (path: string)
      ensures var n, m := |rootPath|, |path|;
        m == n + 1 + |GetBlobId(store, blob)| + 5 && path[..n + 1] == rootPath + "\\" &&
        path[n + 1..m - 5] == GetBlobId(store, blob) && path[m - 5..] == ".json"
    {
      rootPath + "\\" + GetBlobId(store, blob) + ".json"
    }

    /** `GetBlobFile(store, blob)`: the data file, the blob id under the root with
        `.blob` after it. */
    function GetBlobFile(store: string, blob: string): (path: string)
      ensures var n, m := |rootPath|, |path|;
        m == n + 1 + |GetBlobId(store, blob)| + 5 && path[..n + 1] == rootPath + "\\" &&
        path[n + 1..m - 5] == GetBlobId(store, blob) && path[m - 5..] == ".blob"
    {
      rootPath + "\\" + GetBlobId(store, blob) + ".blob"
    }
  }

  /** `new StoragePathBuilder(rootPath)`: the root keeps naming the same directory and
      ends in exactly one `\`. */
  function NewStoragePathBuilder(rootPath: string): (b: StoragePathBuilder)
    ensures EndsWithOneSeparator(b.rootPath)
    ensures DirKey(b.rootPath) == DirKey(rootPath)
    ensures b.rootPath[..|b.rootPath| - 1] == DirKey(rootPath)
  {
    DirKeyNormalised(rootPath);
    StoragePathBuilder(NormaliseDir(rootPath))
  }

  /** A leading or trailing `\` on the store part does not change the blob id. */
  lemma BlobIdIgnoresStoreSeparators(b: StoragePathBuilder, store: string, blob: string)
    ensures b.GetBlobId([Backslash] + store, blob) == b.GetBlobId(store, blob)
    ensures b.GetBlobId(store + [Backslash], blob) == b.GetBlobId(store, blob)
  {
    var t := Trim(blob, Backslash);
    TrimAbsorbsFront(store, Backslash);
    TrimAbsorbsBack(store, Backslash);
  }

  /** A leading or trailing `\` on the blob part does not change the blob id. */
  lemma BlobIdIgnoresBlobSeparators(b: StoragePathBuilder, store: string, blob: string)
    ensures b.GetBlobId(store, [Backslash] + blob) == b.GetBlobId(store, blob)
    ensures b.GetBlobId(store, blob + [Backslash]) == b.GetBlobId(store, blob)
  {
    var s := Trim(store, Backslash);
    TrimAbsorbsFront(blob, Backslash);
    TrimAbsorbsBack(blob, Backslash);
  }

  /** Passing parts already trimmed gives the same blob id. */
  lemma BlobIdOfTrimmedParts(b: StoragePathBuilder, store: string, blob: string)
    ensures b.GetBlobId(Trim(store, Backslash), Trim(blob, Backslash)) == b.GetBlobId(store, blob)
  {
    TrimIdempotent(store, Backslash);
    TrimIdempotent(blob, Backslash);
  }

  /** A blob id splits back on `\` into its two trimmed parts when neither holds an inner `\`. */
  lemma BlobIdSplits(b: StoragePathBuilder, store: string, blob: string)
    requires Backslash !in Trim(store, Backslash) && Backslash !in Trim(blob, Backslash)
    ensures Split(b.GetBlobId(store, blob), Backslash) == [Trim(store, Backslash), Trim(blob, Backslash)]
  {
    var s, t := Trim(store, Backslash), Trim(blob, Backslash);
    assert b.GetBlobId(store, blob) == s + [Backslash] + t;
    SplitAfterFreePrefix(s, Backslash, t);
  }

  /** Two paths that share a prefix and end in `.json` and `.blob`. */
  lemma ExtensionPair(p: string)
    ensures var json, data := p + ".json", p + ".blob";
      |json| == |data| == |p| + 5 &&
      json[..|p|] == data[..|p|] == p &&
      json[|p|..] == ".json" && data[|p|..] == ".blob" &&
      json != data
  {
    var json, data := p + ".json", p + ".blob";
    assert json[|p| + 1] == 'j' && data[|p| + 1] == 'b';
  }

  /** The metadata and data files of a blob share the root, a `\` and the blob id, and
      differ only in their five-character suffix. */
  lemma JsonAndBlobFiles(b: StoragePathBuilder, store: string, blob: string)
    ensures var json, data := b.GetJsonFile(store, blob), b.GetBlobFile(store, blob);
      var prefix := b.rootPath + "\\" + b.GetBlobId(store, blob);
      |json| == |data| == |prefix| + 5 &&
      json[..|prefix|] == data[..|prefix|] == prefix &&
      json[|prefix|..] == ".json" && data[|prefix|..] == ".blob" &&
      json != data
  {
    ExtensionPair(b.rootPath + "\\" + b.GetBlobId(store, blob));
  }
}
