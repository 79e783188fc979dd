/** `StoreManager`: owns the store root, picks one of the 499 store folders at random
    for new blobs, finds the store of an existing blob from its id, and builds the
    paths of a blob's `.json` and `.blob` files. */
module StoreManagers {
  import opened Wrappers
  import opened Strings
  import opened Hex
  import opened FileSystems
  import opened FileDbs

  /** Exclusive upper bound of `random.Next(1, ROOT_FOLDER_COUNT)`. */
  const RootFolderCount: int := 500

  /** The store folder name for a draw of `random.Next(1, 500)`: its "X4" form, four
      hex digits that parse back to the draw. */
  function RandomStoreName(draw: int): (name: string)
    requires 1 <= draw < RootFolderCount
    ensures |name| == 4 && ParseHex(Some(name)) == Some(draw)
  {
    X4Width(draw);
    X4RoundTrip(draw);
    X4(draw)
  }

  /** The draw's exclusive bounds never name a store: no store folder is 0000 or 01F4. */
  lemma RandomStoreNameRange(draw: int)
    requires 1 <= draw < RootFolderCount
    ensures RandomStoreName(draw) != "0000" && RandomStoreName(draw) != "01F4"
  {
    X4Zero();
    X4Of500();
    X4Injective(draw, 0);
    X4Injective(draw, 500);
  }

  /** The store name `GetStoreDb(nameOrId)` takes from a store name or a blob id:
      every leading and trailing `\` removed, then the text before the first `\`. */
  function StoreNameOf(nameOrId: string): string
  {
    var t := Trim(nameOrId, Backslash);
    if Backslash in t then t[..IndexOf(t, Backslash)] else t
  }

  /** The extracted name is the trimmed text up to its first `\`: a prefix free of `\`
      that is the whole trimmed text or is followed by a `\`. */
  lemma StoreNameIsFirstSegment(nameOrId: string)
    ensures Backslash !in StoreNameOf(nameOrId)
    ensures StoreNameOf(nameOrId) <= Trim(nameOrId, Backslash)
    ensures |StoreNameOf(nameOrId)| < |Trim(nameOrId, Backslash)| ==>
      Trim(nameOrId, Backslash)[|StoreNameOf(nameOrId)|] == Backslash
  {
  }

  /** The extracted name holds no `\`, and extracting again changes nothing. */
  lemma StoreNameIdempotent(nameOrId: string)
    ensures Backslash !in StoreNameOf(nameOrId)
    ensures StoreNameOf(StoreNameOf(nameOrId)) == StoreNameOf(nameOrId)
  {
    var name := StoreNameOf(nameOrId);
    assert Backslash !in name;
    TrimOfTrimmed(name, Backslash);
  }

  /** A bare store name maps to itself. */
  lemma StoreNameOfName(name: string)
    requires Backslash !in name
    ensures StoreNameOf(name) == name
  {
    TrimOfTrimmed(name, Backslash);
  }

  /** A blob id maps to its first segment, whatever follows it. */
  lemma StoreNameOfId(name: string, rest: string)
    requires name != "" && Backslash !in name
    ensures StoreNameOf(name + "\\" + rest) == name
  {
    var s := name + "\\" + rest;
    assert s[0] == name[0];
    var t := Trim(s, Backslash);
    assert TrimStart(s, Backslash) == s;
    // the trailing trim stops at or after the end of `name`, whose last character is not `\`
    assert s[|name| - 1] == name[|name| - 1];
    assert |t| >= |name| && t[..|name|] == name;
    assert |t| == |name| || t[|name|] == Backslash;
    if Backslash in t {
      IndexOfAfterFreePrefix(name, Backslash, t[|name| + 1..]);
      assert t == name + [Backslash] + t[|name| + 1..];
    } else {
      assert t == name;
    }
  }

  /** `Path.Combine(root, name)` for a normalised root and a plain name appends the
      name, and the resulting folder's `DirectoryInfo.Name` is that name. */
  lemma StoreFolderOfName(root: string, name: string)
    requires |root| >= 1 && root[|root| - 1] == Backslash
    requires name != "" && Backslash !in name && !IsRooted(name)
    ensures Combine(root, name) == root + name
    ensures DirectoryName(NormaliseDir(root + name)) == name
  {
    var p := root + name;
    assert p[|p| - 1] == name[|name| - 1];
    TrimEndStep(p, Backslash);
    TrimEndUnique(p, Backslash, |p|);
    assert p[..|p|] == p;
    LastSegmentAfter(root, name);
  }

  lemma {:induction false} LastSegmentAfter(a: string, b: string)
    requires |a| >= 1 && a[|a| - 1] == Backslash && Backslash !in b
    ensures LastSegment(a + b) == b
    decreases |a|
  {
    var s := a + b;
    assert s[|a| - 1] == Backslash;
    var i := IndexOf(s, Backslash);
    assert i < |a|;
    if i + 1 == |a| {
      assert s[i + 1..] == b;
    } else {
      assert s[i + 1..] == a[i + 1..] + b;
      LastSegmentAfter(a[i + 1..], b);
    }
  }

  /** A store name drawn at random is a plain name. */
  lemma RandomStoreNamePlain(draw: int)
    requires 1 <= draw < RootFolderCount
    ensures RandomStoreName(draw) != "" && Backslash !in RandomStoreName(draw) && !IsRooted(RandomStoreName(draw))
  {
    var name := RandomStoreName(draw);
    assert forall i :: 0 <= i < |name| ==> name[i] != Backslash && name[i] != '/' && name[i] != ':';
  }

  /** An extension starting with `.` does not change whether a path is rooted. */
  lemma ExtensionKeepsRooting(id: string, ext: string)
    requires |ext| >= 2 && ext[0] == '.'
    ensures IsRooted(id + ext) <==> IsRooted(id)
  {
    var p := id + ext;
    assert |id| >= 1 ==> p[0] == id[0];
    assert |id| >= 2 ==> p[1] == id[1];
    assert |id| == 1 ==> p[1] == '.';
    assert |id| == 0 ==> p[0] == '.';
  }

  /** `GetMetaPath(id)`: the root combined with the id and `.json`; a rooted id replaces
      the root, any other is appended to a normalised root. */
  function MetaPath(root: string, id: string): (path: string)
    ensures IsRooted(id) ==> path == id + ".json"
    ensures |root| >= 1 && root[|root| - 1] == Backslash && !IsRooted(id) ==> path == root + id + ".json"
  {
    ExtensionKeepsRooting(id, ".json");
    Combine(root, id + ".json")
  }

  /** `GetDataPath(id)`: the root combined with the id and `.blob`; a rooted id replaces
      the root, any other is appended to a normalised root. */
  function DataPath(root: string, id: string): (path: string)
    ensures IsRooted(id) ==> path == id + ".blob"
    ensures |root| >= 1 && root[|root| - 1] == Backslash && !IsRooted(id) ==> path == root + id + ".blob"
  {
    ExtensionKeepsRooting(id, ".blob");
    Combine(root, id + ".blob")
  }

  /** For a normalised root and an id that is not rooted, both paths are the root,
      the id and the extension: they differ only in the extension. */
  lemma MetaAndDataPaths(root: string, id: string)
    requires |root| >= 1 && root[|root| - 1] == Backslash
    requires !IsRooted(id)
    ensures MetaPath(root, id) == root + id + ".json"
    ensures DataPath(root, id) == root + id + ".blob"
    ensures MetaPath(root, id) != DataPath(root, id)
  {
    var json, blob := id + ".json", id + ".blob";
    assert (root + json)[|root| + |id| + 1] == 'j';
    assert (root + blob)[|root| + |id| + 1] == 'b';
  }

  class StoreManager {
    const fs: FileSystem
    const rootPath: string

    /** `new StoreManager(rootPath)`: normalises the root to end with one `\` and
        creates the directory when it does not exist. */
    constructor (fs: FileSystem, rootPath: string)
      modifies fs
      ensures this.fs == fs && this.rootPath == NormaliseDir(rootPath)
      ensures fs.dirs == old(fs.dirs) + {DirKey(rootPath)} && fs.files == old(fs.files)
      ensures fs.DirectoryExists(this.rootPath)
    {
      this.fs := fs;
      this.rootPath := NormaliseDir(rootPath);
      DirKeyNormalised(rootPath);
      new;
      if !fs.DirectoryExists(NormaliseDir(rootPath)) {
        fs.CreateDirectory(NormaliseDir(rootPath));
      }
    }

    /** `GetStoreDb()`: the store named by the random draw. */
    method GetRandomStoreDb(draw: int) returns (db: FileDb)
      requires 1 <= draw < RootFolderCount
      requires rootPath == NormaliseDir(rootPath)
      modifies fs
      ensures fresh(db) && db.fs == fs
      ensures db.storePath == NormaliseDir(rootPath + RandomStoreName(draw))
      ensures db.lockFile == db.storePath + LockFileName
      ensures db.StoreName() == RandomStoreName(draw)
      ensures fs.DirectoryExists(db.storePath) && fs.files == old(fs.files)
      ensures fs.dirs == old(fs.dirs) + {DirKey(rootPath + RandomStoreName(draw))}
    {
      var randomStore := RandomStoreName(draw);
      RandomStoreNamePlain(draw);
      StoreNameOfName(randomStore);
      StoreFolderOfName(rootPath, randomStore);
      db := GetStoreDb(randomStore);
    }

    /** `GetStoreDb(nameOrId)`: the store named by the first segment of `nameOrId`.
        Its folder is created when missing, before the `FileDb` is built, so the
        `FileDb`'s existence check always passes here. */
    method GetStoreDb(nameOrId: string) returns (db: FileDb)
      modifies fs
      ensures fresh(db) && db.fs == fs
      ensures db.storePath == NormaliseDir(Combine(rootPath, StoreNameOf(nameOrId)))
      ensures db.lockFile == db.storePath + LockFileName
      ensures fs.DirectoryExists(db.storePath) && fs.files == old(fs.files)
      ensures fs.dirs == old(fs.dirs) + {DirKey(Combine(rootPath, StoreNameOf(nameOrId)))}
    {
      var storeName := StoreNameOf(nameOrId);
      var storeRoot := Combine(rootPath, storeName);
      if !fs.DirectoryExists(storeRoot) {
        fs.CreateDirectory(storeRoot);
      }
      var found := FileDb.Open(fs, storeRoot);
      db := found;
      DirKeyNormalised(storeRoot);
    }

    /** `GetMetaPath(id)`: under a normalised root, the root, the id and `.json`. */
    function GetMetaPath(id: string): (path: string)
      ensures |rootPath| >= 1 && rootPath[|rootPath| - 1] == Backslash && !IsRooted(id) ==>
        path == rootPath + id + ".json" && path != GetDataPath(id)
    {
      if |rootPath| >= 1 && rootPath[|rootPath| - 1] == Backslash && !IsRooted(id) then
        MetaAndDataPaths(rootPath, id);
        MetaPath(rootPath, id)
      else
        MetaPath(rootPath, id)
    }

    /** `GetDataPath(id)`: under a normalised root, the root, the id and `.blob`. */
    function GetDataPath(id: string): (path: string)
      ensures |rootPath| >= 1 && rootPath[|rootPath| - 1] == Backslash && !IsRooted(id) ==>
        path == rootPath + id + ".blob"
    {
      if |rootPath| >= 1 && rootPath[|rootPath| - 1] == Backslash && !IsRooted(id) then
        MetaAndDataPaths(rootPath, id);
        DataPath(rootPath, id)
      else
        DataPath(rootPath, id)
    }
  }

  /** The source's test of a store reached twice: allocate in a randomly drawn fresh
      store, pass the first segment of the id back to `GetStoreDb`, and allocate again;
      both ids name the same store, the first ends in 0001 and the second in 0002. */
  method SameStoreContinues(mgr: StoreManager, draw: int) returns (file: string, nextFile: string)
    requires 1 <= draw < RootFolderCount
    requires mgr.rootPath == NormaliseDir(mgr.rootPath)
    requires mgr.fs.ReadLines(NormaliseDir(mgr.rootPath + RandomStoreName(draw)) + LockFileName) == []
    modifies mgr.fs
    ensures file == Address(RandomStoreName(draw), [1, 1, 1])
    ensures nextFile == Address(RandomStoreName(draw), [1, 1, 2])
  {
    var name := RandomStoreName(draw);
    var db := mgr.GetRandomStoreDb(draw);
    AdvanceFromEmpty();
    file := db.NextAvailableFile([true, true, true]);
    var store := StoreNameOf(file);
    RandomStoreNamePlain(draw);
    ReturnedIdNamesStore(name, [1, 1, 1]);
    var db2 := mgr.GetStoreDb(store);
    StoreNameOfName(name);
    StoreFolderOfName(mgr.rootPath, name);
    assert db2.lockFile == db.lockFile && db2.StoreName() == name;
    PersistsReturned([]);
    AdvanceFromFirst();
    nextFile := db2.NextAvailableFile([true, true, true]);
  }

  /** Passing an id back to `GetStoreDb` reaches the store that handed it out. */
  lemma ReturnedIdNamesStore(name: string, t: seq<Int32>)
    requires name != "" && Backslash !in name
    ensures StoreNameOf(Address(name, t)) == name
  {
    StoreNameOfId(name, Join("\\", LockCodec.Encode(t)));
  }

  lemma AdvanceFromEmpty()
    ensures Odometer.Advance(StartValue([])) == [1, 1, 1]
  {
    Odometer.AdvanceTriple(Odometer.Origin);
  }

  lemma AdvanceFromFirst()
    ensures Odometer.Advance([1, 1, 1]) == [1, 1, 2]
  {
    Odometer.AdvanceTriple([1, 1, 1]);
  }
}
