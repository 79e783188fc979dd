/** `FileDb`: one store folder whose `store.lock` holds the last triple handed out,
    and the allocator that reads, advances and rewrites it under an exclusive open. */
module FileDbs {
  import opened Wrappers
  import opened Strings
  import opened Hex
  import opened Odometer
  import opened LockCodec
  import opened FileSystems

  const LockFileName: string := "store.lock"

  /** Number of attempts at opening the lock file exclusively. */
  const MaxTries: nat := 3

  /** The counter a call starts from: the origin, overwritten by the lock file's
      lines when the file is not empty. */
  function StartValue(lines: seq<string>): (t: seq<Int32>)
    ensures |t| == 3
    ensures forall i :: 0 <= i < 3 ==>
      ParseHex(LineAt(lines, i)) == Some(t[i]) || (ParseHex(LineAt(lines, i)).None? && t[i] == Origin[i])
  {
    if |lines| > 0 then ReadValues(Origin, lines) else Origin
  }

  /** The id handed out: the store folder's name and the "X4" form of each element,
      joined with `\`. */
  function Address(store: string, t: seq<Int32>): string
  {
    store + "\\" + Join("\\", Encode(t))
  }

  class FileDb {
    const fs: FileSystem
    const storePath: string
    const lockFile: string

    constructor (fs: FileSystem, storePath: string)
      ensures this.fs == fs && this.storePath == NormaliseDir(storePath)
      ensures lockFile == this.storePath + LockFileName
    {
      this.fs := fs;
      this.storePath := NormaliseDir(storePath);
      this.lockFile := NormaliseDir(storePath) + LockFileName;
    }

    /** `new FileDb(storePath)`: normalises the path to end with one `\`; throws
        `DirectoryNotFoundException` (here: `null`) when the directory does not exist. */
    static method Open(fs: FileSystem, storePath: string) returns (db: FileDb?)
      ensures db == null <==> !fs.DirectoryExists(storePath)
      ensures db != null ==> fresh(db) && db.fs == fs && db.storePath == NormaliseDir(storePath)
      ensures db != null ==> db.lockFile == db.storePath + LockFileName
    {
      var path := NormaliseDir(storePath);
      DirKeyNormalised(storePath);
      if !fs.DirectoryExists(path) {
        return null;
      }
      assert Combine(path, LockFileName) == path + LockFileName;
      db := new FileDb(fs, storePath);
    }

    /** The store folder's name, the first segment of every id this store hands out. */
    function StoreName(): string
    {
      DirectoryName(storePath)
    }

    /** `NextAvailableFile()`. `opens[i]` says whether the i-th exclusive open of the
        lock file succeeds, which depends on other holders of the file. On the first
        success the counter is read (when the file is not empty), advanced and written
        back, and its address returned. When every attempt fails the rethrow guarded
        by `numTries == 0` cannot fire inside the loop, so the call returns the address
        of the untouched origin and the lock file is left as it was. */
    method NextAvailableFile(opens: seq<bool>) returns (id: string)
      requires |opens| == MaxTries
      modifies fs
      ensures fs.dirs == old(fs.dirs)
      ensures true in opens ==>
        var before := old(fs.ReadLines(lockFile));
        var t := Advance(StartValue(before));
        fs.files == old(fs.files)[lockFile := Overwrite(before, Encode(t))] &&
        id == Address(StoreName(), t)
      ensures true !in opens ==> fs.files == old(fs.files) && id == Address(StoreName(), Origin)
    {
      ghost var before := fs.ReadLines(lockFile);
      var fileValue := new Int32[3] [1, 1, 0];
      var numTries := MaxTries as int;
      while numTries > 0
        invariant -1 <= numTries <= MaxTries
        invariant numTries >= 0 ==>
          true !in opens[..MaxTries - numTries] && fileValue[..] == Origin &&
          fs.files == old(fs.files) && fs.dirs == old(fs.dirs)
        invariant numTries == -1 ==>
          true in opens && fileValue[..] == Advance(StartValue(before)) && fs.dirs == old(fs.dirs) &&
          fs.files == old(fs.files)[lockFile := Overwrite(before, Encode(fileValue[..]))]
      {
        var attempt := MaxTries - numTries;
        assert opens[..attempt + 1] == opens[..attempt] + [opens[attempt]];
        if opens[attempt] {
          var lines := fs.ReadLines(lockFile);
          if |lines| > 0 {
            ReadValuesFromLockFile(fileValue, lines);
          }
          CalculateNextFileValue(fileValue);
          var written := WriteValuesToLockFile(fileValue, lines);
          fs.files := fs.files[lockFile := written];
          numTries := 0;
        }
        // otherwise the open threw an IOException: wait and try again
        numTries := numTries - 1;
      }
      assert numTries == 0 ==> opens[..MaxTries] == opens;
      id := Address(StoreName(), fileValue[..]);
    }
  }

  /** The lock file of a fresh store after `n` successful calls. */
  function LockAfter(n: nat): seq<string>
  {
    if n == 0 then []
    else
      var before := LockAfter(n - 1);
      Overwrite(before, Encode(Advance(StartValue(before))))
  }

  /** The triple the `n`-th successful call on a fresh store hands out. */
  function Allocated(n: nat): seq<Int32>
    requires n >= 1
  {
    Advance(StartValue(LockAfter(n - 1)))
  }

  /** A call persists exactly the triple it returns: reading the lock file it wrote
      gives back that triple. */
  lemma PersistsReturned(before: seq<string>)
    ensures var t := Advance(StartValue(before));
      StartValue(Overwrite(before, Encode(t))) == t
  {
    var t := Advance(StartValue(before));
    DecodeEncode(Origin, t, before);
  }

  /** Reading a lock file that holds exactly the lines of a triple gives the triple. */
  lemma StartValueOfEncoded(t: seq<Int32>)
    requires |t| == 3
    ensures StartValue(Encode(t)) == t
  {
    DecodeEncode(Origin, t, []);
    assert Overwrite([], Encode(t)) == Encode(t);
  }

  /** After `n` successful calls on a fresh store the lock file holds exactly the three
      lines of the `n`-th step of the odometer from the origin. */
  lemma {:induction false} LocksFollowOdometer(n: nat)
    ensures LockAfter(n) == if n == 0 then [] else Encode(Iterate(Origin, n))
  {
    if n >= 1 {
      LocksFollowOdometer(n - 1);
      if n > 1 {
        StartValueOfEncoded(Iterate(Origin, n - 1));
      }
      assert StartValue(LockAfter(n - 1)) == Iterate(Origin, n - 1);
      assert Overwrite(LockAfter(n - 1), Encode(Iterate(Origin, n))) == Encode(Iterate(Origin, n));
    }
  }

  /** Successive calls on one store follow the odometer from the origin. */
  lemma AllocationsFollowOdometer(n: nat)
    requires n >= 1
    ensures Allocated(n) == Iterate(Origin, n)
  {
    LocksFollowOdometer(n - 1);
    if n > 1 {
      StartValueOfEncoded(Iterate(Origin, n - 1));
    }
  }

  /** The `n`-th call on a fresh store returns the closed-form `n`-th triple. */
  lemma AllocatedClosed(n: int)
    requires 1 <= n <= 500_000_000
    ensures Allocated(n) == Closed(n)
  {
    AllocationsFollowOdometer(n);
    IterateClosedForm(n);
  }

  /** Joined segments free of the separator split back into the same segments. */
  lemma {:induction false} SplitJoin(parts: seq<string>)
    requires |parts| >= 1
    requires forall k :: 0 <= k < |parts| ==> Backslash !in parts[k]
    ensures Split(Join("\\", parts), Backslash) == parts
    decreases |parts|
  {
    if |parts| > 1 {
      var tail := parts[1..];
      assert forall k :: 0 <= k < |tail| ==> Backslash !in tail[k] by {
        forall k | 0 <= k < |tail| ensures Backslash !in tail[k] {
          assert tail[k] == parts[k + 1];
        }
      }
      SplitJoin(tail);
      var rest := Join("\\", tail);
      assert Join("\\", parts) == parts[0] + [Backslash] + rest;
      SplitAfterFreePrefix(parts[0], Backslash, rest);
      assert [parts[0]] + tail == parts;
    }
  }

  /** The lines of a counter hold no `\`, so joining them with `\` splits back into them. */
  lemma EncodeSplits(t: seq<Int32>)
    requires |t| >= 1
    ensures Split(Join("\\", Encode(t)), Backslash) == Encode(t)
  {
    forall k | 0 <= k < |t| ensures Backslash !in Encode(t)[k] {
      assert Encode(t)[k] == X4(t[k]);
    }
    SplitJoin(Encode(t));
  }

  /** An id is the store's name and a `\`, followed by text that splits on `\` into
      the lines of the triple. */
  lemma AddressParts(store: string, t: seq<Int32>)
    requires |t| >= 1
    ensures var id := Address(store, t);
      |id| > |store| && id[..|store| + 1] == store + "\\" && Split(id[|store| + 1..], Backslash) == Encode(t)
  {
    var id := Address(store, t);
    assert id[|store| + 1..] == Join("\\", Encode(t));
    EncodeSplits(t);
  }

  /** Different triples of one store give different ids. */
  lemma AddressInjective(store: string, t1: seq<Int32>, t2: seq<Int32>)
    requires |t1| >= 1 && |t2| >= 1
    requires Address(store, t1) == Address(store, t2)
    ensures t1 == t2
  {
    AddressParts(store, t1);
    AddressParts(store, t2);
    forall k | 0 <= k < |t1| ensures t1[k] == t2[k] {
      assert Encode(t1)[k] == X4(t1[k]) && Encode(t2)[k] == X4(t2[k]);
      X4Injective(t1[k], t2[k]);
    }
  }

  /** Within a store's capacity, successive calls hand out strictly increasing and
      pairwise distinct triples, hence distinct ids. */
  lemma AllocationsDistinct(store: string, i: nat, j: nat)
    requires 1 <= i < j <= 500_000_000
    ensures Rank(Allocated(i)) < Rank(Allocated(j))
    ensures Address(store, Allocated(i)) != Address(store, Allocated(j))
  {
    AllocationsFollowOdometer(i);
    AllocationsFollowOdometer(j);
    IterateStrictlyIncreasing(i, j);
    if Address(store, Allocated(i)) == Address(store, Allocated(j)) {
      AddressInjective(store, Allocated(i), Allocated(j));
    }
  }

  /** The id of a triple, written out segment by segment. */
  lemma AddressOfTriple(store: string, t: seq<Int32>)
    requires |t| == 3
    ensures Address(store, t) == store + "\\" + X4(t[0]) + "\\" + X4(t[1]) + "\\" + X4(t[2])
  {
    var e := Encode(t);
    var a, b, c := X4(t[0]), X4(t[1]), X4(t[2]);
    assert e[0] == a && e[1] == b && e[2] == c;
    var tail := e[1..];
    assert tail[0] == b && tail[1..] == [c];
    assert Join("\\", [c]) == c;
    assert Join("\\", tail) == b + "\\" + c;
    assert Join("\\", e) == a + "\\" + (b + "\\" + c);
  }

  /** The first 500 calls on a fresh store fill folder 0001\0001: the `n`-th id ends
      in the "X4" form of `n`. */
  lemma FirstFolderAddresses(store: string, n: int)
    requires 1 <= n <= 500
    ensures Address(store, Allocated(n)) == store + "\\0001\\0001\\" + X4(n)
  {
    var t: seq<Int32> := [1, 1, n];
    assert Allocated(n) == t by {
      AllocatedClosed(n);
      ClosedFirstFolder(n);
    }
    AddressOfTriple(store, t);
    assert Address(store, Allocated(n)) == store + "\\" + X4(1) + "\\" + X4(1) + "\\" + X4(n);
    X4One();
    var x1, xn := X4(1), X4(n);
    assert x1 == "0001";
    FirstFolderPrefix(store, xn);
  }

  /** The literal folder prefix, kept apart so that the verifier proves the string
      equation in a small context. */
  lemma FirstFolderPrefix(store: string, x: string)
    ensures store + "\\" + "0001" + "\\" + "0001" + "\\" + x == store + "\\0001\\0001\\" + x
  {
  }

  /** The source's test on a fresh store: the first id ends in 0001\0001\0001. */
  lemma FirstAddress(store: string)
    ensures Address(store, Allocated(1)) == store + "\\0001\\0001\\0001"
  {
    FirstFolderAddresses(store, 1);
    X4One();
    var x := X4(1);
    assert x == "0001";
    assert store + "\\0001\\0001\\" + "0001" == store + "\\0001\\0001\\0001";
  }

  /** The source's test on a fresh store: the 318th id ends in 0001\0001\013E. The
      count is a parameter so that the verifier does not unfold 318 calls. */
  lemma Address318(store: string, n: int)
    requires n == 318
    ensures Address(store, Allocated(n)) == store + "\\0001\\0001\\013E"
  {
    FirstFolderAddresses(store, n);
    X4Of318();
    FirstFolderSuffix(store, X4(n));
  }

  /** The literal last segment, kept apart for the same reason. */
  lemma FirstFolderSuffix(store: string, x: string)
    requires x == "013E"
    ensures store + "\\0001\\0001\\" + x == store + "\\0001\\0001\\013E"
  {
  }

  /** A call whose three opens all fail returns the origin's id, ending in 0001\0001\0000. */
  lemma FailedCallAddress(store: string)
    ensures Address(store, Origin) == store + "\\0001\\0001\\0000"
  {
    X4Zero();
    X4One();
    AddressOfTriple(store, Origin);
  }
}
