/** The older `StoreManager` of the first file-system backend: the same odometer and
    lock-file codec as `FileDb`, but its counter starts from (1,1,1) instead of
    (1,1,0). Its helpers are the shared ones; what differs is the default. */
module LegacyStore {
  import opened Wrappers
  import opened Hex
  import opened Odometer
  import opened LockCodec
  import FileDbs
  import StoreManagers

  /** The array `NextAvailableFile` starts from before reading the lock file. */
  const LegacyDefault: seq<Int32> := [1, 1, 1]

  /** `GetRandomStoreFolder()` for a draw of `random.Next(1, 500)`. */
  function GetRandomStoreFolder(draw: int): (name: string)
    requires 1 <= draw < 500
    ensures |name| == 4 && ParseHex(Some(name)) == Some(draw)
    ensures name != "0000" && name != "01F4"
  {
    StoreManagers.RandomStoreNameRange(draw);
    StoreManagers.RandomStoreName(draw)
  }

  /** The older `CalculateNextFileValue`: the same carry as `FileDb`'s. */
  method CalculateNextFileValue(structure: array<Int32>)
    requires structure.Length >= 1
    modifies structure
    ensures structure[..] == Advance(old(structure[..]))
  {
    Odometer.CalculateNextFileValue(structure);
  }

  /** The older `ReadValuesFromLockFile`: the same line-by-line reader. */
  method ReadValuesFromLockFile(structure: array<Int32>, lines: seq<string>)
    modifies structure
    ensures structure[..] == ReadValues(old(structure[..]), lines)
  {
    LockCodec.ReadValuesFromLockFile(structure, lines);
  }

  /** The older `WriteValuesToLockFile`: the same "X4" line per element. */
  method WriteValuesToLockFile(structure: array<Int32>, lines: seq<string>) returns (written: seq<string>)
    ensures written == Overwrite(lines, Encode(structure[..]))
  {
    written := LockCodec.WriteValuesToLockFile(structure, lines);
  }

  /** The counter the older allocator starts from: each element is the default or the
      value of its line. */
  function LegacyStartValue(lines: seq<string>): (t: seq<Int32>)
    ensures |t| == 3
    ensures forall i :: 0 <= i < 3 ==>
      ParseHex(LineAt(lines, i)) == Some(t[i]) || (ParseHex(LineAt(lines, i)).None? && t[i] == LegacyDefault[i])
  {
    if |lines| > 0 then ReadValues(LegacyDefault, lines) else LegacyDefault
  }

  /** Why the older `NextAvailableFile` throws. */
  datatype LegacyError = StreamClosed

  /** The older `NextAvailableFile` as written, up to its return: the outcome and the
      lock file's lines afterwards. On an empty lock file nothing is read and (1,1,2) is
      written from the start. On any other lock file the reader is built without
      `leaveOpen`, so its `using` closes the lock stream, and building the writer on the
      closed stream throws: nothing is written. */
  method NextAvailableValue(lines: seq<string>) returns (r: Result<seq<Int32>, LegacyError>, written: seq<string>)
    ensures |lines| == 0 ==> r == Ok([1, 1, 2]) && written == Encode([1, 1, 2])
    ensures |lines| > 0 ==> r == Err(StreamClosed) && written == lines
    ensures (r, written) == LegacyCall(lines)
  {
    var fileValue := new Int32[3] [1, 1, 1];
    assert fileValue[..] == LegacyDefault;
    var streamOpen := true;
    if |lines| > 0 {
      ReadValuesFromLockFile(fileValue, lines);
      // the reader's `using` disposes the lock stream with it
      streamOpen := false;
    }
    CalculateNextFileValue(fileValue);
    if streamOpen {
      AdvanceTriple(LegacyDefault);
      written := WriteValuesToLockFile(fileValue, lines);
      r := Ok(fileValue[..]);
    } else {
      // `new StreamWriter` on the closed stream throws before writing anything
      written := lines;
      r := Err(StreamClosed);
    }
  }

  /** The outcome of one call of the older `NextAvailableFile` as written, and the lock
      file's lines afterwards. */
  function LegacyCall(lines: seq<string>): (Result<seq<Int32>, LegacyError>, seq<string>)
  {
    if |lines| > 0 then (Err(StreamClosed), lines)
    else
      var t := Advance(LegacyDefault);
      (Ok(t), Overwrite(lines, Encode(t)))
  }

  /** The older lock file of a fresh store after `n` calls as written. */
  function AsWrittenLockAfter(n: nat): seq<string>
  {
    if n == 0 then [] else LegacyCall(AsWrittenLockAfter(n - 1)).1
  }

  /** The older allocator as written hands out (1,1,2) once: from then on the lock file
      stays at 0001, 0001, 0002 and every later call throws. */
  lemma {:induction false} AsWrittenStops(n: nat)
    requires n >= 1
    ensures LegacyCall([]).0 == Ok([1, 1, 2])
    ensures AsWrittenLockAfter(n) == Encode([1, 1, 2])
    ensures LegacyCall(AsWrittenLockAfter(n)).0 == Err(StreamClosed)
  {
    AdvanceTriple(LegacyDefault);
    if n > 1 {
      AsWrittenStops(n - 1);
    }
  }

  /** The older `NextAvailableFile` as evidently intended: the reader leaves the lock
      stream open and the writer starts again from the beginning of the file, as
      `FileDb` does, so the counter is read, advanced and written back under one open.
      Returns the new triple and the lock file's lines afterwards. */
  method CorrectedNextAvailableValue(lines: seq<string>) returns (t: seq<Int32>, written: seq<string>)
    ensures t == Advance(LegacyStartValue(lines))
    ensures written == Overwrite(lines, Encode(t))
  {
    var fileValue := new Int32[3] [1, 1, 1];
    assert fileValue[..] == LegacyDefault;
    if |lines| > 0 {
      ReadValuesFromLockFile(fileValue, lines);
    }
    ghost var start := fileValue[..];
    assert start == LegacyStartValue(lines);
    CalculateNextFileValue(fileValue);
    t := fileValue[..];
    written := WriteValuesToLockFile(fileValue, lines);
  }

  /** The two defaults compared on any lock file: the folders read the same, and the
      slot differs exactly when its line is missing or does not parse, in which case
      the older start value is one step ahead of `FileDb`'s. On an empty lock file the
      older allocator hands out (1,1,2) where `FileDb` hands out (1,1,1). */
  lemma LegacyStartComparison(lines: seq<string>)
    ensures LegacyStartValue(lines)[..2] == FileDbs.StartValue(lines)[..2]
    ensures LegacyStartValue(lines)[2] == FileDbs.StartValue(lines)[2] <==> ParseHex(LineAt(lines, 2)).Some?
    ensures ParseHex(LineAt(lines, 2)).None? ==> LegacyStartValue(lines) == Advance(FileDbs.StartValue(lines))
    ensures Advance(LegacyStartValue([])) == [1, 1, 2] && Advance(FileDbs.StartValue([])) == [1, 1, 1]
  {
    var l, f := LegacyStartValue(lines), FileDbs.StartValue(lines);
    AdvanceTriple(f);
    AdvanceTriple(LegacyDefault);
    AdvanceTriple(Origin);
    assert LineAt([], 2) == None;
    if |lines| > 0 {
      assert l[0] == f[0] && l[1] == f[1];
    }
  }

  /** The lock file of a fresh store after `n` calls of the corrected older allocator. */
  function CorrectedLockAfter(n: nat): seq<string>
  {
    if n == 0 then []
    else
      var before := CorrectedLockAfter(n - 1);
      Overwrite(before, Encode(Advance(LegacyStartValue(before))))
  }

  /** The triple the `n`-th call of the corrected older allocator hands out on a fresh store. */
  function CorrectedAllocated(n: nat): seq<Int32>
    requires n >= 1
  {
    Advance(LegacyStartValue(CorrectedLockAfter(n - 1)))
  }

  /** Reading a lock file that holds exactly the lines of a triple gives the triple. */
  lemma LegacyStartValueOfEncoded(t: seq<Int32>)
    requires |t| == 3
    ensures LegacyStartValue(Encode(t)) == t
  {
    DecodeEncode(LegacyDefault, t, []);
    assert Overwrite([], Encode(t)) == Encode(t);
  }

  /** After `n` calls of the corrected older allocator on a fresh store the lock file
      holds the lines of the `n`-th step of the odometer from (1,1,1). */
  lemma {:induction false} CorrectedLocksFollowOdometer(n: nat)
    ensures CorrectedLockAfter(n) == if n == 0 then [] else Encode(Iterate(LegacyDefault, n))
  {
    if n >= 1 {
      CorrectedLocksFollowOdometer(n - 1);
      if n > 1 {
        LegacyStartValueOfEncoded(Iterate(LegacyDefault, n - 1));
      }
      assert LegacyStartValue(CorrectedLockAfter(n - 1)) == Iterate(LegacyDefault, n - 1);
      assert Overwrite(CorrectedLockAfter(n - 1), Encode(Iterate(LegacyDefault, n))) == Encode(Iterate(LegacyDefault, n));
    }
  }

  /** Starting one step further on is the same as taking one step more. */
  lemma {:induction false} IterateShift(s: seq<Int32>, n: nat)
    requires |s| >= 1 && n >= 1
    ensures Iterate(Advance(s), n - 1) == Iterate(s, n)
  {
    if n > 1 {
      IterateShift(s, n - 1);
    }
  }

  /** The corrected older allocator runs one step ahead of `FileDb` on a fresh store:
      its `(k-1)`-th triple is `FileDb`'s `k`-th. */
  lemma CorrectedOneAhead(k: nat)
    requires k >= 2
    ensures CorrectedAllocated(k - 1) == FileDbs.Allocated(k)
  {
    var n := k - 1;
    CorrectedLocksFollowOdometer(n - 1);
    if n > 1 {
      LegacyStartValueOfEncoded(Iterate(LegacyDefault, n - 1));
    }
    assert CorrectedAllocated(n) == Iterate(LegacyDefault, n);
    AdvanceTriple(Origin);
    IterateShift(Origin, k);
    FileDbs.AllocationsFollowOdometer(k);
  }

  /** The corrected older allocator's `(k-1)`-th triple sits at position `k-1`, one past
      `FileDb`'s `(k-1)`-th. */
  lemma CorrectedRank(k: int)
    requires 2 <= k <= 500_000_000
    ensures |CorrectedAllocated(k - 1)| == 3 && Rank(CorrectedAllocated(k - 1)) == k - 1
  {
    CorrectedOneAhead(k);
    FileDbs.AllocationsFollowOdometer(k);
    IterateRank(k);
  }

  /** So within a store's capacity the corrected older allocator never hands out
      (1,1,1): the first id of a fresh store ends in 0001\0001\0002. */
  lemma CorrectedSkipsFirst(k: int)
    requires 2 <= k <= 500_000_000
    ensures CorrectedAllocated(k - 1) != [1, 1, 1]
  {
    CorrectedRank(k);
    var first: seq<Int32> := [1, 1, 1];
    assert Rank(first) == 0;
  }
}
