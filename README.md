# FileStorage blob addressing, in Dafny

This project models how PracticeEngine's FileStorage names and locates blobs:

- **`FileDb`** is the local-filesystem backend's allocator.
  - Each store folder holds a `store.lock` file with three lines.
  - Each line is the "X4" (four-digit upper-case hex) form of one counter element.
  - The counter is a mixed-radix odometer: two folder digits of radix 1000 and a file slot of radix 500.
  - `NextAvailableFile` opens the lock file exclusively, up to three times. On the first success it reads the counter, advances it, writes it back, and returns the id `store\XXXX\XXXX\XXXX`.
- **`StoreManager`** (the current one) owns the store root.
  - It picks one of the 499 store folders at random.
  - It finds the store of an existing blob from the blob's id.
  - It builds the paths of a blob's `.json` and `.blob` files.
- **The older `StoreManager`** has the same odometer and lock-file codec, but its counter starts from (1,1,1) instead of (1,1,0).
  - As written, its lock-file reader closes the lock stream, so the write that follows throws on any non-empty lock file (see "## Findings").
  - A corrected version, which keeps the stream open and rewinds it as `FileDb` does, is modelled beside it.
- **`StoragePathBuilder`** builds blob ids and folder and file paths by string concatenation.
- **`MetaTable`** is the cloud backend's id codec.
  - The partition key is the creation day as `yyyyMMdd`.
  - The row key is a GUID as 32 hex digits.
  - The id is the partition key, `/`, and the row key. `GetKeysFromId` splits an id back into the two keys.

The model follows the form of the C# code:

- Methods that update arrays in place (`CalculateNextFileValue`, and the lock-file reader and writer) are Dafny methods over `array<Int32>`. Each is proved against a function on `seq<Int32>`.
- The file system is a class: a `FileSystem` with a set of directories and a map from file paths to their lines. `FileDb` and `StoreManager` are classes over it.
- `StoragePathBuilder` and `MetaTable` are pure, so they are datatypes and functions.
- .NET's 32-bit `int` is the subtype `Int32`. `x++` is written out as `Inc32`, with wrap-around at `Int32.MaxValue`.

Files:

- `wrappers.dfy`: Option and Result.
- `strings.dfy`: .NET `Trim`/`TrimStart`/`TrimEnd`, `IndexOf`, `Split` and `Join`.
- `hex.dfy`: `Int32`, `ToString("X4")` and `Int32.TryParse(…, HexNumber)`.
- `odometer.dfy`: the odometer, its closed form and its ordering.
- `lockcodec.dfy`: lock-file lines.
- `filesystem.dfy`: directories, files, `Path.Combine` and `DirectoryInfo.Name`.
- `filedb.dfy`: `FileDb`.
- `storemanager.dfy`: `StoreManager`.
- `legacystore.dfy`: the older `StoreManager`.
- `pathbuilder.dfy`: `StoragePathBuilder`.
- `metatable.dfy`: `MetaTable`.

## Model

| member | source | states |
|---|---|---|
| Strings.TrimIdempotent | src/PE.BlobStorage.FileSystem/StoreManager.cs:45 | `Trim('\\')` leaves no leading or trailing `\`, and trimming again changes nothing |
| Strings.Split | src/PE.BlobStorage.AzureStorage/MetaTable.cs:41 | `Split` gives at least one part, and no part contains the separator. There is exactly one part iff the separator does not occur |
| Strings.SplitAfterFreePrefix | src/PE.BlobStorage.AzureStorage/MetaTable.cs:41 | splitting `a + c + b`, where `a` has no `c`, gives `a` followed by the parts of `b` |
| Hex.X4 | src/PE.BlobStorage.FileSystem/FileDb.cs:124 | "X4" writes at least four upper-case hex digits |
| Hex.X4Digits | src/PE.BlobStorage.FileSystem/FileDb.cs:124 | the zero-padded digits "X4" writes have the value of the number. A negative number is written as its 32-bit two's complement |
| Hex.X4RoundTrip | src/PE.BlobStorage.FileSystem/FileDb.cs:118-149 | every `Int32` written with "X4" parses back, with `TryParse` in HexNumber style, to the same value |
| Hex.X4Injective | src/PE.BlobStorage.FileSystem/FileDb.cs:75 | distinct values have distinct "X4" forms |
| Hex.X4Width | src/PE.BlobStorage.FileSystem/FileDb.cs:124 | values 0..0xFFFF take exactly four characters |
| Hex.ParseHexDigits | src/PE.BlobStorage.FileSystem/FileDb.cs:143 | a clean run of hex digits below 2^32 parses to its two's-complement reading |
| Hex.X4Of318 | tests/PE.Storage.FileSystemTests/FileDbTests.cs:71 | 318 is written `013E` |
| Hex.X4Of500 | src/PE.BlobStorage.FileSystem/StoreManager.cs:33 | 500, the exclusive bound of the store draw, is written `01F4` |
| Hex.Inc32 | src/PE.BlobStorage.FileSystem/FileDb.cs:108 | `x++` adds one modulo 2^32: one more below `Int32.MaxValue`, which wraps to `Int32.MinValue` |
| Hex.ParseHex | src/PE.BlobStorage.FileSystem/FileDb.cs:143 | a missing line fails. Otherwise it succeeds iff the line, trimmed of white space, is a non-empty run of hex digits of either case whose value is below 2^32, and then the result is that value modulo 2^32 |
| Odometer.CalculateNextFileValue | src/PE.BlobStorage.FileSystem/FileDb.cs:83-110 | the array after the in-place carry loop is `Advance` of the array before |
| Odometer.CarryStep | src/PE.BlobStorage.FileSystem/FileDb.cs:89-103 | one iteration of the carry loop. A folder at 1000 becomes 1 and the carry goes on; any other folder is incremented and the loop stops |
| Odometer.CarryDigits | src/PE.BlobStorage.FileSystem/FileDb.cs:89-103 | digit by digit, the carry changes a folder exactly when every folder to its right is at 1000; that folder then wraps from 1000 to 1 or is incremented |
| Odometer.AdvanceDigits | src/PE.BlobStorage.FileSystem/FileDb.cs:83-110 | on an array of any length, a step increments the slot or wraps it from 500 to 1. A folder changes exactly when the slot wraps and every folder to its right is at 1000 |
| Odometer.Iterate | src/PE.BlobStorage.FileSystem/FileDb.cs:83-110 | one or more steps from folders in 1..1000 and a slot in 0..500 always give an issued triple: folders in 1..1000, slot in 1..500 |
| Odometer.AdvanceTriple | src/PE.BlobStorage.FileSystem/FileDb.cs:83-110 | on triples, a step either increments only the slot, or resets the slot and carries. Each carry case is listed, including the wrap of (1000,1000,500) to (1,1,1) |
| Odometer.AdvanceKeepsRange | src/PE.BlobStorage.FileSystem/FileDb.cs:83-110 | a step takes folders in 1..1000 and a slot in 0..500 to folders in 1..1000 and a slot in 1..500 |
| Odometer.AdvanceSucceeds | src/PE.BlobStorage.FileSystem/FileDb.cs:85-109 | below (1000,1000,500), a step moves an issued triple exactly one position on. The full triple wraps to (1,1,1) |
| Odometer.FirstAdvance | src/PE.BlobStorage.FileSystem/FileDb.cs:42-57 | the first step from {1,1,0} gives (1,1,1) |
| Odometer.ClosedRank | tests/PE.Storage.FileSystemTests/FileDbTests.cs:104-137 | the closed-form `n`-th triple is issued and sits at position n-1 |
| Odometer.RankDetermines | tests/PE.Storage.FileSystemTests/FileDbTests.cs:104-137 | an issued triple is the closed-form triple of its position plus one |
| Odometer.ClosedStep | src/PE.BlobStorage.FileSystem/FileDb.cs:83-110 | below the capacity, a step takes the closed-form `n`-th triple to the `(n+1)`-th |
| Odometer.ClosedFirstFolder | tests/PE.Storage.FileSystemTests/FileDbTests.cs:47-72 | the first 500 triples are (1,1,n) |
| Odometer.IterateClosedForm | tests/PE.Storage.FileSystemTests/FileDbTests.cs:104-137 | for 1 ≤ n ≤ 500,000,000, n steps from (1,1,0) give ((n-1)/500000+1, ((n-1)/500)%1000+1, (n-1)%500+1) |
| Odometer.CapacityValues | tests/PE.Storage.FileSystemTests/FileDbTests.cs:104-137 | the 500,001st triple is (2,1,1) and the 500,000,000th is (1000,1000,500) |
| Odometer.IterateWrapsAtFull | src/PE.BlobStorage.FileSystem/FileDb.cs:85-103 | the step after (1000,1000,500) silently wraps to (1,1,1) |
| Odometer.IterateRank | tests/PE.Storage.FileSystemTests/FileDbTests.cs:75-101 | the `n`-th triple from the origin is issued and sits at position n-1 |
| Odometer.IterateStrictlyIncreasing | tests/PE.Storage.FileSystemTests/FileDbTests.cs:75-101 | within a store's capacity, later triples have strictly larger positions and are different |
| LockCodec.Encode | src/PE.BlobStorage.FileSystem/FileDb.cs:122-125 | the writer emits one line per element |
| LockCodec.ReadValues | src/PE.BlobStorage.FileSystem/FileDb.cs:135-149 | each element is the value its line parses to, or, when the line is missing or does not parse, the prior value |
| LockCodec.Overwrite | src/PE.BlobStorage.FileSystem/FileDb.cs:59-60 | writing from the start without truncating: the new lines come first and any further old lines stay as they were |
| LockCodec.ReadValuesFromLockFile | src/PE.BlobStorage.FileSystem/FileDb.cs:135-149 | each element takes its line's hex value when the line parses, and otherwise keeps its prior value (also past the end of the file) |
| LockCodec.WriteValuesToLockFile | src/PE.BlobStorage.FileSystem/FileDb.cs:118-127 | the file afterwards is the "X4" lines of the array written over the start of the old file; longer old content is not truncated |
| LockCodec.OverwriteStep | src/PE.BlobStorage.FileSystem/FileDb.cs:122-125 | writing one more line replaces the next old line, or appends past the old lines |
| LockCodec.DecodeEncode | src/PE.BlobStorage.FileSystem/FileDb.cs:118-149 | reading back what was written gives the written values, whatever the prior values and leftover old lines |
| LockCodec.ReadKeepsUnparsed | src/PE.BlobStorage.FileSystem/FileDb.cs:139-147 | an element whose line is missing or does not parse keeps its prior value. An element whose line parses takes the parsed value |
| FileSystems.NormaliseDir | src/PE.BlobStorage.FileSystem/FileDb.cs:28 | `TrimEnd('\\') + '\\'` ends in `\` |
| FileSystems.DirKeyNormalised | src/PE.BlobStorage.FileSystem/FileDb.cs:28 | normalising a directory path does not change which directory it names |
| FileSystems.LastSegment | src/PE.BlobStorage.FileSystem/FileDb.cs:74 | the last segment of a path contains no `\` |
| FileSystems.LastSegmentSuffix | src/PE.BlobStorage.FileSystem/FileDb.cs:74 | the last segment is a suffix of the path that is either the whole path or follows a `\`. `DirectoryName` is this segment of the path with its trailing `\` removed |
| FileSystems.Combine | src/PE.BlobStorage.FileSystem/StoreManager.cs:47 | an empty second part gives the first. A rooted second part, or an empty first part, gives the second. Otherwise the result starts with the first part and ends with the second, with one `\` in between unless the first already ends in a separator or a drive colon |
| FileSystems.FileSystem.CreateDirectory | src/PE.BlobStorage.FileSystem/StoreManager.cs:24 | afterwards the directory exists; nothing else changes |
| FileDbs.FileDb.Open | src/PE.BlobStorage.FileSystem/FileDb.cs:26-32 | the constructor fails (`null`) iff the directory does not exist. Otherwise the store path is normalised and the lock file is `store.lock` inside it |
| FileDbs.StartValue | src/PE.BlobStorage.FileSystem/FileDb.cs:42-55 | each element of the starting counter is the value its line parses to, or the origin's element when the line is missing or does not parse |
| FileDbs.FileDb.NextAvailableFile | src/PE.BlobStorage.FileSystem/FileDb.cs:39-77 | if some open succeeds, the lock file becomes the advanced counter written over the old lines, and the id is that counter's address. If all three fail, nothing changes and the id is the origin's address |
| FileDbs.PersistsReturned | src/PE.BlobStorage.FileSystem/FileDb.cs:49-60 | the next call reads back exactly the triple a call returned |
| FileDbs.StartValueOfEncoded | src/PE.BlobStorage.FileSystem/FileDb.cs:52-55 | a lock file that holds a triple's lines starts the next call from that triple |
| FileDbs.LocksFollowOdometer | src/PE.BlobStorage.FileSystem/FileDb.cs:42-60 | after n successful calls on a fresh store, the lock file holds exactly the three lines of the n-th odometer step from (1,1,0) |
| FileDbs.AllocationsFollowOdometer | src/PE.BlobStorage.FileSystem/FileDb.cs:42-60 | the n-th successful call returns the n-th odometer step from (1,1,0) |
| FileDbs.AllocatedClosed | tests/PE.Storage.FileSystemTests/FileDbTests.cs:104-137 | the n-th successful call returns the closed-form n-th triple |
| FileDbs.EncodeSplits | src/PE.BlobStorage.FileSystem/FileDb.cs:75-76 | the "X4" segments of a counter, joined with `\`, split back into the same segments |
| FileDbs.AddressParts | src/PE.BlobStorage.FileSystem/FileDb.cs:74-76 | an id is the store name and a `\`, followed by text that splits on `\` into the counter's "X4" lines |
| FileDbs.SplitJoin | src/PE.BlobStorage.FileSystem/FileDb.cs:75-76 | joined segments free of `\` split back into the same segments |
| FileDbs.AddressInjective | src/PE.BlobStorage.FileSystem/FileDb.cs:74-76 | equal ids of one store come from equal triples |
| FileDbs.AllocationsDistinct | tests/PE.Storage.FileSystemTests/FileDbTests.cs:75-101 | within a store's capacity, successive calls return strictly increasing triples and distinct ids |
| FileDbs.AddressOfTriple | src/PE.BlobStorage.FileSystem/FileDb.cs:74-76 | the id is the store name, then the three "X4" segments, separated by `\` |
| FileDbs.FirstFolderAddresses | tests/PE.Storage.FileSystemTests/FileDbTests.cs:47-72 | the n-th id, for n ≤ 500, is `store\0001\0001\` followed by "X4" of n |
| FileDbs.FirstAddress | tests/PE.Storage.FileSystemTests/FileDbTests.cs:24-44 | the first id of a fresh store is `store\0001\0001\0001` |
| FileDbs.Address318 | tests/PE.Storage.FileSystemTests/FileDbTests.cs:47-72 | the 318th id of a fresh store is `store\0001\0001\013E` |
| FileDbs.FailedCallAddress | src/PE.BlobStorage.FileSystem/FileDb.cs:45-76 | a call whose opens all fail returns `store\0001\0001\0000` instead of throwing |
| StoreManagers.RandomStoreName | src/PE.BlobStorage.FileSystem/StoreManager.cs:33 | a draw in 1..499 names a four-character store that parses back to the draw |
| StoreManagers.RandomStoreNameRange | src/PE.BlobStorage.FileSystem/StoreManager.cs:33 | no store is named `0000` or `01F4` |
| StoreManagers.RandomStoreNamePlain | src/PE.BlobStorage.FileSystem/StoreManager.cs:33 | a drawn store name is non-empty, contains no `\` and is not rooted |
| StoreManagers.StoreNameIdempotent | src/PE.BlobStorage.FileSystem/StoreManager.cs:45-46 | the extracted store name contains no `\`, and extracting again changes nothing |
| StoreManagers.StoreNameIsFirstSegment | src/PE.BlobStorage.FileSystem/StoreManager.cs:45-46 | the extracted store name is the trimmed text up to its first `\`: a `\`-free prefix that is the whole trimmed text or is followed by a `\` |
| StoreManagers.StoreNameOfName | src/PE.BlobStorage.FileSystem/StoreManager.cs:45-46 | a bare store name maps to itself |
| StoreManagers.StoreNameOfId | src/PE.BlobStorage.FileSystem/StoreManager.cs:45-46 | an id maps to its first segment, whatever follows it |
| StoreManagers.StoreFolderOfName | src/PE.BlobStorage.FileSystem/StoreManager.cs:47 | combining the normalised root with a plain name appends the name, and the folder's `DirectoryInfo.Name` is that name |
| StoreManagers.LastSegmentAfter | src/PE.BlobStorage.FileSystem/FileDb.cs:74 | the last segment of a path ending in `\` followed by a plain name is that name |
| StoreManagers.ExtensionKeepsRooting | src/PE.BlobStorage.FileSystem/StoreManager.cs:60 | appending an extension that starts with `.` does not change whether the path is rooted |
| StoreManagers.MetaPath | src/PE.BlobStorage.FileSystem/StoreManager.cs:58-61 | a rooted id gives the id and `.json`, ignoring the root. Under a root ending in `\`, any other id gives the root, the id and `.json` |
| StoreManagers.DataPath | src/PE.BlobStorage.FileSystem/StoreManager.cs:68-71 | a rooted id gives the id and `.blob`, ignoring the root. Under a root ending in `\`, any other id gives the root, the id and `.blob` |
| StoreManagers.MetaAndDataPaths | src/PE.BlobStorage.FileSystem/StoreManager.cs:58-71 | `GetMetaPath` and `GetDataPath` are the root, the id and `.json` or `.blob`, and they differ |
| StoreManagers.StoreManager.GetMetaPath | src/PE.BlobStorage.FileSystem/StoreManager.cs:58-61 | under the normalised root, an id that is not rooted gives the root, the id and `.json`, which differs from the data path |
| StoreManagers.StoreManager.GetDataPath | src/PE.BlobStorage.FileSystem/StoreManager.cs:68-71 | under the normalised root, an id that is not rooted gives the root, the id and `.blob` |
| StoreManagers.StoreManager.constructor | src/PE.BlobStorage.FileSystem/StoreManager.cs:19-25 | the root is normalised to one trailing `\`, and its directory exists afterwards |
| StoreManagers.StoreManager.GetRandomStoreDb | src/PE.BlobStorage.FileSystem/StoreManager.cs:31-35 | the store is the drawn folder under the root, its directory exists, and its ids start with the drawn name |
| StoreManagers.StoreManager.GetStoreDb | src/PE.BlobStorage.FileSystem/StoreManager.cs:42-51 | the store is the extracted name combined with the root; its directory is created first, so the `FileDb` is always built |
| StoreManagers.SameStoreContinues | tests/PE.Storage.FileSystemTests/StoreManagerTests.cs:56-75 | passing a fresh store's first id back to `GetStoreDb` reaches the same store. The two ids end in 0001 and 0002 |
| StoreManagers.ReturnedIdNamesStore | tests/PE.Storage.FileSystemTests/StoreManagerTests.cs:56-75 | the store name extracted from an id is the store that handed it out |
| LegacyStore.GetRandomStoreFolder | src/PE.Storage.FileSystem/StoreManager.cs:32-35 | a draw in 1..499 names a four-character folder that parses back to the draw; never `0000` or `01F4` |
| LegacyStore.CalculateNextFileValue | src/PE.Storage.FileSystem/StoreManager.cs:68-95 | the older carry loop is the same `Advance` |
| LegacyStore.ReadValuesFromLockFile | src/PE.Storage.FileSystem/StoreManager.cs:120-134 | the older reader keeps an element when its line is missing or does not parse |
| LegacyStore.WriteValuesToLockFile | src/PE.Storage.FileSystem/StoreManager.cs:103-112 | the older writer emits one "X4" line per element, in order |
| LegacyStore.LegacyStartValue | src/PE.Storage.FileSystem/StoreManager.cs:45-53 | each element of the older starting counter is the value its line parses to, or 1 when the line is missing or does not parse |
| LegacyStore.NextAvailableValue | src/PE.Storage.FileSystem/StoreManager.cs:42-134 | as written: on an empty lock file, (1,1,2) is returned and written. On any other lock file, the reader's disposal closes the stream, the writer throws and the file is unchanged |
| LegacyStore.AsWrittenStops | src/PE.Storage.FileSystem/StoreManager.cs:42-134 | as written, a fresh store hands out (1,1,2) once. From then on the lock file stays at 0001, 0001, 0002 and every call throws |
| LegacyStore.CorrectedNextAvailableValue | src/PE.Storage.FileSystem/StoreManager.cs:42-58 | corrected (stream kept open and rewound): starting from {1,1,1}, the counter read from the lock file is advanced, returned and written over the start of the file |
| LegacyStore.LegacyStartComparison | src/PE.Storage.FileSystem/StoreManager.cs:45-55 | against `FileDb`, the folders start the same. The slot differs iff line 3 does not parse, and then the older start is one step ahead. An empty lock file gives (1,1,2), not (1,1,1) |
| LegacyStore.LegacyStartValueOfEncoded | src/PE.Storage.FileSystem/StoreManager.cs:50-53 | a lock file that holds a triple's lines starts the next call from that triple |
| LegacyStore.CorrectedLocksFollowOdometer | src/PE.Storage.FileSystem/StoreManager.cs:45-57 | corrected: after n calls on a fresh store, the lock file holds the n-th odometer step from (1,1,1) |
| LegacyStore.IterateShift | src/PE.Storage.FileSystem/StoreManager.cs:45 | starting one step further on equals taking one more step |
| LegacyStore.CorrectedOneAhead | src/PE.Storage.FileSystem/StoreManager.cs:45 | corrected: the older allocator's (k-1)-th triple is `FileDb`'s k-th |
| LegacyStore.CorrectedRank | src/PE.Storage.FileSystem/StoreManager.cs:45-57 | corrected: the older allocator's (k-1)-th triple sits at position k-1 |
| LegacyStore.CorrectedSkipsFirst | src/PE.Storage.FileSystem/StoreManager.cs:45 | corrected: within a store's capacity, the older allocator never hands out (1,1,1) |
| StoragePathBuilders.NewStoragePathBuilder | src/PE.Storage.FileSystem/StoragePathBuilder.cs:17-20 | the root ends in exactly one `\` and names the same directory |
| StoragePathBuilders.BlobIdIgnoresStoreSeparators | src/PE.Storage.FileSystem/StoragePathBuilder.cs:38-41 | a leading or trailing `\` on the store does not change the blob id |
| StoragePathBuilders.BlobIdIgnoresBlobSeparators | src/PE.Storage.FileSystem/StoragePathBuilder.cs:38-41 | a leading or trailing `\` on the blob does not change the blob id |
| StoragePathBuilders.BlobIdOfTrimmedParts | src/PE.Storage.FileSystem/StoragePathBuilder.cs:38-41 | passing already-trimmed parts gives the same blob id |
| StoragePathBuilders.BlobIdSplits | src/PE.Storage.FileSystem/StoragePathBuilder.cs:38-41 | a blob id splits on `\` into its two trimmed parts when neither has an inner `\` |
| StoragePathBuilders.StoragePathBuilder.GetStoreFolder | src/PE.Storage.FileSystem/StoragePathBuilder.cs:27-30 | the store folder is the root, a `\`, the store name trimmed of `\`, and a closing `\`. After a root ending in one `\`, as the constructor leaves it, the separator is doubled |
| StoragePathBuilders.StoragePathBuilder.GetBlobId | src/PE.Storage.FileSystem/StoragePathBuilder.cs:38-41 | the id is the trimmed store, one `\` and the trimmed blob. It neither starts nor ends with `\` unless a trimmed part is empty |
| StoragePathBuilders.StoragePathBuilder.GetJsonFile | src/PE.Storage.FileSystem/StoragePathBuilder.cs:49-52 | the metadata file is the root, a `\`, the blob id and `.json` |
| StoragePathBuilders.StoragePathBuilder.GetBlobFile | src/PE.Storage.FileSystem/StoragePathBuilder.cs:60-63 | the data file is the root, a `\`, the blob id and `.blob` |
| StoragePathBuilders.JsonAndBlobFiles | src/PE.Storage.FileSystem/StoragePathBuilder.cs:49-63 | the `.json` and `.blob` files share the prefix root + `\` + blob id, and differ only in their suffix |
| MetaTables.DecimalRoundTrip | src/PE.BlobStorage.AzureStorage/MetaTable.cs:27 | a number below 10^width is read back from its zero-padded decimal digits |
| MetaTables.FormatDateRoundTrip | src/PE.BlobStorage.AzureStorage/MetaTable.cs:27 | "yyyyMMdd" is eight decimal digits whose slices 0-4, 4-6 and 6-8 parse to the year, month and day |
| MetaTables.FormatDate | src/PE.BlobStorage.AzureStorage/MetaTable.cs:27 | "yyyyMMdd" is eight decimal digits |
| MetaTables.FormatGuid | src/PE.BlobStorage.AzureStorage/MetaTable.cs:28 | `ToString("N")` is 32 lower-case hex digits |
| MetaTables.FormatGuidInjective | src/PE.BlobStorage.AzureStorage/MetaTable.cs:28 | distinct GUIDs print differently |
| MetaTables.NewEntity | src/PE.BlobStorage.AzureStorage/MetaTable.cs:23-32 | the partition key is 8 characters and the row key 32, neither contains `/`, file name and content type are copied, and both URIs are unset |
| MetaTables.GetKeysFromId | src/PE.BlobStorage.AzureStorage/MetaTable.cs:39-47 | the call fails (index out of range) iff the id contains no `/`. Otherwise both keys are free of `/` |
| MetaTables.KeysRoundTrip | src/PE.BlobStorage.AzureStorage/MetaTable.cs:39-59 | `GetKeysFromId(pk + "/" + rk)` gives back `pk` and `rk` when neither contains `/` |
| MetaTables.ExtraSegmentsIgnored | src/PE.BlobStorage.AzureStorage/MetaTable.cs:41-46 | segments after the second are ignored |
| MetaTables.MetaTable.Id | src/PE.BlobStorage.AzureStorage/MetaTable.cs:53-59 | `GetKeysFromId` takes back both keys from the id when neither key contains `/` |
| MetaTables.NewEntityIdRoundTrip | tests/PE.Storage.AzureStorageTests/MetaTableTests.cs:51-67 | a new entity's keys come back from its `Id` |
| MetaTables.SameDayDistinctGuids | tests/PE.Storage.AzureStorageTests/MetaTableTests.cs:33-49 | two entities made on the same day share the partition key. With distinct GUIDs their row keys and ids differ |
| MetaTables.NewEntityPartitionKey | tests/PE.Storage.AzureStorageTests/MetaTableTests.cs:10-31 | the partition key's year, month and day slices parse to the creation date |

## Left out

- Streams and encodings: the UTF-8 byte-order mark, line terminators and `StreamReader` buffering are not modelled. A lock file is the sequence of its lines.
- `Int32.TryParse` with `HexNumber`: the model covers white space around the digits, upper- and lower-case hex digits, and values up to 32 bits read as two's complement. Culture-specific details of the .NET grammar are not modelled.
- Exclusive locking and concurrency: `FileShare.None`, `Thread.Sleep(5)`, `async`/`ConfigureAwait` and `Debug.WriteLine` are not modelled. The outcome of each of the three open attempts is a parameter (`opens`).
- FileDbs.AllocationsDistinct: distinctness is proved for sequential calls only. The source's test also runs calls concurrently, which the model does not capture.
- Randomness: `random.Next(1, 500)` is a parameter constrained to 1..499. The spread of the draws is not modelled.
- The clock and GUIDs: `DateTime.UtcNow` is a `Date` parameter, and `Guid.NewGuid()` is a parameter given as its 32 printed hex digits. The byte layout of a .NET GUID is not modelled.
- `Path.Combine` and `Path.IsPathRooted`: modelled for the Windows separators `\` and `/` and for drive letters. UNC paths, invalid characters and other corner cases are not modelled.
- `DirectoryInfo.Name`, `TrimEnd('\\')` and the directory keys: only `\` is treated as a separator. .NET also treats `/` as one in `DirectoryInfo.Name`, so a path that uses `/` may get a different store name than the model gives.
- Lock-file bytes: `Overwrite` keeps whole old lines after the new ones. The real `FileStream` keeps the old bytes after the last byte written. The two agree when the old and new lines are equally long, as the four-digit lines of counters in 0..0xFFFF are. A negative counter has eight-digit lines, and there they can differ.
- I/O failures after a successful open: an `IOException` thrown while reading or writing the lock file is not modelled. In the source such an exception is caught at src/PE.BlobStorage.FileSystem/FileDb.cs:64-72, and the retry then starts from the array as already read and advanced.
- `ToString("yyyyMMdd")`: uses the current culture's calendar. FormatDate assumes the Gregorian calendar.
- `Directory.CreateDirectory`: records the one directory, not its missing parents.
- The older `NextAvailableFile`: its return expression at src/PE.Storage.FileSystem/StoreManager.cs:61 does not compile. LegacyStore.NextAvailableValue and LegacyStore.CorrectedNextAvailableValue therefore return the counter, not an id.
- FileDbs.Address318: takes the call count as a parameter fixed to 318, so that the statement does not depend on unfolding 318 calls.
- LegacyStore.CorrectedOneAhead, LegacyStore.CorrectedRank, LegacyStore.CorrectedSkipsFirst: are stated for the (k-1)-th call with k ≥ 2, not for the n-th.
- `MetaTable`'s `ThumbnailUri` and `BlobUri` setters and the table-storage SDK: left out. The model only records that `NewEntity` leaves both unset.
- `FileSystemBlobProvider`, the Azure and SQL providers, the migration tool and configuration loading: I/O and SDK plumbing around the modelled core, so they are left out.

## Findings

| source | as written | input that shows it | evidently intended | confidence | as-written member | corrected member |
|---|---|---|---|---|---|---|
| src/PE.Storage.FileSystem/StoreManager.cs:103-134 | The reader (line 122) is built without `leaveOpen`, so its `using` closes the lock stream. The writer (line 105) is then built on the closed stream and throws before writing. There is also no seek back to the start before the write (line 57) | a second call on the same store, with lock file 0001, 0001, 0002 | read, advance and rewrite the counter under the one open, as `FileDb` does with `leaveOpen` and `Seek(0)` | not executed; high | LegacyStore.AsWrittenStops | LegacyStore.CorrectedNextAvailableValue |
