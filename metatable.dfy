/** `MetaTable` of the cloud backend: a table row keyed by the day it was created
    (`PartitionKey`, "yyyyMMdd") and a fresh GUID (`RowKey`, 32 hex digits), whose blob
    id is `PartitionKey + "/" + RowKey`. The clock and the GUID generator are
    parameters. */
module MetaTables {
  import opened Wrappers
  import opened Strings

  const Slash: char := '/'

  /** `PEStorageBlob`: what the caller hands in for a new blob. */
  datatype PEStorageBlob = PEStorageBlob(dataUriThumbnail: string, fileName: string, contentType: string)

  /** A `TableEntity` reduced to its two keys. */
  datatype TableEntity = TableEntity(partitionKey: string, rowKey: string)

  /** A `MetaTable` row; the two URIs are unset (`None`) until something fills them. */
  datatype MetaTable = MetaTable(
    partitionKey: string,
    rowKey: string,
    fileName: string,
    contentType: string,
    thumbnailUri: Option<string>,
    blobUri: Option<string>)
  {
    /** The `Id` property: the keys joined by `/`, from which `GetKeysFromId` takes
        them back when neither holds a `/`. */
    function Id(): (id: string)
      ensures Slash !in partitionKey && Slash !in rowKey ==>
        GetKeysFromId(id) == Ok(TableEntity(partitionKey, rowKey))
    {
      if Slash !in partitionKey && Slash !in rowKey then
        KeysRoundTrip(partitionKey, rowKey);
        partitionKey + "/" + rowKey
      else
        partitionKey + "/" + rowKey
    }
  }

  /** A calendar date as `DateTime.UtcNow` gives it. */
  datatype Date = Date(year: int, month: int, day: int)

  predicate IsLeapYear(y: int)
  {
    y % 4 == 0 && (y % 100 != 0 || y % 400 == 0)
  }

  function DaysInMonth(y: int, m: int): int
    requires 1 <= m <= 12
  {
    if m == 2 then (if IsLeapYear(y) then 29 else 28)
    else if m == 4 || m == 6 || m == 9 || m == 11 then 30
    else 31
  }

  predicate ValidDate(d: Date)
  {
    1 <= d.year <= 9999 && 1 <= d.month <= 12 && 1 <= d.day <= DaysInMonth(d.year, d.month)
  }

  /** A GUID as the 32 hexadecimal digits it prints, in print order. */
  datatype Guid = Guid(nibbles: seq<int>)

  predicate ValidGuid(g: Guid)
  {
    |g.nibbles| == 32 && forall i :: 0 <= i < |g.nibbles| ==> 0 <= g.nibbles[i] < 16
  }

  predicate IsDecimalDigit(ch: char)
  {
    '0' <= ch <= '9'
  }

  function DecimalChar(d: int): (ch: char)
    requires 0 <= d < 10
    ensures IsDecimalDigit(ch)
  {
    ('0' as int + d) as char
  }

  function Pow10(k: nat): (p: nat)
    ensures p >= 1
  {
    if k == 0 then 1 else 10 * Pow10(k - 1)
  }

  /** The `width` lowest decimal digits of `n`, zero-padded, most significant first. */
  function Decimal(n: nat, width: nat): (s: string)
    ensures |s| == width
    ensures forall i :: 0 <= i < |s| ==> IsDecimalDigit(s[i])
  {
    if width == 0 then "" else Decimal(n / 10, width - 1) + [DecimalChar(n % 10)]
  }

  function DecimalValue(ch: char): (d: nat)
    requires IsDecimalDigit(ch)
    ensures d < 10
  {
    ch as int - '0' as int
  }

  /** `Int32.Parse` of a run of decimal digits. */
  function ParseDecimal(s: string): nat
    requires forall i :: 0 <= i < |s| ==> IsDecimalDigit(s[i])
  {
    if s == [] then 0 else ParseDecimal(s[..|s| - 1]) * 10 + DecimalValue(s[|s| - 1])
  }

  /** A value that fits the width is read back from its zero-padded digits. */
  lemma {:induction false} DecimalRoundTrip(n: nat, width: nat)
    requires n < Pow10(width)
    ensures ParseDecimal(Decimal(n, width)) == n
  {
    if width > 0 {
      var s := Decimal(n, width);
      assert s[..|s| - 1] == Decimal(n / 10, width - 1);
      DecimalRoundTrip(n / 10, width - 1);
    }
  }

  /** `ToString("yyyyMMdd")`: four digits of year, two of month, two of day. */
  function FormatDate(d: Date): (s: string)
    requires ValidDate(d)
    ensures |s| == 8
    ensures forall i :: 0 <= i < |s| ==> IsDecimalDigit(s[i])
  {
    Decimal(d.year, 4) + Decimal(d.month, 2) + Decimal(d.day, 2)
  }

  /** The eight characters split back into year, month and day, as the source's test
      reads them with `Substring` and `Int32.Parse`. */
  lemma FormatDateRoundTrip(d: Date)
    requires ValidDate(d)
    ensures var s := FormatDate(d);
      (forall i :: 0 <= i < |s| ==> IsDecimalDigit(s[i])) &&
      ParseDecimal(s[..4]) == d.year && ParseDecimal(s[4..6]) == d.month && ParseDecimal(s[6..8]) == d.day
  {
    var s := FormatDate(d);
    assert s[..4] == Decimal(d.year, 4);
    assert s[4..6] == Decimal(d.month, 2);
    assert s[6..8] == Decimal(d.day, 2);
    assert Pow10(2) == 100 && Pow10(4) == 10000;
    DecimalRoundTrip(d.year, 4);
    DecimalRoundTrip(d.month, 2);
    DecimalRoundTrip(d.day, 2);
  }

  function LowerHexChar(d: int): char
    requires 0 <= d < 16
  {
    if d < 10 then ('0' as int + d) as char else ('a' as int + d - 10) as char
  }

  /** `ToString("N")`: the 32 digits in lower case, without hyphens or braces. */
  function FormatGuid(g: Guid): (s: string)
    requires ValidGuid(g)
    ensures |s| == 32
    ensures forall i :: 0 <= i < |s| ==> IsDecimalDigit(s[i]) || 'a' <= s[i] <= 'f'
  {
    seq(32, i requires 0 <= i < 32 => LowerHexChar(g.nibbles[i]))
  }

  /** Distinct GUIDs print differently. */
  lemma FormatGuidInjective(g1: Guid, g2: Guid)
    requires ValidGuid(g1) && ValidGuid(g2) && g1 != g2
    ensures FormatGuid(g1) != FormatGuid(g2)
  {
    var i :| 0 <= i < 32 && g1.nibbles[i] != g2.nibbles[i];
    assert FormatGuid(g1)[i] != FormatGuid(g2)[i];
  }

  /** `NewEntity(blob)` on the day `now` with the GUID `guid`. */
  function NewEntity(blob: PEStorageBlob, now: Date, guid: Guid): (e: MetaTable)
    requires ValidDate(now) && ValidGuid(guid)
    ensures |e.partitionKey| == 8 && |e.rowKey| == 32
    ensures Slash !in e.partitionKey && Slash !in e.rowKey
    ensures e.fileName == blob.fileName && e.contentType == blob.contentType
    ensures e.thumbnailUri == None && e.blobUri == None
  {
    var e := MetaTable(FormatDate(now), FormatGuid(guid), blob.fileName, blob.contentType, None, None);
    assert forall i :: 0 <= i < |e.partitionKey| ==> e.partitionKey[i] != Slash by {
      FormatDateRoundTrip(now);
    }
    e
  }

  /** Why `GetKeysFromId` can fail: `parts[1]` is out of range. */
  datatype KeyError = IndexOutOfRange

  /** `GetKeysFromId(id)`: the first two `/`-separated parts; an id without `/` has no
      second part. Any further parts are ignored. */
  function GetKeysFromId(id: string): (r: Result<TableEntity, KeyError>)
    ensures r.Err? <==> Slash !in id
    ensures r.Ok? ==> Slash !in r.value.partitionKey && Slash !in r.value.rowKey
  {
    var parts := Split(id, Slash);
    if |parts| < 2 then Err(IndexOutOfRange) else Ok(TableEntity(parts[0], parts[1]))
  }

  /** The keys of an id come back from it when neither key holds a `/`. */
  lemma KeysRoundTrip(partitionKey: string, rowKey: string)
    requires Slash !in partitionKey && Slash !in rowKey
    ensures GetKeysFromId(partitionKey + "/" + rowKey) == Ok(TableEntity(partitionKey, rowKey))
  {
    assert partitionKey + "/" + rowKey == partitionKey + [Slash] + rowKey;
    SplitAfterFreePrefix(partitionKey, Slash, rowKey);
  }

  /** Segments after the second are ignored. */
  lemma ExtraSegmentsIgnored(partitionKey: string, rowKey: string, rest: string)
    requires Slash !in partitionKey && Slash !in rowKey
    ensures GetKeysFromId(partitionKey + "/" + rowKey + "/" + rest) == Ok(TableEntity(partitionKey, rowKey))
  {
    var tail := rowKey + [Slash] + rest;
    assert partitionKey + "/" + rowKey + "/" + rest == partitionKey + [Slash] + tail;
    SplitAfterFreePrefix(partitionKey, Slash, tail);
    SplitAfterFreePrefix(rowKey, Slash, rest);
  }

  /** The source's test: a new entity's keys come back from its `Id`. */
  lemma NewEntityIdRoundTrip(blob: PEStorageBlob, now: Date, guid: Guid)
    requires ValidDate(now) && ValidGuid(guid)
    ensures var e := NewEntity(blob, now, guid);
      GetKeysFromId(e.Id()) == Ok(TableEntity(e.partitionKey, e.rowKey))
  {
    var e := NewEntity(blob, now, guid);
    KeysRoundTrip(e.partitionKey, e.rowKey);
  }

  /** The source's test: two entities made on the same day share the partition key and,
      given distinct GUIDs, differ in the row key, hence in the id. */
  lemma SameDayDistinctGuids(blob: PEStorageBlob, now: Date, g1: Guid, g2: Guid)
    requires ValidDate(now) && ValidGuid(g1) && ValidGuid(g2) && g1 != g2
    ensures var e1, e2 := NewEntity(blob, now, g1), NewEntity(blob, now, g2);
      e1.partitionKey == e2.partitionKey && e1.rowKey != e2.rowKey && e1.Id() != e2.Id()
  {
    var e1, e2 := NewEntity(blob, now, g1), NewEntity(blob, now, g2);
    FormatGuidInjective(g1, g2);
    KeysRoundTrip(e1.partitionKey, e1.rowKey);
    KeysRoundTrip(e2.partitionKey, e2.rowKey);
  }

  /** The source's test: the partition key is the eight digits of the day it was made. */
  lemma NewEntityPartitionKey(blob: PEStorageBlob, now: Date, guid: Guid)
    requires ValidDate(now) && ValidGuid(guid)
    ensures var k := NewEntity(blob, now, guid).partitionKey;
      (forall i :: 0 <= i < |k| ==> IsDecimalDigit(k[i])) &&
      ParseDecimal(k[..4]) == now.year && ParseDecimal(k[4..6]) == now.month && ParseDecimal(k[6..8]) == now.day
  {
    FormatDateRoundTrip(now);
  }
}
