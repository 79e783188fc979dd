/** The `store.lock` file: one "X4" line per element of the counter array.
    A lock file is modelled as the sequence of its lines. */
module LockCodec {
  import opened Wrappers
  import opened Hex

  /** The lines the writer emits for a counter array, in order. */
  function Encode(t: seq<Int32>): (lines: seq<string>)
    ensures |lines| == |t|
  {
    seq(|t|, i requires 0 <= i < |t| => X4(t[i]))
  }

  /** What `ReadLine` gives for the `i`-th line: `null` past the end of the file. */
  function LineAt(lines: seq<string>, i: nat): Option<string>
  {
    if i < |lines| then Some(lines[i]) else None
  }

  /** The element the reader leaves at position `i`: the parsed line if it parses,
      otherwise the value the array held before. */
  function ValueRead(lines: seq<string>, i: nat, prior: Int32): Int32
  {
    match ParseHex(LineAt(lines, i))
    case Some(x) => x
    case None => prior
  }

  /** The array after reading a lock file over the values `prior`. */
  function ReadValues(prior: seq<Int32>, lines: seq<string>): (r: seq<Int32>)
    ensures |r| == |prior|
    ensures forall i :: 0 <= i < |r| ==>
      ParseHex(LineAt(lines, i)) == Some(r[i]) || (ParseHex(LineAt(lines, i)).None? && r[i] == prior[i])
  {
    seq(|prior|, i requires 0 <= i < |prior| => ValueRead(lines, i, prior[i]))
  }

  /** A file written from its start without being truncated: the new lines replace
      the first ones and any further old lines remain. */
  function Overwrite(old_lines: seq<string>, new_lines: seq<string>): (r: seq<string>)
    ensures |r| == if |new_lines| < |old_lines| then |old_lines| else |new_lines|
    ensures r[..|new_lines|] == new_lines
    ensures forall i :: |new_lines| <= i < |r| ==> r[i] == old_lines[i]
  {
    if |new_lines| < |old_lines| then new_lines + old_lines[|new_lines|..] else new_lines
  }

  /** `FileDb.ReadValuesFromLockFile`: for each element, read one line and store its
      hex value when it parses. */
  method ReadValuesFromLockFile(structure: array<Int32>, lines: seq<string>)
    modifies structure
    ensures structure[..] == ReadValues(old(structure[..]), lines)
  {
    ghost var prior := structure[..];
    for s := 0 to structure.Length
      invariant forall k :: 0 <= k < s ==> structure[k] == ValueRead(lines, k, prior[k])
      invariant forall k :: s <= k < structure.Length ==> structure[k] == prior[k]
    {
      var line := LineAt(lines, s);
      var parsed := ParseHex(line);
      if parsed.Some? {
        structure[s] := parsed.value;
      }
    }
  }

  /** Writing one more line: it replaces the next old line, or is appended past them. */
  lemma OverwriteStep(old_lines: seq<string>, new_lines: seq<string>, line: string)
    ensures var w := Overwrite(old_lines, new_lines);
      Overwrite(old_lines, new_lines + [line]) ==
        if |new_lines| < |w| then w[|new_lines| := line] else w + [line]
  {
  }

  /** `FileDb.WriteValuesToLockFile`: writes each element as one "X4" line, in order,
      from the start of the file; returns the file's lines afterwards. */
  method WriteValuesToLockFile(structure: array<Int32>, lines: seq<string>) returns (written: seq<string>)
    ensures written == Overwrite(lines, Encode(structure[..]))
  {
    written := lines;
    for s := 0 to structure.Length
      invariant written == Overwrite(lines, Encode(structure[..s]))
    {
      var line := X4(structure[s]);
      assert Encode(structure[..s + 1]) == Encode(structure[..s]) + [line];
      OverwriteStep(lines, Encode(structure[..s]), line);
      if s < |written| {
        written := written[s := line];
      } else {
        written := written + [line];
      }
    }
    assert structure[..structure.Length] == structure[..];
  }

  /** Reading back what was written gives the written values, whatever the values
      before the read and whatever old lines remain after the written ones. */
  lemma DecodeEncode(prior: seq<Int32>, t: seq<Int32>, old_lines: seq<string>)
    requires |prior| == |t|
    ensures ReadValues(prior, Overwrite(old_lines, Encode(t))) == t
  {
    var lines := Overwrite(old_lines, Encode(t));
    forall i | 0 <= i < |t|
      ensures ReadValues(prior, lines)[i] == t[i]
    {
      assert lines[i] == X4(t[i]);
      X4RoundTrip(t[i]);
    }
  }

  /** The reader keeps an element exactly when its line is missing or does not
      parse, and otherwise takes the parsed value. */
  lemma ReadKeepsUnparsed(prior: seq<Int32>, lines: seq<string>, i: nat)
    requires i < |prior|
    ensures i >= |lines| ==> ReadValues(prior, lines)[i] == prior[i]
    ensures i < |lines| && ParseHex(Some(lines[i])).None? ==> ReadValues(prior, lines)[i] == prior[i]
    ensures i < |lines| && ParseHex(Some(lines[i])).Some? ==>
      ReadValues(prior, lines)[i] == ParseHex(Some(lines[i])).value
  {
  }
}
