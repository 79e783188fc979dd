/** String helpers with the .NET semantics the store relies on:
    `Trim`/`TrimStart`/`TrimEnd` with one trim character, `IndexOf`,
    `Split` on one separator character and `String.Join`. */
module Strings {

  const Backslash: char := '\\'

  /** `s.TrimStart(c)`: drops every leading `c`. */
  function TrimStart(s: string, c: char): (r: string)
    ensures |r| <= |s| && r == s[|s| - |r|..]
    ensures r == [] || r[0] != c
    ensures forall i :: 0 <= i < |s| - |r| ==> s[i] == c
  {
    if |s| > 0 && s[0] == c then TrimStart(s[1..], c) else s
  }

  /** `s.TrimEnd(c)`: drops every trailing `c`. */
  function TrimEnd(s: string, c: char): (r: string)
    ensures |r| <= |s| && r == s[..|r|]
    ensures r == [] || r[|r| - 1] != c
    ensures forall i :: |r| <= i < |s| ==> s[i] == c
  {
    if |s| > 0 && s[|s| - 1] == c then TrimEnd(s[..|s| - 1], c) else s
  }

  /** `s.Trim(c)`: drops every leading and every trailing `c`. */
  function Trim(s: string, c: char): string
  {
    TrimEnd(TrimStart(s, c), c)
  }

  /** A string that neither starts nor ends with `c` is its own trim. */
  lemma TrimOfTrimmed(s: string, c: char)
    requires s == [] || (s[0] != c && s[|s| - 1] != c)
    ensures Trim(s, c) == s
  {
  }

  /** The result of `Trim` neither starts nor ends with the trim character,
      and trimming it again changes nothing. */
  lemma TrimIdempotent(s: string, c: char)
    ensures var r := Trim(s, c); (r == [] || (r[0] != c && r[|r| - 1] != c)) && Trim(r, c) == r
  {
    var t := TrimStart(s, c);
    var r := TrimEnd(t, c);
    if r != [] {
      assert r[0] == t[0];
    }
    TrimOfTrimmed(r, c);
  }

  /** Characterises `TrimStart` by what it returns: the suffix after a run of `c`
      that does not itself start with `c`. */
  lemma {:induction false} TrimStartUnique(s: string, c: char, k: nat)
    requires k <= |s|
    requires forall i :: 0 <= i < k ==> s[i] == c
    requires k == |s| || s[k] != c
    ensures TrimStart(s, c) == s[k..]
    decreases k
  {
    if k > 0 {
      TrimStartUnique(s[1..], c, k - 1);
      assert s[1..][k - 1..] == s[k..];
    }
  }

  /** Characterises `TrimEnd` by what it returns. */
  lemma {:induction false} TrimEndUnique(s: string, c: char, k: nat)
    requires k <= |s|
    requires forall i :: k <= i < |s| ==> s[i] == c
    requires k == 0 || s[k - 1] != c
    ensures TrimEnd(s, c) == s[..k]
    decreases |s| - k
  {
    if k < |s| {
      TrimEndUnique(s[..|s| - 1], c, k);
      assert s[..|s| - 1][..k] == s[..k];
    }
  }

  /** One more trim character in front does not change `Trim`. */
  lemma TrimAbsorbsFront(s: string, c: char)
    ensures Trim([c] + s, c) == Trim(s, c)
  {
    assert ([c] + s)[1..] == s;
  }

  /** One more trim character at the back does not change `Trim`. */
  lemma TrimAbsorbsBack(s: string, c: char)
    ensures Trim(s + [c], c) == Trim(s, c)
  {
    var t := TrimStart(s, c);
    var k := |s| - |t|;
    if t == [] {
      TrimStartUnique(s + [c], c, |s| + 1);
      assert TrimStart(s + [c], c) == [];
    } else {
      TrimStartUnique(s + [c], c, k);
      assert (s + [c])[k..] == t + [c];
      TrimEndStep(t, c);
    }
  }

  /** A trailing trim character is dropped by `TrimEnd`. */
  lemma TrimEndStep(t: string, c: char)
    ensures TrimEnd(t + [c], c) == TrimEnd(t, c)
  {
    assert (t + [c])[..|t|] == t;
  }

  /** Position of the first `c` in `s`, when there is one. */
  function IndexOf(s: string, c: char): (i: nat)
    requires c in s
    ensures i < |s| && s[i] == c
    ensures c !in s[..i]
  {
    if s[0] == c then 0 else
      assert s == [s[0]] + s[1..];
      var j := IndexOf(s[1..], c);
      assert s[..j + 1] == [s[0]] + s[1..][..j];
      j + 1
  }

  /** The first `c` after a prefix free of `c` is the one right after the prefix. */
  lemma IndexOfAfterFreePrefix(a: string, c: char, b: string)
    requires c !in a
    ensures c in a + [c] + b && IndexOf(a + [c] + b, c) == |a|
  {
    var s := a + [c] + b;
    assert s[|a|] == c;
    assert s[..|a|] == a;
  }

  /** `s.Split(c)`: the segments between occurrences of `c`, empty ones included. */
  function Split(s: string, c: char): (parts: seq<string>)
    ensures |parts| >= 1
    ensures forall k :: 0 <= k < |parts| ==> c !in parts[k]
    ensures |parts| == 1 <==> c !in s
    decreases |s|
  {
    if c in s then
      var i := IndexOf(s, c);
      [s[..i]] + Split(s[i + 1..], c)
    else
      [s]
  }

  /** Splitting on a separator that follows a free first segment yields that
      segment and the splits of the rest. */
  lemma SplitAfterFreePrefix(a: string, c: char, b: string)
    requires c !in a
    ensures Split(a + [c] + b, c) == [a] + Split(b, c)
  {
    var s := a + [c] + b;
    IndexOfAfterFreePrefix(a, c, b);
    assert s[..|a|] == a;
    assert s[|a| + 1..] == b;
  }

  /** `String.Join(sep, parts)`. */
  function Join(sep: string, parts: seq<string>): string
  {
    if |parts| == 0 then ""
    else if |parts| == 1 then parts[0]
    else parts[0] + sep + Join(sep, parts[1..])
  }
}
