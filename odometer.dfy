/** The mixed-radix odometer of `FileDb.CalculateNextFileValue`: the last element
    is a file slot with radix 500, every element before it a folder with radix 1000. */
module Odometer {
  import opened Hex

  const StoreFolderCount: Int32 := 1000
  const StoreFileCount: Int32 := 500

  /** The value `FileDb.NextAvailableFile` starts from before reading the lock file. */
  const Origin: seq<Int32> := [1, 1, 0]

  /** The largest triple a store reaches before it wraps. */
  const Full: seq<Int32> := [1000, 1000, 500]

  /** Every folder is at its largest value, 1000. */
  predicate AllFull(folders: seq<Int32>)
  {
    forall j :: 0 <= j < |folders| ==> folders[j] == StoreFolderCount
  }

  /** What a carry into folder `f` makes of it: 1000 wraps to 1, anything else goes up. */
  function Bump(f: Int32): Int32
  {
    if f == StoreFolderCount then 1 else Inc32(f)
  }

  /** The carry loop over the folder digits, right to left: a folder at 1000 becomes 1
      and passes the carry on; the first other folder is incremented and stops it. */
  function CarryInto(folders: seq<Int32>): (r: seq<Int32>)
    ensures |r| == |folders|
  {
    if folders == [] then []
    else
      var k := |folders| - 1;
      if folders[k] == StoreFolderCount then CarryInto(folders[..k]) + [1]
      else folders[..k] + [Inc32(folders[k])]
  }

  /** One step of the odometer on an array of any positive length. */
  function Advance(s: seq<Int32>): (r: seq<Int32>)
    requires |s| >= 1
    ensures |r| == |s|
  {
    var k := |s| - 1;
    if s[k] == StoreFileCount then CarryInto(s[..k]) + [1]
    else s[..k] + [Inc32(s[k])]
  }

  /** The carry, digit by digit: a folder changes exactly when every folder to its
      right is at 1000, and then it is bumped. */
  lemma {:induction false} CarryDigits(folders: seq<Int32>)
    ensures forall i :: 0 <= i < |folders| ==>
      CarryInto(folders)[i] == if AllFull(folders[i + 1..]) then Bump(folders[i]) else folders[i]
    decreases |folders|
  {
    if folders != [] {
      var k := |folders| - 1;
      var r := CarryInto(folders);
      if folders[k] == StoreFolderCount {
        CarryDigits(folders[..k]);
        assert r == CarryInto(folders[..k]) + [1];
        forall i | 0 <= i < k
          ensures r[i] == if AllFull(folders[i + 1..]) then Bump(folders[i]) else folders[i]
        {
          var tail := folders[i + 1..k];
          assert folders[..k][i + 1..] == tail;
          assert folders[i + 1..] == tail + [folders[k]];
          assert AllFull(folders[i + 1..]) <==> AllFull(tail) by {
            if AllFull(tail) {
              var w := folders[i + 1..];
              forall j | 0 <= j < |w| ensures w[j] == StoreFolderCount {
                if j < |tail| {
                  assert w[j] == tail[j];
                }
              }
            }
          }
        }
      } else {
        forall i | 0 <= i < k
          ensures r[i] == if AllFull(folders[i + 1..]) then Bump(folders[i]) else folders[i]
        {
          assert folders[i + 1..][k - i - 1] == folders[k];
        }
      }
    }
  }

  /** One step, digit by digit: the slot goes up, or wraps from 500 to 1 and carries;
      a folder changes exactly when the slot carries and every folder to its right is
      at 1000, and then it is bumped. */
  lemma AdvanceDigits(s: seq<Int32>)
    requires |s| >= 1
    ensures Advance(s)[|s| - 1] == if s[|s| - 1] == StoreFileCount then 1 else Inc32(s[|s| - 1])
    ensures forall i :: 0 <= i < |s| - 1 ==>
      Advance(s)[i] == if s[|s| - 1] == StoreFileCount && AllFull(s[i + 1..|s| - 1]) then Bump(s[i]) else s[i]
  {
    var k := |s| - 1;
    if s[k] == StoreFileCount {
      CarryDigits(s[..k]);
      forall i | 0 <= i < k
        ensures Advance(s)[i] == if AllFull(s[i + 1..k]) then Bump(s[i]) else s[i]
      {
        assert s[..k][i + 1..] == s[i + 1..k];
      }
    }
  }

  /** One iteration of the carry loop, at folder `i`. */
  lemma CarryStep(f: seq<Int32>, i: nat)
    requires i < |f|
    ensures f[i] == StoreFolderCount ==> CarryInto(f[..i + 1]) == CarryInto(f[..i]) + [1]
    ensures f[i] != StoreFolderCount ==> CarryInto(f[..i + 1]) == f[..i] + [Inc32(f[i])]
  {
    assert f[..i + 1][..i] == f[..i];
  }

  /** `FileDb.CalculateNextFileValue(structure)`: advances the array in place. */
  method CalculateNextFileValue(structure: array<Int32>)
    requires structure.Length >= 1
    modifies structure
    ensures structure[..] == Advance(old(structure[..]))
  {
    ghost var s0 := structure[..];
    var last := structure.Length - 1;
    if structure[last] == StoreFileCount {
      // the folder is full: back to file 1 and carry into the folders
      structure[last] := 1;
      var store := last - 1;
      while store >= 0
        invariant -1 <= store < last
        invariant forall k :: 0 <= k <= store ==> structure[k] == s0[k]
        invariant forall k :: store < k <= last ==> structure[k] == 1
        invariant CarryInto(s0[..last]) == CarryInto(s0[..store + 1]) + seq(last - store - 1, _ => 1)
      {
        CarryStep(s0, store);
        if structure[store] == StoreFolderCount {
          structure[store] := 1;
          assert seq(last - store, _ => 1) == [1] + seq(last - store - 1, _ => 1);
        } else {
          structure[store] := Inc32(structure[store]);
          assert structure[..] == s0[..store] + [Inc32(s0[store])] + seq(last - store - 1, _ => 1) + [1];
          break;
        }
        store := store - 1;
      }
      assert structure[..] == CarryInto(s0[..last]) + [1];
    } else {
      structure[last] := Inc32(structure[last]);
      assert structure[..] == s0[..last] + [structure[last]];
    }
  }

  /** `n` advances in a row. */
  function Iterate(s: seq<Int32>, n: nat): (r: seq<Int32>)
    requires |s| >= 1
    ensures |r| == |s|
    ensures InRange(s) && n >= 1 ==> Issued(r)
  {
    if n == 0 then s
    else
      var p := Iterate(s, n - 1);
      if InRange(p) then (AdvanceKeepsRange(p); Advance(p)) else Advance(p)
  }

  /** Folders in 1..1000 and a slot in 0..500: what a lock file written by the store holds,
      the origin's slot 0 included. */
  predicate InRange(t: seq<Int32>)
  {
    |t| == 3 && 1 <= t[0] <= 1000 && 1 <= t[1] <= 1000 && 0 <= t[2] <= 500
  }

  /** A triple the store has handed out: folders in 1..1000 and a slot in 1..500. */
  predicate Issued(t: seq<Int32>)
  {
    InRange(t) && t[2] >= 1
  }

  /** The position of an issued triple in the sequence of allocations, counted from 0. */
  function Rank(t: seq<Int32>): int
    requires |t| == 3
  {
    (t[0] as int - 1) * 500_000 + (t[1] as int - 1) * 500 + (t[2] as int - 1)
  }

  /** The triple the `n`-th allocation of a store hands out (the source's tests state
      it for n = 500,001 and n = 500,000,000). */
  function Closed(n: int): (t: seq<Int32>)
    requires 1 <= n <= 500_000_000
  {
    var m := n - 1;
    [m / 500_000 + 1, (m / 500) % 1000 + 1, m % 500 + 1]
  }

  /** Which digits a step changes, on triples. A slot other than 500 is incremented
      and the folders stay; a slot of 500 becomes 1 and carries: the second folder is
      incremented unless it is 1000, in which case it becomes 1 and the first folder
      is incremented unless it too is 1000, in which case it becomes 1. */
  lemma AdvanceTriple(t: seq<Int32>)
    requires |t| == 3
    ensures t[2] != 500 ==> Advance(t) == [t[0], t[1], Inc32(t[2])]
    ensures t[2] == 500 && t[1] != 1000 ==> Advance(t) == [t[0], Inc32(t[1]), 1]
    ensures t[2] == 500 && t[1] == 1000 && t[0] != 1000 ==> Advance(t) == [Inc32(t[0]), 1, 1]
    ensures t[2] == 500 && t[1] == 1000 && t[0] == 1000 ==> Advance(t) == [1, 1, 1]
  {
    var f := t[..2];
    assert t[..2][..1] == [t[0]];
    CarryStep(f, 1);
    CarryStep(f, 0);
    assert f[..0] == [];
  }

  /** Bounds: a triple in range advances to an issued triple, so folders stay in
      1..1000 and the slot ends in 1..500. */
  lemma AdvanceKeepsRange(t: seq<Int32>)
    requires InRange(t)
    ensures Issued(Advance(t))
  {
    AdvanceTriple(t);
  }

  /** Below the full triple, one step moves an issued triple exactly one position on,
      so successive allocations are strictly increasing; the full triple wraps to the
      first one. */
  lemma AdvanceSucceeds(t: seq<Int32>)
    requires Issued(t)
    ensures t != Full ==> Issued(Advance(t)) && Rank(Advance(t)) == Rank(t) + 1
    ensures t == Full ==> Advance(t) == [1, 1, 1]
  {
    AdvanceTriple(t);
  }

  lemma DivMod500(m: int, q: int, r: int)
    requires 0 <= r < 500 && m == q * 500 + r
    ensures m / 500 == q && m % 500 == r
  {
  }

  lemma DivMod1000(m: int, q: int, r: int)
    requires 0 <= r < 1000 && m == q * 1000 + r
    ensures m / 1000 == q && m % 1000 == r
  {
  }

  lemma DivMod500000(m: int, q: int, r: int)
    requires 0 <= r < 500_000 && m == q * 500_000 + r
    ensures m / 500_000 == q && m % 500_000 == r
  {
  }

  /** The `n`-th triple is issued and sits at position n - 1. */
  lemma ClosedRank(n: int)
    requires 1 <= n <= 500_000_000
    ensures Issued(Closed(n)) && Rank(Closed(n)) == n - 1
  {
    var m := n - 1;
    var a, b := m / 500, m % 500;
    var c, d := a / 1000, a % 1000;
    DivMod500(m, a, b);
    DivMod1000(a, c, d);
    assert m == c * 500_000 + (d * 500 + b);
    DivMod500000(m, c, d * 500 + b);
  }

  /** The first 500 triples fill the first folder of the first folder. */
  lemma ClosedFirstFolder(n: int)
    requires 1 <= n <= 500
    ensures Closed(n) == [1, 1, n]
  {
    DivMod500(n - 1, 0, n - 1);
    DivMod500000(n - 1, 0, n - 1);
  }

  /** An issued triple is determined by its position. */
  lemma RankDetermines(t: seq<Int32>)
    requires Issued(t)
    ensures 0 <= Rank(t) < 500_000_000 && Closed(Rank(t) + 1) == t
  {
    var m := Rank(t);
    var a := (t[0] - 1) * 1000 + (t[1] - 1);
    DivMod500(m, a, t[2] - 1);
    DivMod1000(a, t[0] - 1, t[1] - 1);
    DivMod500000(m, t[0] - 1, (t[1] - 1) * 500 + (t[2] - 1));
  }

  /** Below the capacity, one step takes the `n`-th triple to the next one. */
  lemma ClosedStep(n: int)
    requires 1 <= n < 500_000_000
    ensures Advance(Closed(n)) == Closed(n + 1)
  {
    var prev := Closed(n);
    ClosedRank(n);
    assert prev != Full by {
      assert Rank(Full) == 499_999_999;
    }
    AdvanceSucceeds(prev);
    RankDetermines(Advance(prev));
  }

  /** The first call hands out (1,1,1). */
  lemma FirstAdvance()
    ensures Iterate(Origin, 1) == [1, 1, 1]
  {
    AdvanceTriple(Origin);
  }

  /** Closed form of the odometer: n advances from the origin give the n-th triple,
      for every n up to the capacity of a store. */
  lemma {:induction false} IterateClosedForm(n: int)
    requires 1 <= n <= 500_000_000
    ensures Iterate(Origin, n) == Closed(n)
  {
    if n == 1 {
      FirstAdvance();
      ClosedFirstFolder(1);
    } else {
      IterateClosedForm(n - 1);
      ClosedStep(n - 1);
    }
  }

  /** The source's test values: the 500,001st triple opens the second top folder, and
      the 500,000,000th is the full triple. */
  lemma CapacityValues()
    ensures Closed(500_001) == [2, 1, 1]
    ensures Closed(500_000_000) == Full
  {
    DivMod500000(500_000, 1, 0);
    DivMod500(500_000, 1000, 0);
    DivMod1000(1000, 1, 0);
    DivMod500000(499_999_999, 999, 499_999);
    DivMod500(499_999_999, 999_999, 499);
    DivMod1000(999_999, 999, 999);
  }

  /** The call after the one that hands out the full triple wraps to (1,1,1). */
  lemma IterateWrapsAtFull(n: nat)
    requires Iterate(Origin, n) == Full
    ensures Iterate(Origin, n + 1) == [1, 1, 1]
  {
    AdvanceSucceeds(Full);
  }

  /** The `n`-th triple from the origin is issued and sits at position n - 1. */
  lemma IterateRank(n: int)
    requires 1 <= n <= 500_000_000
    ensures Issued(Iterate(Origin, n)) && Rank(Iterate(Origin, n)) == n - 1
  {
    IterateClosedForm(n);
    ClosedRank(n);
  }

  /** Allocations i < j within the capacity are distinct and in increasing order. */
  lemma IterateStrictlyIncreasing(i: int, j: int)
    requires 1 <= i < j <= 500_000_000
    ensures Rank(Iterate(Origin, i)) < Rank(Iterate(Origin, j))
    ensures Iterate(Origin, i) != Iterate(Origin, j)
  {
    IterateRank(i);
    IterateRank(j);
  }
}
