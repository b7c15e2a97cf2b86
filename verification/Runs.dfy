/**
 Page runs of an arena chunk.

 A chunk's page map stores a boundary tag in the first and the last page of every run.
 `Tiles` says that a sequence of runs is what the page map describes; the counters the
 allocator keeps incrementally are defined here as plain scans of that sequence.
 */
module Runs {

  /** One page-map entry.  `size` is the run size in pages, or the page offset in a small run. */
  datatype MapBits = MapBits(size: nat, binind: nat, dirty: bool, large: bool, inUse: bool)

  const BININD_INVALID: nat := 0xff

  function UnallocatedBits(size: nat, dirty: bool): MapBits
  {
    MapBits(size, BININD_INVALID, dirty, false, false)
  }

  function LargeBits(size: nat, dirty: bool): MapBits
  {
    MapBits(size, BININD_INVALID, dirty, true, true)
  }

  function SmallBits(runind: nat, binind: nat, dirty: bool): MapBits
  {
    MapBits(runind, binind, dirty, false, true)
  }

  datatype Run =
    | Free(npages: nat, dirty: bool)
    | Large(npages: nat, dirty: bool)
    | Small(npages: nat, binind: nat, dirty: bool)

  /** The page map `m` describes run `r` at page `s`: both boundary tags agree with it. */
  ghost predicate RunAt(m: seq<MapBits>, s: nat, r: Run)
  {
    && 1 <= r.npages && s + r.npages <= |m|
    && m[s].dirty == r.dirty && m[s + r.npages - 1].dirty == r.dirty
    && match r
       case Free(n, _) =>
         && !m[s].inUse && !m[s].large && m[s].size == n
         && !m[s + n - 1].inUse && !m[s + n - 1].large && m[s + n - 1].size == n
       case Large(n, _) =>
         && m[s].inUse && m[s].large && m[s].size == n
         && m[s + n - 1].inUse && m[s + n - 1].large && (n > 1 ==> m[s + n - 1].size == 0)
       case Small(n, b, _) =>
         forall p :: s <= p < s + n ==> m[p].inUse && !m[p].large && m[p].size == p - s && m[p].binind == b
  }

  /** `runs` follow each other in the page map from page `lo` on. */
  ghost predicate Tiles(m: seq<MapBits>, lo: nat, runs: seq<Run>)
    decreases |runs|
  {
    runs == [] || (RunAt(m, lo, runs[0]) && Tiles(m, lo + runs[0].npages, runs[1..]))
  }

  ghost function Len(runs: seq<Run>): nat
  {
    if runs == [] then 0 else runs[0].npages + Len(runs[1..])
  }

  /* --- What a full scan counts ------------------------------------------- */

  ghost function Avail(runs: seq<Run>): nat
  {
    if runs == [] then 0 else (if runs[0].Free? then 1 else 0) + Avail(runs[1..])
  }

  ghost function Dirty(runs: seq<Run>): nat
  {
    if runs == [] then 0
    else (if runs[0].Free? && runs[0].dirty then runs[0].npages else 0) + Dirty(runs[1..])
  }

  ghost function Active(runs: seq<Run>): nat
  {
    if runs == [] then 0 else (if runs[0].Free? then 0 else runs[0].npages) + Active(runs[1..])
  }

  ghost function Touch(a: seq<Run>, b: seq<Run>): nat
  {
    if a != [] && b != [] && a[|a| - 1].Free? && b[0].Free? then 1 else 0
  }

  /** Number of neighbouring pairs of free runs. */
  ghost function Adjac(runs: seq<Run>): nat
  {
    if runs == [] then 0 else Touch(runs[..1], runs[1..]) + Adjac(runs[1..])
  }

  /** No two neighbouring free runs of the same dirtiness. */
  ghost predicate Coalesced(runs: seq<Run>)
  {
    forall i, j :: 0 <= i < j < |runs| && j == i + 1 && runs[i].Free? && runs[j].Free? ==> runs[i].dirty != runs[j].dirty
  }

  /** A run as the index trees see it: size first, then address. */
  datatype Extent = Extent(npages: nat, chunk: nat, page: nat)

  /** An allocated run as its owner sees it; `binind` is `BININD_INVALID` for a large run. */
  datatype Block = Block(chunk: nat, page: nat, npages: nat, binind: nat)

  ghost function FreeSet(c: nat, lo: nat, runs: seq<Run>): set<Extent>
    decreases |runs|
  {
    if runs == [] then {}
    else (if runs[0].Free? then {Extent(runs[0].npages, c, lo)} else {}) + FreeSet(c, lo + runs[0].npages, runs[1..])
  }

  ghost function BlockOf(c: nat, lo: nat, r: Run): Block
    requires !r.Free?
  {
    Block(c, lo, r.npages, if r.Small? then r.binind else BININD_INVALID)
  }

  ghost function BlockSet(c: nat, lo: nat, runs: seq<Run>): set<Block>
    decreases |runs|
  {
    if runs == [] then {}
    else (if runs[0].Free? then {} else {BlockOf(c, lo, runs[0])}) + BlockSet(c, lo + runs[0].npages, runs[1..])
  }

  /* --- Concatenation ------------------------------------------------------ */

  lemma {:induction false} LenConcat(a: seq<Run>, b: seq<Run>)
    ensures Len(a + b) == Len(a) + Len(b)
  {
    if a == [] {
      assert a + b == b;
    } else {
      assert (a + b)[1..] == a[1..] + b;
      LenConcat(a[1..], b);
    }
  }

  lemma {:induction false} TilesConcat(m: seq<MapBits>, lo: nat, a: seq<Run>, b: seq<Run>)
    ensures Tiles(m, lo, a + b) <==> Tiles(m, lo, a) && Tiles(m, lo + Len(a), b)
    decreases |a|
  {
    if a == [] {
      assert a + b == b;
    } else {
      assert (a + b)[1..] == a[1..] + b;
      TilesConcat(m, lo + a[0].npages, a[1..], b);
    }
  }

  /** Entries outside the stretch covered by `runs` do not matter. */
  lemma {:induction false} TilesFrame(m: seq<MapBits>, m': seq<MapBits>, lo: nat, runs: seq<Run>)
    requires Tiles(m, lo, runs) && |m| == |m'|
    requires forall p :: lo <= p < lo + Len(runs) && p < |m| ==> m[p] == m'[p]
    ensures Tiles(m', lo, runs)
    decreases |runs|
  {
    if runs != [] {
      TilesFrame(m, m', lo + runs[0].npages, runs[1..]);
    }
  }

  lemma {:induction false} CountsConcat(a: seq<Run>, b: seq<Run>)
    ensures Avail(a + b) == Avail(a) + Avail(b)
    ensures Dirty(a + b) == Dirty(a) + Dirty(b)
    ensures Active(a + b) == Active(a) + Active(b)
    ensures Adjac(a + b) == Adjac(a) + Touch(a, b) + Adjac(b)
  {
    if a == [] {
      assert a + b == b;
    } else {
      assert (a + b)[1..] == a[1..] + b && (a + b)[..1] == a[..1];
      CountsConcat(a[1..], b);
    }
  }

  lemma {:induction false} SetsConcat(c: nat, lo: nat, a: seq<Run>, b: seq<Run>)
    ensures FreeSet(c, lo, a + b) == FreeSet(c, lo, a) + FreeSet(c, lo + Len(a), b)
    ensures BlockSet(c, lo, a + b) == BlockSet(c, lo, a) + BlockSet(c, lo + Len(a), b)
    decreases |a|
  {
    if a == [] {
      assert a + b == b;
    } else {
      assert (a + b)[1..] == a[1..] + b;
      SetsConcat(c, lo + a[0].npages, a[1..], b);
    }
  }

  /** The runs of a tiling lie inside the stretch it covers. */
  lemma {:induction false} SetsRange(m: seq<MapBits>, c: nat, lo: nat, runs: seq<Run>)
    requires Tiles(m, lo, runs)
    ensures forall e :: e in FreeSet(c, lo, runs) ==> e.chunk == c && lo <= e.page < lo + Len(runs)
    ensures forall b :: b in BlockSet(c, lo, runs) ==> b.chunk == c && lo <= b.page < lo + Len(runs)
    decreases |runs|
  {
    if runs != [] {
      SetsRange(m, c, lo + runs[0].npages, runs[1..]);
    }
  }

  lemma CoalescedConcat(a: seq<Run>, b: seq<Run>)
    ensures Coalesced(a + b) <==> Coalesced(a) && Coalesced(b) && (Touch(a, b) == 1 ==> a[|a| - 1].dirty != b[0].dirty)
  {
    var t := a + b;
    if Coalesced(t) {
      assert forall i :: 0 <= i < |a| ==> t[i] == a[i];
      assert forall i :: 0 <= i < |b| ==> t[|a| + i] == b[i];
      if Touch(a, b) == 1 {
        assert t[|a| - 1] == a[|a| - 1] && t[|a|] == b[0];
      }
    }
  }

  /* --- The page map determines the runs ------------------------------------ */

  /** Every small run has the run size of its bin. */
  ghost predicate BinSized(runs: seq<Run>, runPages: seq<nat>)
  {
    forall r :: r in runs && r.Small? ==> r.binind < |runPages| && r.npages == runPages[r.binind]
  }

  /** A page map has at most one reading, so every count above is a function of the page map. */
  lemma {:induction false} TilesUnique(m: seq<MapBits>, lo: nat, a: seq<Run>, b: seq<Run>, runPages: seq<nat>)
    requires Tiles(m, lo, a) && Tiles(m, lo, b)
    requires lo + Len(a) == |m| == lo + Len(b)
    requires BinSized(a, runPages) && BinSized(b, runPages)
    ensures a == b
    decreases |a|
  {
    if a != [] && b != [] {
      assert a[0] in a && b[0] in b;
      assert a[0] == b[0];
      assert BinSized(a[1..], runPages) && BinSized(b[1..], runPages);
      TilesUnique(m, lo + a[0].npages, a[1..], b[1..], runPages);
      assert a == [a[0]] + a[1..] && b == [b[0]] + b[1..];
    }
  }

  /** The source asserts this around every update: more free runs than adjacencies, or neither. */
  lemma {:induction false} AdjacBelowAvail(runs: seq<Run>)
    ensures Adjac(runs) < Avail(runs) || (Adjac(runs) == 0 && Avail(runs) == 0)
    ensures runs != [] && runs[0].Free? ==> Adjac(runs) < Avail(runs)
  {
    if runs != [] {
      AdjacBelowAvail(runs[1..]);
    }
  }

}
