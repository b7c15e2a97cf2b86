/**
 The page-run allocator of an arena, with purging disabled.  The arena lock is held, except while a
 chunk is mapped; `others` is the arena as other threads leave it then.  Page-map writes, index
 updates and counter updates come in source order; the ghost arguments name the runs a caller's
 address refers to.
 */
module Arena {
  import opened Basics
  import opened Runs
  import opened ArenaState

  class PageArena {
    const cfg: Config
    var chunks: map<nat, Chunk>
    var spare: Option<nat>
    var runsAvail: set<Extent>
    var chunksDirty: set<DirtyKey>
    var nactive: int
    var ndirty: int
    ghost var tiles: map<nat, seq<Run>>

    ghost function S(): State
      reads this
    {
      State(chunks, tiles, spare, runsAvail, chunksDirty, nactive, ndirty)
    }

    ghost predicate Inv()
      reads this
    {
      StateInv(cfg, S())
    }

    /** A chunk in use is never one single free run: it would have become the spare. */
    ghost predicate InUse(c: nat)
      reads this
    {
      c in tiles && spare != Some(c) ==> !(|tiles[c]| == 1 && tiles[c][0].Free?)
    }

    ghost predicate Valid()
      reads this
    {
      Inv() && forall c :: c in tiles ==> InUse(c)
    }

    /** The same for an arena that is given as a value. */
    ghost predicate ValidIn(s: State)
    {
      StateInv(cfg, s) && forall c :: c in s.tiles && s.spare != Some(c) ==> !(|s.tiles[c]| == 1 && s.tiles[c][0].Free?)
    }

    ghost predicate LiveIn(s: State, b: Block)
    {
      b.chunk in s.tiles && b in BlockSet(b.chunk, cfg.mapBias, s.tiles[b.chunk])
    }

    /** `b` is an allocated run. */
    ghost predicate Live(b: Block)
      reads this
    {
      b.chunk in tiles && b in BlockSet(b.chunk, cfg.mapBias, tiles[b.chunk])
    }

    constructor (cfg: Config)
      requires cfg.Valid()
      ensures Valid() && this.cfg == cfg && forall b :: !Live(b)
    {
      this.cfg := cfg;
      chunks, tiles, spare := map[], map[], None;
      runsAvail, chunksDirty, nactive, ndirty := {}, {}, 0, 0;
      new;
      assert Actives(tiles) == map[] && Dirties(chunks) == map[];
    }

    method AvailRemove(c: nat, page: nat, n: nat, pred: bool, succ: bool)
      requires c in chunks && page + n <= |chunks[c].map_| && n > 0
      requires chunks[c].map_[page].size == n
      requires Extent(n, c, page) in runsAvail
      modifies this
      ensures S() == Removed(cfg, old(S()), c, page, n, pred, succ)
      ensures Opens(cfg, old(S()), S(), c, page, n, pred, succ)
    {
      hide AdjacPred, AdjacSucc, DirtyKeys, Opens;
      RemovedOpens(cfg, S(), c, page, n, pred, succ);
      var ch := chunks[c];
      chunksDirty := chunksDirty - DirtyKeys(c, ch);
      var adjac, dirty := ch.nrunsAdjac, ch.ndirty;
      if pred && AdjacPred(ch.map_, cfg.mapBias, page) {
        adjac := adjac - 1;
      }
      if succ && AdjacSucc(ch.map_, page, n) {
        adjac := adjac - 1;
      }
      if ch.map_[page].dirty {
        ndirty := ndirty - n;
        dirty := dirty - n;
      }
      ch := ch.(nrunsAdjac := adjac, nrunsAvail := ch.nrunsAvail - 1, ndirty := dirty);
      chunksDirty := chunksDirty + DirtyKeys(c, ch);
      chunks := chunks[c := ch];
      runsAvail := runsAvail - {Extent(n, c, page)};
    }

    method AvailInsert(c: nat, page: nat, n: nat, pred: bool, succ: bool)
      requires c in chunks && page + n <= |chunks[c].map_| && n > 0
      requires chunks[c].map_[page].size == n
      modifies this
      ensures S() == Inserted(cfg, old(S()), c, page, n, pred, succ)
      ensures Closes(cfg, old(S()), S(), c, page, n, pred, succ)
    {
      hide AdjacPred, AdjacSucc, DirtyKeys, Closes;
      InsertedCloses(cfg, S(), c, page, n, pred, succ);
      var ch := chunks[c];
      chunksDirty := chunksDirty - DirtyKeys(c, ch);
      var adjac, dirty := ch.nrunsAdjac, ch.ndirty;
      if pred && AdjacPred(ch.map_, cfg.mapBias, page) {
        adjac := adjac + 1;
      }
      if succ && AdjacSucc(ch.map_, page, n) {
        adjac := adjac + 1;
      }
      if ch.map_[page].dirty {
        ndirty := ndirty + n;
        dirty := dirty + n;
      }
      ch := ch.(nrunsAdjac := adjac, nrunsAvail := ch.nrunsAvail + 1, ndirty := dirty);
      chunksDirty := chunksDirty + DirtyKeys(c, ch);
      chunks := chunks[c := ch];
      runsAvail := runsAvail + {Extent(n, c, page)};
    }

    /** The page-map entries of a small run. */
    method SmallSet(m0: seq<MapBits>, page: nat, need: nat, binind: nat, dirty: bool) returns (m: seq<MapBits>)
      requires 0 < need && page + need <= |m0|
      ensures RunAt(m, page, Small(need, binind, dirty)) && Within(m0, m, page, page + need)
    {
      m := m0[page := SmallBits(0, binind, dirty)];
      var i := 1;
      while i < need - 1
        invariant 1 <= i && (need > 1 ==> i <= need - 1)
        invariant Within(m0, m, page, page + need)
        invariant m[page].dirty == dirty
        invariant forall p :: page <= p < page + i && p < page + need ==>
                    m[p].inUse && !m[p].large && m[p].size == p - page && m[p].binind == binind
      {
        m := m[page + i := SmallBits(i, binind, false)];
        i := i + 1;
      }
      m := m[page + need - 1 := SmallBits(need - 1, binind, dirty)];
    }

    /** The first and last page-map entries of a large run; the last first, for one-page runs. */
    function LargeSet(m: seq<MapBits>, page: nat, need: nat, dirty: bool): (m': seq<MapBits>)
      requires 0 < need && page + need <= |m|
      ensures RunAt(m', page, Large(need, dirty)) && Within(m, m', page, page + need)
    {
      m[page + need - 1 := LargeBits(0, dirty)][page := LargeBits(need, dirty)]
    }

    ghost function Carved(f: Run, need: nat, bin: Option<nat>): (x: Run)
      requires f.Free? && 0 < need
      ensures x.npages == need && !x.Free? && x.dirty == f.dirty
    {
      if bin.Some? then Small(need, bin.value, f.dirty) else Large(need, f.dirty)
    }

    ghost function Rest(f: Run, need: nat): seq<Run>
      requires f.Free? && need <= f.npages
    {
      if need < f.npages then [Free(f.npages - need, f.dirty)] else []
    }

    /** The page map with the tags of the remainder (`mr`), and with those of both parts. */
    method SplitTags(m0: seq<MapBits>, page: nat, need: nat, ghost f: Run, bin: Option<nat>, total: nat, dirty: bool)
      returns (mr: seq<MapBits>, m: seq<MapBits>)
      requires f == Free(total, dirty) && 0 < need <= total && page + total <= |m0|
      ensures |mr| == |m| == |m0| && Within(m0, m, page, page + total)
      ensures forall p :: page + need <= p < |m| ==> m[p] == mr[p]
      ensures RunAt(m, page, Carved(f, need, bin))
      ensures need < total ==>
        mr[page + need].size == total - need && RunAt(m, page + need, Free(total - need, dirty))
      ensures need == total ==> mr == m0
    {
      mr := m0;
      if total - need > 0 {
        var tag := UnallocatedBits(total - need, dirty);
        mr := mr[page + need := tag][page + total - 1 := tag];
      }
      if bin.None? {
        m := LargeSet(mr, page, need, dirty);
      } else {
        m := SmallSet(mr, page, need, bin.value, dirty);
      }
    }

    /** `arena_run_split`: allocate the front of a free run, return the remainder to the index. */
    method RunSplit(c: nat, page: nat, need: nat, bin: Option<nat>, ghost a: seq<Run>, ghost f: Run, ghost b: seq<Run>)
      requires Inv() && c in chunks && spare != Some(c) && c in tiles
      requires tiles[c] == a + [f] + b && f.Free? && page == cfg.mapBias + Len(a) && 0 < need <= f.npages
      requires bin.Some? ==> bin.value < |cfg.runPages| && need == cfg.runPages[bin.value]
      modifies this
      ensures Inv() && Frame(old(S()), S(), c)
      ensures tiles[c] == a + [Carved(f, need, bin)] + Rest(f, need) + b
    {
      hide StateInv, Frame, Hole, Within, Remapped, Inserted, RunAt, BinSized, Carved, Rest, Len, Distinct, Recount, DirtyKeys;
      ghost var s0 := S();
      OpenFree(s0, c, a, f, b);
      var m := chunks[c].map_;
      var dirty, total := m[page].dirty, m[page].size;
      var rem := total - need;
      AvailRemove(c, page, total, true, true);
      ghost var s1, x := S(), Carved(f, need, bin);
      CarvedSized(f, need, bin);
      var mr;
      mr, m := SplitTags(m, page, need, f, bin, total, dirty);
      Carve(c, page, need, rem, mr, m, a + [x] + Rest(f, need) + b);
      SplitDone(s0, s1, S(), c, a, f, b, x, m);
    }

    lemma CarvedSized(f: Run, need: nat, bin: Option<nat>)
      requires f.Free? && 0 < need && (bin.Some? ==> bin.value < |cfg.runPages| && need == cfg.runPages[bin.value])
      ensures BinSized([Carved(f, need, bin)], cfg.runPages)
    {
    }

    /** What holds once a free run of a chunk in use has been taken out of the index. */
    lemma OpenFree(s: State, c: nat, a: seq<Run>, f: Run, b: seq<Run>)
      requires StateInv(cfg, s) && c in s.chunks && s.spare != Some(c) && c in s.tiles
      requires s.tiles[c] == a + [f] + b && f.Free?
      ensures var page, m := cfg.mapBias + Len(a), s.chunks[c].map_;
        && f.npages > 0 && page + f.npages <= |m|
        && m[page].dirty == f.dirty && m[page].size == f.npages
        && Extent(f.npages, c, page) in s.runsAvail && Distinct(a, f, b)
        && var s1 := Removed(cfg, s, c, page, f.npages, true, true);
           Hole(cfg, s1, c, a, f, b) && Frame(s, s1, c)
    {
      hide Len, Tiles, Active, FreeSet, Sum, Coalesced, BinSized, Recount;
      WholeOf(cfg, s, c);
      TakeOut(cfg, s, c, a, f, b);
    }

    /** The counter, index and page-map updates of a split, once the map entries are known. */
    method Carve(c: nat, page: nat, need: nat, rem: nat, mr: seq<MapBits>, m: seq<MapBits>, ghost runs: seq<Run>)
      requires c in chunks && c in tiles && page + need + rem <= |mr| == |m|
      requires forall p :: page + need <= p < |m| ==> m[p] == mr[p]
      requires rem > 0 ==> mr[page + need].size == rem
      requires rem == 0 ==> mr == chunks[c].map_
      modifies this
      ensures tiles == old(tiles)[c := runs]
      ensures var s' := Remapped(old(S()), c, m, runs, need);
        S() == if rem == 0 then s' else Inserted(cfg, s', c, page + need, rem, false, true)
    {
      hide Recount, Active, AdjacPred, AdjacSucc, DirtyKeys;
      ghost var s1 := S();
      nactive := nactive + need;
      if rem > 0 {
        chunks := chunks[c := chunks[c].(map_ := mr)];
        AvailInsert(c, page + need, rem, false, true);
        LateTags(s1, c, mr, m, runs, need, page + need, rem);
      }
      chunks := chunks[c := chunks[c].(map_ := m)];
      tiles := tiles[c := runs];
    }

    /** Writing the tags of the allocated part before or after indexing the remainder is the same. */
    lemma LateTags(s: State, c: nat, mr: seq<MapBits>, m: seq<MapBits>, runs: seq<Run>, active: int, page: nat, n: nat)
      requires c in s.chunks && page + n <= |mr| == |m| && n > 0
      requires forall p :: page <= p < |m| ==> m[p] == mr[p]
      ensures var s1 := s.(chunks := s.chunks[c := s.chunks[c].(map_ := mr)], nactive := s.nactive + active);
        var s2 := Inserted(cfg, s1, c, page, n, false, true);
        s2.(chunks := s2.chunks[c := s2.chunks[c].(map_ := m)], tiles := s2.tiles[c := runs])
        == Inserted(cfg, Remapped(s, c, m, runs, active), c, page, n, false, true)
    {
      hide Recount, Active;
      var ch := s.chunks[c].(map_ := mr);
      RecountAhead(ch, m, cfg.mapBias, page, n, true);
      var ch1 := Recount(ch, cfg.mapBias, page, n, false, true, 1);
      var ch2 := Recount(ch.(map_ := m), cfg.mapBias, page, n, false, true, 1);
      assert ch1.(map_ := m) == ch2;
      assert s.chunks[c := ch][c := ch1][c := ch2] == s.chunks[c := ch.(map_ := m)][c := ch2];
    }

    /** The state reached by `RunSplit` is a legal one. */
    lemma SplitDone(s0: State, s1: State, s: State, c: nat, a: seq<Run>, f: Run, b: seq<Run>, x: Run, m: seq<MapBits>)
      requires StateInv(cfg, s0) && Frame(s0, s1, c) && Hole(cfg, s1, c, a, f, b) && Distinct(a, f, b)
      requires !x.Free? && 0 < x.npages <= f.npages && BinSized([x], cfg.runPages)
      requires Within(s1.chunks[c].map_, m, cfg.mapBias + Len(a), cfg.mapBias + Len(a) + f.npages)
      requires RunAt(m, cfg.mapBias + Len(a), x)
      requires x.npages < f.npages ==>
        RunAt(m, cfg.mapBias + Len(a) + x.npages, Free(f.npages - x.npages, f.dirty))
      requires var s' := Remapped(s1, c, m, a + [x] + Rest(f, x.npages) + b, x.npages);
        var rem := f.npages - x.npages;
        s == if rem == 0 then s' else Inserted(cfg, s', c, cfg.mapBias + Len(a) + x.npages, rem, false, true)
      ensures StateInv(cfg, s) && Frame(s0, s, c)
    {
      hide HoleInv, ChunkInv, Tiles, Len, Active, FreeSet, RunAt, Within, BinSized, Recount, Sum, Frame, Whole, Hole, StateInv, Indexed, Inserted;
      FrameFacts(s0, s1, c);
      if x.npages == f.npages {
        ClaimAll(cfg, s1, c, a, f, b, x, m);
        assert a + [x] + [] + b == a + [x] + b;
        FrameTrans(s0, s1, s, c);
        WholeFacts(cfg, s, c, a + [x] + b);
      } else {
        var g := Free(f.npages - x.npages, f.dirty);
        var s2 := Remapped(s1, c, m, a + [x] + [g] + b, x.npages);
        ClaimFront(cfg, s1, c, a, f, b, x, m);
        FrameTrans(s0, s1, s2, c);
        FrameFacts(s0, s2, c);
        assert (a + [x])[|a|] == x;
        PutBack(cfg, s2, c, a + [x], g, b, false, true);
        FrameTrans(s0, s2, s, c);
        WholeFacts(cfg, s, c, (a + [x]) + [g] + b);
      }
      FrameFacts(s0, s, c);
      StateReplace(cfg, s0, s, c);
    }

    /* --- arena_run_dalloc ------------------------------------------------------ */

    /** What `arena_run_dalloc` reads from the page map about the run at `page`. */
    lemma OpenUsed(s: State, c: nat, a: seq<Run>, r: Run, b: seq<Run>)
      requires StateInv(cfg, s) && c in s.chunks && s.spare != Some(c) && c in s.tiles
      requires s.tiles[c] == a + [r] + b && !r.Free?
      ensures var page, m := cfg.mapBias + Len(a), s.chunks[c].map_;
        && r.npages > 0 && page + r.npages <= |m|
        && m[page].inUse && m[page].dirty == r.dirty && m[page + r.npages - 1].dirty == r.dirty
        && (m[page].large <==> r.Large?) && (r.Large? ==> m[page].size == r.npages)
        && (r.Small? ==> m[page].binind < |cfg.runPages| && cfg.runPages[m[page].binind] == r.npages)
    {
      hide Len, Tiles, Active, FreeSet, Sum, Coalesced, Avail, Dirty, Adjac;
      SeamTiles(s.chunks[c].map_, cfg.mapBias, a, r, b);
      assert (a + [r] + b)[|a|] == r;
    }

    /** Mark the pages as unallocated; the run is not in the index yet. */
    method MarkFree(c: nat, page: nat, n: nat, dirty: bool, ghost a: seq<Run>, ghost r: Run, ghost b: seq<Run>)
      requires Inv() && c in chunks && spare != Some(c) && c in tiles
      requires tiles[c] == a + [r] + b && !r.Free? && page == cfg.mapBias + Len(a) && n == r.npages
      modifies this
      ensures Hole(cfg, S(), c, a, Free(n, dirty), b) && Frame(old(S()), S(), c)
    {
      hide StateInv, Frame, Hole, Len, Whole, BinSized;
      ghost var s0 := S();
      OpenUsed(s0, c, a, r, b);
      UsedWhole(s0, c);
      nactive := nactive - n;
      var tag := UnallocatedBits(n, dirty);
      var m := chunks[c].map_[page := tag][page + n - 1 := tag];
      chunks := chunks[c := chunks[c].(map_ := m)];
      tiles := tiles[c := a + [Free(n, dirty)] + b];
      Release(cfg, s0, c, a, r, b, Free(n, dirty), m);
    }

    lemma UsedWhole(s: State, c: nat)
      requires StateInv(cfg, s) && c in s.chunks && s.spare != Some(c)
      ensures c in s.tiles && s.tiles.Keys == s.chunks.Keys
      ensures Whole(cfg, s, c, s.tiles[c])
    {
      hide Len, Tiles, Active, FreeSet, Sum, Coalesced, Avail, Dirty, Adjac, BinSized;
      WholeOf(cfg, s, c);
    }

    /** The page-map entries next to a hole are the boundary tags of its neighbours. */
    lemma HoleTags(s: State, c: nat, a: seq<Run>, f: Run, b: seq<Run>)
      requires Hole(cfg, s, c, a, f, b)
      ensures c in s.chunks && c in s.tiles && s.tiles[c] == a + [f] + b
      ensures var page, m := cfg.mapBias + Len(a), s.chunks[c].map_;
        && f.npages > 0 && page + f.npages <= |m| == cfg.npages
        && m[page].dirty == f.dirty && m[page].size == f.npages && m[page + f.npages - 1].dirty == f.dirty
        && (page > cfg.mapBias <==> a != []) && (page + f.npages < |m| <==> b != [])
        && (a != [] ==> var t, r := m[page - 1], a[|a| - 1];
             t.inUse == !r.Free? && t.dirty == r.dirty && (r.Free? ==> t.size == r.npages <= Len(a)))
        && (b != [] ==> var t, r := m[page + f.npages], b[0];
             t.inUse == !r.Free? && t.dirty == r.dirty && (r.Free? ==> t.size == r.npages))
      ensures Coalesced(a) && Coalesced(b)
    {
      hide Len, Tiles, Coalesced, Hole, HoleInv, RunAt;
      HoleParts(s, c, a, f, b);
      LastTag(s.chunks[c].map_, cfg.mapBias, a);
      FirstTag(s.chunks[c].map_, cfg.mapBias + Len(a) + f.npages, b);
    }

    lemma HoleParts(s: State, c: nat, a: seq<Run>, f: Run, b: seq<Run>)
      requires Hole(cfg, s, c, a, f, b)
      ensures c in s.chunks && c in s.tiles && s.tiles[c] == a + [f] + b && Coalesced(a) && Coalesced(b)
      ensures var page, m := cfg.mapBias + Len(a), s.chunks[c].map_;
        && f.npages > 0 && page + f.npages + Len(b) == |m| == cfg.npages
        && Tiles(m, cfg.mapBias, a) && Tiles(m, page + f.npages, b)
        && m[page].dirty == f.dirty && m[page].size == f.npages && m[page + f.npages - 1].dirty == f.dirty
    {
      hide Len, Tiles, Coalesced, BinSized, Avail, Dirty, Adjac, FreeSet, Indexed, HoleSet;
    }

    /** Take a neighbour out of the index and write the merged size into both boundary tags. */
    method Absorb(c: nat, out: nat, nn: nat, pred: bool, succ: bool, page: nat, n: nat, ghost runs: seq<Run>)
      requires c in chunks && out + nn <= |chunks[c].map_| && nn > 0 && n > 0 && page + n <= |chunks[c].map_|
      requires chunks[c].map_[out].size == nn && Extent(nn, c, out) in runsAvail
      modifies this
      ensures S() == Remapped(Removed(cfg, old(S()), c, out, nn, pred, succ), c,
                              Resized(old(chunks[c].map_), page, n), runs, 0)
    {
      hide Recount, DirtyKeys, Resized;
      AvailRemove(c, out, nn, pred, succ);
      chunks := chunks[c := chunks[c].(map_ := Resized(chunks[c].map_, page, n))];
      tiles := tiles[c := runs];
    }

    method CoalesceForward(c: nat, page: nat, n: nat, dirty: bool, ghost a: seq<Run>, ghost b: seq<Run>)
      returns (n': nat, ghost b': seq<Run>)
      requires Hole(cfg, S(), c, a, Free(n, dirty), b) && tiles.Keys == chunks.Keys && spare != Some(c)
      requires page == cfg.mapBias + Len(a)
      modifies this
      ensures Hole(cfg, S(), c, a, Free(n', dirty), b') && (S() == old(S()) || Frame(old(S()), S(), c))
      ensures tiles.Keys == chunks.Keys && spare == old(spare)
      ensures b' != [] && b'[0].Free? ==> b'[0].dirty != dirty
      ensures n' + Len(b') == n + Len(b) && BlockSet(c, page + n', b') == BlockSet(c, page + n, b)
    {
      hide Hole, HoleInv, Len, Frame, Recount, DirtyKeys, RunAt, BlockSet, Resized, Coalesced;
      ghost var s0, f := S(), Free(n, dirty);
      HoleTags(s0, c, a, f, b);
      var m := chunks[c].map_;
      n', b' := n, b;
      if page + n < cfg.npages && !m[page + n].inUse && m[page + n].dirty == dirty {
        var nn := m[page + n].size;
        ghost var g := b[0];
        b' := b[1..];
        assert b == [g] + b';
        DropFirst(c, page + n, b);
        MergeForward(cfg, s0, c, a, f, g, b');
        n' := n + nn;
        Absorb(c, page + n, nn, false, true, page, n', a + [Free(n', dirty)] + b');
      }
    }

    lemma DropFirst(c: nat, lo: nat, b: seq<Run>)
      requires b != [] && b[0].Free? && Coalesced(b)
      ensures b[1..] != [] && b[1..][0].Free? ==> b[1..][0].dirty != b[0].dirty
      ensures Len(b) == b[0].npages + Len(b[1..])
      ensures BlockSet(c, lo, b) == BlockSet(c, lo + b[0].npages, b[1..])
    {
    }

    method CoalesceBackward(c: nat, page: nat, n: nat, dirty: bool, ghost a: seq<Run>, ghost b: seq<Run>)
      returns (page': nat, n': nat, ghost a': seq<Run>)
      requires Hole(cfg, S(), c, a, Free(n, dirty), b) && tiles.Keys == chunks.Keys && spare != Some(c)
      requires page == cfg.mapBias + Len(a)
      modifies this
      ensures Hole(cfg, S(), c, a', Free(n', dirty), b) && (S() == old(S()) || Frame(old(S()), S(), c))
      ensures tiles.Keys == chunks.Keys && spare == old(spare)
      ensures page' == cfg.mapBias + Len(a')
      ensures a' != [] && a'[|a'| - 1].Free? ==> a'[|a'| - 1].dirty != dirty
      ensures page' + n' == page + n && BlockSet(c, cfg.mapBias, a') == BlockSet(c, cfg.mapBias, a)
    {
      hide Hole, HoleInv, Len, Frame, Recount, DirtyKeys, BlockSet, Resized, Coalesced;
      ghost var s0, f := S(), Free(n, dirty);
      HoleTags(s0, c, a, f, b);
      var m := chunks[c].map_;
      page', n', a' := page, n, a;
      if page > cfg.mapBias && !m[page - 1].inUse && m[page - 1].dirty == dirty {
        var pn := m[page - 1].size;
        ghost var g := a[|a| - 1];
        a' := a[..|a| - 1];
        assert a == a' + [g];
        DropLast(c, cfg.mapBias, a);
        MergeBackward(cfg, s0, c, a', g, f, b);
        page', n' := page - pn, n + pn;
        Absorb(c, page', pn, true, false, page', n', a' + [Free(n', dirty)] + b);
      }
    }

    lemma DropLast(c: nat, lo: nat, a: seq<Run>)
      requires a != [] && a[|a| - 1].Free? && Coalesced(a)
      ensures var a' := a[..|a| - 1];
        && (a' != [] && a'[|a'| - 1].Free? ==> a'[|a'| - 1].dirty != a[|a| - 1].dirty)
        && Len(a) == Len(a') + a[|a| - 1].npages
        && BlockSet(c, lo, a) == BlockSet(c, lo, a')
    {
      var a', g := a[..|a| - 1], a[|a| - 1];
      assert a == a' + [g];
      LenConcat(a', [g]);
      SetsConcat(c, lo, a', [g]);
      assert [g][1..] == [] && Len([g]) == g.npages && BlockSet(c, lo + Len(a'), [g]) == {};
    }

    /** `arena_chunk_dealloc`: the only run of the chunk leaves the index, the chunk becomes the spare. */
    method ChunkDealloc(c: nat, ghost f: Run)
      requires Inv() && c in chunks && spare != Some(c) && c in tiles && tiles[c] == [f] && f.Free?
      modifies this
      ensures Inv() && spare == Some(c)
      ensures tiles == if old(spare).Some? then old(tiles) - {old(spare).value} else old(tiles)
    {
      hide StateInv, Recount, DirtyKeys, RunAt;
      ghost var s0 := S();
      Retire(cfg, s0, c, f);
      RetireTag(s0, c, f);
      AvailRemove(c, cfg.mapBias, cfg.npages - cfg.mapBias, false, false);
      if spare.Some? {
        var old_ := spare.value;
        spare := Some(c);
        chunks := chunks - {old_};
        tiles := tiles - {old_};
      } else {
        spare := Some(c);
      }
    }

    lemma RetireTag(s: State, c: nat, f: Run)
      requires StateInv(cfg, s) && c in s.chunks && s.spare != Some(c) && c in s.tiles && s.tiles[c] == [f] && f.Free?
      ensures cfg.mapBias < |s.chunks[c].map_| && s.chunks[c].map_[cfg.mapBias].size == f.npages
    {
      hide FreeSet, Active, Sum, Coalesced, BinSized, Avail, Dirty, Adjac;
      assert RunAt(s.chunks[c].map_, cfg.mapBias, [f][0]);
    }

    /** Putting the coalesced run into the index completes the deallocation. */
    lemma CloseFree(s0: State, s: State, c: nat, a: seq<Run>, f: Run, b: seq<Run>)
      requires StateInv(cfg, s0) && c in s.chunks && Frame(s0, s, c) && Hole(cfg, s, c, a, f, b) && Distinct(a, f, b)
      requires s.tiles.Keys == s.chunks.Keys && s.spare != Some(c)
      ensures cfg.mapBias + Len(a) + f.npages <= |s.chunks[c].map_| && f.npages > 0
      ensures var s' := Inserted(cfg, s, c, cfg.mapBias + Len(a), f.npages, true, true);
        StateInv(cfg, s') && Frame(s0, s', c) && s'.tiles == s.tiles
    {
      hide StateInv, Frame, Hole, Len, Distinct, Recount, DirtyKeys, ChunkInv, Whole;
      PutBack(cfg, s, c, a, f, b, true, true);
      var s' := Inserted(cfg, s, c, cfg.mapBias + Len(a), f.npages, true, true);
      FrameTrans(s0, s, s', c);
      WholeTiles(s', c, a + [f] + b);
      StateReplace(cfg, s0, s', c);
    }

    lemma FrameStep(s0: State, s1: State, s2: State, c: nat)
      requires Frame(s0, s1, c) && (s2 == s1 || Frame(s1, s2, c))
      ensures Frame(s0, s2, c)
    {
      if s2 != s1 {
        FrameTrans(s0, s1, s2, c);
      }
    }

    lemma FrameRest(s0: State, s: State, c: nat)
      requires Frame(s0, s, c)
      ensures s.tiles.Keys == s.chunks.Keys == s0.tiles.Keys && s.spare == s0.spare != Some(c) && c in s.tiles
      ensures forall d :: d in s.tiles && d != c ==> s.tiles[d] == s0.tiles[d]
    {
      hide Active;
    }

    lemma DistinctIntro(a: seq<Run>, f: Run, b: seq<Run>)
      requires a != [] && a[|a| - 1].Free? ==> a[|a| - 1].dirty != f.dirty
      requires b != [] && b[0].Free? ==> b[0].dirty != f.dirty
      ensures Distinct(a, f, b)
    {
    }

    /** A chunk is one free run exactly if that run has all its pages. */
    lemma WholeChunk(s: State, c: nat, a: seq<Run>, f: Run, b: seq<Run>)
      requires StateInv(cfg, s) && c in s.chunks && c in s.tiles && s.tiles[c] == a + [f] + b && f.Free?
      ensures f.npages == cfg.npages - cfg.mapBias <==> s.tiles[c] == [f]
      ensures f.npages != cfg.npages - cfg.mapBias ==> |s.tiles[c]| != 1
    {
      hide Len, Tiles, Active, FreeSet, Sum, Coalesced, Avail, Dirty, Adjac, BinSized, BlockSet, RunAt;
      var m := s.chunks[c].map_;
      SeamTiles(m, cfg.mapBias, a, f, b);
      SeamCounts(cfg, c, a, f, b);
      LastTag(m, cfg.mapBias, a);
      FirstTag(m, cfg.mapBias + Len(a) + f.npages, b);
      if a == [] && b == [] {
        assert a + [f] + b == [f];
      }
    }

    lemma SpareEmpty(s: State)
      requires StateInv(cfg, s) && s.spare.Some?
      ensures s.spare.value in s.tiles && BlockSet(s.spare.value, cfg.mapBias, s.tiles[s.spare.value]) == {}
    {
      hide Len, Tiles, Active, FreeSet, Sum, Coalesced, Avail, Dirty, Adjac, BinSized, RunAt;
      var o := s.spare.value;
      assert s.tiles[o][1..] == [];
    }

    lemma WholeTiles(s: State, c: nat, runs: seq<Run>)
      requires Whole(cfg, s, c, runs)
      ensures c in s.tiles && s.tiles[c] == runs
    {
    }

    /** Freeing one run and moving its free neighbours around changes exactly one block. */
    lemma FreedBlocks(s: State, c: nat, a: seq<Run>, r: Run, b: seq<Run>, a': seq<Run>, f': Run, b': seq<Run>)
      requires StateInv(cfg, s) && c in s.chunks && s.spare != Some(c) && c in s.tiles
      requires s.tiles[c] == a + [r] + b && !r.Free? && f'.Free?
      requires BlockSet(c, cfg.mapBias, a') == BlockSet(c, cfg.mapBias, a)
      requires BlockSet(c, cfg.mapBias + Len(a') + f'.npages, b') == BlockSet(c, cfg.mapBias + Len(a) + r.npages, b)
      ensures BlockSet(c, cfg.mapBias, a' + [f'] + b')
           == BlockSet(c, cfg.mapBias, s.tiles[c]) - {BlockOf(c, cfg.mapBias + Len(a), r)}
    {
      hide Len, Tiles, Active, FreeSet, Sum, Coalesced, Avail, Dirty, Adjac, BinSized, BlockSet, RunAt;
      var m := s.chunks[c].map_;
      SeamTiles(m, cfg.mapBias, a, r, b);
      SeamUsed(cfg, c, a, r, b);
      SeamCounts(cfg, c, a', f', b');
      RunPages(m, cfg.mapBias + Len(a), r);
      SetsRange(m, c, cfg.mapBias, a);
      SetsRange(m, c, cfg.mapBias + Len(a) + r.npages, b);
    }

    lemma RunPages(m: seq<MapBits>, s: nat, r: Run)
      requires RunAt(m, s, r)
      ensures r.npages > 0
    {
    }

    /** The run becomes free, is merged with its neighbours, and goes into the index. */
    method FreeRun(c: nat, page: nat, n0: nat, dirty: bool, ghost a: seq<Run>, ghost r: Run, ghost b: seq<Run>)
      returns (n: nat, ghost a': seq<Run>, ghost b': seq<Run>)
      requires Inv() && c in chunks && spare != Some(c) && c in tiles
      requires tiles[c] == a + [r] + b && !r.Free? && page == cfg.mapBias + Len(a) && n0 == r.npages
      modifies this
      ensures Inv() && Frame(old(S()), S(), c) && c in chunks && c in tiles
      ensures tiles[c] == a' + [Free(n, dirty)] + b'
      ensures BlockSet(c, cfg.mapBias, tiles[c]) == BlockSet(c, cfg.mapBias, old(tiles)[c]) - {BlockOf(c, page, r)}
    {
      hide StateInv, Frame, Hole, Len, Distinct, Recount, DirtyKeys, BlockSet, RunAt;
      ghost var s0 := S();
      MarkFree(c, page, n0, dirty, a, r, b);
      ghost var s1 := S();
      FrameRest(s0, s1, c);
      n, b' := CoalesceForward(c, page, n0, dirty, a, b);
      ghost var s2 := S();
      FrameStep(s0, s1, s2, c);
      var page';
      page', n, a' := CoalesceBackward(c, page, n, dirty, a, b');
      ghost var s3, f' := S(), Free(n, dirty);
      FrameStep(s0, s2, s3, c);
      HoleTags(s3, c, a', f', b');
      DistinctIntro(a', f', b');
      CloseFree(s0, s3, c, a', f', b');
      FreedBlocks(s0, c, a, r, b, a', f', b');
      AvailInsert(c, page', n, true, true);
    }

    /**
     `arena_run_dalloc`.  The run becomes dirty if the caller dirtied it, or if it was dirty
     before and was not cleaned; it is merged with free neighbours of the same dirtiness, and
     a chunk that becomes one free run is retired.
     */
    method RunDalloc(c: nat, page: nat, dirty0: bool, cleaned: bool, ghost a: seq<Run>, ghost r: Run, ghost b: seq<Run>)
      requires Valid() && c in chunks && spare != Some(c) && c in tiles
      requires tiles[c] == a + [r] + b && !r.Free? && page == cfg.mapBias + Len(a)
      modifies this
      ensures Valid()
      ensures forall x :: Live(x) <==> old(Live(x)) && x != BlockOf(c, page, r)
    {
      hide StateInv, Frame, Len, BlockSet;
      ghost var s0 := S();
      OpenUsed(s0, c, a, r, b);
      var m := chunks[c].map_;
      var n0 := if m[page].large then m[page].size else cfg.runPages[m[page].binind];
      var dirty := dirty0 || (!cleaned && m[page].dirty);
      var n;
      ghost var a', b';
      n, a', b' := FreeRun(c, page, n0, dirty, a, r, b);
      ghost var s1 := S();
      FrameRest(s0, s1, c);
      WholeChunk(s1, c, a', Free(n, dirty), b');
      if n == cfg.npages - cfg.mapBias {
        if spare.Some? {
          SpareEmpty(s1);
        }
        ChunkDealloc(c, Free(n, dirty));
      }
    }

    /* --- arena_run_alloc ----------------------------------------------------------- */

    /** Where an allocated or a free run sits among the runs of its chunk. */
    lemma {:induction false} FindBlock(c: nat, lo: nat, runs: seq<Run>, blk: Block)
      returns (a: seq<Run>, r: Run, b: seq<Run>)
      requires blk in BlockSet(c, lo, runs)
      ensures runs == a + [r] + b && !r.Free? && blk == BlockOf(c, lo + Len(a), r)
      decreases |runs|
    {
      if !runs[0].Free? && blk == BlockOf(c, lo, runs[0]) {
        a, r, b := [], runs[0], runs[1..];
      } else {
        a, r, b := FindBlock(c, lo + runs[0].npages, runs[1..], blk);
        a := [runs[0]] + a;
        assert a[1..] + [r] + b == runs[1..];
        assert a + [r] + b == [runs[0]] + runs[1..];
      }
    }

    lemma {:induction false} FindFree(c: nat, lo: nat, runs: seq<Run>, e: Extent)
      returns (a: seq<Run>, f: Run, b: seq<Run>)
      requires e in FreeSet(c, lo, runs)
      ensures runs == a + [f] + b && f.Free? && e == Extent(f.npages, c, lo + Len(a))
      decreases |runs|
    {
      if runs[0].Free? && e == Extent(runs[0].npages, c, lo) {
        a, f, b := [], runs[0], runs[1..];
      } else {
        a, f, b := FindFree(c, lo + runs[0].npages, runs[1..], e);
        a := [runs[0]] + a;
        assert a[1..] + [f] + b == runs[1..];
        assert a + [f] + b == [runs[0]] + runs[1..];
      }
    }

    /** `arena_avail_comp`: smaller runs first, then lower addresses. */
    static predicate Before(d: Extent, e: Extent)
    {
      || d.npages < e.npages
      || (d.npages == e.npages && (d.chunk < e.chunk || (d.chunk == e.chunk && d.page <= e.page)))
    }

    static predicate BestFit(avail: set<Extent>, size: nat, e: Extent)
    {
      e in avail && e.npages >= size && forall d :: d in avail && d.npages >= size ==> Before(e, d)
    }

    /** `arena_avail_tree_nsearch` with a key that sorts before every run of its size. */
    static method NSearch(avail: set<Extent>, size: nat) returns (o: Option<Extent>)
      ensures o.None? <==> forall d :: d in avail ==> d.npages < size
      ensures o.Some? ==> BestFit(avail, size, o.value)
    {
      o := None;
      var rest := avail;
      while rest != {}
        invariant rest <= avail
        invariant o.None? ==> forall d :: d in avail - rest ==> d.npages < size
        invariant o.Some? ==> BestFit(avail - rest, size, o.value)
        decreases rest
      {
        var d :| d in rest;
        if d.npages >= size && (o.None? || Before(d, o.value)) {
          o := Some(d);
        }
        rest := rest - {d};
      }
      assert avail - {} == avail;
    }

    /** Splitting a free run adds exactly the carved block. */
    lemma CarvedBlocks(s: State, c: nat, a: seq<Run>, f: Run, b: seq<Run>, x: Run)
      requires StateInv(cfg, s) && c in s.chunks && s.spare != Some(c) && c in s.tiles
      requires s.tiles[c] == a + [f] + b && f.Free? && !x.Free? && 0 < x.npages <= f.npages
      ensures var runs := a + [x] + Rest(f, x.npages) + b; var blk := BlockOf(c, cfg.mapBias + Len(a), x);
        && BlockSet(c, cfg.mapBias, runs) == BlockSet(c, cfg.mapBias, s.tiles[c]) + {blk}
        && blk !in BlockSet(c, cfg.mapBias, s.tiles[c])
        && !(|runs| == 1 && runs[0].Free?)
    {
      hide StateInv, BlockSet, Rest, Tiles, Len, RunAt;
      ChunkTiles(s, c);
      CarvedSets(s.chunks[c].map_, c, a, f, b, x);
      assert (a + [x] + Rest(f, x.npages) + b)[|a|] == x;
    }

    lemma ChunkTiles(s: State, c: nat)
      requires StateInv(cfg, s) && c in s.chunks && c in s.tiles
      ensures Tiles(s.chunks[c].map_, cfg.mapBias, s.tiles[c])
    {
      hide Tiles, Active, FreeSet, Sum, Coalesced, Avail, Dirty, Adjac, BinSized;
    }

    lemma CarvedSets(m: seq<MapBits>, c: nat, a: seq<Run>, f: Run, b: seq<Run>, x: Run)
      requires Tiles(m, cfg.mapBias, a + [f] + b) && f.Free? && !x.Free? && 0 < x.npages <= f.npages
      ensures var runs := a + [x] + Rest(f, x.npages) + b; var blk := BlockOf(c, cfg.mapBias + Len(a), x);
        && BlockSet(c, cfg.mapBias, runs) == BlockSet(c, cfg.mapBias, a + [f] + b) + {blk}
        && blk !in BlockSet(c, cfg.mapBias, a + [f] + b)
    {
      hide Len, Tiles, Active, FreeSet, Coalesced, Avail, Dirty, Adjac, BinSized, BlockSet, RunAt, Rest, Touch;
      var page, rest := cfg.mapBias + Len(a), Rest(f, x.npages);
      SeamTiles(m, cfg.mapBias, a, f, b);
      SeamCounts(cfg, c, a, f, b);
      SetsRange(m, c, cfg.mapBias, a);
      SetsRange(m, c, page + f.npages, b);
      SeamUsed(cfg, c, a, x, rest + b);
      assert a + [x] + (rest + b) == a + [x] + rest + b;
      RestBlocks(c, page + x.npages, f, x.npages, b);
    }

    lemma RestBlocks(c: nat, lo: nat, f: Run, need: nat, b: seq<Run>)
      requires f.Free? && need <= f.npages
      ensures BlockSet(c, lo, Rest(f, need) + b) == BlockSet(c, lo + f.npages - need, b)
    {
      if need < f.npages {
        assert (Rest(f, need) + b)[1..] == b;
      } else {
        assert Rest(f, need) + b == b;
      }
    }

    /** Allocate from the run at `page`; `Inv` only, because the chunk may just have been enlisted. */
    method AllocFrom(c: nat, page: nat, size: nat, bin: Option<nat>, ghost e: Extent)
      requires Inv() && e in runsAvail && e.chunk == c && e.page == page && 0 < size <= e.npages
      requires bin.Some? ==> bin.value < |cfg.runPages| && size == cfg.runPages[bin.value]
      requires forall d :: d in tiles && d != c ==> InUse(d)
      modifies this
      ensures Valid() && spare == old(spare)
      ensures var blk := Block(c, page, size, if bin.Some? then bin.value else BININD_INVALID);
        (forall x :: Live(x) <==> old(Live(x)) || x == blk) && !old(Live(blk))
    {
      hide StateInv, Frame, Len, BlockSet, FreeSet, Rest;
      ghost var s0 := S();
      AvailTile(s0, e);
      ghost var a, f, b := FindFree(c, cfg.mapBias, tiles[c], e);
      CarvedBlocks(s0, c, a, f, b, Carved(f, size, bin));
      RunSplit(c, page, size, bin, a, f, b);
      FrameRest(s0, S(), c);
    }

    lemma AvailTile(s: State, e: Extent)
      requires StateInv(cfg, s) && e in s.runsAvail
      ensures e.chunk in s.chunks && e.chunk in s.tiles && s.spare != Some(e.chunk)
      ensures e in FreeSet(e.chunk, cfg.mapBias, s.tiles[e.chunk])
    {
      hide Len, Tiles, Active, FreeSet, Sum, Coalesced, Avail, Dirty, Adjac, BinSized, RunAt, ChunksInv, DirtyInv;
    }

    /**
     `arena_chunk_alloc` when there is a spare, and from the point where it has the lock again with the
     chunk `fresh_` mapped in the meantime.  By then another thread may have left a spare, which stays.
     */
    method ChunkAlloc(fresh_: Option<nat>) returns (c: nat)
      requires Valid() && if fresh_.Some? then fresh_.value !in chunks else spare.Some?
      modifies this
      ensures Inv() && Some(c) == (if fresh_.Some? then fresh_ else old(spare)) && spare == (if fresh_.Some? then old(spare) else None)
      ensures Extent(cfg.npages - cfg.mapBias, c, cfg.mapBias) in runsAvail && cfg.mapBias < cfg.npages
      ensures forall d :: d in tiles && d != c ==> InUse(d)
      ensures forall x :: Live(x) <==> old(Live(x))
    {
      hide StateInv, Len, Recount, DirtyKeys, Detached;
      ghost var s0 := S();
      ConfigValid(s0);
      var n := cfg.npages - cfg.mapBias;
      ghost var f;
      if fresh_.None? {
        c := spare.value;
        SpareDetached(s0);
        f := tiles[c][0];
        spare := None;
      } else {
        c, f := fresh_.value, Free(n, false);
        NoTile(s0, c);
        var tag := UnallocatedBits(n, false);
        var m := seq(cfg.npages, _ => UnallocatedBits(0, false));
        m := m[cfg.mapBias := tag][cfg.npages - 1 := tag];
        NewDetached(m, f);
        chunks := chunks[c := Chunk(m, 0, 0, 0)];
      }
      tiles := tiles[c := [f]];
      Enlist(cfg, s0, c, chunks[c], f);
      assert chunks == s0.chunks[c := chunks[c]];
      OneFree(c, f);
      DetachedTag(chunks[c], f);
      AvailInsert(c, cfg.mapBias, n, false, false);
    }

    lemma ConfigValid(s: State)
      requires StateInv(cfg, s)
      ensures cfg.Valid()
    {
    }

    lemma NoTile(s: State, c: nat)
      requires StateInv(cfg, s) && c !in s.chunks
      ensures c !in s.tiles && s.spare != Some(c)
    {
    }

    lemma SpareDetached(s: State)
      requires StateInv(cfg, s) && s.spare.Some?
      ensures var c := s.spare.value;
        c in s.chunks && c in s.tiles && |s.tiles[c]| == 1 && s.tiles[c] == [s.tiles[c][0]]
        && Detached(cfg, s.chunks[c], s.tiles[c][0]) && BlockSet(c, cfg.mapBias, s.tiles[c]) == {}
    {
      hide Active, FreeSet, Sum, Coalesced, Avail, Dirty, Adjac, BinSized, Tiles, Len;
      var c := s.spare.value;
      assert s.tiles[c] == [s.tiles[c][0]];
      SingleRun(cfg, s.chunks[c], c, s.tiles[c][0]);
      SpareEmpty(s);
    }

    lemma NewDetached(m: seq<MapBits>, f: Run)
      requires cfg.Valid() && |m| == cfg.npages && f == Free(cfg.npages - cfg.mapBias, false)
      requires m[cfg.mapBias] == m[cfg.npages - 1] == UnallocatedBits(f.npages, false)
      ensures Detached(cfg, Chunk(m, 0, 0, 0), f)
    {
    }

    lemma DetachedTag(ch: Chunk, f: Run)
      requires Detached(cfg, ch, f)
      ensures cfg.mapBias < |ch.map_| == cfg.npages && ch.map_[cfg.mapBias].size == f.npages == cfg.npages - cfg.mapBias
    {
    }

    lemma OneFree(c: nat, f: Run)
      requires f.Free?
      ensures BlockSet(c, cfg.mapBias, [f]) == {}
    {
      assert [f][1..] == [];
    }

    ghost predicate BinFits(size: nat, bin: Option<nat>)
    {
      bin.Some? ==> bin.value < |cfg.runPages| && size == cfg.runPages[bin.value]
    }

    function BlockFor(c: nat, page: nat, size: nat, bin: Option<nat>): Block
    {
      Block(c, page, size, if bin.Some? then bin.value else BININD_INVALID)
    }

    /** `arena_run_alloc_helper`: split the lowest best fit, if any free run is large enough. */
    method RunAllocHelper(size: nat, bin: Option<nat>) returns (o: Option<Extent>)
      requires Valid() && size > 0 && BinFits(size, bin)
      modifies this
      ensures Valid()
      ensures o.None? <==> forall e :: e in old(runsAvail) ==> e.npages < size
      ensures o.None? ==> S() == old(S())
      ensures o.Some? ==> BestFit(old(runsAvail), size, o.value)
      ensures o.Some? ==> var blk := BlockFor(o.value.chunk, o.value.page, size, bin);
        (forall x :: Live(x) <==> old(Live(x)) || x == blk) && !old(Live(blk))
    {
      hide StateInv, BlockSet;
      o := NSearch(runsAvail, size);
      if o.Some? {
        AllocFrom(o.value.chunk, o.value.page, size, bin, o.value);
      }
    }

    /** `arena_run_alloc` up to where it may drop the lock: the lowest best fit, else the front of the spare. */
    method RunAllocStart(size: nat, bin: Option<nat>) returns (o: Option<(nat, nat)>)
      requires Valid() && 0 < size <= cfg.npages - cfg.mapBias && BinFits(size, bin)
      modifies this
      ensures Valid()
      ensures o.None? <==> (forall e :: e in old(runsAvail) ==> e.npages < size) && old(spare).None?
      ensures o.None? ==> S() == old(S())
      ensures o.Some? ==> var blk := BlockFor(o.value.0, o.value.1, size, bin);
        (forall x :: Live(x) <==> old(Live(x)) || x == blk) && !old(Live(blk))
      ensures forall e :: BestFit(old(runsAvail), size, e) ==> o == Some((e.chunk, e.page))
    {
      hide StateInv, BlockSet;
      var e := RunAllocHelper(size, bin);
      if e.Some? {
        BestUnique(old(runsAvail), size, e.value);
        return Some((e.value.chunk, e.value.page));
      }
      if spare.None? {
        return None;
      }
      var c := ChunkAlloc(None);
      AllocFrom(c, cfg.mapBias, size, bin, Extent(cfg.npages - cfg.mapBias, c, cfg.mapBias));
      return Some((c, cfg.mapBias));
    }

    /**
     The rest of `arena_run_alloc`, with the lock taken again and the arena in whatever state the
     other threads have left it: the front of the new chunk or, without one, a second search.
     */
    method RunAllocFinish(size: nat, bin: Option<nat>, mapped: Option<nat>) returns (o: Option<(nat, nat)>)
      requires Valid() && 0 < size <= cfg.npages - cfg.mapBias && BinFits(size, bin)
      requires mapped.Some? ==> mapped.value !in chunks
      modifies this
      ensures Valid()
      ensures o.None? <==> mapped.None? && forall e :: e in old(runsAvail) ==> e.npages < size
      ensures o.None? ==> S() == old(S())
      ensures o.Some? ==> var blk := BlockFor(o.value.0, o.value.1, size, bin);
        (forall x :: Live(x) <==> old(Live(x)) || x == blk) && !old(Live(blk))
      ensures mapped.Some? ==> o == Some((mapped.value, cfg.mapBias)) && spare == old(spare)
      ensures mapped.None? ==> forall e :: BestFit(old(runsAvail), size, e) ==> o == Some((e.chunk, e.page))
    {
      hide StateInv, BlockSet;
      if mapped.Some? {
        var c := ChunkAlloc(mapped);
        AllocFrom(c, cfg.mapBias, size, bin, Extent(cfg.npages - cfg.mapBias, c, cfg.mapBias));
        return Some((c, cfg.mapBias));
      }
      var e := RunAllocHelper(size, bin);
      if e.Some? {
        BestUnique(old(runsAvail), size, e.value);
        return Some((e.value.chunk, e.value.page));
      }
      return None;
    }

    /** The arena can serve the request without a new chunk, and so without dropping the lock. */
    ghost predicate Ready(size: nat)
      reads this
    {
      spare.Some? || exists e :: e in runsAvail && e.npages >= size
    }

    /** The lock was dropped: the other threads have made the arena what it is now. */
    method Meanwhile(others: State)
      requires ValidIn(others)
      modifies this
      ensures Valid() && S() == others
    {
      hide StateInv;
      chunks, tiles, spare, runsAvail := others.chunks, others.tiles, others.spare, others.runsAvail;
      chunksDirty, nactive, ndirty := others.chunksDirty, others.nactive, others.ndirty;
    }

    /** `arena_run_alloc` as a whole. */
    method RunAlloc(size: nat, bin: Option<nat>, mapped: Option<nat>, others: State) returns (o: Option<(nat, nat)>)
      requires Valid() && 0 < size <= cfg.npages - cfg.mapBias && BinFits(size, bin)
      requires ValidIn(others) && (mapped.Some? ==> mapped.value !in others.chunks)
      modifies this
      ensures Valid()
      ensures o.None? <==> !old(Ready(size)) && mapped.None? && forall e :: e in others.runsAvail ==> e.npages < size
      ensures o.None? ==> S() == others
      ensures o.Some? ==> var s, blk := if old(Ready(size)) then old(S()) else others, BlockFor(o.value.0, o.value.1, size, bin);
        (forall x :: Live(x) <==> LiveIn(s, x) || x == blk) && !LiveIn(s, blk)
      ensures forall e :: BestFit(old(runsAvail), size, e) ==> o == Some((e.chunk, e.page))
      ensures !old(Ready(size)) && mapped.Some? ==> o == Some((mapped.value, cfg.mapBias))
      ensures !old(Ready(size)) && mapped.None? ==> forall e :: BestFit(others.runsAvail, size, e) ==> o == Some((e.chunk, e.page))
    {
      hide StateInv, BlockSet;
      o := RunAllocStart(size, bin);
      if o.None? {
        Meanwhile(others);
        o := RunAllocFinish(size, bin, mapped);
      }
    }

    static lemma BestUnique(avail: set<Extent>, size: nat, e: Extent)
      requires BestFit(avail, size, e)
      ensures forall d :: BestFit(avail, size, d) ==> d == e
    {
    }

    /* --- Trimming, aligned allocation and resizing ----------------------------------- */

    /** A live block without a bin is a large run, tagged as such. */
    lemma FindLarge(s: State, c: nat, page: nat, n: nat) returns (a: seq<Run>, r: Run, b: seq<Run>)
      requires StateInv(cfg, s) && c in s.tiles && Block(c, page, n, BININD_INVALID) in BlockSet(c, cfg.mapBias, s.tiles[c])
      ensures c in s.chunks && s.spare != Some(c) && s.tiles[c] == a + [r] + b && r == Large(n, r.dirty)
      ensures page == cfg.mapBias + Len(a) && n > 0 && page + n <= |s.chunks[c].map_|
      ensures RunAt(s.chunks[c].map_, page, r)
    {
      hide Len, Tiles, Active, FreeSet, Sum, Coalesced, Avail, Dirty, Adjac;
      a, r, b := FindBlock(c, cfg.mapBias, s.tiles[c], Block(c, page, n, BININD_INVALID));
      assert (a + [r] + b)[|a|] == r;
      if s.spare == Some(c) {
        SpareEmpty(s);
      }
      SeamTiles(s.chunks[c].map_, cfg.mapBias, a, r, b);
    }

    /** Write tags that turn a stretch of allocated runs into other allocated runs. */
    method Retag(c: nat, m: seq<MapBits>, ghost a: seq<Run>, ghost mid: seq<Run>, ghost mid': seq<Run>, ghost b: seq<Run>)
      requires Inv() && c in chunks && spare != Some(c) && c in tiles && tiles[c] == a + mid + b
      requires AllUsed(mid) && AllUsed(mid') && Len(mid) == Len(mid') && BinSized(mid', cfg.runPages)
      requires Within(chunks[c].map_, m, cfg.mapBias + Len(a), cfg.mapBias + Len(a) + Len(mid))
      requires Tiles(m, cfg.mapBias + Len(a), mid')
      modifies this
      ensures Inv() && chunks == old(chunks)[c := old(chunks)[c].(map_ := m)]
      ensures tiles == old(tiles)[c := a + mid' + b] && spare == old(spare) && runsAvail == old(runsAvail)
    {
      hide StateInv, Len, Tiles, Frame, Whole, AllUsed, BinSized, Within;
      ghost var s0 := S();
      UsedWhole(s0, c);
      UsedExchange(cfg, s0, c, a, mid, mid', b, m);
      chunks := chunks[c := chunks[c].(map_ := m)];
      tiles := tiles[c := a + mid' + b];
      WholeTiles(S(), c, a + mid' + b);
      StateReplace(cfg, s0, S(), c);
    }

    /** Two allocated runs side by side. */
    lemma Pair(m: seq<MapBits>, c: nat, lo: nat, x: Run, y: Run)
      requires !x.Free? && !y.Free?
      ensures Len([x, y]) == x.npages + y.npages && AllUsed([x, y]) && AllUsed([x]) && Len([x]) == x.npages
      ensures Tiles(m, lo, [x, y]) <==> RunAt(m, lo, x) && RunAt(m, lo + x.npages, y)
      ensures Tiles(m, lo, [x]) <==> RunAt(m, lo, x)
      ensures BlockSet(c, lo, [x, y]) == {BlockOf(c, lo, x), BlockOf(c, lo + x.npages, y)}
    {
      assert [x, y][1..] == [y] && [y][1..] == [] && [x][1..] == [];
      assert Len([y]) == y.npages;
      assert Tiles(m, lo + x.npages, [y]) <==> RunAt(m, lo + x.npages, y);
      assert BlockSet(c, lo + x.npages, [y]) == {BlockOf(c, lo + x.npages, y)};
    }

    /** The tags after cutting a large run of `n` pages after its first `head` pages. */
    function CutTags(m: seq<MapBits>, page: nat, n: nat, head: nat, dirty: bool): (m': seq<MapBits>)
      requires 0 < head < n && page + n <= |m|
      ensures Within(m, m', page, page + n)
      ensures RunAt(m, page, Large(n, dirty)) ==>
        RunAt(m', page, Large(head, dirty)) && RunAt(m', page + head, Large(n - head, dirty))
    {
      m[page + head - 1 := LargeBits(0, dirty)][page := LargeBits(head, dirty)][page + head := LargeBits(n - head, dirty)]
    }

    /** Re-tag one large run as two, so that either part can be freed on its own. */
    method Cut(c: nat, page: nat, n: nat, head: nat) returns (ghost a: seq<Run>, ghost x: Run, ghost y: Run, ghost b: seq<Run>)
      requires Valid() && Live(Block(c, page, n, BININD_INVALID)) && 0 < head < n
      modifies this
      ensures Valid() && c in chunks && spare != Some(c) && c in tiles
      ensures tiles[c] == a + [x] + ([y] + b) == (a + [x]) + [y] + b
      ensures x == Large(head, x.dirty) && y == Large(n - head, y.dirty)
      ensures page == cfg.mapBias + Len(a) && Len(a + [x]) == Len(a) + head
      ensures forall z :: Live(z) <==>
        (old(Live(z)) && z != Block(c, page, n, BININD_INVALID))
        || z == Block(c, page, head, BININD_INVALID) || z == Block(c, page + head, n - head, BININD_INVALID)
      ensures !old(Live(Block(c, page + head, n - head, BININD_INVALID)))
    {
      hide StateInv, Len, Tiles, BlockSet, RunAt, Within, AllUsed, BinSized;
      ghost var s0, r := S(), Free(0, false);
      a, r, b := FindLarge(s0, c, page, n);
      LargeTag(chunks[c].map_, page, r);
      var m := chunks[c].map_;
      var dirty := m[page].dirty;
      var m' := CutTags(m, page, n, head, dirty);
      x, y := Large(head, dirty), Large(n - head, dirty);
      Pair(m', c, page, x, y);
      Pair(m, c, page, r, r);
      LargeSized([x, y]);
      CutBlocks(s0, c, a, r, x, y, b);
      Retag(c, m', a, [r], [x, y], b);
      assert a + [x, y] + b == a + [x] + ([y] + b) == (a + [x]) + [y] + b;
      assert (a + [x, y] + b)[|a|] == x;
    }

    lemma LargeTag(m: seq<MapBits>, page: nat, r: Run)
      requires RunAt(m, page, r)
      ensures m[page].dirty == r.dirty
    {
    }

    lemma LargeSized(runs: seq<Run>)
      requires forall r :: r in runs ==> r.Large?
      ensures BinSized(runs, cfg.runPages)
    {
    }

    lemma CutBlocks(s: State, c: nat, a: seq<Run>, r: Run, x: Run, y: Run, b: seq<Run>)
      requires StateInv(cfg, s) && c in s.chunks && c in s.tiles && s.tiles[c] == a + [r] + b
      requires r.Large? && x.Large? && y.Large? && x.npages + y.npages == r.npages && x.npages > 0 && y.npages > 0
      ensures var page := cfg.mapBias + Len(a); var runs := a + [x, y] + b;
        && BlockSet(c, cfg.mapBias, runs)
           == BlockSet(c, cfg.mapBias, s.tiles[c]) - {BlockOf(c, page, r)}
              + {BlockOf(c, page, x), BlockOf(c, page + x.npages, y)}
        && BlockOf(c, page + x.npages, y) !in BlockSet(c, cfg.mapBias, s.tiles[c])
        && Len(a + [x]) == Len(a) + x.npages
    {
      hide Tiles, Active, FreeSet, Sum, Coalesced, Avail, Dirty, Adjac, BinSized, BlockSet, RunAt, Len, AllUsed;
      var m, page := s.chunks[c].map_, cfg.mapBias + Len(a);
      SeamTiles(m, cfg.mapBias, a, r, b);
      SeamUsed(cfg, c, a, r, b);
      SetsRange(m, c, cfg.mapBias, a);
      SetsRange(m, c, page + r.npages, b);
      Counts3(c, cfg.mapBias, a, [x, y], b);
      Pair(m, c, page, x, y);
      LenConcat(a, [x]);
    }

    /** `arena_run_trim_head`: the leading pages become a free run, clean unless they were dirty. */
    method TrimHead(c: nat, page: nat, oldN: nat, newN: nat)
      requires Valid() && Live(Block(c, page, oldN, BININD_INVALID)) && 0 < newN < oldN
      modifies this
      ensures Valid()
      ensures var tail := Block(c, page + oldN - newN, newN, BININD_INVALID);
        (forall z :: Live(z) <==> (old(Live(z)) && z != Block(c, page, oldN, BININD_INVALID)) || z == tail) && !old(Live(tail))
    {
      hide StateInv, Len, BlockSet;
      ghost var a, x, y, b := Cut(c, page, oldN, oldN - newN);
      HeadOnce(old(S()), c, page, oldN, oldN - newN);
      RunDalloc(c, page, false, false, a, x, [y] + b);
    }

    /** `arena_run_trim_tail`: the trailing pages become a free run. */
    method TrimTail(c: nat, page: nat, oldN: nat, newN: nat, dirty: bool)
      requires Valid() && Live(Block(c, page, oldN, BININD_INVALID)) && 0 < newN < oldN
      modifies this
      ensures Valid()
      ensures var head := Block(c, page, newN, BININD_INVALID);
        (forall z :: Live(z) <==> (old(Live(z)) && z != Block(c, page, oldN, BININD_INVALID)) || z == head) && !old(Live(head))
    {
      hide StateInv, Len, BlockSet;
      ghost var a, x, y, b := Cut(c, page, oldN, newN);
      HeadOnce(old(S()), c, page, oldN, newN);
      RunDalloc(c, page + newN, dirty, false, a + [x], y, b);
    }

    /** Two different blocks never start at the same page. */
    lemma HeadOnce(s: State, c: nat, page: nat, n: nat, n': nat)
      requires StateInv(cfg, s) && c in s.tiles && Block(c, page, n, BININD_INVALID) in BlockSet(c, cfg.mapBias, s.tiles[c])
      requires n' != n
      ensures Block(c, page, n', BININD_INVALID) !in BlockSet(c, cfg.mapBias, s.tiles[c])
    {
      hide Tiles, Active, FreeSet, Sum, Coalesced, Avail, Dirty, Adjac, BinSized, BlockSet, RunAt, Len, AllUsed;
      var a, r, b := FindLarge(s, c, page, n);
      var m := s.chunks[c].map_;
      SeamTiles(m, cfg.mapBias, a, r, b);
      SeamUsed(cfg, c, a, r, b);
      SetsRange(m, c, cfg.mapBias, a);
      SetsRange(m, c, page + r.npages, b);
    }

    /** `ALIGNMENT_CEILING`. */
    static function AlignUp(addr: nat, align: nat): (r: nat)
      requires align > 0
      ensures r % align == 0 && addr <= r < addr + align
    {
      var q := (addr + align - 1) / align;
      MulMod(q, align);
      q * align
    }

    static lemma MulMono(a: int, b: int, c: nat)
      ensures a <= b ==> a * c <= b * c
      ensures (a + 1) * c == a * c + c
    {
    }

    static lemma MulMod(q: nat, align: nat)
      requires align > 0
      ensures q * align % align == 0
    {
      var d := q * align / align;
      MulMono(d, d, align);
      MulMono(q, q, align);
      MulMono(d + 1, q, align);
      MulMono(q + 1, d, align);
    }

    /**
     `arena_palloc`: allocate with enough slack, then give the unaligned head and the
     unneeded tail back.  `align` is in pages and addresses are page numbers.
     */
    method Palloc(size: nat, align: nat, mapped: Option<nat>, others: State) returns (o: Option<(nat, nat)>)
      requires Valid() && 0 < size && 0 < align && size + align - 1 <= cfg.npages - cfg.mapBias
      requires ValidIn(others) && (mapped.Some? ==> mapped.value !in others.chunks)
      modifies this
      ensures Valid()
      ensures var total := size + align - 1;
        o.None? <==> !old(Ready(total)) && mapped.None? && forall e :: e in others.runsAvail ==> e.npages < total
      ensures o.None? ==> S() == others
      ensures o.Some? ==> (o.value.0 * cfg.npages + o.value.1) % align == 0
      ensures o.Some? ==>
        var s, blk := if old(Ready(size + align - 1)) then old(S()) else others, Block(o.value.0, o.value.1, size, BININD_INVALID);
        (forall x :: Live(x) <==> LiveIn(s, x) || x == blk) && !LiveIn(s, blk)
    {
      hide StateInv, BlockSet;
      var total := size + align - 1;
      var run := RunAlloc(total, None, mapped, others);
      if run.None? { return None; }
      var c, page := run.value.0, run.value.1;
      var addr := c * cfg.npages + page;
      var lead := AlignUp(addr, align) - addr;
      var trail := total - lead - size;
      if lead != 0 {
        TrimHead(c, page, total, total - lead);
      }
      if trail != 0 {
        TrimTail(c, page + lead, size + trail, size, false);
      }
      return Some((c, page + lead));
    }

    /** `arena_ralloc_large_shrink`. */
    method RallocShrink(c: nat, page: nat, oldN: nat, size: nat)
      requires Valid() && Live(Block(c, page, oldN, BININD_INVALID)) && 0 < size < oldN
      modifies this
      ensures Valid()
      ensures var blk := Block(c, page, size, BININD_INVALID);
        forall z :: Live(z) <==> (old(Live(z)) && z != Block(c, page, oldN, BININD_INVALID)) || z == blk
    {
      hide StateInv, BlockSet;
      TrimTail(c, page, oldN, size, true);
    }

    /** The free run right behind a large run, as the page map shows it. */
    ghost predicate Follows(c: nat, page: nat, n: nat, follow: nat)
      reads this
    {
      Extent(follow, c, page + n) in runsAvail
    }

    /** The page behind a run is the first page of the next run. */
    lemma NextRun(s: State, c: nat, page: nat, n: nat, a: seq<Run>, r: Run, b: seq<Run>)
      requires StateInv(cfg, s) && c in s.chunks && s.spare != Some(c) && c in s.tiles && s.tiles[c] == a + [r] + b
      requires page == cfg.mapBias + Len(a) && n == r.npages && !r.Free?
      ensures |s.chunks[c].map_| == cfg.npages && page + n <= cfg.npages && (page + n < cfg.npages <==> b != [])
      ensures b != [] ==> var t := s.chunks[c].map_[page + n];
        t.inUse == !b[0].Free? && (b[0].Free? ==> t.size == b[0].npages && b[0].npages > 0)
      ensures forall e: Extent :: e.chunk == c && e.page == page + n ==>
        (e in s.runsAvail <==> b != [] && b[0].Free? && b[0].npages == e.npages)
      ensures Len(a + [r]) == Len(a) + r.npages
    {
      hide Active, Sum, Coalesced, Avail, Dirty, Adjac, BinSized, Tiles, Len, RunAt, FreeSet;
      var m := s.chunks[c].map_;
      SeamTiles(m, cfg.mapBias, a, r, b);
      SeamUsed(cfg, c, a, r, b);
      FirstTag(m, page + n, b);
      SetsRange(m, c, cfg.mapBias, a);
      FirstFree(m, c, page + n, b);
      LenConcat(a, [r]);
      OneLen(r);
    }

    lemma OneLen(r: Run)
      ensures Len([r]) == r.npages
    {
      assert [r][1..] == [];
    }

    lemma FirstFree(m: seq<MapBits>, c: nat, lo: nat, b: seq<Run>)
      requires Tiles(m, lo, b)
      ensures forall k: nat :: Extent(k, c, lo) in FreeSet(c, lo, b) <==> b != [] && b[0].Free? && b[0].npages == k
    {
      if b != [] {
        SetsRange(m, c, lo + b[0].npages, b[1..]);
      }
    }

    /** Split the following free run and merge its front with the large run. */
    method Extend(c: nat, page: nat, oldN: nat, split: nat, ghost a: seq<Run>, ghost r: Run, ghost b: seq<Run>)
      requires Valid() && c in chunks && spare != Some(c) && c in tiles && tiles[c] == a + [r] + b
      requires r == Large(oldN, r.dirty) && page == cfg.mapBias + Len(a)
      requires b != [] && b[0].Free? && 0 < split <= b[0].npages
      modifies this
      ensures Valid()
      ensures forall z :: Live(z) <==>
        (old(Live(z)) && z != Block(c, page, oldN, BININD_INVALID)) || z == Block(c, page, oldN + split, BININD_INVALID)
    {
      hide StateInv, BlockSet, Len, RunAt, Frame, BinSized, AllUsed, Within, Tiles;
      ghost var s0, f, b1 := S(), b[0], b[1..];
      NextRun(s0, c, page, oldN, a, r, b);
      assert a + [r] + b == (a + [r]) + [f] + b1;
      ghost var y, rest := Large(split, f.dirty), Rest(f, split) + b1;
      CarvedBlocks(s0, c, a + [r], f, b1, y);
      RunSplit(c, page + oldN, split, None, a + [r], f, b1);
      FrameRest(s0, S(), c);
      assert tiles[c] == a + [r, y] + rest;
      TwoLarge(S(), c, a, r, y, rest);
      var m, n := chunks[c].map_, oldN + split;
      var dirty := m[page].dirty || m[page + n - 1].dirty;
      var m' := JoinTags(m, page, n, dirty);
      ghost var x := Large(n, dirty);
      Pair(m', c, page, x, x);
      Pair(m, c, page, r, y);
      LargeSized([x]);
      JoinBlocks(S(), c, a, r, y, rest, x);
      RunIsLive(s0, c, a, r, b);
      Retag(c, m', a, [r, y], [x], rest);
      assert (a + [x] + rest)[|a|] == x;
    }

    lemma RunIsLive(s: State, c: nat, a: seq<Run>, r: Run, b: seq<Run>)
      requires !r.Free? && c in s.tiles && s.tiles[c] == a + [r] + b
      ensures BlockOf(c, cfg.mapBias + Len(a), r) in BlockSet(c, cfg.mapBias, s.tiles[c])
    {
      SeamUsed(cfg, c, a, r, b);
    }

    function JoinTags(m: seq<MapBits>, page: nat, n: nat, dirty: bool): (m': seq<MapBits>)
      requires 1 < n && page + n <= |m|
      ensures Within(m, m', page, page + n) && RunAt(m', page, Large(n, dirty))
    {
      m[page := LargeBits(n, dirty)][page + n - 1 := LargeBits(0, dirty)]
    }

    lemma TwoLarge(s: State, c: nat, a: seq<Run>, x: Run, y: Run, b: seq<Run>)
      requires StateInv(cfg, s) && c in s.chunks && c in s.tiles && s.tiles[c] == a + [x, y] + b && x.Large? && y.Large?
      ensures var page, m := cfg.mapBias + Len(a), s.chunks[c].map_;
        0 < x.npages && 0 < y.npages && page + x.npages + y.npages <= |m|
    {
      hide Tiles, Active, FreeSet, Sum, Coalesced, Avail, Dirty, Adjac, BinSized, BlockSet, Len, AllUsed;
      var m := s.chunks[c].map_;
      Tiles3(m, cfg.mapBias, a, [x, y], b);
      Pair(m, c, cfg.mapBias + Len(a), x, y);
    }

    lemma JoinBlocks(s: State, c: nat, a: seq<Run>, x: Run, y: Run, b: seq<Run>, r: Run)
      requires StateInv(cfg, s) && c in s.chunks && c in s.tiles && s.tiles[c] == a + [x, y] + b
      requires r.Large? && x.Large? && y.Large? && x.npages + y.npages == r.npages
      ensures var page := cfg.mapBias + Len(a); var runs := a + [r] + b;
        BlockSet(c, cfg.mapBias, runs)
        == BlockSet(c, cfg.mapBias, s.tiles[c]) - {BlockOf(c, page, x), BlockOf(c, page + x.npages, y)} + {BlockOf(c, page, r)}
    {
      hide Tiles, Active, FreeSet, Sum, Coalesced, Avail, Dirty, Adjac, BinSized, BlockSet, RunAt, Len, AllUsed;
      var m, page := s.chunks[c].map_, cfg.mapBias + Len(a);
      TwoLarge(s, c, a, x, y, b);
      Tiles3(m, cfg.mapBias, a, [x, y], b);
      Pair(m, c, page, x, y);
      SeamUsed(cfg, c, a, r, b);
      SetsRange(m, c, cfg.mapBias, a);
      SetsRange(m, c, page + r.npages, b);
      Counts3(c, cfg.mapBias, a, [x, y], b);
    }

    /**
     `arena_ralloc_large_grow`: extend a large run into the free run behind it, by at least
     `size - oldN` and at most `size + extra - oldN` pages.  The comparison with `size - oldN`
     is unsigned in the source, so a `size` below `oldN` always fails.
     */
    method RallocGrow(c: nat, page: nat, oldN: nat, size: nat, extra: nat) returns (failed: bool, newN: nat)
      requires Valid() && Live(Block(c, page, oldN, BININD_INVALID)) && size + extra > oldN
      modifies this
      ensures Valid()
      ensures failed <==> !(size >= oldN && exists k: nat :: old(Follows(c, page, oldN, k)) && k >= size - oldN)
      ensures failed ==> S() == old(S()) && newN == oldN
      ensures !failed ==> size <= newN <= size + extra && oldN < newN
      ensures !failed ==> forall k: nat :: old(Follows(c, page, oldN, k)) ==> newN == oldN + k || newN == size + extra < oldN + k
      ensures forall z :: Live(z) <==>
        (old(Live(z)) && z != Block(c, page, oldN, BININD_INVALID)) || z == Block(c, page, newN, BININD_INVALID)
    {
      hide StateInv, BlockSet, Len, RunAt;
      ghost var s0 := S();
      ghost var a, r, b := FindLarge(s0, c, page, oldN);
      NextRun(s0, c, page, oldN, a, r, b);
      var m := chunks[c].map_;
      newN := oldN;
      if page + oldN < cfg.npages && !m[page + oldN].inUse && size >= oldN && m[page + oldN].size >= size - oldN {
        var follow := m[page + oldN].size;
        assert Follows(c, page, oldN, follow);
        var split := if oldN + follow <= size + extra then follow else size + extra - oldN;
        newN := oldN + split;
        Extend(c, page, oldN, split, a, r, b);
        return false, newN;
      }
      return true, newN;
    }

    /** A live block of a bin is a small run. */
    lemma FindSmall(s: State, c: nat, page: nat, bin: nat) returns (a: seq<Run>, r: Run, b: seq<Run>)
      requires StateInv(cfg, s) && bin < |cfg.runPages| && c in s.tiles
      requires Block(c, page, cfg.runPages[bin], bin) in BlockSet(c, cfg.mapBias, s.tiles[c])
      ensures c in s.chunks && s.spare != Some(c) && s.tiles[c] == a + [r] + b && r == Small(cfg.runPages[bin], bin, r.dirty)
      ensures page == cfg.mapBias + Len(a) && r.npages > 0 && page + r.npages <= |s.chunks[c].map_|
      ensures RunAt(s.chunks[c].map_, page, r)
    {
      hide Len, Tiles, Active, FreeSet, Sum, Coalesced, Avail, Dirty, Adjac;
      a, r, b := FindBlock(c, cfg.mapBias, s.tiles[c], Block(c, page, cfg.runPages[bin], bin));
      if s.spare == Some(c) {
        SpareEmpty(s);
      }
      SeamTiles(s.chunks[c].map_, cfg.mapBias, a, r, b);
    }

    /**
     `arena_dalloc_bin_run`: free the run of a bin whose first `past` pages were ever touched.
     If the run was clean, the untouched pages are first trimmed off and stay clean.
     */
    method DallocBinRun(c: nat, page: nat, bin: nat, past: nat)
      requires Valid() && bin < |cfg.runPages| && Live(Block(c, page, cfg.runPages[bin], bin)) && 0 < past
      modifies this
      ensures Valid()
      ensures forall z :: Live(z) <==> old(Live(z)) && z != Block(c, page, cfg.runPages[bin], bin)
    {
      hide StateInv, BlockSet, Len, RunAt, AllUsed, BinSized, Within, Tiles;
      var n := cfg.runPages[bin];
      ghost var a, r, b := FindSmall(S(), c, page, bin);
      LargeTag(chunks[c].map_, page, r);
      var m := chunks[c].map_;
      if !m[page].dirty && past < n {
        var m' := JoinTags(m, page, n, false);
        ghost var x := Large(n, false);
        Pair(m', c, page, x, x);
        Pair(m, c, page, r, r);
        LargeSized([x]);
        SwapBlock(S(), c, a, r, b, x);
        Retag(c, m', a, [r], [x], b);
        assert (a + [x] + b)[|a|] == x;
        TrimTail(c, page, n, past, false);
        a, r, b := FindLarge(S(), c, page, past);
      }
      RunDalloc(c, page, true, false, a, r, b);
    }

    lemma SwapBlock(s: State, c: nat, a: seq<Run>, r: Run, b: seq<Run>, x: Run)
      requires StateInv(cfg, s) && c in s.chunks && c in s.tiles && s.tiles[c] == a + [r] + b
      requires !r.Free? && !x.Free? && r.npages == x.npages
      ensures var page := cfg.mapBias + Len(a);
        BlockSet(c, cfg.mapBias, a + [x] + b)
        == BlockSet(c, cfg.mapBias, s.tiles[c]) - {BlockOf(c, page, r)} + {BlockOf(c, page, x)}
      ensures forall z :: z in BlockSet(c, cfg.mapBias, s.tiles[c]) && z.page == cfg.mapBias + Len(a)
                ==> z == BlockOf(c, cfg.mapBias + Len(a), r)
    {
      hide Tiles, Active, FreeSet, Sum, Coalesced, Avail, Dirty, Adjac, BinSized, BlockSet, RunAt, Len, AllUsed;
      var m, page := s.chunks[c].map_, cfg.mapBias + Len(a);
      SeamTiles(m, cfg.mapBias, a, r, b);
      RunPages(m, page, r);
      SeamUsed(cfg, c, a, r, b);
      SeamUsed(cfg, c, a, x, b);
      SetsRange(m, c, cfg.mapBias, a);
      SetsRange(m, c, page + r.npages, b);
    }
  }

  /**
   The incremental counters are what a full scan would compute: whatever way a chunk's page
   map can be read as consecutive runs, the counters are the counts of that reading.
   */
  lemma CountersMatchScan(k: Config, s: State, c: nat, runs: seq<Run>)
    requires StateInv(k, s) && c in s.chunks
    requires Tiles(s.chunks[c].map_, k.mapBias, runs) && k.mapBias + Len(runs) == k.npages && BinSized(runs, k.runPages)
    ensures s.spare != Some(c) ==>
      && s.chunks[c].ndirty == Dirty(runs)
      && s.chunks[c].nrunsAvail == Avail(runs)
      && s.chunks[c].nrunsAdjac == Adjac(runs)
      && (s.chunks[c].nrunsAvail > s.chunks[c].nrunsAdjac || s.chunks[c].nrunsAvail == s.chunks[c].nrunsAdjac == 0)
      && (forall e: Extent :: e.chunk == c ==> (e in s.runsAvail <==> e in FreeSet(c, k.mapBias, runs)))
    ensures Coalesced(runs)
  {
    hide Active, Sum, Avail, Dirty, Adjac, BinSized, FreeSet, RunAt;
    TilesUnique(s.chunks[c].map_, k.mapBias, runs, s.tiles[c], k.runPages);
    AdjacBelowAvail(runs);
  }
}
