/**
 The state of an arena, its invariant, and the steps its operations are made of.

 Sizes are counted in pages.  A run's address is its chunk (in units of the chunk size)
 and its page within the chunk; pages below `mapBias` hold the chunk header and have no
 meaningful page-map entry.

 Every operation opens a hole in one chunk (a free run that is in no index and no
 count), works on it, and closes it again.
 */
module ArenaState {
  import opened Basics
  import opened Runs

  datatype Chunk = Chunk(map_: seq<MapBits>, ndirty: int, nrunsAvail: int, nrunsAdjac: int)

  /** A node of `chunks_dirty`, with the fields it was ordered by when it was inserted. */
  datatype DirtyKey = DirtyKey(chunk: nat, nrunsAvail: int, nrunsAdjac: int)

  /** `map_bias`, `chunk_npages` and the run size of every bin. */
  datatype Config = Config(mapBias: nat, npages: nat, runPages: seq<nat>)
  {
    ghost predicate Valid()
    {
      0 < mapBias < npages && |runPages| <= BININD_INVALID && forall n :: n in runPages ==> 0 < n
    }
  }

  /** All the fields of an arena at one moment; `tiles` is the reading of the page maps. */
  datatype State = State(
    chunks: map<nat, Chunk>,
    tiles: map<nat, seq<Run>>,
    spare: Option<nat>,
    runsAvail: set<Extent>,
    chunksDirty: set<DirtyKey>,
    nactive: int,
    ndirty: int)

  /* --- The invariant ------------------------------------------------------ */

  /** Page map tiled exactly, coalesced, and counters equal to a scan (zero for the spare). */
  ghost predicate ChunkInv(k: Config, ch: Chunk, runs: seq<Run>, spare: bool)
  {
    && |ch.map_| == k.npages == k.mapBias + Len(runs)
    && Tiles(ch.map_, k.mapBias, runs)
    && Coalesced(runs)
    && BinSized(runs, k.runPages)
    && if spare then
         && |runs| == 1 && runs[0].Free?
         && ch.ndirty == ch.nrunsAvail == ch.nrunsAdjac == 0
       else
         && ch.ndirty == Dirty(runs)
         && ch.nrunsAvail == Avail(runs)
         && ch.nrunsAdjac == Adjac(runs)
  }

  ghost function Sum(m: map<nat, int>): int
  {
    if m == map[] then 0 else var c :| c in m; m[c] + Sum(m - {c})
  }

  ghost function Actives(tiles: map<nat, seq<Run>>): map<nat, int>
  {
    map c | c in tiles :: Active(tiles[c])
  }

  ghost function Dirties(chunks: map<nat, Chunk>): map<nat, int>
  {
    map c | c in chunks :: chunks[c].ndirty
  }

  function DirtyKeys(c: nat, ch: Chunk): set<DirtyKey>
  {
    if ch.ndirty != 0 then {DirtyKey(c, ch.nrunsAvail, ch.nrunsAdjac)} else {}
  }

  ghost predicate ChunksInv(k: Config, s: State)
    requires s.tiles.Keys == s.chunks.Keys
  {
    forall c :: c in s.chunks ==> ChunkInv(k, s.chunks[c], s.tiles[c], s.spare == Some(c))
  }

  /** `runs_avail` holds exactly the free runs of the chunks in use. */
  ghost predicate AvailInv(k: Config, s: State)
    requires s.tiles.Keys == s.chunks.Keys
  {
    forall e :: e in s.runsAvail <==>
      e.chunk in s.chunks && s.spare != Some(e.chunk) && e in FreeSet(e.chunk, k.mapBias, s.tiles[e.chunk])
  }

  /** `chunks_dirty` holds exactly the chunks with dirty pages, under their current keys. */
  ghost predicate DirtyInv(s: State)
  {
    forall d :: d in s.chunksDirty <==> d.chunk in s.chunks && d in DirtyKeys(d.chunk, s.chunks[d.chunk])
  }

  ghost predicate StateInv(k: Config, s: State)
  {
    && k.Valid()
    && s.tiles.Keys == s.chunks.Keys
    && (s.spare.Some? ==> s.spare.value in s.chunks)
    && ChunksInv(k, s)
    && AvailInv(k, s)
    && DirtyInv(s)
    && s.nactive == Sum(Actives(s.tiles))
    && s.ndirty == Sum(Dirties(s.chunks))
  }

  /* --- Sums over chunks ---------------------------------------------------- */

  lemma {:induction false} SumRemove(m: map<nat, int>, c: nat)
    requires c in m
    ensures Sum(m) == m[c] + Sum(m - {c})
    decreases |m|
  {
    var d :| d in m && Sum(m) == m[d] + Sum(m - {d});
    if d != c {
      SumRemove(m - {d}, c);
      SumRemove(m - {c}, d);
      assert m - {d} - {c} == m - {c} - {d};
    }
  }

  lemma SumUpdate(m: map<nat, int>, c: nat, v: int)
    ensures Sum(m[c := v]) == Sum(m) + v - if c in m then m[c] else 0
  {
    SumRemove(m[c := v], c);
    assert m[c := v] - {c} == m - {c};
    if c in m {
      SumRemove(m, c);
    } else {
      assert m - {c} == m;
    }
  }

  /* --- Changing one chunk --------------------------------------------------- */

  /** `s1` differs from `s0` in chunk `c` only, and the arena-wide totals moved with it. */
  ghost predicate Frame(s0: State, s1: State, c: nat)
  {
    && c in s0.chunks && c in s1.chunks && c in s0.tiles && c in s1.tiles
    && s0.tiles.Keys == s0.chunks.Keys
    && s1.chunks == s0.chunks[c := s1.chunks[c]]
    && s1.tiles == s0.tiles[c := s1.tiles[c]]
    && s1.spare == s0.spare && s0.spare != Some(c)
    && (forall e: Extent :: e.chunk != c ==> (e in s1.runsAvail <==> e in s0.runsAvail))
    && (forall d: DirtyKey :: d.chunk != c ==> (d in s1.chunksDirty <==> d in s0.chunksDirty))
    && s1.nactive - Active(s1.tiles[c]) == s0.nactive - Active(s0.tiles[c])
    && s1.ndirty - s1.chunks[c].ndirty == s0.ndirty - s0.chunks[c].ndirty
  }

  /** The entries of the two index trees that belong to chunk `c`. */
  ghost predicate Indexed(s: State, c: nat, free: set<Extent>)
    requires c in s.chunks
  {
    && (forall e: Extent :: e.chunk == c ==> (e in s.runsAvail <==> e in free))
    && (forall d: DirtyKey :: d.chunk == c ==> (d in s.chunksDirty <==> d in DirtyKeys(c, s.chunks[c])))
  }

  /** Chunk `c` is in use, consists of `runs`, and everything is counted. */
  ghost predicate Whole(k: Config, s: State, c: nat, runs: seq<Run>)
  {
    && c in s.chunks && c in s.tiles && s.tiles[c] == runs
    && ChunkInv(k, s.chunks[c], runs, false)
    && Indexed(s, c, FreeSet(c, k.mapBias, runs))
  }

  /** A chunk made of `a`, the free run `f` and `b`, whose counters leave `f` out. */
  ghost predicate HoleInv(k: Config, ch: Chunk, a: seq<Run>, f: Run, b: seq<Run>)
  {
    && f.Free?
    && var hi := k.mapBias + Len(a) + f.npages;
    && |ch.map_| == k.npages == hi + Len(b)
    && Tiles(ch.map_, k.mapBias, a) && RunAt(ch.map_, k.mapBias + Len(a), f) && Tiles(ch.map_, hi, b)
    && Coalesced(a) && Coalesced(b) && BinSized(a, k.runPages) && BinSized(b, k.runPages)
    && ch.ndirty == Dirty(a) + Dirty(b)
    && ch.nrunsAvail == Avail(a) + Avail(b)
    && ch.nrunsAdjac == Adjac(a) + Adjac(b)
  }

  ghost function HoleSet(k: Config, c: nat, a: seq<Run>, f: Run, b: seq<Run>): set<Extent>
  {
    FreeSet(c, k.mapBias, a) + FreeSet(c, k.mapBias + Len(a) + f.npages, b)
  }

  /** Chunk `c` has a hole `f` that is in no index and no count. */
  ghost predicate Hole(k: Config, s: State, c: nat, a: seq<Run>, f: Run, b: seq<Run>)
  {
    && c in s.chunks && c in s.tiles && s.tiles[c] == a + [f] + b
    && HoleInv(k, s.chunks[c], a, f, b)
    && Indexed(s, c, HoleSet(k, c, a, f, b))
  }

  lemma FrameFacts(s0: State, s1: State, c: nat)
    requires Frame(s0, s1, c)
    ensures c in s1.chunks && c in s1.tiles && s1.tiles.Keys == s1.chunks.Keys && s1.spare == s0.spare && s1.spare != Some(c)
  {
    hide Active;
  }

  lemma WholeFacts(k: Config, s: State, c: nat, runs: seq<Run>)
    requires Whole(k, s, c, runs)
    ensures c in s.tiles && s.tiles[c] == runs && Whole(k, s, c, s.tiles[c])
  {
    hide ChunkInv, FreeSet, Indexed;
  }

  lemma FrameTrans(s0: State, s1: State, s2: State, c: nat)
    requires Frame(s0, s1, c) && Frame(s1, s2, c)
    ensures Frame(s0, s2, c)
  {
    hide Active;
  }

  lemma SumsReplace(s0: State, s1: State, c: nat)
    requires Frame(s0, s1, c)
    requires s0.nactive == Sum(Actives(s0.tiles)) && s0.ndirty == Sum(Dirties(s0.chunks))
    ensures s1.nactive == Sum(Actives(s1.tiles)) && s1.ndirty == Sum(Dirties(s1.chunks))
  {
    hide Active, Sum;
    assert Actives(s1.tiles) == Actives(s0.tiles)[c := Active(s1.tiles[c])];
    SumUpdate(Actives(s0.tiles), c, Active(s1.tiles[c]));
    assert Dirties(s1.chunks) == Dirties(s0.chunks)[c := s1.chunks[c].ndirty];
    SumUpdate(Dirties(s0.chunks), c, s1.chunks[c].ndirty);
  }

  /** A change confined to one chunk keeps the invariant if it leaves that chunk in order. */
  lemma StateReplace(k: Config, s0: State, s1: State, c: nat)
    requires StateInv(k, s0) && Frame(s0, s1, c)
    requires Whole(k, s1, c, s1.tiles[c])
    ensures StateInv(k, s1)
  {
    hide Tiles, Len, Active, Sum, FreeSet, Coalesced, BinSized, Avail, Dirty, Adjac;
    SumsReplace(s0, s1, c);
    assert ChunksInv(k, s1) by {
      hide ChunkInv;
      forall d | d in s1.chunks
        ensures ChunkInv(k, s1.chunks[d], s1.tiles[d], s1.spare == Some(d))
      {
        assert d != c ==> s1.chunks[d] == s0.chunks[d] && s1.tiles[d] == s0.tiles[d];
      }
    }
  }

  lemma WholeOf(k: Config, s: State, c: nat)
    requires StateInv(k, s) && c in s.chunks && s.spare != Some(c)
    ensures Whole(k, s, c, s.tiles[c]) && Frame(s, s, c)
  {
    hide Tiles, Len, Active, Sum, FreeSet, Coalesced, BinSized, Avail, Dirty, Adjac;
  }

  /* --- Exchanging a stretch of runs inside one chunk ------------------------- */

  lemma Tiles3(m: seq<MapBits>, lo: nat, a: seq<Run>, mid: seq<Run>, b: seq<Run>)
    ensures Tiles(m, lo, a + mid + b) <==>
            Tiles(m, lo, a) && Tiles(m, lo + Len(a), mid) && Tiles(m, lo + Len(a) + Len(mid), b)
  {
    LenConcat(a, mid);
    TilesConcat(m, lo, a + mid, b);
    TilesConcat(m, lo, a, mid);
  }

  /** The runs `mid` between `a` and `b` are exchanged for `mid'`, and so are their map entries. */
  lemma TilesExchange(m: seq<MapBits>, m': seq<MapBits>, lo: nat, a: seq<Run>, mid: seq<Run>, mid': seq<Run>, b: seq<Run>)
    requires Tiles(m, lo, a + mid + b) && |m'| == |m|
    requires Len(mid) == Len(mid')
    requires forall p :: 0 <= p < |m| && !(lo + Len(a) <= p < lo + Len(a) + Len(mid)) ==> m'[p] == m[p]
    requires Tiles(m', lo + Len(a), mid')
    ensures Tiles(m', lo, a + mid' + b)
  {
    hide Tiles, Len;
    var hi := lo + Len(a) + Len(mid);
    assert Tiles(m, lo, a) && Tiles(m, hi, b) by { Tiles3(m, lo, a, mid, b); }
    assert Tiles(m', lo, a) by { TilesFrame(m, m', lo, a); }
    assert Tiles(m', hi, b) by { TilesFrame(m, m', hi, b); }
    assert Tiles(m', lo, a + mid' + b) by { Tiles3(m', lo, a, mid', b); }
  }

  /** Everything a scan counts, for three consecutive stretches. */
  lemma Counts3(c: nat, lo: nat, a: seq<Run>, mid: seq<Run>, b: seq<Run>)
    requires mid != []
    ensures Avail(a + mid + b) == Avail(a) + Avail(mid) + Avail(b)
    ensures Dirty(a + mid + b) == Dirty(a) + Dirty(mid) + Dirty(b)
    ensures Active(a + mid + b) == Active(a) + Active(mid) + Active(b)
    ensures Adjac(a + mid + b) == Adjac(a) + Touch(a, mid) + Adjac(mid) + Touch(mid, b) + Adjac(b)
    ensures Len(a + mid + b) == Len(a) + Len(mid) + Len(b)
    ensures FreeSet(c, lo, a + mid + b)
         == FreeSet(c, lo, a) + FreeSet(c, lo + Len(a), mid) + FreeSet(c, lo + Len(a) + Len(mid), b)
    ensures BlockSet(c, lo, a + mid + b)
         == BlockSet(c, lo, a) + BlockSet(c, lo + Len(a), mid) + BlockSet(c, lo + Len(a) + Len(mid), b)
    ensures Coalesced(a + mid + b) <==>
            && Coalesced(a) && Coalesced(mid) && Coalesced(b)
            && (Touch(a, mid) == 1 ==> a[|a| - 1].dirty != mid[0].dirty)
            && (Touch(mid, b) == 1 ==> mid[|mid| - 1].dirty != b[0].dirty)
  {
    LenConcat(a, mid); LenConcat(a + mid, b);
    CountsConcat(a, mid); CountsConcat(a + mid, b);
    SetsConcat(c, lo, a, mid); SetsConcat(c, lo, a + mid, b);
    CoalescedConcat(a, mid); CoalescedConcat(a + mid, b);
    assert (a + mid)[|a + mid| - 1] == mid[|mid| - 1];
  }

  /** The boundary tag before page `lo + Len(a)` belongs to the last run of `a`. */
  lemma {:induction false} LastTag(m: seq<MapBits>, lo: nat, a: seq<Run>)
    requires Tiles(m, lo, a)
    ensures a == [] <==> Len(a) == 0
    ensures a != [] ==>
      && lo + Len(a) <= |m|
      && var t := m[lo + Len(a) - 1]; var r := a[|a| - 1];
         t.inUse == !r.Free? && t.dirty == r.dirty && (r.Free? ==> t.size == r.npages && r.npages <= Len(a))
    decreases |a|
  {
    if |a| > 1 {
      LastTag(m, lo + a[0].npages, a[1..]);
    }
  }

  lemma FirstTag(m: seq<MapBits>, lo: nat, b: seq<Run>)
    requires Tiles(m, lo, b)
    ensures b == [] <==> Len(b) == 0
    ensures b != [] ==>
      && lo + b[0].npages <= |m| && b[0].npages > 0
      && m[lo].inUse == !b[0].Free? && m[lo].dirty == b[0].dirty && (b[0].Free? ==> m[lo].size == b[0].npages)
  {
  }

  /* --- arena_avail_insert and arena_avail_remove ----------------------------- */

  function Bit(b: bool): int { if b then 1 else 0 }

  /** `arena_avail_adjac_pred` and `arena_avail_adjac_succ`. */
  predicate AdjacPred(m: seq<MapBits>, bias: nat, page: nat)
    requires page <= |m|
  {
    page > bias && !m[page - 1].inUse
  }

  predicate AdjacSucc(m: seq<MapBits>, page: nat, n: nat)
    requires page + n <= |m|
  {
    page + n < |m| && !m[page + n].inUse
  }

  /** The chunk's counters after a free run is added (`sign` 1) or removed (`sign` -1). */
  function Recount(ch: Chunk, bias: nat, page: nat, n: nat, pred: bool, succ: bool, sign: int): (r: Chunk)
    requires page + n <= |ch.map_| && n > 0
    ensures r.map_ == ch.map_
  {
    ch.(nrunsAdjac := ch.nrunsAdjac
          + sign * Bit(pred && AdjacPred(ch.map_, bias, page)) + sign * Bit(succ && AdjacSucc(ch.map_, page, n)),
        nrunsAvail := ch.nrunsAvail + sign,
        ndirty := ch.ndirty + sign * if ch.map_[page].dirty then n else 0)
  }

  /** Without the `pred` flag the counters do not depend on pages in front of the run. */
  lemma RecountAhead(ch: Chunk, m: seq<MapBits>, bias: nat, page: nat, n: nat, succ: bool)
    requires page + n <= |ch.map_| == |m| && n > 0
    requires forall p :: page <= p < |m| ==> m[p] == ch.map_[p]
    ensures Recount(ch, bias, page, n, false, succ, 1).(map_ := m)
         == Recount(ch.(map_ := m), bias, page, n, false, succ, 1)
  {
  }

  /** Exchange chunk `c`, re-keying it in `chunks_dirty` and adjusting the arena's dirty count. */
  function Rekey(s: State, c: nat, ch: Chunk): State
    requires c in s.chunks
  {
    s.(chunks := s.chunks[c := ch],
       chunksDirty := s.chunksDirty - DirtyKeys(c, s.chunks[c]) + DirtyKeys(c, ch),
       ndirty := s.ndirty - s.chunks[c].ndirty + ch.ndirty)
  }

  function Removed(k: Config, s: State, c: nat, page: nat, n: nat, pred: bool, succ: bool): State
    requires c in s.chunks && page + n <= |s.chunks[c].map_| && n > 0
  {
    Rekey(s, c, Recount(s.chunks[c], k.mapBias, page, n, pred, succ, -1))
      .(runsAvail := s.runsAvail - {Extent(n, c, page)})
  }

  function Inserted(k: Config, s: State, c: nat, page: nat, n: nat, pred: bool, succ: bool): State
    requires c in s.chunks && page + n <= |s.chunks[c].map_| && n > 0
  {
    Rekey(s, c, Recount(s.chunks[c], k.mapBias, page, n, pred, succ, 1))
      .(runsAvail := s.runsAvail + {Extent(n, c, page)})
  }

  /** Write the page map of chunk `c`; `runs` is its new reading and `active` the pages claimed. */
  ghost function Remapped(s: State, c: nat, m: seq<MapBits>, runs: seq<Run>, active: int): State
    requires c in s.chunks
  {
    s.(chunks := s.chunks[c := s.chunks[c].(map_ := m)], tiles := s.tiles[c := runs], nactive := s.nactive + active)
  }

  /* --- One free run between two stretches -------------------------------------- */

  lemma SeamCounts(k: Config, c: nat, a: seq<Run>, f: Run, b: seq<Run>)
    requires f.Free?
    ensures Avail(a + [f] + b) == Avail(a) + Avail(b) + 1
    ensures Dirty(a + [f] + b) == Dirty(a) + Dirty(b) + if f.dirty then f.npages else 0
    ensures Active(a + [f] + b) == Active(a) + Active(b)
    ensures Adjac(a + [f] + b) == Adjac(a) + Adjac(b) + Touch(a, [f]) + Touch([f], b)
    ensures Len(a + [f] + b) == Len(a) + f.npages + Len(b)
    ensures FreeSet(c, k.mapBias, a + [f] + b)
         == FreeSet(c, k.mapBias, a) + FreeSet(c, k.mapBias + Len(a) + f.npages, b)
            + {Extent(f.npages, c, k.mapBias + Len(a))}
    ensures BlockSet(c, k.mapBias, a + [f] + b)
         == BlockSet(c, k.mapBias, a) + BlockSet(c, k.mapBias + Len(a) + f.npages, b)
    ensures Coalesced(a + [f] + b) <==>
            && Coalesced(a) && Coalesced(b)
            && (Touch(a, [f]) == 1 ==> a[|a| - 1].dirty != f.dirty)
            && (Touch([f], b) == 1 ==> f.dirty != b[0].dirty)
    ensures BinSized(a + [f] + b, k.runPages) <==> BinSized(a, k.runPages) && BinSized(b, k.runPages)
  {
    Counts3(c, k.mapBias, a, [f], b);
    assert [f][1..] == [];
    assert Len([f]) == f.npages && Avail([f]) == 1 && Adjac([f]) == 0 && Active([f]) == 0;
    assert FreeSet(c, k.mapBias + Len(a), [f]) == {Extent(f.npages, c, k.mapBias + Len(a))};
    assert BlockSet(c, k.mapBias + Len(a), [f]) == {};
    assert forall r :: r in a + [f] + b <==> r in a || r == f || r in b;
  }

  lemma SeamTiles(m: seq<MapBits>, lo: nat, a: seq<Run>, f: Run, b: seq<Run>)
    ensures Tiles(m, lo, a + [f] + b) <==>
            Tiles(m, lo, a) && RunAt(m, lo + Len(a), f) && Tiles(m, lo + Len(a) + f.npages, b)
  {
    assert [f][1..] == [] && Len([f]) == f.npages;
    Tiles3(m, lo, a, [f], b);
  }

  /** The adjacency tests on the page map see exactly the neighbouring runs. */
  lemma SeamTags(m: seq<MapBits>, c: nat, lo: nat, a: seq<Run>, f: Run, b: seq<Run>)
    requires f.Free? && f.npages > 0 && |m| == lo + Len(a) + f.npages + Len(b)
    requires Tiles(m, lo, a) && Tiles(m, lo + Len(a) + f.npages, b)
    ensures Bit(AdjacPred(m, lo, lo + Len(a))) == Touch(a, [f]) == Bit(a != [] && a[|a| - 1].Free?)
    ensures Bit(AdjacSucc(m, lo + Len(a), f.npages)) == Touch([f], b) == Bit(b != [] && b[0].Free?)
    ensures Extent(f.npages, c, lo + Len(a)) !in FreeSet(c, lo, a) + FreeSet(c, lo + Len(a) + f.npages, b)
  {
    LastTag(m, lo, a);
    SetsRange(m, c, lo, a);
    SetsRange(m, c, lo + Len(a) + f.npages, b);
  }

  /* --- Transitions between Whole and Hole ------------------------------------ */

  /** The free run `f` could be merged with neither neighbour. */
  ghost predicate Distinct(a: seq<Run>, f: Run, b: seq<Run>)
  {
    && (a != [] && a[|a| - 1].Free? ==> a[|a| - 1].dirty != f.dirty)
    && (b != [] && b[0].Free? ==> b[0].dirty != f.dirty)
  }

  /** The `maybe_adjac` flags may be false only where there is no free neighbour. */
  ghost predicate Flagged(a: seq<Run>, b: seq<Run>, pred: bool, succ: bool)
  {
    (a != [] && a[|a| - 1].Free? ==> pred) && (b != [] && b[0].Free? ==> succ)
  }

  lemma CoalescedDistinct(a: seq<Run>, f: Run, b: seq<Run>)
    requires Coalesced(a + [f] + b) && f.Free?
    ensures Distinct(a, f, b)
  {
    CoalescedConcat(a + [f], b);
    CoalescedConcat(a, [f]);
    assert (a + [f])[|a|] == f;
  }

  /** At chunk level: removing a free run from, or adding it to, the counters. */
  lemma SeamChunk(k: Config, ch: Chunk, c: nat, a: seq<Run>, f: Run, b: seq<Run>)
    requires f.Free?
    ensures ChunkInv(k, ch, a + [f] + b, false) ==>
      && k.mapBias + Len(a) + f.npages <= k.npages == |ch.map_| && f.npages > 0
      && RunAt(ch.map_, k.mapBias + Len(a), f) && Distinct(a, f, b)
      && HoleInv(k, Recount(ch, k.mapBias, k.mapBias + Len(a), f.npages, true, true, -1), a, f, b)
  {
    hide Tiles, Len, Active, FreeSet, Coalesced, BinSized, Avail, Dirty, Adjac, Touch, AdjacPred, AdjacSucc;
    if ChunkInv(k, ch, a + [f] + b, false) {
      SeamCounts(k, c, a, f, b);
      SeamTiles(ch.map_, k.mapBias, a, f, b);
      SeamTags(ch.map_, c, k.mapBias, a, f, b);
      CoalescedDistinct(a, f, b);
    }
  }

  lemma SeamChunkBack(k: Config, ch: Chunk, c: nat, a: seq<Run>, f: Run, b: seq<Run>, pred: bool, succ: bool)
    requires HoleInv(k, ch, a, f, b)
    requires Distinct(a, f, b) && Flagged(a, b, pred, succ)
    ensures k.mapBias + Len(a) + f.npages <= |ch.map_| && f.npages > 0
    ensures ChunkInv(k, Recount(ch, k.mapBias, k.mapBias + Len(a), f.npages, pred, succ, 1), a + [f] + b, false)
  {
    hide Tiles, Len, Active, FreeSet, Coalesced, BinSized, Avail, Dirty, Adjac, Touch, AdjacPred, AdjacSucc;
    SeamCounts(k, c, a, f, b);
    SeamTiles(ch.map_, k.mapBias, a, f, b);
    SeamTags(ch.map_, c, k.mapBias, a, f, b);
  }

  /** At index level: the free sets with and without the hole differ by that one run. */
  lemma SeamSets(k: Config, ch: Chunk, c: nat, a: seq<Run>, f: Run, b: seq<Run>)
    requires HoleInv(k, ch, a, f, b)
    ensures FreeSet(c, k.mapBias, a + [f] + b) == HoleSet(k, c, a, f, b) + {Extent(f.npages, c, k.mapBias + Len(a))}
    ensures Extent(f.npages, c, k.mapBias + Len(a)) !in HoleSet(k, c, a, f, b)
    ensures Active(a + [f] + b) == Active(a) + Active(b)
  {
    hide Tiles, Len, Active, FreeSet, Coalesced, BinSized, Avail, Dirty, Adjac, Touch, AdjacPred, AdjacSucc;
    SeamCounts(k, c, a, f, b);
    SeamTags(ch.map_, c, k.mapBias, a, f, b);
  }

  /** A chunk and its index entries are exchanged together. */
  lemma Reindex(k: Config, s: State, c: nat, ch: Chunk, avail: set<Extent>, free: set<Extent>, free': set<Extent>)
    requires c in s.chunks && Indexed(s, c, free) && s.tiles.Keys == s.chunks.Keys && s.spare != Some(c)
    requires forall e: Extent :: e.chunk != c ==> (e in avail <==> e in s.runsAvail)
    requires forall e: Extent :: e.chunk == c ==> (e in avail <==> e in free')
    ensures var s' := Rekey(s, c, ch).(runsAvail := avail);
      Indexed(s', c, free') && Frame(s, s', c) && s'.chunks[c] == ch
  {
    hide Active;
    assert s.tiles == s.tiles[c := s.tiles[c]];
  }

  /** Taking a free run out of the index opens a hole. */
  lemma TakeOut(k: Config, s: State, c: nat, a: seq<Run>, f: Run, b: seq<Run>)
    requires Whole(k, s, c, a + [f] + b) && f.Free? && s.tiles.Keys == s.chunks.Keys && s.spare != Some(c)
    ensures var page := k.mapBias + Len(a);
      && page + f.npages <= k.npages == |s.chunks[c].map_| && f.npages > 0
      && RunAt(s.chunks[c].map_, page, f) && Distinct(a, f, b)
      && Extent(f.npages, c, page) in s.runsAvail
      && var s' := Removed(k, s, c, page, f.npages, true, true);
         Hole(k, s', c, a, f, b) && Frame(s, s', c)
  {
    hide HoleInv, ChunkInv, HoleSet, FreeSet, Len, Active, Recount, Distinct, RunAt;
    var ch, page := s.chunks[c], k.mapBias + Len(a);
    SeamChunk(k, ch, c, a, f, b);
    var ch' := Recount(ch, k.mapBias, page, f.npages, true, true, -1);
    SeamSets(k, ch', c, a, f, b);
    Reindex(k, s, c, ch', s.runsAvail - {Extent(f.npages, c, page)},
      FreeSet(c, k.mapBias, a + [f] + b), HoleSet(k, c, a, f, b));
  }

  /** Indexing the free run closes the hole, provided it could not be merged any further. */
  lemma PutBack(k: Config, s: State, c: nat, a: seq<Run>, f: Run, b: seq<Run>, pred: bool, succ: bool)
    requires Hole(k, s, c, a, f, b) && s.tiles.Keys == s.chunks.Keys && s.spare != Some(c)
    requires Distinct(a, f, b) && Flagged(a, b, pred, succ)
    ensures k.mapBias + Len(a) + f.npages <= |s.chunks[c].map_| && f.npages > 0
    ensures Extent(f.npages, c, k.mapBias + Len(a)) !in s.runsAvail
    ensures var s' := Inserted(k, s, c, k.mapBias + Len(a), f.npages, pred, succ);
         Whole(k, s', c, a + [f] + b) && Frame(s, s', c)
  {
    hide HoleInv, HoleSet, FreeSet, Len, Active, Recount, Tiles, Coalesced, BinSized, Avail, Dirty, Adjac, Touch, ChunkInv,
      Distinct, Flagged, RunAt;
    var ch := s.chunks[c];
    SeamChunkBack(k, ch, c, a, f, b, pred, succ);
    SeamSets(k, ch, c, a, f, b);
    var page := k.mapBias + Len(a);
    Reindex(k, s, c, Recount(ch, k.mapBias, page, f.npages, pred, succ, 1),
      s.runsAvail + {Extent(f.npages, c, page)}, HoleSet(k, c, a, f, b), FreeSet(c, k.mapBias, a + [f] + b));
  }

  /** Indexing the `n` free pages at `page` makes every count include them, if the page map was otherwise in order. */
  ghost predicate Closes(k: Config, s: State, s': State, c: nat, page: nat, n: nat, pred: bool, succ: bool)
  {
    s.tiles.Keys == s.chunks.Keys && s.spare != Some(c) ==>
      forall a, f, b :: Hole(k, s, c, a, f, b) && page == k.mapBias + Len(a) && n == f.npages && Distinct(a, f, b) && Flagged(a, b, pred, succ) ==>
        Whole(k, s', c, a + [f] + b) && Frame(s, s', c)
  }

  lemma InsertedCloses(k: Config, s: State, c: nat, page: nat, n: nat, pred: bool, succ: bool)
    requires c in s.chunks && page + n <= |s.chunks[c].map_| && n > 0
    ensures Closes(k, s, Inserted(k, s, c, page, n, pred, succ), c, page, n, pred, succ)
  {
    hide Hole, Whole, Frame, Distinct, Flagged, Inserted, Len;
    if s.tiles.Keys == s.chunks.Keys && s.spare != Some(c) {
      forall a, f, b | Hole(k, s, c, a, f, b) && page == k.mapBias + Len(a) && n == f.npages && Distinct(a, f, b) && Flagged(a, b, pred, succ)
        ensures var s' := Inserted(k, s, c, page, n, pred, succ); Whole(k, s', c, a + [f] + b) && Frame(s, s', c)
      {
        PutBack(k, s, c, a, f, b, pred, succ);
      }
    }
  }

  /** Taking the free run at `page` out makes every count leave it out. */
  ghost predicate Opens(k: Config, s: State, s': State, c: nat, page: nat, n: nat, pred: bool, succ: bool)
  {
    s.tiles.Keys == s.chunks.Keys && s.spare != Some(c) ==>
      forall a, f: Run, b :: Whole(k, s, c, a + [f] + b) && f.Free? && page == k.mapBias + Len(a) && n == f.npages && Flagged(a, b, pred, succ) ==>
        Hole(k, s', c, a, f, b) && Frame(s, s', c)
  }

  lemma RemovedOpens(k: Config, s: State, c: nat, page: nat, n: nat, pred: bool, succ: bool)
    requires c in s.chunks && page + n <= |s.chunks[c].map_| && n > 0
    ensures Opens(k, s, Removed(k, s, c, page, n, pred, succ), c, page, n, pred, succ)
  {
    hide Hole, Whole, Frame, Flagged, Removed, Len;
    if s.tiles.Keys == s.chunks.Keys && s.spare != Some(c) {
      forall a, f: Run, b | Whole(k, s, c, a + [f] + b) && f.Free? && page == k.mapBias + Len(a) && n == f.npages && Flagged(a, b, pred, succ)
        ensures var s' := Removed(k, s, c, page, n, pred, succ); Hole(k, s', c, a, f, b) && Frame(s, s', c)
      {
        TakeOut(k, s, c, a, f, b);
        FlagsAgree(k, s, c, a, f, b, pred, succ);
      }
    }
  }

  /** Flags that are false only where there is no free neighbour change nothing. */
  lemma FlagsAgree(k: Config, s: State, c: nat, a: seq<Run>, f: Run, b: seq<Run>, pred: bool, succ: bool)
    requires Whole(k, s, c, a + [f] + b) && f.Free? && Flagged(a, b, pred, succ)
    requires k.mapBias + Len(a) + f.npages <= |s.chunks[c].map_| && f.npages > 0
    ensures var page, n := k.mapBias + Len(a), f.npages;
      Removed(k, s, c, page, n, pred, succ) == Removed(k, s, c, page, n, true, true)
  {
    hide Tiles, Len, Active, FreeSet, Coalesced, BinSized, Avail, Dirty, Adjac, Touch, Indexed, Rekey;
    SeamCounts(k, c, a, f, b);
    SeamTiles(s.chunks[c].map_, k.mapBias, a, f, b);
    SeamTags(s.chunks[c].map_, c, k.mapBias, a, f, b);
  }

  /* --- One allocated run between two stretches --------------------------------- */

  lemma SeamUsed(k: Config, c: nat, a: seq<Run>, r: Run, b: seq<Run>)
    requires !r.Free?
    ensures Avail(a + [r] + b) == Avail(a) + Avail(b)
    ensures Dirty(a + [r] + b) == Dirty(a) + Dirty(b)
    ensures Active(a + [r] + b) == Active(a) + Active(b) + r.npages
    ensures Adjac(a + [r] + b) == Adjac(a) + Adjac(b)
    ensures Len(a + [r] + b) == Len(a) + r.npages + Len(b)
    ensures FreeSet(c, k.mapBias, a + [r] + b)
         == FreeSet(c, k.mapBias, a) + FreeSet(c, k.mapBias + Len(a) + r.npages, b)
    ensures BlockSet(c, k.mapBias, a + [r] + b)
         == BlockSet(c, k.mapBias, a) + BlockSet(c, k.mapBias + Len(a) + r.npages, b) + {BlockOf(c, k.mapBias + Len(a), r)}
    ensures Coalesced(a + [r] + b) <==> Coalesced(a) && Coalesced(b)
    ensures BinSized(a + [r] + b, k.runPages) <==>
            BinSized(a, k.runPages) && BinSized(b, k.runPages) && BinSized([r], k.runPages)
  {
    Counts3(c, k.mapBias, a, [r], b);
    assert [r][1..] == [];
    assert Len([r]) == r.npages && Avail([r]) == 0 && Adjac([r]) == 0 && Active([r]) == r.npages && Dirty([r]) == 0;
    assert FreeSet(c, k.mapBias + Len(a), [r]) == {};
    assert BlockSet(c, k.mapBias + Len(a), [r]) == {BlockOf(c, k.mapBias + Len(a), r)};
    assert forall x :: x in a + [r] + b <==> x in a || x in [r] || x in b;
  }

  /** The page map changed only between pages `lo` and `hi`. */
  ghost predicate Within(m: seq<MapBits>, m': seq<MapBits>, lo: nat, hi: nat)
  {
    |m'| == |m| && forall p :: 0 <= p < |m| && !(lo <= p < hi) ==> m'[p] == m[p]
  }

  /** Freeing: the run's tags now read as a free run, which is not counted yet. */
  lemma Release(k: Config, s: State, c: nat, a: seq<Run>, r: Run, b: seq<Run>, f: Run, m': seq<MapBits>)
    requires Whole(k, s, c, a + [r] + b) && s.tiles.Keys == s.chunks.Keys && s.spare != Some(c)
    requires !r.Free? && f.Free? && f.npages == r.npages
    requires Within(s.chunks[c].map_, m', k.mapBias + Len(a), k.mapBias + Len(a) + r.npages)
    requires RunAt(m', k.mapBias + Len(a), f)
    ensures var s' := Remapped(s, c, m', a + [f] + b, -(r.npages as int));
      Hole(k, s', c, a, f, b) && Frame(s, s', c)
  {
    hide Len, Active, FreeSet, Coalesced, BinSized, Avail, Dirty, Adjac, Tiles, Touch;
    var m, page := s.chunks[c].map_, k.mapBias + Len(a);
    SeamUsed(k, c, a, r, b);
    SeamTiles(m, k.mapBias, a, r, b);
    TilesFrame(m, m', k.mapBias, a);
    TilesFrame(m, m', page + r.npages, b);
    assert Active(a + [f] + b) == Active(a) + Active(b) by { SeamCounts(k, c, a, f, b); }
  }

  /** Allocating all of the hole. */
  lemma ClaimAll(k: Config, s: State, c: nat, a: seq<Run>, f: Run, b: seq<Run>, x: Run, m': seq<MapBits>)
    requires Hole(k, s, c, a, f, b) && s.tiles.Keys == s.chunks.Keys && s.spare != Some(c)
    requires !x.Free? && f.npages == x.npages && BinSized([x], k.runPages)
    requires Within(s.chunks[c].map_, m', k.mapBias + Len(a), k.mapBias + Len(a) + f.npages)
    requires RunAt(m', k.mapBias + Len(a), x)
    ensures var s' := Remapped(s, c, m', a + [x] + b, x.npages);
      Whole(k, s', c, a + [x] + b) && Frame(s, s', c)
  {
    hide Len, Active, FreeSet, Coalesced, BinSized, Avail, Dirty, Adjac, Tiles, Touch;
    var m, page := s.chunks[c].map_, k.mapBias + Len(a);
    SeamUsed(k, c, a, x, b);
    TilesFrame(m, m', k.mapBias, a);
    TilesFrame(m, m', page + f.npages, b);
    SeamTiles(m', k.mapBias, a, x, b);
    assert Active(a + [f] + b) == Active(a) + Active(b) by { SeamCounts(k, c, a, f, b); }
  }

  /** Allocating the front of the hole leaves a smaller hole. */
  lemma ClaimFront(k: Config, s: State, c: nat, a: seq<Run>, f: Run, b: seq<Run>, x: Run, m': seq<MapBits>)
    requires Hole(k, s, c, a, f, b) && s.tiles.Keys == s.chunks.Keys && s.spare != Some(c)
    requires !x.Free? && 0 < x.npages < f.npages && BinSized([x], k.runPages)
    requires Within(s.chunks[c].map_, m', k.mapBias + Len(a), k.mapBias + Len(a) + f.npages)
    requires RunAt(m', k.mapBias + Len(a), x)
    requires RunAt(m', k.mapBias + Len(a) + x.npages, Free(f.npages - x.npages, f.dirty))
    ensures var g := Free(f.npages - x.npages, f.dirty);
      var s' := Remapped(s, c, m', a + [x] + [g] + b, x.npages);
      Hole(k, s', c, a + [x], g, b) && Frame(s, s', c) && Len(a + [x]) == Len(a) + x.npages
  {
    hide Len, Active, FreeSet, Avail, Dirty, Adjac, BinSized, RunAt, Within, HoleInv, HoleSet, Tiles;
    var g := Free(f.npages - x.npages, f.dirty);
    ClaimFrontChunk(k, s.chunks[c], c, a, f, b, x, m');
    SeamActive(k, c, a, f, b, x, g);
    assert (a + [x]) + [g] + b == a + [x] + [g] + b;
  }

  lemma SeamActive(k: Config, c: nat, a: seq<Run>, f: Run, b: seq<Run>, x: Run, g: Run)
    requires f.Free? && g.Free? && !x.Free?
    ensures Active(a + [x] + [g] + b) == Active(a + [f] + b) + x.npages && Len(a + [x]) == Len(a) + x.npages
  {
    hide Len, Active, FreeSet, Coalesced, BinSized, Avail, Dirty, Adjac, Tiles, Touch, BlockSet;
    SeamCounts(k, c, a, f, b);
    SeamCounts(k, c, a + [x], g, b);
    SeamUsed(k, c, a, x, []);
    assert a + [x] + [] == a + [x];
    EmptyRuns(k, [], c, 0);
  }

  lemma ClaimFrontChunk(k: Config, ch: Chunk, c: nat, a: seq<Run>, f: Run, b: seq<Run>, x: Run, m': seq<MapBits>)
    requires HoleInv(k, ch, a, f, b) && !x.Free? && 0 < x.npages < f.npages && BinSized([x], k.runPages)
    requires Within(ch.map_, m', k.mapBias + Len(a), k.mapBias + Len(a) + f.npages) && RunAt(m', k.mapBias + Len(a), x)
    requires RunAt(m', k.mapBias + Len(a) + x.npages, Free(f.npages - x.npages, f.dirty))
    ensures var g := Free(f.npages - x.npages, f.dirty);
      f.Free? && HoleInv(k, ch.(map_ := m'), a + [x], g, b) && HoleSet(k, c, a + [x], g, b) == HoleSet(k, c, a, f, b)
  {
    hide Len, Active, FreeSet, Coalesced, BinSized, Avail, Dirty, Adjac, Tiles, Touch, RunAt, BlockSet;
    var page := k.mapBias + Len(a);
    SeamUsed(k, c, a, x, []);
    assert a + [x] + [] == a + [x];
    EmptyRuns(k, m', c, page + x.npages);
    TilesFrame(ch.map_, m', k.mapBias, a);
    TilesFrame(ch.map_, m', page + f.npages, b);
    SeamTiles(m', k.mapBias, a, x, []);
  }

  lemma EmptyRuns(k: Config, m: seq<MapBits>, c: nat, lo: nat)
    ensures Len([]) == 0 && Active([]) == 0 && Avail([]) == 0 && Dirty([]) == 0 && Adjac([]) == 0
    ensures Coalesced([]) && BinSized([], k.runPages) && FreeSet(c, lo, []) == {} && Tiles(m, lo, [])
  {
  }

  /* --- Coalescing ---------------------------------------------------------------- */

  /** Both boundary tags of the merged run carry its size. */
  function Resized(m: seq<MapBits>, page: nat, n: nat): seq<MapBits>
    requires n > 0 && page + n <= |m|
  {
    var m1 := m[page := m[page].(size := n)];
    m1[page + n - 1 := m1[page + n - 1].(size := n)]
  }

  lemma ResizedTags(m: seq<MapBits>, page: nat, f: Run, g: Run)
    requires f.Free? && g.Free? && f.dirty == g.dirty && RunAt(m, page, f) && RunAt(m, page + f.npages, g)
    ensures var n := f.npages + g.npages; var m' := Resized(m, page, n);
      RunAt(m', page, Free(n, f.dirty)) && Within(m, m', page, page + n)
  {
  }

  /** Everything about a free run put in front of, or behind, a stretch. */
  lemma FreeCons(k: Config, m: seq<MapBits>, c: nat, lo: nat, g: Run, b: seq<Run>)
    requires g.Free?
    ensures Tiles(m, lo, [g] + b) <==> RunAt(m, lo, g) && Tiles(m, lo + g.npages, b)
    ensures Len([g] + b) == g.npages + Len(b) && Avail([g] + b) == 1 + Avail(b) && Active([g] + b) == Active(b)
    ensures Dirty([g] + b) == (if g.dirty then g.npages else 0) + Dirty(b)
    ensures Adjac([g] + b) == Bit(b != [] && b[0].Free?) + Adjac(b)
    ensures Coalesced([g] + b) ==> Coalesced(b)
    ensures BinSized([g] + b, k.runPages) ==> BinSized(b, k.runPages)
    ensures FreeSet(c, lo, [g] + b) == {Extent(g.npages, c, lo)} + FreeSet(c, lo + g.npages, b)
  {
    var t := [g] + b;
    assert t[0] == g && t[1..] == b && t[..1] == [g];
    CoalescedConcat([g], b);
    assert forall r :: r in b ==> r in t;
  }

  lemma FreeSnoc(k: Config, m: seq<MapBits>, c: nat, lo: nat, a: seq<Run>, g: Run)
    requires g.Free?
    ensures Tiles(m, lo, a + [g]) <==> Tiles(m, lo, a) && RunAt(m, lo + Len(a), g)
    ensures Len(a + [g]) == Len(a) + g.npages && Avail(a + [g]) == Avail(a) + 1 && Active(a + [g]) == Active(a)
    ensures Dirty(a + [g]) == Dirty(a) + if g.dirty then g.npages else 0
    ensures Adjac(a + [g]) == Adjac(a) + Bit(a != [] && a[|a| - 1].Free?)
    ensures Coalesced(a + [g]) ==> Coalesced(a)
    ensures BinSized(a + [g], k.runPages) ==> BinSized(a, k.runPages)
    ensures FreeSet(c, lo, a + [g]) == FreeSet(c, lo, a) + {Extent(g.npages, c, lo + Len(a))}
  {
    assert [g][1..] == [] && Adjac([]) == 0;
    assert Adjac([g]) == Touch([g][..1], [g][1..]) + Adjac([g][1..]);
    assert Len([g]) == g.npages && Avail([g]) == 1 && Active([g]) == 0 && Adjac([g]) == 0;
    TilesConcat(m, lo, a, [g]);
    LenConcat(a, [g]);
    CountsConcat(a, [g]);
    SetsConcat(c, lo, a, [g]);
    CoalescedConcat(a, [g]);
    assert FreeSet(c, lo + Len(a), [g]) == {Extent(g.npages, c, lo + Len(a))};
    assert forall r :: r in a ==> r in a + [g];
  }

  lemma MergeForwardChunk(k: Config, ch: Chunk, c: nat, a: seq<Run>, f: Run, g: Run, b: seq<Run>)
    requires HoleInv(k, ch, a, f, [g] + b) && g.Free? && g.dirty == f.dirty
    ensures var page, n := k.mapBias + Len(a), f.npages + g.npages;
      && g.npages > 0 && page + n <= |ch.map_| && RunAt(ch.map_, page + f.npages, g)
      && var ch' := Recount(ch, k.mapBias, page + f.npages, g.npages, false, true, -1);
         HoleInv(k, ch'.(map_ := Resized(ch.map_, page, n)), a, Free(n, f.dirty), b)
  {
    hide Coalesced, Tiles, Len, Avail, Active, Dirty, Adjac, BinSized, FreeSet, Touch;
    var m, page, n := ch.map_, k.mapBias + Len(a), f.npages + g.npages;
    FreeCons(k, m, c, page + f.npages, g, b);
    ResizedTags(m, page, f, g);
    var m' := Resized(m, page, n);
    TilesFrame(m, m', k.mapBias, a);
    TilesFrame(m, m', page + n, b);
    FirstTag(m, page + n, b);
  }

  lemma MergeBackwardChunk(k: Config, ch: Chunk, c: nat, a: seq<Run>, g: Run, f: Run, b: seq<Run>)
    requires HoleInv(k, ch, a + [g], f, b) && g.Free? && g.dirty == f.dirty
    ensures var page, n := k.mapBias + Len(a), g.npages + f.npages;
      && g.npages > 0 && page + n <= |ch.map_| && RunAt(ch.map_, page, g) && Len(a + [g]) == Len(a) + g.npages
      && var ch' := Recount(ch, k.mapBias, page, g.npages, true, false, -1);
         HoleInv(k, ch'.(map_ := Resized(ch.map_, page, n)), a, Free(n, f.dirty), b)
  {
    hide Coalesced, Tiles, Len, Avail, Active, Dirty, Adjac, BinSized, FreeSet, Touch;
    var m, page, n := ch.map_, k.mapBias + Len(a), g.npages + f.npages;
    FreeSnoc(k, m, c, k.mapBias, a, g);
    ResizedTags(m, page, g, f);
    var m' := Resized(m, page, n);
    TilesFrame(m, m', k.mapBias, a);
    TilesFrame(m, m', page + n, b);
    LastTag(m, k.mapBias, a);
  }

  lemma ReindexRemap(k: Config, s: State, c: nat, ch: Chunk, avail: set<Extent>, free: set<Extent>, free': set<Extent>,
                     m: seq<MapBits>, runs: seq<Run>)
    requires c in s.chunks && Indexed(s, c, free) && s.tiles.Keys == s.chunks.Keys && s.spare != Some(c)
    requires forall e: Extent :: e.chunk != c ==> (e in avail <==> e in s.runsAvail)
    requires forall e: Extent :: e.chunk == c ==> (e in avail <==> e in free')
    requires Active(runs) == Active(s.tiles[c])
    ensures var s' := Remapped(Rekey(s, c, ch).(runsAvail := avail), c, m, runs, 0);
      Indexed(s', c, free') && Frame(s, s', c) && s'.chunks[c] == ch.(map_ := m) && s'.tiles[c] == runs
  {
    hide Active;
  }

  lemma MergeForwardSets(k: Config, m: seq<MapBits>, c: nat, a: seq<Run>, f: Run, g: Run, b: seq<Run>)
    requires f.Free? && g.Free? && g.npages > 0 && f.npages > 0
    requires Tiles(m, k.mapBias, a) && Tiles(m, k.mapBias + Len(a) + f.npages, [g] + b)
    ensures var f' := Free(f.npages + g.npages, f.dirty);
      var e := Extent(g.npages, c, k.mapBias + Len(a) + f.npages);
      && HoleSet(k, c, a, f, [g] + b) == HoleSet(k, c, a, f', b) + {e} && e !in HoleSet(k, c, a, f', b)
      && Active(a + [f] + ([g] + b)) == Active(a + [f'] + b)
  {
    hide Tiles, Len, Active, FreeSet, Coalesced, BinSized, Avail, Dirty, Adjac, Touch;
    var f', hi := Free(f.npages + g.npages, f.dirty), k.mapBias + Len(a) + f.npages;
    SeamCounts(k, c, a, f, [g] + b);
    SeamCounts(k, c, a, f', b);
    FreeCons(k, m, c, hi, g, b);
    SetsRange(m, c, k.mapBias, a);
    SetsRange(m, c, hi + g.npages, b);
  }

  lemma MergeBackwardSets(k: Config, m: seq<MapBits>, c: nat, a: seq<Run>, g: Run, f: Run, b: seq<Run>)
    requires f.Free? && g.Free? && g.npages > 0 && f.npages > 0
    requires Tiles(m, k.mapBias, a + [g]) && Tiles(m, k.mapBias + Len(a + [g]) + f.npages, b)
    ensures var f' := Free(g.npages + f.npages, f.dirty);
      var e := Extent(g.npages, c, k.mapBias + Len(a));
      && HoleSet(k, c, a + [g], f, b) == HoleSet(k, c, a, f', b) + {e} && e !in HoleSet(k, c, a, f', b)
      && Active(a + [g] + [f] + b) == Active(a + [f'] + b)
  {
    hide Tiles, Len, Active, FreeSet, Coalesced, BinSized, Avail, Dirty, Adjac, Touch;
    var f' := Free(g.npages + f.npages, f.dirty);
    SeamCounts(k, c, a + [g], f, b);
    SeamCounts(k, c, a, f', b);
    FreeSnoc(k, m, c, k.mapBias, a, g);
    SetsRange(m, c, k.mapBias, a);
    SetsRange(m, c, k.mapBias + Len(a + [g]) + f.npages, b);
  }

  /** Merging the hole with the free run behind it. */
  lemma MergeForward(k: Config, s: State, c: nat, a: seq<Run>, f: Run, g: Run, b: seq<Run>)
    requires Hole(k, s, c, a, f, [g] + b) && s.tiles.Keys == s.chunks.Keys && s.spare != Some(c)
    requires g.Free? && g.dirty == f.dirty
    ensures var page, n := k.mapBias + Len(a), f.npages + g.npages;
      && g.npages > 0 && page + n <= |s.chunks[c].map_| && RunAt(s.chunks[c].map_, page + f.npages, g)
      && Extent(g.npages, c, page + f.npages) in s.runsAvail
      && var s1 := Removed(k, s, c, page + f.npages, g.npages, false, true);
         var s2 := Remapped(s1, c, Resized(s.chunks[c].map_, page, n), a + [Free(n, f.dirty)] + b, 0);
         Hole(k, s2, c, a, Free(n, f.dirty), b) && Frame(s, s2, c)
  {
    hide HoleSet, FreeSet, Len, Active, Recount, Resized, Tiles, Coalesced, BinSized, Avail, Dirty, Adjac;
    var ch, page, n := s.chunks[c], k.mapBias + Len(a), f.npages + g.npages;
    MergeForwardChunk(k, ch, c, a, f, g, b);
    MergeForwardSets(k, ch.map_, c, a, f, g, b);
    hide HoleInv, RunAt;
    ReindexRemap(k, s, c, Recount(ch, k.mapBias, page + f.npages, g.npages, false, true, -1),
      s.runsAvail - {Extent(g.npages, c, page + f.npages)},
      HoleSet(k, c, a, f, [g] + b), HoleSet(k, c, a, Free(n, f.dirty), b),
      Resized(ch.map_, page, n), a + [Free(n, f.dirty)] + b);
  }

  /** Merging the hole with the free run in front of it. */
  lemma MergeBackward(k: Config, s: State, c: nat, a: seq<Run>, g: Run, f: Run, b: seq<Run>)
    requires Hole(k, s, c, a + [g], f, b) && s.tiles.Keys == s.chunks.Keys && s.spare != Some(c)
    requires g.Free? && g.dirty == f.dirty
    ensures var page, n := k.mapBias + Len(a), g.npages + f.npages;
      && g.npages > 0 && page + n <= |s.chunks[c].map_| && RunAt(s.chunks[c].map_, page, g)
      && Len(a + [g]) == Len(a) + g.npages
      && Extent(g.npages, c, page) in s.runsAvail
      && var s1 := Removed(k, s, c, page, g.npages, true, false);
         var s2 := Remapped(s1, c, Resized(s.chunks[c].map_, page, n), a + [Free(n, f.dirty)] + b, 0);
         Hole(k, s2, c, a, Free(n, f.dirty), b) && Frame(s, s2, c)
  {
    hide HoleSet, FreeSet, Len, Active, Recount, Resized, Tiles, Coalesced, BinSized, Avail, Dirty, Adjac;
    var ch, page, n := s.chunks[c], k.mapBias + Len(a), g.npages + f.npages;
    MergeBackwardChunk(k, ch, c, a, g, f, b);
    MergeBackwardSets(k, ch.map_, c, a, g, f, b);
    hide HoleInv, RunAt;
    ReindexRemap(k, s, c, Recount(ch, k.mapBias, page, g.npages, true, false, -1),
      s.runsAvail - {Extent(g.npages, c, page)},
      HoleSet(k, c, a + [g], f, b), HoleSet(k, c, a, Free(n, f.dirty), b),
      Resized(ch.map_, page, n), a + [Free(n, f.dirty)] + b);
  }

  /* --- Whole chunks: the spare ------------------------------------------------------ */

  /** A chunk that is one free run, outside all counts and indices. */
  ghost predicate Detached(k: Config, ch: Chunk, f: Run)
  {
    && f.Free? && f.npages == k.npages - k.mapBias && k.Valid()
    && |ch.map_| == k.npages && RunAt(ch.map_, k.mapBias, f)
    && ch.ndirty == ch.nrunsAvail == ch.nrunsAdjac == 0
  }

  lemma SingleRun(k: Config, ch: Chunk, c: nat, f: Run)
    requires f.Free? && k.Valid()
    ensures ChunkInv(k, ch, [f], true) <==> Detached(k, ch, f)
    ensures ChunkInv(k, ch, [f], false) ==> f.npages == k.npages - k.mapBias > 0 && |ch.map_| == k.npages
    ensures ChunkInv(k, ch, [f], false) ==>
      Detached(k, Recount(ch, k.mapBias, k.mapBias, f.npages, false, false, -1), f)
    ensures Detached(k, ch, f) ==> ChunkInv(k, Recount(ch, k.mapBias, k.mapBias, f.npages, false, false, 1), [f], false)
    ensures FreeSet(c, k.mapBias, [f]) == {Extent(f.npages, c, k.mapBias)}
    ensures Active([f]) == 0
  {
    assert [f][1..] == [] && Len([]) == 0 && Adjac([]) == 0 && Dirty([]) == 0 && Avail([]) == 0;
    assert Tiles(ch.map_, k.mapBias + f.npages, []);
    assert Adjac([f]) == Touch([f][..1], [f][1..]) + Adjac([f][1..]) == 0;
    assert Len([f]) == f.npages && Avail([f]) == 1 && Dirty([f]) == if f.dirty then f.npages else 0;
    assert Tiles(ch.map_, k.mapBias, [f]) <==> RunAt(ch.map_, k.mapBias, f);
  }

  /** `arena_chunk_dealloc`: an empty chunk becomes the spare, the old spare is given back. */
  ghost function Retired(k: Config, s: State, c: nat, n: nat): State
    requires c in s.chunks && k.mapBias + n <= |s.chunks[c].map_| && n > 0
  {
    var s1 := Removed(k, s, c, k.mapBias, n, false, false).(spare := Some(c));
    if s.spare.Some? then s1.(chunks := s1.chunks - {s.spare.value}, tiles := s1.tiles - {s.spare.value}) else s1
  }

  lemma SumsWithout(s: State, o: nat)
    requires s.tiles.Keys == s.chunks.Keys && o in s.chunks && Active(s.tiles[o]) == 0 && s.chunks[o].ndirty == 0
    ensures Sum(Actives(s.tiles - {o})) == Sum(Actives(s.tiles))
    ensures Sum(Dirties(s.chunks - {o})) == Sum(Dirties(s.chunks))
  {
    hide Sum, Active;
    SumRemove(Actives(s.tiles), o);
    SumRemove(Dirties(s.chunks), o);
    assert Actives(s.tiles - {o}) == Actives(s.tiles) - {o};
    assert Dirties(s.chunks - {o}) == Dirties(s.chunks) - {o};
  }

  lemma Retire(k: Config, s: State, c: nat, f: Run)
    requires StateInv(k, s) && c in s.chunks && s.spare != Some(c) && s.tiles[c] == [f] && f.Free?
    ensures f.npages == k.npages - k.mapBias > 0 && |s.chunks[c].map_| == k.npages
    ensures Extent(f.npages, c, k.mapBias) in s.runsAvail
    ensures StateInv(k, Retired(k, s, c, f.npages))
  {
    hide FreeSet, Active, Sum, Tiles, Len, Coalesced, BinSized, Avail, Dirty, Adjac, Recount, RunAt;
    SingleRun(k, s.chunks[c], c, f);
    var ch' := Recount(s.chunks[c], k.mapBias, k.mapBias, f.npages, false, false, -1);
    SingleRun(k, ch', c, f);
    var s1 := Removed(k, s, c, k.mapBias, f.npages, false, false);
    assert Frame(s, s1, c) by {
      Reindex(k, s, c, ch', s.runsAvail - {Extent(f.npages, c, k.mapBias)}, FreeSet(c, k.mapBias, [f]), {});
    }
    RetireIndex(k, s, s1, c, f);
    SumsReplace(s, s1, c);
    if s.spare.Some? {
      RetireSpare(k, s, s1, c);
    }
  }

  lemma RetireIndex(k: Config, s: State, s1: State, c: nat, f: Run)
    requires StateInv(k, s) && c in s.chunks && c in s1.chunks && s.spare != Some(c) && s.tiles[c] == [f] && s1.tiles == s.tiles
    requires s1.chunks == s.chunks[c := s1.chunks[c]] && ChunkInv(k, s1.chunks[c], [f], true) && s1.spare == s.spare
    requires FreeSet(c, k.mapBias, [f]) == {Extent(f.npages, c, k.mapBias)}
    requires s1.runsAvail == s.runsAvail - {Extent(f.npages, c, k.mapBias)} && s1.chunksDirty == s.chunksDirty - DirtyKeys(c, s.chunks[c])
    ensures var s2 := s1.(spare := Some(c));
      var s3 := if s.spare.Some? then s2.(chunks := s2.chunks - {s.spare.value}, tiles := s2.tiles - {s.spare.value}) else s2;
      s3.tiles.Keys == s3.chunks.Keys && ChunksInv(k, s3) && AvailInv(k, s3) && DirtyInv(s3)
  {
    hide FreeSet, Active, Sum, Tiles, Len, Coalesced, BinSized, Avail, Dirty, Adjac;
    assert s1.chunks[c].ndirty == 0;
  }

  lemma RetireSpare(k: Config, s: State, s1: State, c: nat)
    requires StateInv(k, s) && Frame(s, s1, c) && s.spare.Some? && s.spare != Some(c)
    ensures var o := s.spare.value;
      && Sum(Actives(s1.tiles - {o})) == Sum(Actives(s1.tiles)) && Sum(Dirties(s1.chunks - {o})) == Sum(Dirties(s1.chunks))
  {
    hide FreeSet, Active, Sum, Tiles, Len, Coalesced, BinSized, Avail, Dirty, Adjac, Recount, RunAt, Actives, Dirties;
    var o := s.spare.value;
    assert s.tiles[o] == [s.tiles[o][0]];
    SingleRun(k, s.chunks[o], o, s.tiles[o][0]);
    assert s1.tiles[o] == s.tiles[o] && s1.chunks[o] == s.chunks[o];
    SumsWithout(s1, o);
  }

  /** The spare, or a new chunk, joins the chunks in use. */
  ghost function Joined(s: State, c: nat, ch: Chunk, f: Run): State
  {
    s.(spare := if s.spare == Some(c) then None else s.spare, chunks := s.chunks[c := ch], tiles := s.tiles[c := [f]])
  }

  ghost predicate MayJoin(k: Config, s: State, c: nat, ch: Chunk, f: Run)
  {
    Detached(k, ch, f) && (c in s.chunks ==> s.spare == Some(c) && s.chunks[c] == ch && c in s.tiles && s.tiles[c] == [f])
  }

  /** Bringing a detached chunk into the chunk map does not disturb anything else. */
  lemma Attach(k: Config, s: State, c: nat, ch: Chunk, f: Run)
    requires StateInv(k, s) && MayJoin(k, s, c, ch, f)
    ensures var s1 := Joined(s, c, ch, f);
      && Indexed(s1, c, {}) && s1.nactive == Sum(Actives(s1.tiles)) && s1.ndirty == Sum(Dirties(s1.chunks))
  {
    hide FreeSet, Active, Sum, Tiles, Len, Coalesced, BinSized, Avail, Dirty, Adjac;
    var s1 := Joined(s, c, ch, f);
    SingleRun(k, ch, c, f);
    SumUpdate(Actives(s.tiles), c, 0);
    SumUpdate(Dirties(s.chunks), c, 0);
    assert Actives(s1.tiles) == Actives(s.tiles)[c := 0];
    assert Dirties(s1.chunks) == Dirties(s.chunks)[c := 0];
  }

  lemma EnlistFrame(k: Config, s1: State, c: nat, f: Run)
    requires c in s1.chunks && Detached(k, s1.chunks[c], f) && s1.tiles.Keys == s1.chunks.Keys && s1.spare != Some(c)
    requires s1.tiles[c] == [f] && Indexed(s1, c, {})
    requires s1.nactive == Sum(Actives(s1.tiles)) && s1.ndirty == Sum(Dirties(s1.chunks))
    ensures k.mapBias + f.npages <= |s1.chunks[c].map_| && f.npages > 0
    ensures var s2 := Inserted(k, s1, c, k.mapBias, f.npages, false, false);
      && Frame(s1, s2, c) && Whole(k, s2, c, [f])
      && s2.nactive == Sum(Actives(s2.tiles)) && s2.ndirty == Sum(Dirties(s2.chunks))
  {
    hide FreeSet, Active, Sum, Tiles, Len, Coalesced, BinSized, Avail, Dirty, Adjac, Recount, ChunkInv, RunAt;
    var ch' := Recount(s1.chunks[c], k.mapBias, k.mapBias, f.npages, false, false, 1);
    SingleRun(k, s1.chunks[c], c, f);
    Reindex(k, s1, c, ch', s1.runsAvail + {Extent(f.npages, c, k.mapBias)}, {}, FreeSet(c, k.mapBias, [f]));
    SumsReplace(s1, Inserted(k, s1, c, k.mapBias, f.npages, false, false), c);
  }

  /** All chunks but `c` are as in `s`, and `c` is in order and not the spare. */
  lemma Assemble(k: Config, s: State, s2: State, c: nat)
    requires StateInv(k, s) && (s.spare == Some(c) || c !in s.chunks) && s2.spare == (if s.spare == Some(c) then None else s.spare)
    requires c in s2.chunks && s2.chunks == s.chunks[c := s2.chunks[c]]
    requires c in s2.tiles && s2.tiles == s.tiles[c := s2.tiles[c]]
    requires forall e: Extent :: e.chunk != c ==> (e in s2.runsAvail <==> e in s.runsAvail)
    requires forall d: DirtyKey :: d.chunk != c ==> (d in s2.chunksDirty <==> d in s.chunksDirty)
    requires Whole(k, s2, c, s2.tiles[c])
    requires s2.nactive == Sum(Actives(s2.tiles)) && s2.ndirty == Sum(Dirties(s2.chunks))
    ensures StateInv(k, s2)
  {
    hide FreeSet, Active, Sum, Tiles, Len, Coalesced, BinSized, Avail, Dirty, Adjac, RunAt;
    assert s2.tiles.Keys == s2.chunks.Keys;
    forall d | d in s2.chunks && d != c
      ensures ChunkInv(k, s2.chunks[d], s2.tiles[d], s2.spare == Some(d))
    {
      assert s2.chunks[d] == s.chunks[d] && s2.tiles[d] == s.tiles[d];
    }
    assert AvailInv(k, s2) by { hide ChunkInv; }
    assert DirtyInv(s2) by { hide ChunkInv; }
  }

  /** `arena_chunk_alloc`: the spare, or a new chunk, is brought into use. */
  lemma Enlist(k: Config, s: State, c: nat, ch: Chunk, f: Run)
    requires StateInv(k, s) && MayJoin(k, s, c, ch, f)
    ensures var s1 := Joined(s, c, ch, f);
      && k.mapBias + f.npages <= |ch.map_| && f.npages > 0
      && var s2 := Inserted(k, s1, c, k.mapBias, f.npages, false, false);
         StateInv(k, s2) && Whole(k, s2, c, [f])
  {
    hide FreeSet, Active, Sum, Tiles, Len, Coalesced, BinSized, Avail, Dirty, Adjac, Recount, RunAt, Detached, ChunkInv;
    var s1 := Joined(s, c, ch, f);
    Attach(k, s, c, ch, f);
    EnlistFrame(k, s1, c, f);
    Assemble(k, s, Inserted(k, s1, c, k.mapBias, f.npages, false, false), c);
  }

  /* --- Exchanging allocated runs for allocated runs ----------------------------------- */

  ghost predicate AllUsed(runs: seq<Run>)
  {
    runs != [] && forall r :: r in runs ==> !r.Free?
  }

  lemma {:induction false} UsedCounts(c: nat, lo: nat, runs: seq<Run>)
    requires AllUsed(runs)
    ensures Avail(runs) == 0 && Dirty(runs) == 0 && Adjac(runs) == 0 && Active(runs) == Len(runs)
    ensures FreeSet(c, lo, runs) == {} && Coalesced(runs)
    decreases |runs|
  {
    assert runs[0] in runs;
    if |runs| > 1 {
      assert forall r :: r in runs[1..] ==> r in runs;
      UsedCounts(c, lo + runs[0].npages, runs[1..]);
    }
  }

  lemma UsedCounts3(c: nat, lo: nat, a: seq<Run>, mid: seq<Run>, b: seq<Run>)
    requires AllUsed(mid)
    ensures Avail(a + mid + b) == Avail(a) + Avail(b)
    ensures Dirty(a + mid + b) == Dirty(a) + Dirty(b)
    ensures Active(a + mid + b) == Active(a) + Len(mid) + Active(b)
    ensures Adjac(a + mid + b) == Adjac(a) + Adjac(b)
    ensures Len(a + mid + b) == Len(a) + Len(mid) + Len(b)
    ensures FreeSet(c, lo, a + mid + b) == FreeSet(c, lo, a) + FreeSet(c, lo + Len(a) + Len(mid), b)
    ensures Coalesced(a + mid + b) <==> Coalesced(a) && Coalesced(b)
  {
    hide Len, Active, FreeSet, Coalesced, Avail, Dirty, Adjac;
    UsedCounts(c, lo + Len(a), mid);
    Counts3(c, lo, a, mid, b);
    assert mid[0] in mid && mid[|mid| - 1] in mid;
  }

  /** Re-tagging a stretch of allocated pages as other allocated runs changes no count. */
  lemma UsedExchange(k: Config, s: State, c: nat, a: seq<Run>, mid: seq<Run>, mid': seq<Run>, b: seq<Run>, m': seq<MapBits>)
    requires Whole(k, s, c, a + mid + b) && s.tiles.Keys == s.chunks.Keys && s.spare != Some(c)
    requires AllUsed(mid) && AllUsed(mid') && Len(mid) == Len(mid') && BinSized(mid', k.runPages)
    requires Within(s.chunks[c].map_, m', k.mapBias + Len(a), k.mapBias + Len(a) + Len(mid))
    requires Tiles(m', k.mapBias + Len(a), mid')
    ensures var s' := Remapped(s, c, m', a + mid' + b, 0);
      Whole(k, s', c, a + mid' + b) && Frame(s, s', c)
  {
    hide Len, Active, FreeSet, Coalesced, Avail, Dirty, Adjac, Tiles, Touch, AllUsed, RunAt;
    UsedCounts3(c, k.mapBias, a, mid, b);
    UsedCounts3(c, k.mapBias, a, mid', b);
    TilesExchange(s.chunks[c].map_, m', k.mapBias, a, mid, mid', b);
    assert BinSized(a + mid' + b, k.runPages) by {
      assert forall r :: r in a + mid' + b ==> r in a + mid + b || r in mid';
    }
  }
}
