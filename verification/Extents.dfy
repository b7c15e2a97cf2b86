/**
 Free chunk extents (`chunk_record`, `chunk_recycle` in chunk.c) against a set of free addresses.

 The two trees are ordered sets of extents.  Addresses and sizes are bytes below 2^64; the chunk
 size is symbolic.  Whether a node can be allocated is a parameter.
 */
module Extents {

  import opened Basics

  datatype Extent = Extent(addr: nat, size: nat)

  const M: nat := 0x1_0000_0000_0000_0000

  /* --- Multiples ------------------------------------------------------------------ */

  /** The remainder of unsigned division. */
  function Mod(x: nat, m: nat): (r: nat)
    requires m > 0
    ensures r < m && r <= x
  {
    if x < m then x else Mod(x - m, m)
  }

  predicate Multiple(m: nat, x: nat)
    requires m > 0
  {
    Mod(x, m) == 0
  }

  lemma {:induction false} MultipleSum(m: nat, x: nat, y: nat)
    requires m > 0 && Multiple(m, x)
    ensures Multiple(m, x + y) <==> Multiple(m, y)
    decreases x
  {
    if x >= m {
      MultipleSum(m, x - m, y);
    }
  }

  lemma {:induction false} MultipleFloor(m: nat, x: nat)
    requires m > 0
    ensures Multiple(m, x - Mod(x, m))
    decreases x
  {
    if x >= m {
      MultipleFloor(m, x - m);
      MultipleSum(m, m, x - m - Mod(x - m, m));
    }
  }

  lemma {:induction false} MultipleTrans(c: nat, m: nat, x: nat)
    requires c > 0 && m > 0 && Multiple(c, m) && Multiple(m, x)
    ensures Multiple(c, x)
    decreases x
  {
    if x >= m {
      MultipleTrans(c, m, x - m);
      MultipleSum(c, m, x - m);
    }
  }

  ghost function End(e: Extent): nat { e.addr + e.size }

  /** The two do not overlap. */
  ghost predicate Apart(e: Extent, f: Extent)
  {
    End(e) <= f.addr || End(f) <= e.addr
  }

  /** No two touch: everything is joined that can be. */
  ghost predicate Untouching(s: set<Extent>)
  {
    forall e, f :: e in s && f in s ==> End(e) != f.addr
  }

  ghost predicate Fits(c: nat, addr: nat, size: nat)
    requires c > 0
  {
    addr > 0 && size > 0 && Multiple(c, addr) && Multiple(c, size) && addr + size <= M
  }

  ghost predicate Extents(c: nat, s: set<Extent>)
    requires c > 0
  {
    && (forall e :: e in s ==> Fits(c, e.addr, e.size))
    && (forall e, f :: e in s && f in s && e != f ==> Apart(e, f))
  }

  predicate Covers(e: Extent, a: nat)
  {
    e.addr <= a < e.addr + e.size
  }

  ghost predicate Free(s: set<Extent>, a: nat)
  {
    exists e :: e in s && Covers(e, a)
  }

  ghost predicate NoneFree(s: set<Extent>, addr: nat, size: nat)
  {
    forall a: nat :: addr <= a < addr + size ==> !Free(s, a)
  }

  /* --- Sets of extents ----------------------------------------------------------- */

  /** The free addresses determine the extents: they are the maximal free ranges. */
  lemma Canonical(c: nat, s: set<Extent>, t: set<Extent>)
    requires c > 0 && Extents(c, s) && Extents(c, t) && Untouching(s) && Untouching(t)
    requires forall a: nat :: Free(s, a) <==> Free(t, a)
    ensures s == t
  {
    forall e | e in s ensures e in t {
      SameExtent(c, s, t, e);
    }
    forall e | e in t ensures e in s {
      SameExtent(c, t, s, e);
    }
  }

  /** Recording a recycled range again restores the very same extents. */
  lemma GivenBack(c: nat, s0: set<Extent>, s1: set<Extent>, s2: set<Extent>, addr: nat, size: nat)
    requires c > 0 && Extents(c, s0) && Extents(c, s2) && Untouching(s0) && Untouching(s2)
    requires forall a: nat :: addr <= a < addr + size ==> Free(s0, a)
    requires forall a: nat :: Free(s1, a) <==> Free(s0, a) && !(addr <= a < addr + size)
    requires forall a: nat :: Free(s2, a) <==> Free(s1, a) || addr <= a < addr + size
    ensures s2 == s0
  {
    hide Extents, Free, Untouching;
    Canonical(c, s0, s2);
  }

  lemma SameExtent(c: nat, s: set<Extent>, t: set<Extent>, e: Extent)
    requires c > 0 && Extents(c, s) && Extents(c, t) && Untouching(s) && Untouching(t)
    requires e in s && forall a: nat :: Free(s, a) <==> Free(t, a)
    ensures e in t
  {
    CoversFree(s, e, e.addr);
    var f :| f in t && Covers(f, e.addr);
    if f.addr < e.addr {
      CoversFree(t, f, e.addr - 1);
      Beside(c, s, e, e.addr - 1);
      assert false;
    }
    if End(e) < End(f) {
      CoversFree(t, f, End(e));
      Beside(c, s, e, End(e));
      assert false;
    }
    if End(f) < End(e) {
      CoversFree(s, e, End(f));
      Beside(c, t, f, End(f));
      assert false;
    }
  }

  lemma CoversFree(s: set<Extent>, e: Extent, a: nat)
    requires e in s && Covers(e, a)
    ensures Free(s, a)
  {
  }

  /** An address just outside an extent is not free. */
  lemma Beside(c: nat, s: set<Extent>, e: Extent, a: nat)
    requires c > 0 && Extents(c, s) && Untouching(s) && e in s && (a + 1 == e.addr || a == End(e))
    ensures !Free(s, a)
  {
    forall g | g in s ensures !Covers(g, a) {
      assert g != e ==> Apart(e, g);
    }
  }

  /** Replacing an extent by separate parts of itself. */
  lemma SplitOk(c: nat, s: set<Extent>, e: Extent, parts: set<Extent>)
    requires c > 0 && Extents(c, s) && e in s && Extents(c, parts)
    requires forall p :: p in parts ==> e.addr <= p.addr && End(p) <= End(e)
    ensures Extents(c, s - {e} + parts) && (Untouching(s) && Untouching(parts) ==> Untouching(s - {e} + parts))
    ensures forall a: nat :: Free(s - {e} + parts, a) <==> (Free(s, a) && !Covers(e, a)) || Free(parts, a)
  {
    hide Multiple, Free;
    var r := s - {e} + parts;
    forall f, g | f in r && g in r && f != g
      ensures Apart(f, g) && (Untouching(s) && Untouching(parts) ==> End(f) != g.addr)
    {
      SplitApart(c, s, e, parts, f, g);
    }
    forall a: nat ensures Free(r, a) <==> (Free(s, a) && !Covers(e, a)) || Free(parts, a) {
      SplitFree(c, s, e, parts, a);
    }
  }

  lemma SplitApart(c: nat, s: set<Extent>, e: Extent, parts: set<Extent>, f: Extent, g: Extent)
    requires c > 0 && Extents(c, s) && e in s && Extents(c, parts)
    requires forall p :: p in parts ==> e.addr <= p.addr && End(p) <= End(e)
    requires f != g && (f in parts || (f in s && f != e)) && (g in parts || (g in s && g != e))
    ensures Apart(f, g) && (Untouching(s) && Untouching(parts) ==> End(f) != g.addr)
  {
    hide Multiple;
    assert f !in parts ==> Apart(e, f);
    assert g !in parts ==> Apart(e, g);
  }

  lemma SplitFree(c: nat, s: set<Extent>, e: Extent, parts: set<Extent>, a: nat)
    requires c > 0 && Extents(c, s) && e in s
    requires forall p :: p in parts ==> e.addr <= p.addr && End(p) <= End(e)
    ensures Free(s - {e} + parts, a) <==> (Free(s, a) && !Covers(e, a)) || Free(parts, a)
  {
    hide Multiple;
    var r := s - {e} + parts;
    if Free(r, a) {
      var f :| f in r && Covers(f, a);
      assert f in parts || (f in s && f != e && Apart(e, f));
    }
    if Free(s, a) && !Covers(e, a) {
      var f :| f in s && Covers(f, a);
      assert f in r;
    }
    if Free(parts, a) {
      var f :| f in parts && Covers(f, a);
      assert f in r;
    }
  }

  /** `p` is the extent of `s` that ends at `a`, or there is none. */
  ghost predicate Ending(s: set<Extent>, a: nat, p: Option<Extent>)
  {
    match p
    case Some(e) => e in s && End(e) == a
    case None => forall e :: e in s ==> End(e) != a
  }

  ghost predicate Starting(s: set<Extent>, a: nat, n: Option<Extent>)
  {
    match n
    case Some(e) => e in s && e.addr == a
    case None => forall e :: e in s ==> e.addr != a
  }

  function Drop(s: set<Extent>, p: Option<Extent>): set<Extent>
  {
    match p case None => s case Some(e) => s - {e}
  }

  /** The recorded range together with its neighbours. */
  function Joined(addr: nat, size: nat, p: Option<Extent>, n: Option<Extent>): Extent
  {
    Extent(if p.Some? then p.value.addr else addr,
      (if p.Some? then p.value.size else 0) + size + if n.Some? then n.value.size else 0)
  }

  ghost predicate Recordable(c: nat, s: set<Extent>, addr: nat, size: nat)
    requires c > 0
  {
    Extents(c, s) && Fits(c, addr, size) && NoneFree(s, addr, size)
  }

  /** An extent of `s` lies on one side of a range none of which is free. */
  lemma OneSide(c: nat, s: set<Extent>, addr: nat, size: nat, e: Extent)
    requires c > 0 && Recordable(c, s, addr, size) && e in s
    ensures End(e) <= addr || addr + size <= e.addr
  {
    assert Covers(e, e.addr) ==> Free(s, e.addr);
    assert Covers(e, addr) ==> Free(s, addr);
  }

  lemma JoinFits(c: nat, s: set<Extent>, addr: nat, size: nat, p: Option<Extent>, n: Option<Extent>)
    requires c > 0 && Recordable(c, s, addr, size) && Ending(s, addr, p) && Starting(s, addr + size, n)
    ensures Fits(c, Joined(addr, size, p, n).addr, Joined(addr, size, p, n).size)
  {
    if n.Some? {
      MultipleSum(c, size, n.value.size);
    }
    if p.Some? {
      MultipleSum(c, p.value.size, size + if n.Some? then n.value.size else 0);
    }
  }

  lemma JoinApart(c: nat, s: set<Extent>, addr: nat, size: nat, p: Option<Extent>, n: Option<Extent>, e: Extent)
    requires c > 0 && Recordable(c, s, addr, size) && Ending(s, addr, p) && Starting(s, addr + size, n)
    requires e in Drop(Drop(s, p), n)
    ensures var j := Joined(addr, size, p, n); Apart(e, j) && (Untouching(s) ==> End(e) != j.addr && End(j) != e.addr)
  {
    hide Multiple;
    OneSide(c, s, addr, size, e);
    assert p.Some? ==> Apart(e, p.value);
    assert n.Some? ==> Apart(e, n.value);
  }

  /** Recording a range joins it with what touches it and adds exactly its addresses. */
  lemma JoinOk(c: nat, s: set<Extent>, addr: nat, size: nat, p: Option<Extent>, n: Option<Extent>)
    requires c > 0 && Recordable(c, s, addr, size) && Ending(s, addr, p) && Starting(s, addr + size, n)
    ensures var r := Drop(Drop(s, p), n) + {Joined(addr, size, p, n)};
      && Extents(c, r) && (Untouching(s) ==> Untouching(r))
      && forall a: nat :: Free(r, a) <==> Free(s, a) || addr <= a < addr + size
  {
    var j := Joined(addr, size, p, n);
    var kept := Drop(Drop(s, p), n);
    var r := kept + {j};
    JoinFits(c, s, addr, size, p, n);
    forall e | e in kept ensures Apart(e, j) && (Untouching(s) ==> End(e) != j.addr && End(j) != e.addr) {
      JoinApart(c, s, addr, size, p, n, e);
    }
    forall a: nat ensures Free(r, a) <==> Free(s, a) || addr <= a < addr + size {
      JoinFree(s, addr, size, p, n, a);
    }
  }

  lemma JoinFree(s: set<Extent>, addr: nat, size: nat, p: Option<Extent>, n: Option<Extent>, a: nat)
    requires Ending(s, addr, p) && Starting(s, addr + size, n)
    ensures Free(Drop(Drop(s, p), n) + {Joined(addr, size, p, n)}, a) <==> Free(s, a) || addr <= a < addr + size
  {
    var j := Joined(addr, size, p, n);
    var r := Drop(Drop(s, p), n) + {j};
    assert Covers(j, a) <==> (p.Some? && Covers(p.value, a)) || addr <= a < addr + size || (n.Some? && Covers(n.value, a));
    if Free(s, a) {
      var e :| e in s && Covers(e, a);
      assert e in r || Covers(j, a);
    }
    if Covers(j, a) {
      assert j in r;
    }
  }

  /** Seen from `f`, the node is on the same side before and after it is resized. */
  ghost predicate InPlace(e: Extent, resized: Extent, f: Extent)
  {
    (f.addr < e.addr <==> f.addr < resized.addr) && f.addr != resized.addr
  }

  /** Moving the start of the following extent down to `addr` does not change its place in address order. */
  lemma SamePlace(c: nat, s: set<Extent>, addr: nat, size: nat, e: Extent, f: Extent)
    requires c > 0 && Recordable(c, s, addr, size) && e in s && e.addr == addr + size && f in s && f != e
    ensures InPlace(e, Extent(addr, e.size + size), f)
  {
    OneSide(c, s, addr, size, f);
  }

  /** Nor does moving the start of the recorded extent down over the preceding one, once that is taken out. */
  lemma SamePlaceBack(c: nat, s: set<Extent>, addr: nat, size: nat, p: Extent, node: Extent, f: Extent)
    requires c > 0 && Recordable(c, s, addr, size) && p in s && End(p) == addr && node.addr == addr && f in s && f != p
    ensures InPlace(node, Extent(p.addr, node.size + p.size), f)
  {
    OneSide(c, s, addr, size, f);
    assert Apart(p, f);
  }

  /* --- The trees -------------------------------------------------------------------- */

  /** `extent_szad_comp`. */
  predicate SizeBefore(e: Extent, f: Extent)
  {
    e.size < f.size || (e.size == f.size && e.addr < f.addr)
  }

  /** The smallest extent of at least `size`, the lowest of these. */
  ghost predicate BestFit(s: set<Extent>, size: nat, e: Extent)
  {
    e in s && e.size >= size && forall f :: f in s && f.size >= size && f != e ==> SizeBefore(e, f)
  }

  /** `ALIGNMENT_CEILING`, for an alignment that is a power of two. */
  function Ceiling(a: nat, alignment: nat): nat
    requires alignment > 0
  {
    var x := (a + (alignment - 1)) % M;
    x - Mod(x, alignment)
  }

  /** The slack of `alignment - chunksize` is enough to find an aligned place in the extent. */
  lemma Leads(c: nat, a: nat, size: nat, alignment: nat, have: nat)
    requires c > 0 && alignment > 0 && Fits(c, a, have) && Multiple(c, size) && size > 0 && Multiple(c, alignment)
    requires have >= size + alignment - c
    ensures a <= Ceiling(a, alignment) < a + alignment && Ceiling(a, alignment) + size <= a + have
    ensures Multiple(alignment, Ceiling(a, alignment)) && Multiple(c, Ceiling(a, alignment))
    ensures Multiple(c, Ceiling(a, alignment) - a) && Multiple(c, a + have - size - Ceiling(a, alignment))
    ensures Ceiling(a, alignment) == a <==> Multiple(alignment, a)
  {
    assert size >= c && alignment >= c;
    var x := a + (alignment - 1);
    var up := x - Mod(x, alignment);
    MultipleFloor(alignment, x);
    MultipleTrans(c, alignment, up);
    MultipleSum(c, a, up - a);
    var lead := up - a;
    MultipleSum(c, lead, alignment - lead);
    assert alignment - lead >= c;
    MultipleSum(c, lead, size);
    MultipleSum(c, lead + size, have - lead - size);
    if Multiple(alignment, a) {
      MultipleSum(alignment, a, lead);
    }
  }

  lemma BestUnique(s: set<Extent>, size: nat, e: Extent, f: Extent)
    requires BestFit(s, size, e) && BestFit(s, size, f)
    ensures e == f
  {
  }

  /** The best fit for an aligned range is larger than that range on both sides. */
  ghost predicate LeavesBoth(s: set<Extent>, c: nat, size: nat, alignment: nat)
    requires alignment > 0 && size + alignment >= c
  {
    exists e :: BestFit(s, size + alignment - c, e) && !Multiple(alignment, e.addr) && Ceiling(e.addr, alignment) + size < End(e)
  }

  lemma LeavesBothIs(s: set<Extent>, c: nat, size: nat, alignment: nat, e: Extent)
    requires alignment > 0 && size + alignment >= c && BestFit(s, size + alignment - c, e)
    ensures LeavesBoth(s, c, size, alignment) <==> !Multiple(alignment, e.addr) && Ceiling(e.addr, alignment) + size < End(e)
  {
    hide BestFit, Multiple, Ceiling;
    var least := size + alignment - c;
    forall f | BestFit(s, least, f) ensures f == e {
      BestUnique(s, least, e, f);
    }
  }

  lemma NoneFits(s: set<Extent>, c: nat, size: nat, alignment: nat)
    requires alignment > 0 && size + alignment >= c
    ensures (forall e :: e in s ==> e.size < size + alignment - c) ==> !LeavesBoth(s, c, size, alignment)
  {
  }

  /** Some extent reaches from an address on or before `a` exactly to `end`. */
  ghost predicate Covering(s: set<Extent>, a: nat, end: nat)
  {
    exists e :: e in s && e.addr <= a && End(e) == end
  }

  /** Where `chunk_recycle` is when it may have to drop the lock: the space behind the range is still to be put back. */
  datatype Begun = Refused | Taken(addr: nat) | Owed(addr: nat, trail: Extent)

  datatype Recycled = Nothing | Got(addr: nat) | NoNode(addr: nat, trail: Extent)

  class ChunkTrees {
    const chunksize: nat
    var szad: set<Extent>
    var ad: set<Extent>

    ghost predicate Valid()
      reads this
    {
      chunksize > 0 && szad == ad && Extents(chunksize, ad)
    }

    constructor (chunksize: nat)
      requires chunksize > 0
      ensures Valid() && ad == {} && this.chunksize == chunksize
    {
      this.chunksize, szad, ad := chunksize, {}, {};
    }

    /** `extent_tree_szad_nsearch`. */
    method SizeSearch(size: nat) returns (o: Option<Extent>)
      ensures o.None? <==> forall e :: e in szad ==> e.size < size
      ensures o.Some? ==> BestFit(szad, size, o.value)
    {
      o := None;
      var rest := szad;
      while rest != {}
        invariant rest <= szad
        invariant o.None? ==> forall e :: e in szad - rest ==> e.size < size
        invariant o.Some? ==> BestFit(szad - rest, size, o.value)
        decreases rest
      {
        var e :| e in rest;
        if e.size >= size && (o.None? || SizeBefore(e, o.value)) {
          o := Some(e);
        }
        rest := rest - {e};
      }
      assert szad - {} == szad;
    }

    /** `extent_tree_ad_nsearch`. */
    method NextSearch(a: nat) returns (o: Option<Extent>)
      ensures o.None? ==> forall e :: e in ad ==> e.addr < a
      ensures o.Some? ==> o.value in ad && o.value.addr >= a && forall e :: e in ad && e.addr >= a ==> o.value.addr <= e.addr
    {
      o := None;
      var rest := ad;
      while rest != {}
        invariant rest <= ad
        invariant o.None? ==> forall e :: e in ad - rest ==> e.addr < a
        invariant o.Some? ==> o.value in ad && o.value.addr >= a
        invariant o.Some? ==> forall e :: e in ad - rest && e.addr >= a ==> o.value.addr <= e.addr
        decreases rest
      {
        var e :| e in rest;
        if e.addr >= a && (o.None? || e.addr < o.value.addr) {
          o := Some(e);
        }
        rest := rest - {e};
      }
    }

    /** `extent_tree_ad_prev`. */
    method PrevSearch(a: nat) returns (o: Option<Extent>)
      ensures o.None? ==> forall e :: e in ad ==> e.addr >= a
      ensures o.Some? ==> o.value in ad && o.value.addr < a && forall e :: e in ad && e.addr < a ==> e.addr <= o.value.addr
    {
      o := None;
      var rest := ad;
      while rest != {}
        invariant rest <= ad
        invariant o.None? ==> forall e :: e in ad - rest ==> e.addr >= a
        invariant o.Some? ==> o.value in ad && o.value.addr < a
        invariant o.Some? ==> forall e :: e in ad - rest && e.addr < a ==> e.addr <= o.value.addr
        decreases rest
      {
        var e :| e in rest;
        if e.addr < a && (o.None? || o.value.addr < e.addr) {
          o := Some(e);
        }
        rest := rest - {e};
      }
    }

    /**
     `chunk_record`: the range becomes free, joined with what touches it.  Without a node it is
     leaked, unless the following extent can take it in.
     */
    method Record(chunk: nat, size: nat, xnode: bool)
      requires Valid() && Recordable(chunksize, ad, chunk, size)
      modifies this
      ensures Valid()
      ensures xnode || (exists e :: e in old(ad) && e.addr == chunk + size) ==>
        forall a: nat :: Free(ad, a) <==> Free(old(ad), a) || chunk <= a < chunk + size
      ensures !xnode && (forall e :: e in old(ad) ==> e.addr != chunk + size) ==> ad == old(ad)
      ensures old(Untouching(ad)) ==> Untouching(ad)
    {
      hide Untouching, Extents, Free, Fits, NoneFree;
      ghost var s := ad;
      var key := (chunk + size) % M;
      var next := NextSearch(key);
      Forward(chunksize, s, chunk, size, next);
      var node := Extent(chunk, size);
      ghost var n := None;
      if next.Some? && next.value.addr == key {
        n := next;
        szad := szad - {next.value};
        node := Extent(chunk, next.value.size + size);
        forall f | f in s && f != next.value ensures InPlace(next.value, node, f) {
          SamePlace(chunksize, s, chunk, size, next.value, f);
        }
        ad := ad - {next.value} + {node};
        szad := szad + {node};
      } else {
        if !xnode {
          return;
        }
        ad := ad + {node};
        szad := szad + {node};
      }
      var prev := PrevSearch(chunk);
      Backward(chunksize, s, chunk, size, n, ad, prev);
      if prev.Some? && prev.value.addr + prev.value.size == chunk {
        szad := szad - {prev.value};
        ad := ad - {prev.value};
        szad := szad - {node};
        forall f | f in ad && f != node ensures InPlace(node, Extent(prev.value.addr, node.size + prev.value.size), f) {
          SamePlaceBack(chunksize, s, chunk, size, prev.value, node, f);
        }
        ad := ad - {node} + {Extent(prev.value.addr, node.size + prev.value.size)};
        szad := szad + {Extent(prev.value.addr, node.size + prev.value.size)};
        JoinOk(chunksize, s, chunk, size, prev, n);
        assert ad == Drop(Drop(s, prev), n) + {Joined(chunk, size, prev, n)};
      } else {
        JoinOk(chunksize, s, chunk, size, None, n);
        assert ad == Drop(Drop(s, None), n) + {Joined(chunk, size, None, n)};
      }
    }

    /**
     `chunk_recycle` up to where it may drop the lock: an aligned range out of the best fit, if some
     extent is surely large enough.  If space is left on both sides, that behind is still owed.
     */
    method RecycleStart(size: nat, alignment: nat, base: bool) returns (b: Begun)
      requires Valid() && 0 < size < M && 0 < alignment < M && Multiple(chunksize, size) && Multiple(chunksize, alignment)
      modifies this
      ensures Valid()
      ensures b.Refused? <==> base || forall e :: e in old(ad) ==> e.size < size + alignment - chunksize
      ensures b.Refused? ==> ad == old(ad)
      ensures !b.Refused? ==> Multiple(alignment, b.addr) && (forall a: nat :: b.addr <= a < b.addr + size ==> Free(old(ad), a))
      ensures !b.Refused? ==> exists e :: BestFit(old(ad), size + alignment - chunksize, e) && e.addr <= b.addr < e.addr + alignment
      ensures b.Taken? ==> forall a: nat :: Free(ad, a) <==> Free(old(ad), a) && !(b.addr <= a < b.addr + size)
      ensures b.Owed? <==> !base && LeavesBoth(old(ad), chunksize, size, alignment)
      ensures b.Owed? ==> Covering(old(ad), b.addr, End(b.trail)) && Pending(chunksize, ad, b.addr, size, b.trail)
      ensures b.Owed? ==> forall a: nat :: Free(ad, a) <==> Free(old(ad), a) && !(b.addr <= a < End(b.trail))
      ensures old(Untouching(ad)) ==> Untouching(ad) && (b.Owed? ==> forall e :: e in ad ==> e.addr != End(b.trail))
    {
      hide Untouching, Extents, Free, Multiple, Fits, SizeBefore, Ceiling, LeavesBoth;
      AtLeast(chunksize, size);
      AtLeast(chunksize, alignment);
      if base {
        return Refused;
      }
      ghost var s := ad;
      var allocSize := (size + alignment - chunksize) % M;
      NoWider(chunksize, s);
      NoneFits(s, chunksize, size, alignment);
      if allocSize < size {
        return Refused;
      }
      var o := SizeSearch(allocSize);
      if o.None? {
        return Refused;
      }
      var node := o.value;
      ghost var e := node;
      ExtentFits(chunksize, s, e);
      Leads(chunksize, e.addr, size, alignment, e.size);
      assert BestFit(s, size + alignment - chunksize, e);
      LeavesBothIs(s, chunksize, size, alignment, e);
      b := Carve(node, Ceiling(node.addr, alignment) - node.addr, size);
    }

    /** Take the range out of the node and put back what is left on either side, on both sides only the first. */
    method Carve(node: Extent, lead: nat, size: nat) returns (b: Begun)
      requires Valid() && node in ad && size > 0 && lead + size <= node.size
      requires Multiple(chunksize, lead) && Multiple(chunksize, node.addr + lead) && Multiple(chunksize, size)
      requires Multiple(chunksize, node.size - lead - size)
      modifies this
      ensures Valid() && !b.Refused? && b.addr == node.addr + lead
      ensures forall a: nat :: b.addr <= a < b.addr + size ==> Free(old(ad), a)
      ensures b.Taken? ==> forall a: nat :: Free(ad, a) <==> Free(old(ad), a) && !(b.addr <= a < b.addr + size)
      ensures b.Owed? <==> lead != 0 && lead + size < node.size
      ensures b.Owed? ==> Pending(chunksize, ad, b.addr, size, b.trail) && End(b.trail) == End(node)
      ensures b.Owed? ==> forall a: nat :: Free(ad, a) <==> Free(old(ad), a) && !(b.addr <= a < End(b.trail))
      ensures old(Untouching(ad)) ==> Untouching(ad) && (b.Owed? ==> forall e :: e in ad ==> e.addr != End(b.trail))
    {
      hide Untouching, Extents, Free, Multiple, Pending;
      ghost var s := ad;
      TakeOk(chunksize, s, node, lead, size);
      var trail := node.size - lead - size;
      var ret := node.addr + lead;
      szad := szad - {node};
      ad := ad - {node};
      if lead != 0 {
        szad := szad + {Extent(node.addr, lead)};
        ad := ad + {Extent(node.addr, lead)};
      }
      if trail != 0 {
        if lead != 0 {
          TakeBoth(chunksize, s, node, lead);
          assert ad == s - {node} + Around(node, lead, node.size - lead);
          NowPending(chunksize, s, ad, node, lead, size);
          return Owed(ret, Extent(ret + size, trail));
        }
        szad := szad + {Extent(ret + size, trail)};
        ad := ad + {Extent(ret + size, trail)};
      }
      assert ad == s - {node} + Around(node, lead, size);
      return Taken(ret);
    }

    /**
     The rest of `chunk_recycle`, with the lock taken again and the trees as the other threads have left
     them.  The owed part goes in as it is, so it touches what another thread may have recorded behind
     it.  Without a node it is lost, and `chunk_dealloc` records the range itself if it is kept mapped
     and there is a node for that.
     */
    method RecycleFinish(addr: nat, size: nat, trail: Extent, xnode: bool, kept: bool, again: bool) returns (r: Recycled)
      requires Valid() && Pending(chunksize, ad, addr, size, trail)
      modifies this
      ensures r == if xnode then Got(addr) else NoNode(addr, trail)
      ensures Valid() && (old(Untouching(ad)) ==> (Untouching(ad) <==> !xnode || forall e :: e in old(ad) ==> e.addr != End(trail)))
      ensures xnode ==> ad == old(ad) + {trail} && forall a: nat :: Free(ad, a) <==> Free(old(ad), a) || Covers(trail, a)
      ensures !xnode ==> forall a: nat :: Free(ad, a) <==> Free(old(ad), a) || (kept && again && addr <= a < addr + size)
      ensures !xnode && !(kept && again) ==> ad == old(ad)
    {
      hide Untouching, Extents, Free, Fits, NoneFree;
      NothingBehind(chunksize, ad, addr, size, trail);
      if !xnode {
        if kept {
          Record(addr, size, again);
        }
        return NoNode(addr, trail);
      }
      PutOk(chunksize, ad, addr, size, trail);
      ad := ad + {trail};
      szad := szad + {trail};
      return Got(addr);
    }

    /** `chunk_recycle` when no other thread comes in between. */
    method Recycle(size: nat, alignment: nat, base: bool, xnode: bool) returns (r: Recycled)
      requires Valid() && 0 < size < M && 0 < alignment < M && Multiple(chunksize, size) && Multiple(chunksize, alignment)
      modifies this
      ensures Valid() && (old(Untouching(ad)) ==> Untouching(ad))
      ensures r.Nothing? <==> base || forall e :: e in old(ad) ==> e.size < size + alignment - chunksize
      ensures r.Nothing? ==> ad == old(ad)
      ensures !r.Nothing? ==> Multiple(alignment, r.addr) && (forall a: nat :: r.addr <= a < r.addr + size ==> Free(old(ad), a))
      ensures !r.Nothing? ==> exists e :: BestFit(old(ad), size + alignment - chunksize, e) && e.addr <= r.addr < e.addr + alignment
      ensures r.Got? ==> forall a: nat :: Free(ad, a) <==> Free(old(ad), a) && !(r.addr <= a < r.addr + size)
      ensures r.NoNode? <==> !base && !xnode && LeavesBoth(old(ad), chunksize, size, alignment)
      ensures r.NoNode? ==> r.trail.addr == r.addr + size && r.trail.size > 0 && Covering(old(ad), r.addr, End(r.trail))
      ensures r.NoNode? ==>
        forall a: nat :: Free(ad, a) <==> Free(old(ad), a) && !(r.addr <= a < End(r.trail))
    {
      hide Untouching, Extents, Free, Multiple, BestFit, NoneFree, LeavesBoth;
      var b := RecycleStart(size, alignment, base);
      match b {
        case Refused => r := Nothing;
        case Taken(addr) => r := Got(addr);
        case Owed(addr, trail) =>
          CoveredFree(old(ad), addr, End(trail));
          r := RecycleFinish(addr, size, trail, xnode, false, false);
      }
    }
  }

  /** Without a node and with nothing behind it, a recorded chunk is lost. */
  method RecordLoses() returns (t: ChunkTrees)
    ensures t.Valid() && t.ad == {}
  {
    t := new ChunkTrees(1);
    MultipleOne(4);
    MultipleOne(1);
    t.Record(4, 1, false);
  }

  /** Chunks 5 to 12 are free. */
  method FiveToTwelve() returns (t: ChunkTrees)
    ensures fresh(t) && t.Valid() && Untouching(t.ad) && t.chunksize == 1 && t.ad == {Extent(5, 8)} && forall x: nat :: Multiple(1, x)
    ensures LeavesBoth(t.ad, 1, 2, 4) && Ceiling(5, 4) == 8 && BestFit(t.ad, 5, Extent(5, 8))
    ensures forall a: nat :: Free(t.ad, a) <==> 5 <= a < 13
  {
    hide Multiple;
    forall x: nat ensures Multiple(1, x) {
      MultipleOne(x);
    }
    t := new ChunkTrees(1);
    t.Record(5, 8, true);
    var only := {Extent(5, 8)};
    assert forall a: nat :: Free(only, a) <==> 5 <= a < 13 by {
      assert forall a: nat :: 5 <= a < 13 ==> Covers(Extent(5, 8), a);
    }
    Canonical(1, t.ad, only);
    AlignedFour();
    assert BestFit(only, 5, Extent(5, 8));
  }

  /** Eight chunks from 5 on are free; two are wanted, aligned to four.  Chunks 10 to 12 are lost. */
  method RecycleLoses() returns (t: ChunkTrees, r: Recycled)
    ensures t.Valid() && r == NoNode(8, Extent(10, 3)) && forall a: nat :: Free(t.ad, a) <==> 5 <= a < 8
  {
    hide Multiple;
    t := FiveToTwelve();
    AlignedFour();
    r := t.Recycle(2, 4, false, false);
  }

  /** While the lock is dropped another thread records chunk 13; chunks 10 to 12 then go in beside it, unjoined. */
  method Unjoined() returns (t: ChunkTrees)
    ensures {Extent(10, 3), Extent(13, 1)} <= t.ad && t.Valid() && !Untouching(t.ad)
  {
    hide Multiple, Extents, Free;
    t := FiveToTwelve();
    AlignedFour();
    var b := t.RecycleStart(2, 4, false);
    assert b == Owed(8, Extent(10, 3));
    t.Record(13, 1, true);
    TwoApart(t.ad);
    var r := t.RecycleFinish(8, 2, Extent(10, 3), true, true, true);
  }

  lemma TwoApart(s: set<Extent>)
    requires Extents(1, s) && Untouching(s) && (forall x: nat :: Multiple(1, x)) && forall a: nat :: Free(s, a) <==> 5 <= a < 8 || a == 13
    ensures s == {Extent(5, 3), Extent(13, 1)}
  {
    hide Multiple;
    var two := {Extent(5, 3), Extent(13, 1)};
    forall a: nat ensures Free(two, a) <==> 5 <= a < 8 || a == 13 {
      assert Covers(Extent(5, 3), a) || Covers(Extent(13, 1), a) <==> 5 <= a < 8 || a == 13;
      if Covers(Extent(5, 3), a) {
        CoversFree(two, Extent(5, 3), a);
      }
      if Covers(Extent(13, 1), a) {
        CoversFree(two, Extent(13, 1), a);
      }
    }
    Canonical(1, s, two);
  }

  lemma {:induction false} MultipleOne(x: nat)
    ensures Multiple(1, x)
  {
    if x > 0 {
      MultipleOne(x - 1);
    }
  }

  lemma AlignedFour()
    ensures Ceiling(5, 4) == 8 && !Multiple(4, 5) && !Multiple(4, 6) && !Multiple(4, 7) && Multiple(4, 8)
  {
    assert Mod(1, 4) == 1 && Mod(2, 4) == 2 && Mod(3, 4) == 3 && Mod(0, 4) == 0;
    assert Mod(5, 4) == 1 && Mod(6, 4) == 2 && Mod(7, 4) == 3 && Mod(4, 4) == 0;
    assert Mod(8, 4) == 0;
  }

  /** The range and the part behind it are in the hands of the thread: nothing of them is free. */
  ghost predicate Pending(c: nat, s: set<Extent>, addr: nat, size: nat, trail: Extent)
    requires c > 0
  {
    Recordable(c, s, addr, size) && trail.addr == addr + size && Recordable(c, s, trail.addr, trail.size)
  }

  lemma NowPending(c: nat, s: set<Extent>, t: set<Extent>, e: Extent, lead: nat, size: nat)
    requires c > 0 && Extents(c, s) && e in s && Extents(c, t) && 0 < lead && 0 < size && lead + size < e.size
    requires Multiple(c, e.addr + lead) && Multiple(c, size) && Multiple(c, e.size - lead - size)
    requires t == s - {e} + Around(e, lead, e.size - lead)
    requires forall a: nat :: Free(t, a) <==> Free(s, a) && !(e.addr + lead <= a < End(e))
    ensures Pending(c, t, e.addr + lead, size, Extent(e.addr + lead + size, e.size - lead - size))
    ensures Untouching(s) ==> forall f :: f in t ==> f.addr != End(e)
  {
    hide Multiple, Free;
    MultipleSum(c, e.addr + lead, size);
    assert forall f :: f in s && f != e ==> Apart(e, f);
  }

  lemma CoveredFree(s: set<Extent>, a: nat, end: nat)
    requires Covering(s, a, end)
    ensures forall b: nat :: a <= b < end ==> Free(s, b)
  {
    var e :| e in s && e.addr <= a && End(e) == end;
    forall b: nat | a <= b < end ensures Free(s, b) {
      CoversFree(s, e, b);
    }
  }

  /** No extent starts right behind the range: the part there is not free. */
  lemma NothingBehind(c: nat, s: set<Extent>, addr: nat, size: nat, trail: Extent)
    requires c > 0 && Pending(c, s, addr, size, trail)
    ensures forall e :: e in s ==> e.addr != addr + size
  {
    forall e | e in s ensures e.addr != trail.addr {
      OneSide(c, s, trail.addr, trail.size, e);
    }
  }

  lemma PutOk(c: nat, s: set<Extent>, addr: nat, size: nat, trail: Extent)
    requires c > 0 && Pending(c, s, addr, size, trail)
    ensures Extents(c, s + {trail})
    ensures Untouching(s) ==> (Untouching(s + {trail}) <==> forall e :: e in s ==> e.addr != End(trail))
    ensures forall a: nat :: Free(s + {trail}, a) <==> Free(s, a) || Covers(trail, a)
  {
    hide Multiple;
    forall e | e in s ensures e != trail && Apart(e, trail) && End(e) != trail.addr {
      OneSide(c, s, trail.addr, trail.size, e);
      OneSide(c, s, addr, size, e);
    }
    forall a: nat ensures Free(s + {trail}, a) <==> Free(s, a) || Covers(trail, a) {
      if Covers(trail, a) {
        CoversFree(s + {trail}, trail, a);
      }
      if Free(s, a) {
        var e :| e in s && Covers(e, a);
        CoversFree(s + {trail}, e, a);
      }
    }
  }

  /** The parts of an extent around the range taken from it. */
  function Around(e: Extent, lead: nat, size: nat): set<Extent>
    requires lead + size <= e.size
  {
    (if lead == 0 then {} else {Extent(e.addr, lead)})
    + (if e.size - lead - size == 0 then {} else {Extent(e.addr + lead + size, e.size - lead - size)})
  }

  lemma AroundOk(c: nat, e: Extent, lead: nat, size: nat)
    requires c > 0 && size > 0 && lead + size <= e.size && Fits(c, e.addr, e.size)
    requires Multiple(c, lead) && Multiple(c, e.addr + lead) && Multiple(c, size) && Multiple(c, e.size - lead - size)
    ensures Extents(c, Around(e, lead, size)) && Untouching(Around(e, lead, size))
    ensures forall p :: p in Around(e, lead, size) ==> e.addr <= p.addr && End(p) <= End(e)
    ensures forall a: nat :: Free(Around(e, lead, size), a) <==> Covers(e, a) && !(e.addr + lead <= a < e.addr + lead + size)
  {
    hide Multiple;
    var parts := Around(e, lead, size);
    MultipleSum(c, e.addr + lead, size);
    forall a: nat ensures Free(parts, a) <==> Covers(e, a) && !(e.addr + lead <= a < e.addr + lead + size) {
      if Covers(e, a) && a < e.addr + lead {
        CoversFree(parts, Extent(e.addr, lead), a);
      }
      if Covers(e, a) && e.addr + lead + size <= a {
        CoversFree(parts, Extent(e.addr + lead + size, e.size - lead - size), a);
      }
    }
  }

  /** Taking an aligned range out of an extent removes exactly its addresses. */
  lemma TakeOk(c: nat, s: set<Extent>, e: Extent, lead: nat, size: nat)
    requires c > 0 && Extents(c, s) && e in s && size > 0 && lead + size <= e.size
    requires Multiple(c, lead) && Multiple(c, e.addr + lead) && Multiple(c, size) && Multiple(c, e.size - lead - size)
    ensures var r := s - {e} + Around(e, lead, size);
      && Extents(c, r) && (Untouching(s) ==> Untouching(r))
      && forall a: nat :: Free(r, a) <==> Free(s, a) && !(e.addr + lead <= a < e.addr + lead + size)
    ensures forall a: nat :: e.addr + lead <= a < e.addr + lead + size ==> Free(s, a)
  {
    hide Multiple, Around;
    AroundOk(c, e, lead, size);
    SplitOk(c, s, e, Around(e, lead, size));
    assert forall a: nat :: Covers(e, a) ==> Free(s, a);
  }

  lemma TakeBoth(c: nat, s: set<Extent>, e: Extent, lead: nat)
    requires c > 0 && Extents(c, s) && e in s && 0 < lead < e.size && Multiple(c, lead)
    ensures var r := s - {e} + Around(e, lead, e.size - lead);
      && Extents(c, r) && (Untouching(s) ==> Untouching(r))
      && forall a: nat :: Free(r, a) <==> Free(s, a) && !(e.addr + lead <= a < End(e))
  {
    MultipleSum(c, e.addr, lead);
    MultipleSum(c, lead, e.size - lead);
    TakeOk(c, s, e, lead, e.size - lead);
  }

  lemma AtLeast(c: nat, x: nat)
    requires c > 0 && x > 0 && Multiple(c, x)
    ensures x >= c
  {
  }

  lemma ExtentFits(c: nat, s: set<Extent>, e: Extent)
    requires c > 0 && Extents(c, s) && e in s
    ensures Fits(c, e.addr, e.size)
  {
  }

  lemma NoWider(c: nat, s: set<Extent>)
    requires c > 0 && Extents(c, s)
    ensures forall e :: e in s ==> e.size < M
  {
  }

  /** What the search for the following extent found. */
  lemma Forward(c: nat, s: set<Extent>, chunk: nat, size: nat, o: Option<Extent>)
    requires c > 0 && Recordable(c, s, chunk, size)
    requires var a := (chunk + size) % M;
      && (o.None? ==> forall e :: e in s ==> e.addr < a)
      && (o.Some? ==> o.value in s && o.value.addr >= a && forall e :: e in s && e.addr >= a ==> o.value.addr <= e.addr)
    ensures var found := o.Some? && o.value.addr == (chunk + size) % M;
      && Starting(s, chunk + size, if found then o else None)
      && (found <==> exists e :: e in s && e.addr == chunk + size)
    ensures Extent(chunk, size) !in s
  {
    assert Extent(chunk, size) in s ==> Covers(Extent(chunk, size), chunk);
    assert !Free(s, chunk);
  }

  /** What the search for the preceding extent found, the node being in the tree already. */
  lemma Backward(c: nat, s: set<Extent>, chunk: nat, size: nat, n: Option<Extent>, t: set<Extent>, o: Option<Extent>)
    requires c > 0 && Recordable(c, s, chunk, size) && Starting(s, chunk + size, n)
    requires t == Drop(s, n) + {Joined(chunk, size, None, n)}
    requires o.None? ==> forall e :: e in t ==> e.addr >= chunk
    requires o.Some? ==> o.value in t && o.value.addr < chunk && forall e :: e in t && e.addr < chunk ==> e.addr <= o.value.addr
    ensures Ending(s, chunk, if o.Some? && End(o.value) == chunk then o else None)
    ensures o.Some? ==> o.value in s && Some(o.value) != n
    ensures Joined(chunk, size, None, n) !in s
  {
    forall e | e in s && End(e) == chunk ensures o == Some(e) {
      assert e in t;
      assert o.Some? && o.value != e ==> Apart(e, o.value);
    }
    var j := Joined(chunk, size, None, n);
    assert j in s ==> Covers(j, chunk);
    assert !Free(s, chunk);
  }
}
