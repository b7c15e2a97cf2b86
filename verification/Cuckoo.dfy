/**
 The cuckoo hash table of jemalloc (`ckh.c`) against a finite map.

 The hash function is arbitrary.  The pseudo-random generator is the source's own, with its
 32-bit wrap-around.  The eviction loop has no bound in the source; here `fuel` is the number
 of evictions a run is given, any number at all, and an outcome `Stuck` says they ran out.
 */
module Cuckoo {

  import opened Basics

  datatype Cell = Empty | Full(key: int, data: int)

  const CELLS: nat := 4                  // per bucket

  type Hash = (int, nat) -> (nat, nat)

  function Bucket1(hash: Hash, lg: nat, key: int): (b: nat)
    ensures b < Pow2(lg)
  {
    hash(key, lg).0 % Pow2(lg)
  }

  function Bucket2(hash: Hash, lg: nat, key: int): (b: nat)
    ensures b < Pow2(lg)
  {
    hash(key, lg).1 % Pow2(lg)
  }

  /* --- What the cells hold ------------------------------------------------------ */

  ghost function Items(s: seq<Cell>): multiset<Cell>
  {
    multiset(s)[Empty := 0]
  }

  ghost function Held(c: Cell): multiset<Cell>
  {
    if c.Empty? then multiset{} else multiset{c}
  }

  lemma ItemsUpdate(s: seq<Cell>, i: nat, c: Cell)
    requires i < |s|
    ensures Held(s[i]) <= Items(s)
    ensures Items(s[i := c]) == Items(s) - Held(s[i]) + Held(c)
    ensures |Items(s[i := c])| == |Items(s)| - |Held(s[i])| + |Held(c)|
  {
    assert s[i] in multiset(s);
    assert Items(s) == Items(s) - Held(s[i]) + Held(s[i]);
  }

  lemma ItemsPrefix(s: seq<Cell>, i: nat)
    requires i < |s|
    ensures Items(s[..i + 1]) == Items(s[..i]) + Held(s[i])
  {
    assert s[..i + 1] == s[..i] + [s[i]];
  }

  lemma ItemsSplit(s: seq<Cell>, i: nat)
    requires i <= |s|
    ensures Items(s) == Items(s[..i]) + Items(s[i..])
    ensures |Items(s)| == |Items(s[..i])| + |Items(s[i..])|
  {
    assert s == s[..i] + s[i..];
  }

  lemma {:induction false} NothingHeld(s: seq<Cell>)
    requires forall i :: 0 <= i < |s| ==> s[i].Empty?
    ensures Items(s) == multiset{}
  {
    if s != [] {
      var n := |s| - 1;
      NothingHeld(s[..n]);
      ItemsPrefix(s, n);
      assert s[..n + 1] == s;
    }
  }

  lemma AtMostOnce(s: seq<Cell>, i: nat, j: nat)
    requires i < |s| && j < |s| && i != j && multiset(s)[s[i]] <= 1
    ensures s[j] != s[i]
  {
    var k, l := if i < j then i else j, if i < j then j else i;
    assert s == s[..k] + [s[k]] + s[k + 1..l] + [s[l]] + s[l + 1..];
  }

  /** Every item lies in one of its two buckets. */
  ghost predicate Placed(hash: Hash, lg: nat, s: seq<Cell>)
  {
    && |s| == CELLS * Pow2(lg)
    && forall i :: 0 <= i < |s| && s[i].Full? ==> InBucket(hash, lg, i, s[i].key)
  }

  ghost predicate InBucket(hash: Hash, lg: nat, i: nat, key: int)
  {
    i / CELLS == Bucket1(hash, lg, key) || i / CELLS == Bucket2(hash, lg, key)
  }

  ghost predicate BucketFull(s: seq<Cell>, bucket: nat)
  {
    CELLS * bucket + CELLS <= |s| && forall i :: CELLS * bucket <= i < CELLS * bucket + CELLS ==> s[i].Full?
  }

  /** Both buckets of every key are bucket `b`. */
  ghost predicate OneBucket(hash: Hash, lg: nat, b: nat)
  {
    forall key :: Bucket1(hash, lg, key) == b && Bucket2(hash, lg, key) == b
  }

  /** One of the two buckets of the key has a free cell. */
  ghost predicate HasRoom(hash: Hash, lg: nat, s: seq<Cell>, key: int)
  {
    !BucketFull(s, Bucket1(hash, lg, key)) || !BucketFull(s, Bucket2(hash, lg, key))
  }

  lemma BucketBounds(lg: nat, bucket: nat)
    requires bucket < Pow2(lg)
    ensures CELLS * bucket + CELLS <= CELLS * Pow2(lg)
  {
  }

  /* --- The map the items stand for ------------------------------------------------ */

  ghost function Cells(m: map<int, int>): set<Cell>
  {
    set k | k in m :: Full(k, m[k])
  }

  ghost function Bag(m: map<int, int>): multiset<Cell>
  {
    multiset(Cells(m))
  }

  lemma CellsHold(m: map<int, int>, c: Cell)
    ensures c in Cells(m) <==> c.Full? && c.key in m && m[c.key] == c.data
  {
  }

  lemma BagAdd(m: map<int, int>, k: int, v: int)
    requires k !in m
    ensures Bag(m[k := v]) == Bag(m) + multiset{Full(k, v)}
  {
    hide Cells;
    forall c ensures c in Cells(m[k := v]) <==> c in Cells(m) + {Full(k, v)} {
      CellsHold(m, c);
      CellsHold(m[k := v], c);
    }
    CellsHold(m, Full(k, v));
    assert Cells(m[k := v]) == Cells(m) + {Full(k, v)};
  }

  lemma BagDrop(m: map<int, int>, c: Cell)
    requires c in Bag(m)
    ensures c.Full? && c.key in m && m[c.key] == c.data && Bag(m - {c.key}) == Bag(m) - multiset{c}
  {
    hide Cells;
    CellsHold(m, c);
    BagAdd(m - {c.key}, c.key, c.data);
    assert (m - {c.key})[c.key := c.data] == m;
  }

  lemma {:induction false} BagSize(m: map<int, int>)
    ensures |Bag(m)| == |m|
    decreases |m|
  {
    hide Bag;
    if k :| k in m {
      BagAdd(m - {k}, k, m[k]);
      assert (m - {k})[k := m[k]] == m;
      BagSize(m - {k});
    } else {
      NoBag(m);
    }
  }

  lemma NoBag(m: map<int, int>)
    requires forall k :: k !in m
    ensures Bag(m) == multiset{}
  {
    assert Cells(m) == {};
  }

  lemma BagHolds(s: seq<Cell>, m: map<int, int>, key: int)
    requires Items(s) == Bag(m) && key in m
    ensures exists i :: 0 <= i < |s| && s[i] == Full(key, m[key])
  {
    CellsHold(m, Full(key, m[key]));
    assert Full(key, m[key]) in Items(s);
    assert Full(key, m[key]) in s;
  }

  /* --- The table -------------------------------------------------------------------- */

  datatype Outcome = Inserted | Cycle(left: Cell) | Stuck

  datatype Growth = Grown | NoMemory | GrowthStuck

  datatype Insertion = Added | Lost(entry: Cell) | Again | AddStuck

  /** The cells for a load factor of 3/4. */
  function MinCells(minitems: nat): nat
  {
    (minitems + (3 - minitems % 3)) / 3 * 4
  }

  /**
   What a failing `ckh_insert` does to the map: `lost` is missing at the end, be it the new key or an
   old one.  Only a key with four others in its bucket can fail, and the new key stays unless the
   table has grown before.
   */
  ghost predicate FailedInsert<K, V>(before: map<K, V>, after: map<K, V>, key: K, value: V, lost: K, grown: bool)
  {
    && key !in before && |before| >= CELLS
    && lost in before[key := value] && after == before[key := value] - {lost} && (!grown ==> lost != key)
  }

  /** A full bucket holds four items. */
  lemma Crowded(hash: Hash, lg: nat, s: seq<Cell>, m: map<int, int>, key: int)
    requires Placed(hash, lg, s) && Items(s) == Bag(m)
    ensures HasRoom(hash, lg, s, key) || |m| >= CELLS
  {
    hide Items, Bag, Bucket1, Bucket2;
    BagSize(m);
    if !HasRoom(hash, lg, s, key) {
      var i := CELLS * Bucket1(hash, lg, key);
      ItemsSplit(s, i);
      ItemsSplit(s[i..], CELLS);
      ItemsAtMost(s[i..][..CELLS]);
    }
  }

  class Table {
    var tab: array<Cell>
    var count: nat
    var lgCur: nat
    const lgMin: nat
    const hash: Hash
    var prng: nat
    /** The evictions and the allocation results this run will see. */
    var fuel: nat
    var pages: seq<bool>
    /** The map the table stands for. */
    ghost var entries: map<int, int>

    ghost predicate Sound()
      reads this, tab
    {
      Placed(hash, lgCur, tab[..]) && count == |Items(tab[..])|
    }

    ghost predicate Valid()
      reads this, tab
    {
      Sound() && lgMin <= lgCur && Items(tab[..]) == Bag(entries)
    }

    /** `ckh_new`, when the allocation succeeds: room for `minitems` at load factor 3/4. */
    constructor (minitems: nat, hash: Hash, fuel: nat, pages: seq<bool>)
      requires minitems > 0
      ensures Valid() && entries == map[] && count == 0 && fresh(tab)
      ensures this.hash == hash && lgCur == lgMin && this.fuel == fuel && this.pages == pages
      ensures 4 * minitems < 3 * tab.Length
      ensures MinCells(minitems) <= tab.Length && (lgMin > 0 ==> tab.Length / 2 < MinCells(minitems))
    {
      var mincells := MinCells(minitems);
      var lg := 0;
      while CELLS * Pow2(lg) < mincells
        invariant lg > 0 ==> CELLS * Pow2(lg - 1) < mincells
        decreases mincells - CELLS * Pow2(lg)
      {
        lg := lg + 1;
      }
      tab := new Cell[CELLS * Pow2(lg)](_ => Empty);
      count, lgCur, lgMin, prng := 0, lg, lg, 42;
      this.hash, this.fuel, this.pages := hash, fuel, pages;
      entries := map[];
      new;
      NothingHeld(tab[..]);
    }

    /** One draw of `prng32` with two bits. */
    method Draw() returns (r: nat)
      modifies this`prng
      ensures r < CELLS && prng < 0x1_0000_0000
    {
      prng := (prng * 1103515241 + 12347) % 0x1_0000_0000;
      r := prng / 0x4000_0000;
    }

    method BucketSearch(bucket: nat, key: int) returns (cell: Option<nat>)
      requires CELLS * bucket + CELLS <= tab.Length
      ensures cell.Some? ==> cell.value < tab.Length && cell.value / CELLS == bucket && tab[cell.value].Full? && tab[cell.value].key == key
      ensures cell.None? ==> forall i :: 0 <= i < tab.Length && i / CELLS == bucket ==> tab[i].Empty? || tab[i].key != key
    {
      for i := 0 to CELLS
        invariant forall j :: CELLS * bucket <= j < CELLS * bucket + i ==> tab[j].Empty? || tab[j].key != key
      {
        if tab[CELLS * bucket + i].Full? && tab[CELLS * bucket + i].key == key {
          return Some(CELLS * bucket + i);
        }
      }
      return None;
    }

    /** `ckh_isearch`: the two buckets are all that has to be looked at. */
    method CellSearch(key: int) returns (cell: Option<nat>)
      requires Sound()
      ensures cell.Some? ==> cell.value < tab.Length && tab[cell.value].Full? && tab[cell.value].key == key
      ensures cell.None? ==> forall i :: 0 <= i < tab.Length ==> tab[i].Empty? || tab[i].key != key
    {
      BucketBounds(lgCur, Bucket1(hash, lgCur, key));
      BucketBounds(lgCur, Bucket2(hash, lgCur, key));
      cell := BucketSearch(Bucket1(hash, lgCur, key), key);
      if cell.None? {
        cell := BucketSearch(Bucket2(hash, lgCur, key), key);
        if cell.None? {
          forall i | 0 <= i < tab.Length ensures tab[i].Empty? || tab[i].key != key {
            assert tab[..][i] == tab[i];
            assert tab[i].Full? ==> InBucket(hash, lgCur, i, tab[i].key);
          }
        }
      }
    }

    /** `ckh_count`. */
    method Count() returns (n: nat)
      requires Valid()
      ensures n == |entries|
    {
      BagSize(entries);
      return count;
    }

    /** `ckh_search`. */
    method Search(key: int) returns (data: Option<int>)
      requires Valid()
      ensures data == if key in entries then Some(entries[key]) else None
    {
      var cell := CellSearch(key);
      if cell.Some? {
        assert tab[..][cell.value] in Items(tab[..]);
        BagDrop(entries, tab[cell.value]);
        return Some(tab[cell.value].data);
      }
      if key in entries {
        BagHolds(tab[..], entries, key);
      }
      return None;
    }

    /** `ckh_try_bucket_insert`: true when the bucket is full. */
    method TryBucket(bucket: nat, c: Cell) returns (full: bool)
      requires Sound() && c.Full? && bucket < Pow2(lgCur)
      requires bucket == Bucket1(hash, lgCur, c.key) || bucket == Bucket2(hash, lgCur, c.key)
      modifies this`prng, this`count, tab
      ensures Sound()
      ensures full <==> old(BucketFull(tab[..], bucket))
      ensures full ==> tab[..] == old(tab[..]) && count == old(count)
      ensures !full ==> Items(tab[..]) == old(Items(tab[..])) + multiset{c} && count == old(count) + 1
    {
      hide Items, Held, Placed, Bucket1, Bucket2, BucketFull;
      BucketBounds(lgCur, bucket);
      TableLength(hash, lgCur, tab[..]);
      var offset := Draw();
      for i := 0 to CELLS
        invariant tab[..] == old(tab[..]) && count == old(count)
        invariant forall j {:trigger Turn(j, offset)} :: 0 <= j < i ==> tab[CELLS * bucket + Turn(j, offset)].Full?
      {
        var k := CELLS * bucket + Turn(i, offset);
        if tab[k].Empty? {
          NotFull(tab[..], bucket, k);
          Fill(hash, lgCur, tab[..], k, c);
          ghost var s := tab[..][k := c];
          tab[k] := c;
          count := count + 1;
          assert tab[..] == s;
          return false;
        }
      }
      CyclicWalk(tab[..], bucket, offset);
      return true;
    }

    /** One eviction: `c` takes the place of the item in cell `k`. */
    method Evict(k: nat, c: Cell) returns (out: Cell)
      requires Sound() && c.Full? && k < tab.Length && tab[k].Full? && InBucket(hash, lgCur, k, c.key)
      modifies tab
      ensures Sound() && tab[..] == old(tab[..])[k := c] && out == old(tab[k]) && out.Full?
      ensures InBucket(hash, lgCur, k, out.key)
      ensures Items(tab[..]) + multiset{out} == old(Items(tab[..])) + multiset{c}
    {
      ItemsUpdate(tab[..], k, c);
      out := tab[k];
      assert tab[..][k] == out;
      ghost var s := tab[..][k := c];
      tab[k] := c;
      assert tab[..] == s;
    }

    /**
     `ckh_evict_reloc_insert`: items are only moved around; if the chain comes back to its first
     bucket the last evicted item is handed back, and it is never the one that was to be inserted.
     */
    method EvictReloc(arg: nat, c: Cell) returns (r: Outcome)
      requires Sound() && c.Full? && arg == Bucket2(hash, lgCur, c.key) && BucketFull(tab[..], arg)
      modifies this`prng, this`count, this`fuel, tab
      ensures Sound()
      ensures r.Inserted? ==> Items(tab[..]) == old(Items(tab[..])) + multiset{c}
      ensures r.Cycle? ==> r.left.Full? && Items(tab[..]) + multiset{r.left} == old(Items(tab[..])) + multiset{c}
      ensures r.Cycle? && c !in old(Items(tab[..])) ==> r.left != c && c in Items(tab[..])
      ensures r.Stuck? ==> fuel == 0
      ensures old(fuel) > 0 && OneBucket(hash, lgCur, arg) ==> r.Cycle?
    {
      hide Items, Placed, BucketFull, Bucket1, Bucket2;
      var bucket: nat, hand := arg, c;
      ghost var home: nat := 0;
      ghost var started := false;
      ghost var s0 := tab[..];
      while fuel > 0
        invariant Sound() && hand.Full? && BucketFull(tab[..], bucket)
        invariant bucket == Bucket1(hash, lgCur, hand.key) || bucket == Bucket2(hash, lgCur, hand.key)
        invariant Items(tab[..]) + multiset{hand} == Items(s0) + multiset{c}
        invariant !started ==> bucket == arg && hand == c && Items(tab[..]) == Items(s0)
        invariant started ==> bucket != arg && home < tab.Length && home / CELLS == arg && tab[home] == c
        invariant started && c !in Items(s0) ==> hand != c
        invariant OneBucket(hash, lgCur, arg) ==> !started && fuel == old(fuel)
        decreases fuel
      {
        fuel := fuel - 1;
        var i := Draw();
        ghost var s1, hand0, k := tab[..], hand, CELLS * bucket + i;
        FullAt(s1, bucket, k);
        hand := Evict(CELLS * bucket + i, hand);
        Chained(Items(s1), Items(tab[..]), Items(s0), hand0, hand, c);
        if c !in Items(s0) {
          if started {
            OnlyHome(s1, hand0, s0, c, home, k);
          } else {
            ItemAt(s1, k);
          }
        }
        if !started {
          home := k;
        }
        var next := Bucket2(hash, lgCur, hand.key);
        if next == bucket {
          next := Bucket1(hash, lgCur, hand.key);
        }
        if next == arg {
          ItemAt(tab[..], home);
          return Cycle(hand);
        }
        started := true;
        bucket := next;
        ghost var s2 := tab[..];
        var full := TryBucket(bucket, hand);
        if !full {
          return Inserted;
        }
        assert tab[home] == s2[home];
      }
      return Stuck;
    }

    /** `ckh_try_insert`. */
    method TryInsert(c: Cell) returns (r: Outcome)
      requires Sound() && c.Full?
      modifies this`prng, this`count, this`fuel, tab
      ensures Sound()
      ensures r.Inserted? ==> Items(tab[..]) == old(Items(tab[..])) + multiset{c}
      ensures r.Cycle? ==> r.left.Full? && Items(tab[..]) + multiset{r.left} == old(Items(tab[..])) + multiset{c}
      ensures r.Cycle? && c !in old(Items(tab[..])) ==> r.left != c && c in Items(tab[..])
      ensures r.Stuck? ==> fuel == 0
      ensures old(HasRoom(hash, lgCur, tab[..], c.key)) ==> r.Inserted? && fuel == old(fuel)
      ensures old(!HasRoom(hash, lgCur, tab[..], c.key) && fuel > 0) && OneBucket(hash, lgCur, Bucket2(hash, lgCur, c.key)) ==> r.Cycle?
    {
      hide Items, Placed, BucketFull, Bucket1, Bucket2;
      var full := TryBucket(Bucket1(hash, lgCur, c.key), c);
      if full {
        full := TryBucket(Bucket2(hash, lgCur, c.key), c);
        if full {
          r := EvictReloc(Bucket2(hash, lgCur, c.key), c);
          return;
        }
      }
      return Inserted;
    }

    /** `ckh_rebuild`: everything in `aTab` goes into the empty table, or the table is given up. */
    method Rebuild(aTab: array<Cell>) returns (r: Outcome)
      requires aTab != tab && Placed(hash, lgCur, tab[..]) && Items(tab[..]) == multiset{} && count == |Items(aTab[..])|
      modifies this`prng, this`count, this`fuel, tab
      ensures r.Inserted? ==> Sound() && Items(tab[..]) == Items(aTab[..])
      ensures !r.Stuck? ==> count == old(count)
      ensures r.Stuck? ==> fuel == 0
    {
      hide Items, Placed;
      var n := count;
      count := 0;
      var i, nins := 0, 0;
      ghost var s := aTab[..];
      ItemsSplit(s, 0);
      NothingHeld(s[..0]);
      while nins < n
        invariant i <= |s| && Sound() && count == nins && s == aTab[..] && n == |Items(s)| == old(count)
        invariant Items(tab[..]) == Items(s[..i])
        decreases |s| - i
      {
        Remaining(s, i);
        ItemsPrefix(s, i);
        if aTab[i].Full? {
          r := TryInsert(aTab[i]);
          if !r.Inserted? {
            count := n;
            return;
          }
          nins := nins + 1;
        }
        i := i + 1;
      }
      AllRebuilt(s, i);
      return Inserted;
    }

    /** `ckh_grow`: double until everything fits, or give up with the old table in place. */
    method Grow() returns (r: Growth)
      requires Sound()
      modifies this`tab, this`prng, this`count, this`fuel, this`lgCur, this`pages
      ensures r.Grown? ==> Sound() && fresh(tab) && lgCur > old(lgCur) && Items(tab[..]) == old(Items(tab[..]))
      ensures r.NoMemory? ==> Sound() && tab == old(tab) && lgCur == old(lgCur)
      ensures |pages| <= old(|pages|) && (r.Grown? ==> |pages| < old(|pages|))
      ensures old(pages == [] || !pages[0]) ==> r.NoMemory?
      ensures tab == old(tab) || fresh(tab)
      ensures r.GrowthStuck? ==> fuel == 0
    {
      hide Items, Placed;
      var lg := lgCur;
      while true
        invariant Sound() && tab == old(tab) && lgCur == old(lgCur) && lg >= lgCur && |pages| <= old(|pages|)
        invariant old(pages == [] || !pages[0]) ==> pages == old(pages)
        decreases |pages|
      {
        lg := lg + 1;
        if pages == [] {
          return NoMemory;
        }
        var ok := pages[0];
        pages := pages[1..];
        if !ok {
          return NoMemory;
        }
        var ttab, prev := tab, lgCur;
        tab := new Cell[CELLS * Pow2(lg)](_ => Empty);
        lgCur := lg;
        EmptyTable(hash, lg, tab[..]);
        var o := Rebuild(ttab);
        if o.Inserted? {
          return Grown;
        }
        if o.Stuck? {
          return GrowthStuck;
        }
        tab := ttab;
        lgCur := prev;
      }
    }

    /** `ckh_shrink`: halve the table if everything fits in the half. */
    method Shrink() returns (stuck: bool)
      requires Sound() && lgCur > 0
      modifies this`tab, this`prng, this`count, this`fuel, this`lgCur, this`pages
      ensures !stuck ==> Sound() && Items(tab[..]) == old(Items(tab[..]))
      ensures tab == old(tab) || fresh(tab)
      ensures !stuck ==> lgCur == old(lgCur) || lgCur == old(lgCur) - 1
      ensures stuck ==> fuel == 0
    {
      hide Items, Placed;
      if pages == [] {
        return false;
      }
      var ok := pages[0];
      pages := pages[1..];
      if !ok {
        return false;
      }
      var ttab, prev := tab, lgCur;
      lgCur := lgCur - 1;
      tab := new Cell[CELLS * Pow2(lgCur)](_ => Empty);
      EmptyTable(hash, lgCur, tab[..]);
      var o := Rebuild(ttab);
      if o.Stuck? {
        return true;
      }
      if o.Cycle? {
        tab := ttab;
        lgCur := prev;
      }
      return false;
    }

    /** The key has no room, all keys share its bucket, and the table cannot grow. */
    ghost predicate Cornered(key: int)
      reads this, tab
    {
      && !HasRoom(hash, lgCur, tab[..], key) && fuel > 0 && (pages == [] || !pages[0])
      && OneBucket(hash, lgCur, Bucket2(hash, lgCur, key))
    }

    /** One round of `ckh_insert`: what is left over is carried to a larger table, or is lost. */
    method TryOrGrow(hand: Cell) returns (r: Insertion, left: Cell)
      requires Sound() && hand.Full?
      modifies this`tab, this`prng, this`count, this`fuel, this`lgCur, this`pages, tab
      ensures tab == old(tab) || fresh(tab)
      ensures r.AddStuck? ==> fuel == 0
      ensures r.Added? ==> Sound() && lgCur == old(lgCur) && Items(tab[..]) == old(Items(tab[..])) + multiset{hand}
      ensures r.Lost? || r.Again? ==> Sound() && left.Full? && Items(tab[..]) + multiset{left} == old(Items(tab[..])) + multiset{hand}
      ensures r.Lost? ==> lgCur == old(lgCur) && r.entry == left && (hand !in old(Items(tab[..])) ==> left != hand)
      ensures r.Again? ==> lgCur > old(lgCur) && |pages| < old(|pages|)
      ensures old(pages == [] || !pages[0]) ==> !r.Again?
      ensures old(HasRoom(hash, lgCur, tab[..], hand.key)) ==> r.Added? && fuel == old(fuel) && pages == old(pages)
      ensures old(Cornered(hand.key)) ==> r.Lost?
    {
      hide Items, Placed;
      left := hand;
      var o := TryInsert(hand);
      if o.Inserted? {
        return Added, left;
      }
      if o.Stuck? {
        return AddStuck, left;
      }
      left := o.left;
      var g := Grow();
      r := if g.Grown? then Again else if g.NoMemory? then Lost(left) else AddStuck;
    }

    /**
     `ckh_insert`.  When growth fails exactly one entry is missing at the end, and if the table
     never grew it is an entry that was there before: the new one stays in.
     */
    method Insert(key: int, data: int) returns (r: Insertion)
      requires Valid() && key !in entries
      modifies this, tab
      ensures tab == old(tab) || fresh(tab)
      ensures r.Added? ==> Valid() && entries == old(entries)[key := data]
      ensures r.Lost? ==> Valid() && r.entry.Full? && entries == old(entries)[key := data] - {r.entry.key}
      ensures r.Lost? ==> r.entry.key in old(entries)[key := data] && old(entries)[key := data][r.entry.key] == r.entry.data
      ensures r.Lost? && lgCur == old(lgCur) ==> r.entry.key in old(entries) && key in entries
      ensures !r.Again? && (r.AddStuck? ==> fuel == 0)
      ensures r.Lost? ==> FailedInsert(old(entries), entries, key, data, r.entry.key, lgCur != old(lgCur))
      ensures old(pages == [] || !pages[0]) ==> r.Added? || r.AddStuck? || (r.Lost? && r.entry.key in old(entries) && key in entries)
      ensures old(HasRoom(hash, lgCur, tab[..], key)) ==> r.Added? && fuel == old(fuel) && pages == old(pages) && lgCur == old(lgCur)
      ensures old(Cornered(key)) ==> r.Lost?
    {
      hide Items, Placed, Bag, HasRoom, OneBucket, Bucket1, Bucket2;
      ghost var all := entries[key := data];
      BagAdd(entries, key, data);
      var hand := Full(key, data);
      BagKeys(entries, hand);
      Crowded(hash, lgCur, tab[..], entries, key);
      ghost var first, s0, stop := true, tab[..], pages == [] || !pages[0] || HasRoom(hash, lgCur, tab[..], key);
      while true
        invariant Sound() && hand.Full? && lgMin <= lgCur && (tab == old(tab) || fresh(tab))
        invariant Items(tab[..]) + multiset{hand} == Bag(all) && entries == old(entries)
        invariant first ==> lgCur == old(lgCur) && fuel == old(fuel) && pages == old(pages) && tab[..] == s0
        invariant first ==> hand == Full(key, data) && hand !in Items(tab[..])
        invariant !first ==> lgCur > old(lgCur) && !stop
        decreases |pages|
      {
        var left;
        r, left := TryOrGrow(hand);
        if r.Added? {
          entries := all;
          return;
        }
        if r.AddStuck? {
          return;
        }
        hand := left;
        first := false;
        if r.Lost? {
          OneMissing(Items(tab[..]), all, hand);
          entries := all - {hand.key};
          return;
        }
      }
    }

    /** `ckh_remove`. */
    method Remove(key: int) returns (data: Option<int>, stuck: bool)
      requires Valid()
      modifies this, tab
      ensures tab == old(tab) || fresh(tab)
      ensures data == if key in old(entries) then Some(old(entries)[key]) else None
      ensures !stuck ==> Valid() && entries == old(entries) - {key}
      ensures stuck ==> fuel == 0
    {
      hide Items, Placed, Bag;
      var cell := CellSearch(key);
      if cell.None? {
        if key in entries {
          BagHolds(tab[..], entries, key);
        }
        assert entries - {key} == entries;
        return None, false;
      }
      ghost var s, c := tab[..], tab[cell.value];
      ItemAt(s, cell.value);
      BagDrop(entries, c);
      Clear(hash, lgCur, s, cell.value);
      data := Some(tab[cell.value].data);
      tab[cell.value] := Empty;
      assert tab[..] == s[cell.value := Empty];
      count := count - 1;
      entries := entries - {key};
      stuck := false;
      if count < Pow2(lgCur) && lgCur > lgMin {
        stuck := Shrink();
      }
    }
  }

  lemma OneMissing(items: multiset<Cell>, all: map<int, int>, hand: Cell)
    requires items + multiset{hand} == Bag(all)
    ensures hand.Full? && hand.key in all && all[hand.key] == hand.data && items == Bag(all - {hand.key})
  {
    hide Bag;
    assert hand in items + multiset{hand};
    BagDrop(all, hand);
  }

  lemma Clear(hash: Hash, lg: nat, s: seq<Cell>, k: nat)
    requires Placed(hash, lg, s) && k < |s| && s[k].Full?
    ensures Placed(hash, lg, s[k := Empty]) && Items(s[k := Empty]) == Items(s) - multiset{s[k]}
    ensures |Items(s[k := Empty])| == |Items(s)| - 1
  {
    ItemsUpdate(s, k, Empty);
  }

  lemma BagKeys(m: map<int, int>, c: Cell)
    requires c.Full? && c.key !in m
    ensures c !in Bag(m)
  {
    CellsHold(m, c);
  }

  lemma EmptyTable(hash: Hash, lg: nat, s: seq<Cell>)
    requires |s| == CELLS * Pow2(lg) && forall i :: 0 <= i < |s| ==> s[i].Empty?
    ensures Placed(hash, lg, s) && Items(s) == multiset{}
  {
    NothingHeld(s);
  }

  /** While not all items have been seen, there are cells left. */
  lemma Remaining(s: seq<Cell>, i: nat)
    requires i <= |s| && |Items(s[..i])| < |Items(s)|
    ensures i < |s|
  {
    assert s[..|s|] == s;
  }

  lemma AllRebuilt(s: seq<Cell>, i: nat)
    requires i <= |s| && |Items(s[..i])| >= |Items(s)|
    ensures Items(s[..i]) == Items(s)
  {
    hide Items;
    ItemsSplit(s, i);
  }

  function Constant(key: int, lg: nat): (nat, nat) { (0, 0) }

  lemma {:induction false} ItemsAtMost(s: seq<Cell>)
    ensures |Items(s)| <= |s| && (|Items(s)| == |s| <==> forall i :: 0 <= i < |s| ==> s[i].Full?)
    decreases |s|
  {
    if s == [] {
      NothingHeld(s);
    } else {
      var n := |s| - 1;
      ItemsAtMost(s[..n]);
      ItemsPrefix(s, n);
      assert s[..n + 1] == s;
      assert |Held(s[n])| == if s[n].Full? then 1 else 0;
    }
  }

  /** With one bucket, there is room exactly while there are fewer than four items. */
  lemma SmallTable(s: seq<Cell>, key: int)
    requires Placed(Constant, 0, s)
    ensures HasRoom(Constant, 0, s, key) <==> |Items(s)| < CELLS
    ensures OneBucket(Constant, 0, Bucket2(Constant, 0, key))
  {
    ItemsAtMost(s);
  }

  /**
   Four keys fill the only bucket.  The fifth goes in, one of the four falls out, and the table
   cannot grow: the insertion fails with an old entry lost.
   */
  method LosesOld() returns (t: Table, lost: Cell)
    ensures t.Valid() && lost.Full? && 1 <= lost.key <= 4 && lost.key !in t.entries && 5 in t.entries && |t.entries| == 4
  {
    hide Items, Bag, HasRoom, OneBucket, BucketFull;
    t := new Table(1, Constant, 1, []);
    assert t.lgCur == 0;
    for i := 1 to 5
      invariant t.Valid() && t.lgCur == 0 && t.hash == Constant && t.fuel == 1 && t.pages == [] && fresh(t) && fresh(t.tab)
      invariant |t.entries| == i - 1 && forall k :: k in t.entries ==> 1 <= k < i
    {
      BagSize(t.entries);
      SmallTable(t.tab[..], i);
      var _ := t.Insert(i, 0);
    }
    BagSize(t.entries);
    SmallTable(t.tab[..], 5);
    var r := t.Insert(5, 0);
    lost := r.entry;
  }

  lemma NotFull(s: seq<Cell>, bucket: nat, k: nat)
    requires CELLS * bucket <= k < CELLS * bucket + CELLS && k < |s| && s[k].Empty?
    ensures !BucketFull(s, bucket)
  {
  }

  lemma FullAt(s: seq<Cell>, bucket: nat, k: nat)
    requires BucketFull(s, bucket) && CELLS * bucket <= k < CELLS * bucket + CELLS
    ensures k < |s| && s[k].Full? && k / CELLS == bucket
  {
  }

  lemma ItemAt(s: seq<Cell>, k: nat)
    requires k < |s| && s[k].Full?
    ensures s[k] in Items(s)
  {
    assert s[k] in multiset(s);
  }

  lemma Chained(m1: multiset<Cell>, m2: multiset<Cell>, m0: multiset<Cell>, hand1: Cell, hand2: Cell, c: Cell)
    requires m1 + multiset{hand1} == m0 + multiset{c} && m2 + multiset{hand2} == m1 + multiset{hand1}
    ensures m2 + multiset{hand2} == m0 + multiset{c}
  {
  }

  /** Starting anywhere, the cyclic walk visits the whole bucket. */
  lemma CyclicWalk(s: seq<Cell>, bucket: nat, offset: nat)
    requires CELLS * bucket + CELLS <= |s| && offset < CELLS
    requires forall j {:trigger Turn(j, offset)} :: 0 <= j < CELLS ==> s[CELLS * bucket + Turn(j, offset)].Full?
    ensures BucketFull(s, bucket)
  {
    forall k | CELLS * bucket <= k < CELLS * bucket + CELLS ensures s[k].Full? {
      var j := Turn(k - CELLS * bucket + CELLS - offset, 0);
      assert Turn(j, offset) == k - CELLS * bucket;
    }
  }

  function Turn(i: nat, offset: nat): nat
  {
    (i + offset) % CELLS
  }

  lemma Fill(hash: Hash, lg: nat, s: seq<Cell>, k: nat, c: Cell)
    requires Placed(hash, lg, s) && k < |s| && s[k].Empty? && c.Full?
    requires k / CELLS == Bucket1(hash, lg, c.key) || k / CELLS == Bucket2(hash, lg, c.key)
    ensures Placed(hash, lg, s[k := c]) && Items(s[k := c]) == Items(s) + multiset{c} && |Items(s[k := c])| == |Items(s)| + 1
  {
    hide Items, Placed;
    ItemsUpdate(s, k, c);
    PlacedUpdate(hash, lg, s, k, c);
  }

  lemma TableLength(hash: Hash, lg: nat, s: seq<Cell>)
    requires Placed(hash, lg, s)
    ensures |s| == CELLS * Pow2(lg)
  {
  }

  lemma PlacedUpdate(hash: Hash, lg: nat, s: seq<Cell>, k: nat, c: Cell)
    requires Placed(hash, lg, s) && k < |s| && c.Full? && InBucket(hash, lg, k, c.key)
    ensures Placed(hash, lg, s[k := c])
  {
    hide InBucket;
  }

  /** The new item stays where it was first put: an eviction elsewhere takes something else. */
  lemma OnlyHome(s: seq<Cell>, hand: Cell, s0: seq<Cell>, c: Cell, home: nat, k: nat)
    requires Items(s) + multiset{hand} == Items(s0) + multiset{c} && c !in Items(s0) && c.Full? && hand != c
    requires home < |s| && k < |s| && home != k && s[home] == c
    ensures s[k] != c
  {
    assert (Items(s) + multiset{hand})[c] == 1;
    AtMostOnce(s, home, k);
  }
}
