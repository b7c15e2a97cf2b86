/**
 The multi-level bitmap of jemalloc (`bitmap.h`, `bitmap.c`) against a flat vector of bits.

 A group is a 64-bit word, a natural number below 2^64; stored bits are inverted, so a stored
 one is a logical bit that is not set.  Level 0 holds the logical bits; bit `b` of level
 `i + 1` says whether group `b` of level `i` is non-zero.
 */
module Bitmap {

  import opened Basics

  const W: nat := 64

  /* --- Words ---------------------------------------------------------------------- */

  /** `(w >> k) & 1`. */
  predicate Bit(w: nat, k: nat)
  {
    if k == 0 then w % 2 == 1 else Bit(w / 2, k - 1)
  }

  /** `w ^ (1 << k)`. */
  function Flip(w: nat, k: nat): nat
  {
    if k == 0 then (if w % 2 == 1 then w - 1 else w + 1) else 2 * Flip(w / 2, k - 1) + w % 2
  }

  /** `w >> k`. */
  function Shr(w: nat, k: nat): nat
  {
    if k == 0 then w else Shr(w / 2, k - 1)
  }

  /** `ffsl(w) - 1`. */
  function Ffs(w: nat): nat
    requires w > 0
  {
    if w % 2 == 1 then 0 else 1 + Ffs(w / 2)
  }

  lemma Halve(x: nat, r: nat)
    requires r < 2
    ensures (2 * x + r) / 2 == x && (2 * x + r) % 2 == r
  {
  }

  /** What a flip does to the lowest bit and to the rest. */
  lemma FlipHalf(w: nat, k: nat)
    ensures k == 0 ==> Flip(w, k) / 2 == w / 2 && Flip(w, k) % 2 == 1 - w % 2
    ensures k > 0 ==> Flip(w, k) / 2 == Flip(w / 2, k - 1) && Flip(w, k) % 2 == w % 2
  {
    if k == 0 {
      Halve(w / 2, 1 - w % 2);
      assert Flip(w, 0) == 2 * (w / 2) + (1 - w % 2);
    } else {
      Halve(Flip(w / 2, k - 1), w % 2);
    }
  }

  lemma {:induction false} FlipBit(w: nat, k: nat, j: nat)
    ensures Bit(Flip(w, k), j) == if j == k then !Bit(w, j) else Bit(w, j)
    decreases k
  {
    hide Flip;
    FlipHalf(w, k);
    if k > 0 && j > 0 {
      FlipBit(w / 2, k - 1, j - 1);
    }
  }

  lemma {:induction false} FlipRange(w: nat, k: nat, n: nat)
    requires w < Pow2(n) && k < n
    ensures Flip(w, k) < Pow2(n)
    decreases k
  {
    hide Flip;
    FlipHalf(w, k);
    assert w / 2 < Pow2(n - 1);
    if k > 0 {
      FlipRange(w / 2, k - 1, n - 1);
    }
  }

  lemma {:induction false} ZeroBits(k: nat)
    ensures !Bit(0, k)
  {
    if k > 0 {
      ZeroBits(k - 1);
    }
  }

  lemma {:induction false} FfsLowest(w: nat, n: nat)
    requires 0 < w < Pow2(n)
    ensures Ffs(w) < n && Bit(w, Ffs(w)) && forall j :: 0 <= j < Ffs(w) ==> !Bit(w, j)
  {
    if w % 2 == 0 {
      FfsLowest(w / 2, n - 1);
    }
  }

  /** A word shifted down from all ones has exactly its low bits set. */
  lemma {:induction false} LowOnes(n: nat, k: nat)
    ensures Bit(Pow2(n) - 1, k) <==> k < n
    decreases n
  {
    if n == 0 {
      ZeroBits(k);
    } else if k > 0 {
      assert (Pow2(n) - 1) / 2 == Pow2(n - 1) - 1;
      LowOnes(n - 1, k - 1);
    }
  }

  lemma {:induction false} ShrOnes(n: nat, k: nat)
    requires k <= n
    ensures Shr(Pow2(n) - 1, k) == Pow2(n - k) - 1
    decreases k
  {
    if k > 0 {
      assert (Pow2(n) - 1) / 2 == Pow2(n - 1) - 1;
      ShrOnes(n - 1, k - 1);
    }
  }

  /* --- Levels --------------------------------------------------------------------- */

  datatype Info = Info(nbits: nat, nlevels: nat, offsets: seq<nat>)

  /** `bits2groups`. */
  function Groups(n: nat): (g: nat)
    ensures W * g - W < n <= W * g
  {
    n / W + if n % W != 0 then 1 else 0
  }

  /** The number of bits in use at level `i`. */
  function Count(nbits: nat, i: nat): nat
  {
    if i == 0 then nbits else Groups(Count(nbits, i - 1))
  }

  ghost predicate InfoOk(f: Info)
  {
    && f.nbits > 0 && f.nlevels > 0 && |f.offsets| == f.nlevels + 1 && f.offsets[0] == 0
    && (forall i :: 0 <= i < f.nlevels ==> f.offsets[i + 1] == f.offsets[i] + Count(f.nbits, i + 1))
    && Count(f.nbits, f.nlevels) == 1
  }

  lemma GroupsLess(n: nat)
    requires n > 0
    ensures 1 <= Groups(n) && (n > 1 ==> Groups(n) < n)
  {
  }

  /** `bitmap_info_init`. */
  method InfoInit(nbits: nat) returns (f: Info)
    requires nbits > 0
    ensures InfoOk(f) && f.nbits == nbits
    ensures forall i :: 1 <= i < f.nlevels ==> Count(nbits, i) > 1
  {
    hide Groups;
    GroupsLess(nbits);
    var offsets := [0];
    var groups := Groups(nbits);
    var i := 1;
    while groups > 1
      invariant i >= 1 && groups == Count(nbits, i) && groups >= 1 && |offsets| == i && offsets[0] == 0
      invariant forall j :: 0 <= j < i - 1 ==> offsets[j + 1] == offsets[j] + Count(nbits, j + 1)
      invariant forall j :: 1 <= j < i ==> Count(nbits, j) > 1
      decreases groups
    {
      GroupsLess(groups);
      offsets := offsets + [offsets[i - 1] + groups];
      groups := Groups(groups);
      i := i + 1;
    }
    offsets := offsets + [offsets[i - 1] + groups];
    f := Info(nbits, i, offsets);
  }

  lemma {:induction false} CountPositive(nbits: nat, i: nat)
    requires nbits > 0
    ensures Count(nbits, i) > 0
  {
    if i > 0 {
      CountPositive(nbits, i - 1);
    }
  }

  lemma {:induction false} OffsetsGrow(f: Info, i: nat, j: nat)
    requires InfoOk(f) && i <= j <= f.nlevels
    ensures f.offsets[i] <= f.offsets[j]
    decreases j - i
  {
    if i < j {
      OffsetsGrow(f, i, j - 1);
    }
  }

  /** The group of bit `b` of level `i`. */
  ghost predicate At(f: Info, i: nat, b: nat)
  {
    InfoOk(f) && i < f.nlevels && b < W * Count(f.nbits, i + 1)
  }

  function Slot(f: Info, i: nat, b: nat): nat
    requires i < |f.offsets|
  {
    f.offsets[i] + b / W
  }

  lemma SlotBounds(f: Info, i: nat, b: nat)
    requires At(f, i, b)
    ensures f.offsets[i] <= Slot(f, i, b) < f.offsets[i + 1] <= f.offsets[f.nlevels]
  {
    OffsetsGrow(f, i + 1, f.nlevels);
  }

  /** Levels do not share groups. */
  lemma SlotsApart(f: Info, i: nat, b: nat, j: nat, c: nat)
    requires At(f, i, b) && At(f, j, c)
    ensures Slot(f, i, b) == Slot(f, j, c) <==> i == j && b / W == c / W
  {
    SlotBounds(f, i, b);
    SlotBounds(f, j, c);
    if i < j {
      OffsetsGrow(f, i + 1, j);
    } else if j < i {
      OffsetsGrow(f, j + 1, i);
    }
  }

  /* --- The tree --------------------------------------------------------------------- */

  ghost predicate Words(f: Info, s: seq<nat>)
  {
    InfoOk(f) && |s| == f.offsets[f.nlevels] && forall k :: 0 <= k < |s| ==> s[k] < Pow2(W)
  }

  /** The stored bit `b` of level `i`. */
  ghost predicate Stored(f: Info, s: seq<nat>, i: nat, b: nat)
    requires Words(f, s) && At(f, i, b)
  {
    SlotBounds(f, i, b);
    Bit(s[Slot(f, i, b)], b % W)
  }

  /** Bits past the end of a level are zero. */
  ghost predicate Trailing(f: Info, s: seq<nat>)
    requires Words(f, s)
  {
    forall i: nat, b: nat | At(f, i, b) && b >= Count(f.nbits, i) :: !Stored(f, s, i, b)
  }

  /** Group `b` of level `i`. */
  ghost function Group(f: Info, s: seq<nat>, i: nat, b: nat): nat
    requires Words(f, s) && At(f, i, W * b)
  {
    SlotBounds(f, i, W * b);
    s[f.offsets[i] + b]
  }

  /** Group `b` of level `i` has a bit in the level above. */
  ghost predicate Inner(f: Info, i: nat, b: nat)
  {
    InfoOk(f) && i + 1 < f.nlevels && b < Count(f.nbits, i + 1)
  }

  ghost predicate ParentOk(f: Info, s: seq<nat>, i: nat, b: nat)
    requires Words(f, s) && Inner(f, i, b)
  {
    Stored(f, s, i + 1, b) <==> Group(f, s, i, b) != 0
  }

  /** Every parent bit is right, except perhaps the one of group `b` of level `i`. */
  ghost predicate TreeBut(f: Info, s: seq<nat>, i: nat, b: nat)
  {
    && Words(f, s) && Trailing(f, s)
    && forall j: nat, c: nat | Inner(f, j, c) && !(j == i && c == b) :: ParentOk(f, s, j, c)
  }

  ghost predicate Tree(f: Info, s: seq<nat>)
  {
    && Words(f, s) && Trailing(f, s)
    && forall j: nat, c: nat | Inner(f, j, c) :: ParentOk(f, s, j, c)
  }

  /** The flat bit vector. */
  ghost function Flat(f: Info, s: seq<nat>): (v: seq<bool>)
    requires Words(f, s)
    ensures |v| == f.nbits
  {
    seq(f.nbits, b requires 0 <= b < f.nbits => (assert At(f, 0, b); !Stored(f, s, 0, b)))
  }

  /* --- One flip ---------------------------------------------------------------------- */

  ghost predicate Flipped(f: Info, s: seq<nat>, i: nat, b: nat, s': seq<nat>)
  {
    && Words(f, s) && At(f, i, b)
    && (SlotBounds(f, i, b); s' == s[Slot(f, i, b) := Flip(s[Slot(f, i, b)], b % W)])
  }

  lemma FlippedWords(f: Info, s: seq<nat>, i: nat, b: nat, s': seq<nat>)
    requires Flipped(f, s, i, b, s')
    ensures Words(f, s')
  {
    SlotBounds(f, i, b);
    FlipRange(s[Slot(f, i, b)], b % W, W);
  }

  lemma FlippedStored(f: Info, s: seq<nat>, i: nat, b: nat, s': seq<nat>, j: nat, c: nat)
    requires Flipped(f, s, i, b, s') && Words(f, s') && At(f, j, c)
    ensures Stored(f, s', j, c) == if j == i && c == b then !Stored(f, s, j, c) else Stored(f, s, j, c)
  {
    SlotBounds(f, i, b);
    SlotBounds(f, j, c);
    SlotsApart(f, i, b, j, c);
    FlipBit(s[Slot(f, i, b)], b % W, c % W);
  }

  lemma FlippedGroup(f: Info, s: seq<nat>, i: nat, b: nat, s': seq<nat>, j: nat, c: nat)
    requires Flipped(f, s, i, b, s') && Words(f, s') && At(f, j, W * c)
    ensures j != i || c != b / W ==> Group(f, s', j, c) == Group(f, s, j, c)
  {
    SlotBounds(f, i, b);
    SlotBounds(f, j, W * c);
    SlotsApart(f, i, b, j, W * c);
  }

  lemma InnerAt(f: Info, i: nat, b: nat)
    requires Inner(f, i, b)
    ensures At(f, i, W * b) && At(f, i + 1, b)
  {
  }

  /** Flipping the one wrong bit moves the wrong spot up, if the group's emptiness changed. */
  lemma FlipUp(f: Info, s: seq<nat>, i: nat, b: nat, s': seq<nat>)
    requires Flipped(f, s, i, b, s') && b < Count(f.nbits, i)
    requires if i == 0 then Tree(f, s) else TreeBut(f, s, i - 1, b) && !ParentOk(f, s, i - 1, b)
    ensures TreeBut(f, s', i, b / W)
  {
    hide Stored, Group, Count, Words, Slot, Bit, Flip, Flipped;
    FlippedWords(f, s, i, b, s');
    forall j: nat, c: nat | At(f, j, c) && c >= Count(f.nbits, j) ensures !Stored(f, s', j, c) {
      FlippedStored(f, s, i, b, s', j, c);
    }
    forall j: nat, c: nat | Inner(f, j, c) && !(j == i && c == b / W) ensures ParentOk(f, s', j, c) {
      InnerAt(f, j, c);
      FlippedStored(f, s, i, b, s', j + 1, c);
      FlippedGroup(f, s, i, b, s', j, c);
      assert !(j + 1 == i && c == b) ==> ParentOk(f, s, j, c);
    }
  }

  lemma FlatFlip(f: Info, s: seq<nat>, i: nat, b: nat, s': seq<nat>)
    requires Flipped(f, s, i, b, s') && b < Count(f.nbits, i) && Words(f, s')
    ensures Flat(f, s') == if i == 0 then Flat(f, s)[b := !Flat(f, s)[b]] else Flat(f, s)
  {
    hide Stored;
    forall c: nat | 0 <= c < f.nbits ensures Flat(f, s')[c] == if i == 0 && c == b then !Flat(f, s)[c] else Flat(f, s)[c] {
      FlatStored(f, s, c);
      FlippedStored(f, s, i, b, s', 0, c);
    }
  }

  /** The parent bit above a flip stays right exactly when the group's emptiness did not change. */
  lemma FlipParent(f: Info, s: seq<nat>, i: nat, b: nat, s': seq<nat>)
    requires Flipped(f, s, i, b, s') && Words(f, s') && Inner(f, i, b / W) && ParentOk(f, s, i, b / W)
    ensures ParentOk(f, s', i, b / W) <==> (Group(f, s, i, b / W) == 0 <==> Group(f, s', i, b / W) == 0)
  {
    InnerAt(f, i, b / W);
    FlippedStored(f, s, i, b, s', i + 1, b / W);
  }

  lemma TreeDone(f: Info, s: seq<nat>, i: nat, b: nat)
    requires TreeBut(f, s, i, b) && (Inner(f, i, b) ==> ParentOk(f, s, i, b))
    ensures Tree(f, s)
  {
  }

  /** One level of the climb in `bitmap_set` and `bitmap_unset`. */
  lemma Climb(f: Info, s: seq<nat>, i: nat, b: nat, s': seq<nat>)
    requires Flipped(f, s, i, b, s') && b < Count(f.nbits, i)
    requires if i == 0 then Tree(f, s) else TreeBut(f, s, i - 1, b) && !ParentOk(f, s, i - 1, b)
    ensures Words(f, s') && At(f, i, W * (b / W)) && b / W < Count(f.nbits, i + 1) && Slot(f, i, b) < |s'| == |s|
    ensures TreeBut(f, s', i, b / W)
    ensures Group(f, s, i, b / W) == s[Slot(f, i, b)] && Group(f, s', i, b / W) == s'[Slot(f, i, b)]
    ensures Flat(f, s') == if i == 0 then Flat(f, s)[b := !Flat(f, s)[b]] else Flat(f, s)
    ensures (Group(f, s, i, b / W) == 0 <==> Group(f, s', i, b / W) == 0) || i + 1 == f.nlevels ==> Tree(f, s')
    ensures !(Group(f, s, i, b / W) == 0 <==> Group(f, s', i, b / W) == 0) && i + 1 < f.nlevels ==> !ParentOk(f, s', i, b / W)
  {
    hide Stored, Flat;
    FlippedWords(f, s, i, b, s');
    FlipUp(f, s, i, b, s');
    FlatFlip(f, s, i, b, s');
    SlotBounds(f, i, b);
    if i + 1 < f.nlevels {
      assert ParentOk(f, s, i, b / W);
      FlipParent(f, s, i, b, s');
    }
    if (Group(f, s, i, b / W) == 0 <==> Group(f, s', i, b / W) == 0) || i + 1 == f.nlevels {
      TreeDone(f, s', i, b / W);
    }
  }

  /** The stored bit at a slot, and what a flip does to a word. */
  lemma FlipWord(w: nat, k: nat)
    ensures Bit(w, k) ==> w != 0
    ensures !Bit(w, k) ==> Flip(w, k) != 0
  {
    FlipBit(w, k, k);
    ZeroBits(k);
  }

  lemma FlatStored(f: Info, s: seq<nat>, b: nat)
    requires Words(f, s) && b < f.nbits
    ensures At(f, 0, b) && b / W < |s| && Flat(f, s)[b] == !Bit(s[b / W], b % W)
  {
    SlotBounds(f, 0, b);
  }

  /** `bitmap_get`. */
  method Get(groups: array<nat>, f: Info, bit: nat) returns (r: bool)
    requires Tree(f, groups[..]) && bit < f.nbits
    ensures r == Flat(f, groups[..])[bit]
  {
    FlatStored(f, groups[..], bit);
    r := !Bit(groups[bit / W], bit % W);
  }

  /** `bitmap_set`. */
  method Set(groups: array<nat>, f: Info, bit: nat)
    requires Tree(f, groups[..]) && bit < f.nbits && !Flat(f, groups[..])[bit]
    modifies groups
    ensures Tree(f, groups[..]) && Flat(f, groups[..]) == old(Flat(f, groups[..]))[bit := true]
  {
    hide Tree, TreeBut, Flat, Stored, ParentOk, Group, Bit, Flip, Words, Count;
    ghost var s := groups[..];
    SetStart(f, s, bit);
    ghost var v := Flat(f, s);
    var goff: nat := bit / W;
    var g := Flip(groups[goff], bit % W);
    groups[goff] := g;
    assert groups[..] == s[goff := g];
    Climb(f, s, 0, bit, groups[..]);
    if g == 0 {
      var i := 1;
      while i < f.nlevels
        invariant 1 <= i <= f.nlevels && Words(f, groups[..]) && goff < Count(f.nbits, i)
        invariant Flat(f, groups[..]) == v[bit := true]
        invariant if i < f.nlevels then Stale(f, groups[..], i, goff, false) else Tree(f, groups[..])
      {
        ghost var s1 := groups[..];
        var b := goff;
        StaleStored(f, s1, i, b, false);
        goff := b / W;
        g := Flip(groups[f.offsets[i] + goff], b % W);
        groups[f.offsets[i] + goff] := g;
        assert groups[..] == s1[f.offsets[i] + goff := g];
        Climb(f, s1, i, b, groups[..]);
        if g != 0 {
          break;
        }
        i := i + 1;
      }
    }
  }

  /** The bit of group `b` of level `i - 1` is wrong, and the group is empty or not as `busy` says. */
  ghost predicate Stale(f: Info, s: seq<nat>, i: nat, b: nat, busy: bool)
  {
    && i > 0 && Inner(f, i - 1, b) && TreeBut(f, s, i - 1, b) && !ParentOk(f, s, i - 1, b)
    && (InnerAt(f, i - 1, b); Group(f, s, i - 1, b) != 0 <==> busy)
  }

  lemma StaleStored(f: Info, s: seq<nat>, i: nat, b: nat, busy: bool)
    requires Stale(f, s, i, b, busy)
    ensures At(f, i, b) && b < Count(f.nbits, i) && f.offsets[i] + b / W < |s|
    ensures var w := s[f.offsets[i] + b / W];
      Bit(w, b % W) == !busy && (!busy ==> w != 0) && (busy ==> Flip(w, b % W) != 0)
    ensures TreeBut(f, s, i - 1, b) && !ParentOk(f, s, i - 1, b)
    ensures Flipped(f, s, i, b, s[f.offsets[i] + b / W := Flip(s[f.offsets[i] + b / W], b % W)])
  {
    InnerAt(f, i - 1, b);
    SlotBounds(f, i, b);
    FlipWord(s[f.offsets[i] + b / W], b % W);
  }

  lemma SetStart(f: Info, s: seq<nat>, b: nat)
    requires Tree(f, s) && b < f.nbits
    ensures InfoOk(f) && Words(f, s) && At(f, 0, b) && b < Count(f.nbits, 0) && b / W < |s|
    ensures Flipped(f, s, 0, b, s[b / W := Flip(s[b / W], b % W)])
    ensures Flat(f, s)[b] ==> Flip(s[b / W], b % W) != 0
    ensures !Flat(f, s)[b] ==> s[b / W] != 0
  {
    FlatStored(f, s, b);
    FlipWord(s[b / W], b % W);
  }

  /** `bitmap_unset`. */
  method Unset(groups: array<nat>, f: Info, bit: nat)
    requires Tree(f, groups[..]) && bit < f.nbits && Flat(f, groups[..])[bit]
    modifies groups
    ensures Tree(f, groups[..]) && Flat(f, groups[..]) == old(Flat(f, groups[..]))[bit := false]
  {
    hide Tree, TreeBut, Flat, Stored, ParentOk, Group, Bit, Flip, Words, Count;
    ghost var s := groups[..];
    SetStart(f, s, bit);
    ghost var v := Flat(f, s);
    var goff: nat := bit / W;
    var g := groups[goff];
    var propagate := g == 0;
    g := Flip(g, bit % W);
    groups[goff] := g;
    assert groups[..] == s[goff := g];
    Climb(f, s, 0, bit, groups[..]);
    if propagate {
      var i := 1;
      while i < f.nlevels
        invariant 1 <= i <= f.nlevels && Words(f, groups[..]) && goff < Count(f.nbits, i)
        invariant Flat(f, groups[..]) == v[bit := false]
        invariant if i < f.nlevels then Stale(f, groups[..], i, goff, true) else Tree(f, groups[..])
      {
        ghost var s1 := groups[..];
        var b := goff;
        StaleStored(f, s1, i, b, true);
        goff := b / W;
        g := groups[f.offsets[i] + goff];
        propagate := g == 0;
        g := Flip(g, b % W);
        groups[f.offsets[i] + goff] := g;
        assert groups[..] == s1[f.offsets[i] + goff := g];
        Climb(f, s1, i, b, groups[..]);
        if !propagate {
          break;
        }
        i := i + 1;
      }
    }
  }

  /* --- Full, and the lowest unset bit --------------------------------------------------- */

  /** No bit of level `i` is stored, that is, no group below is non-zero. */
  ghost predicate LevelZero(f: Info, s: seq<nat>, i: nat)
    requires Words(f, s) && i < f.nlevels
  {
    forall g: nat | At(f, i, W * g) :: Group(f, s, i, g) == 0
  }

  lemma {:induction false} NonzeroBit(w: nat, n: nat)
    requires 0 < w < Pow2(n)
    ensures exists k :: 0 <= k < n && Bit(w, k)
  {
    FfsLowest(w, n);
  }

  lemma GroupBit(f: Info, s: seq<nat>, i: nat, g: nat, k: nat)
    requires Words(f, s) && At(f, i, W * g) && k < W
    ensures At(f, i, W * g + k) && Stored(f, s, i, W * g + k) == Bit(Group(f, s, i, g), k) && Group(f, s, i, g) < Pow2(W)
  {
    SlotBounds(f, i, W * g);
    SlotBounds(f, i, W * g + k);
  }

  /** If no bit of level `i` is stored, all its groups are zero. */
  lemma NoneStored(f: Info, s: seq<nat>, i: nat)
    requires Words(f, s) && i < f.nlevels && forall b: nat | At(f, i, b) :: !Stored(f, s, i, b)
    ensures LevelZero(f, s, i)
  {
    hide Stored, Group, Bit, Count;
    forall g: nat | At(f, i, W * g) ensures Group(f, s, i, g) == 0 {
      GroupBit(f, s, i, g, 0);
      if Group(f, s, i, g) != 0 {
        NonzeroBit(Group(f, s, i, g), W);
        var k: nat :| k < W && Bit(Group(f, s, i, g), k);
        GroupBit(f, s, i, g, k);
        assert false;
      }
    }
  }

  lemma ZeroStored(f: Info, s: seq<nat>, i: nat, b: nat)
    requires Words(f, s) && i < f.nlevels && LevelZero(f, s, i) && At(f, i, b)
    ensures !Stored(f, s, i, b)
  {
    hide Stored, Group, Bit, Count;
    assert b == W * (b / W) + b % W && At(f, i, W * (b / W));
    GroupBit(f, s, i, b / W, b % W);
    ZeroBits(b % W);
  }

  lemma LevelUp(f: Info, s: seq<nat>, i: nat)
    requires Tree(f, s) && i + 1 < f.nlevels
    ensures LevelZero(f, s, i) <==> LevelZero(f, s, i + 1)
  {
    hide Stored, Group, Bit, Words, Count;
    if LevelZero(f, s, i) {
      var j := i + 1;
      forall b: nat | At(f, j, b) ensures !Stored(f, s, j, b) {
        if b < Count(f.nbits, j) {
          InnerAt(f, i, b);
          assert Inner(f, i, b) && ParentOk(f, s, i, b);
        }
      }
      NoneStored(f, s, i + 1);
    }
    if LevelZero(f, s, i + 1) {
      forall g: nat | At(f, i, W * g) ensures Group(f, s, i, g) == 0 {
        assert Inner(f, i, g) && ParentOk(f, s, i, g);
        InnerAt(f, i, g);
        ZeroStored(f, s, i + 1, g);
      }
    }
  }

  lemma {:induction false} LevelTop(f: Info, s: seq<nat>, i: nat)
    requires Tree(f, s) && i < f.nlevels
    ensures LevelZero(f, s, 0) <==> LevelZero(f, s, i)
  {
    if i > 0 {
      LevelTop(f, s, i - 1);
      LevelUp(f, s, i - 1);
    }
  }

  lemma BottomZero(f: Info, s: seq<nat>)
    requires Tree(f, s)
    ensures LevelZero(f, s, 0) <==> forall b :: 0 <= b < f.nbits ==> Flat(f, s)[b]
  {
    hide Group, Bit, Count, Flat;
    if LevelZero(f, s, 0) {
      forall b: nat | b < f.nbits ensures Flat(f, s)[b] {
        FlatAt(f, s, b);
        ZeroStored(f, s, 0, b);
      }
    }
    if forall b :: 0 <= b < f.nbits ==> Flat(f, s)[b] {
      forall b: nat | At(f, 0, b) ensures !Stored(f, s, 0, b) {
        if b < f.nbits {
          FlatAt(f, s, b);
        } else {
          CountZero(f);
        }
      }
      NoneStored(f, s, 0);
    }
  }

  lemma CountZero(f: Info)
    ensures Count(f.nbits, 0) == f.nbits
  {
  }

  lemma FlatAt(f: Info, s: seq<nat>, b: nat)
    requires Words(f, s) && b < f.nbits
    ensures At(f, 0, b) && Flat(f, s)[b] == !Stored(f, s, 0, b)
  {
    FlatStored(f, s, b);
  }

  /** The root is the last word. */
  lemma Root(f: Info, s: seq<nat>)
    requires Words(f, s)
    ensures f.offsets[f.nlevels] == f.offsets[f.nlevels - 1] + 1 && |s| > 0
    ensures LevelZero(f, s, f.nlevels - 1) <==> s[f.offsets[f.nlevels] - 1] == 0
  {
    var top := f.nlevels - 1;
    assert Count(f.nbits, top + 1) == 1;
    assert f.offsets[top + 1] == f.offsets[top] + Count(f.nbits, top + 1);
    assert At(f, top, W * 0);
    assert Group(f, s, top, 0) == s[f.offsets[top]];
    assert forall g: nat :: At(f, top, W * g) ==> g == 0;
  }

  /** `bitmap_full`: one word tells whether every logical bit is set. */
  method IsFull(groups: array<nat>, f: Info) returns (r: bool)
    requires Tree(f, groups[..])
    ensures r <==> forall b :: 0 <= b < f.nbits ==> Flat(f, groups[..])[b]
  {
    hide LevelZero, Stored, Group, Flat, Tree;
    FullRoot(f, groups[..]);
    r := groups[f.offsets[f.nlevels] - 1] == 0;
  }

  lemma FullRoot(f: Info, s: seq<nat>)
    requires Tree(f, s)
    ensures InfoOk(f) && Words(f, s) && 0 < f.offsets[f.nlevels] == |s| == f.offsets[f.nlevels - 1] + 1
    ensures s[|s| - 1] == 0 <==> forall b :: 0 <= b < f.nbits ==> Flat(f, s)[b]
  {
    hide LevelZero, Stored, Group, Flat;
    Root(f, s);
    LevelTop(f, s, f.nlevels - 1);
    BottomZero(f, s);
  }

  /** Bit `b` is the lowest stored bit of level `i`. */
  ghost predicate Lowest(f: Info, s: seq<nat>, i: nat, b: nat)
    requires Words(f, s)
  {
    && At(f, i, b) && b < Count(f.nbits, i) && Stored(f, s, i, b)
    && forall c: nat | c < b && At(f, i, c) :: !Stored(f, s, i, c)
  }

  lemma LowestRoot(f: Info, s: seq<nat>)
    requires Tree(f, s) && 0 < |s| == f.offsets[f.nlevels - 1] + 1 && s[|s| - 1] != 0
    ensures Lowest(f, s, f.nlevels - 1, Ffs(s[|s| - 1]))
  {
    hide Stored, Group, Bit;
    var top, w := f.nlevels - 1, s[|s| - 1];
    var b := Ffs(w);
    assert Count(f.nbits, top + 1) == 1 && At(f, top, W * 0);
    GroupTop(f, s);
    FfsLowest(w, W);
    GroupBit(f, s, top, 0, b);
    forall c: nat | c < b ensures !Stored(f, s, top, c) {
      GroupBit(f, s, top, 0, c);
    }
  }

  lemma GroupTop(f: Info, s: seq<nat>)
    requires Words(f, s) && |s| == f.offsets[f.nlevels - 1] + 1 && At(f, f.nlevels - 1, W * 0)
    ensures Group(f, s, f.nlevels - 1, 0) == s[|s| - 1]
  {
  }

  /** One level of the descent in `bitmap_sfu`. */
  lemma Descend(f: Info, s: seq<nat>, i: nat, b: nat)
    requires Tree(f, s) && Lowest(f, s, i + 1, b)
    ensures f.offsets[i] + b < |s| && s[f.offsets[i] + b] > 0
    ensures Lowest(f, s, i, W * b + Ffs(s[f.offsets[i] + b]))
  {
    hide Stored, Bit, Words, Count, Group;
    assert Inner(f, i, b) && ParentOk(f, s, i, b);
    InnerAt(f, i, b);
    GroupWord(f, s, i, b);
    var w := Group(f, s, i, b);
    GroupBit(f, s, i, b, 0);
    FfsLowest(w, W);
    var n := W * b + Ffs(w);
    GroupBit(f, s, i, b, Ffs(w));
    forall c: nat | c < n && At(f, i, c) ensures !Stored(f, s, i, c) {
      GroupBit(f, s, i, c / W, c % W);
      assert c == W * (c / W) + c % W;
      if c / W < b {
        assert Inner(f, i, c / W) && ParentOk(f, s, i, c / W);
        InnerAt(f, i, c / W);
        ZeroBits(c % W);
      }
    }
  }

  lemma GroupWord(f: Info, s: seq<nat>, i: nat, b: nat)
    requires Words(f, s) && At(f, i, W * b)
    ensures f.offsets[i] + b < |s| && Group(f, s, i, b) == s[f.offsets[i] + b]
  {
    SlotBounds(f, i, W * b);
  }

  lemma LowestFlat(f: Info, s: seq<nat>, b: nat)
    requires Words(f, s) && Lowest(f, s, 0, b)
    ensures b < f.nbits && !Flat(f, s)[b] && forall c :: 0 <= c < b ==> Flat(f, s)[c]
  {
    hide Flat, Stored;
    FlatAt(f, s, b);
    forall c: nat | c < b ensures Flat(f, s)[c] {
      FlatAt(f, s, c);
    }
  }

  /** `bitmap_sfu`: sets and returns the lowest unset bit. */
  method SetFirstUnset(groups: array<nat>, f: Info) returns (bit: nat)
    requires Tree(f, groups[..]) && exists b :: 0 <= b < f.nbits && !Flat(f, groups[..])[b]
    modifies groups
    ensures bit < f.nbits && !old(Flat(f, groups[..]))[bit]
    ensures forall b :: 0 <= b < bit ==> old(Flat(f, groups[..]))[b]
    ensures Tree(f, groups[..]) && Flat(f, groups[..]) == old(Flat(f, groups[..]))[bit := true]
  {
    hide Tree, Flat, Lowest, Words, Bit, Ffs;
    ghost var s := groups[..];
    FullRoot(f, s);
    LowestRoot(f, s);
    var i := f.nlevels - 1;
    bit := Ffs(groups[f.offsets[i]]);
    while i > 0
      invariant 0 <= i < f.nlevels && s == groups[..] && Lowest(f, s, i, bit)
    {
      i := i - 1;
      Descend(f, s, i, bit);
      bit := W * bit + Ffs(groups[f.offsets[i] + bit]);
    }
    LowestFlat(f, s, bit);
    Set(groups, f, bit);
  }

  /* --- Initialisation -------------------------------------------------------------------- */

  /** Group `g` of level `i` has exactly the bits in use. */
  ghost predicate Fresh(f: Info, s: seq<nat>, i: nat, g: nat)
    requires Words(f, s) && At(f, i, W * g)
  {
    forall k: nat | k < W :: Bit(Group(f, s, i, g), k) <==> W * g + k < Count(f.nbits, i)
  }

  lemma FreshTree(f: Info, s: seq<nat>)
    requires Words(f, s) && forall i: nat, g: nat | At(f, i, W * g) :: Fresh(f, s, i, g)
    ensures Tree(f, s) && forall b :: 0 <= b < f.nbits ==> !Flat(f, s)[b]
  {
    hide Stored, Group, Bit, Words, Count, Flat;
    forall i: nat, b: nat | At(f, i, b) ensures Stored(f, s, i, b) <==> b < Count(f.nbits, i) {
      FreshStored(f, s, i, b);
    }
    forall i: nat, b: nat | Inner(f, i, b) ensures ParentOk(f, s, i, b) {
      InnerAt(f, i, b);
      FreshBusy(f, s, i, b);
    }
    forall b: nat | b < f.nbits ensures !Flat(f, s)[b] {
      FlatAt(f, s, b);
      CountZero(f);
    }
  }

  lemma FreshStored(f: Info, s: seq<nat>, i: nat, b: nat)
    requires Words(f, s) && At(f, i, b) && At(f, i, W * (b / W)) && Fresh(f, s, i, b / W)
    ensures Stored(f, s, i, b) <==> b < Count(f.nbits, i)
  {
    hide Stored, Group, Bit, Words, Count;
    GroupBit(f, s, i, b / W, b % W);
  }

  lemma FreshBusy(f: Info, s: seq<nat>, i: nat, g: nat)
    requires Words(f, s) && At(f, i, W * g) && Fresh(f, s, i, g)
    ensures Group(f, s, i, g) != 0
  {
    assert W * g < Count(f.nbits, i);
    assert Bit(Group(f, s, i, g), 0);
  }

  /** What one group of a level with `n` bits in use gets: all ones, shifted down if it is the last. */
  function FreshWord(n: nat, g: nat): (w: nat)
    ensures w < Pow2(W)
  {
    if W * g + W <= n then Pow2(W) - 1 else if W * g <= n then (PowGrows(n - W * g, W); Pow2(n - W * g) - 1) else 0
  }

  lemma {:induction false} PowGrows(n: nat, m: nat)
    requires n <= m
    ensures Pow2(n) <= Pow2(m)
    decreases m
  {
    if n < m {
      PowGrows(n, m - 1);
    }
  }

  lemma FreshBits(n: nat, g: nat, k: nat)
    requires k < W && W * g < n
    ensures Bit(FreshWord(n, g), k) <==> W * g + k < n
  {
    LowOnes(if W * g + W <= n then W else n - W * g, k);
  }

  ghost predicate LevelFresh(f: Info, s: seq<nat>, i: nat)
    requires InfoOk(f) && i < f.nlevels
  {
    f.offsets[i + 1] <= |s| && forall k: nat | f.offsets[i] <= k < f.offsets[i + 1] :: s[k] == FreshWord(Count(f.nbits, i), k - f.offsets[i])
  }

  function Extra(n: nat): (e: nat)
    ensures e < W
  {
    (W - n % W) % W
  }

  lemma LastWord(n: nat)
    requires n > 0
    ensures Shr(Pow2(W) - 1, Extra(n)) == FreshWord(n, Groups(n) - 1)
    ensures forall g: nat :: g < Groups(n) - 1 ==> FreshWord(n, g) == Pow2(W) - 1
  {
    hide Pow2, Shr;
    ShrOnes(W, Extra(n));
    assert W - Extra(n) == n - W * (Groups(n) - 1);
  }

  /** One level of `bitmap_init`. */
  lemma LevelInit(f: Info, s: seq<nat>, i: nat, s': seq<nat>)
    requires InfoOk(f) && i < f.nlevels && f.offsets[i] < f.offsets[i + 1] <= |s|
    requires forall k: nat | f.offsets[i] <= k < |s| :: s[k] == Pow2(W) - 1
    requires s' == s[f.offsets[i + 1] - 1 := Shr(Pow2(W) - 1, Extra(Count(f.nbits, i)))]
    requires forall j: nat | j < i :: LevelFresh(f, s, j)
    ensures forall j: nat | j <= i :: LevelFresh(f, s', j)
    ensures forall k: nat | f.offsets[i + 1] <= k < |s'| :: s'[k] == Pow2(W) - 1
  {
    hide Pow2, Shr, FreshWord, Extra, Groups;
    CountPositive(f.nbits, i);
    LastWord(Count(f.nbits, i));
    forall j: nat | j < i ensures LevelFresh(f, s', j) {
      assert LevelFresh(f, s, j);
      OffsetsGrow(f, j + 1, i);
    }
  }

  lemma FreshAll(f: Info, s: seq<nat>)
    requires InfoOk(f) && |s| == f.offsets[f.nlevels] && forall i: nat | i < f.nlevels :: LevelFresh(f, s, i)
    ensures Words(f, s) && forall i: nat, g: nat | At(f, i, W * g) :: Fresh(f, s, i, g)
  {
    hide Bit, FreshWord, Group, Pow2;
    forall k: nat | k < |s| ensures s[k] < Pow2(W) {
      LevelOf(f, f.nlevels, k);
      var i: nat :| i < f.nlevels && f.offsets[i] <= k < f.offsets[i + 1];
      assert LevelFresh(f, s, i);
    }
    forall i: nat, g: nat | At(f, i, W * g) ensures Fresh(f, s, i, g) {
      assert LevelFresh(f, s, i);
      GroupWord(f, s, i, g);
      forall k: nat | k < W ensures Bit(Group(f, s, i, g), k) <==> W * g + k < Count(f.nbits, i) {
        FreshBits(Count(f.nbits, i), g, k);
      }
    }
  }

  /** Every word belongs to a level. */
  lemma {:induction false} LevelOf(f: Info, n: nat, k: nat)
    requires InfoOk(f) && n <= f.nlevels && k < f.offsets[n]
    ensures exists i: nat :: i < n && f.offsets[i] <= k < f.offsets[i + 1]
  {
    if k < f.offsets[n - 1] {
      LevelOf(f, n - 1, k);
    } else {
      assert f.offsets[n - 1] <= k < f.offsets[(n - 1) + 1];
    }
  }

  /** `bitmap_init`, whatever the memory held. */
  method Init(groups: array<nat>, f: Info)
    requires InfoOk(f) && groups.Length == f.offsets[f.nlevels]
    modifies groups
    ensures Tree(f, groups[..]) && forall b :: 0 <= b < f.nbits ==> !Flat(f, groups[..])[b]
  {
    hide Pow2, Shr, FreshWord, Fresh, Flat, Tree, Words;
    for k := 0 to groups.Length
      invariant forall j :: 0 <= j < k ==> groups[j] == Pow2(W) - 1
    {
      groups[k] := Pow2(W) - 1;
    }
    NextLevel(f, 0);
    LevelInit(f, groups[..], 0, groups[..][f.offsets[1] - 1 := Shr(Pow2(W) - 1, Extra(f.nbits))]);
    TrimLevel(groups, f.offsets[1] - 1, f.nbits);
    for i := 1 to f.nlevels
      invariant forall j: nat | j < i :: LevelFresh(f, groups[..], j)
      invariant forall k: nat | f.offsets[i] <= k < groups.Length :: groups[k] == Pow2(W) - 1
    {
      NextLevel(f, i);
      var count := f.offsets[i] - f.offsets[i - 1];
      LevelInit(f, groups[..], i, groups[..][f.offsets[i + 1] - 1 := Shr(Pow2(W) - 1, Extra(count))]);
      TrimLevel(groups, f.offsets[i + 1] - 1, count);
    }
    FreshAll(f, groups[..]);
    FreshTree(f, groups[..]);
  }

  /** The unused bits of a level's last group are shifted out. */
  method TrimLevel(groups: array<nat>, last: nat, count: nat)
    requires last < groups.Length
    modifies groups
    ensures groups[..] == old(groups[..])[last := Shr(old(groups[last]), Extra(count))]
  {
    ShrNone(groups[last]);
    var extra := Extra(count);
    if extra != 0 {
      groups[last] := Shr(groups[last], extra);
    }
  }

  lemma ShrNone(w: nat)
    ensures Shr(w, 0) == w
  {
  }

  lemma NextLevel(f: Info, i: nat)
    requires InfoOk(f) && i < f.nlevels
    ensures f.offsets[i] < f.offsets[i + 1] <= f.offsets[f.nlevels] && Count(f.nbits, 0) == f.nbits
    ensures i > 0 ==> f.offsets[i] - f.offsets[i - 1] == Count(f.nbits, i)
  {
    CountPositive(f.nbits, i + 1);
    OffsetsGrow(f, i + 1, f.nlevels);
  }
}