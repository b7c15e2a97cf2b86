/**
 Small-object bins (arena.c): `runcur`, the tree of non-full runs, and the regions of each run.

 Every method is what one thread does in one hold of the bin lock, so the contracts hold over
 every interleaving.  `arena_bin_malloc_hard` drops the lock while a run is allocated; it is
 `MallocStart` up to the drop and `MallocFinish` from there on.  A run's bitmap is the flat bit
 vector that the multi-level bitmap stands for.
 */
module Bins {

  import opened Basics
  import Bitmap

  /** Which regions are taken, how many are not, and the first region never handed out. */
  datatype Run = Run(bits: seq<bool>, nfree: nat, nextind: nat)

  /* --- Regions -------------------------------------------------------------------- */

  /** The number of unset bits. */
  function Unset(bits: seq<bool>): (n: nat)
    ensures n <= |bits|
  {
    if bits == [] then 0 else Unset(bits[..|bits| - 1]) + if bits[|bits| - 1] then 0 else 1
  }

  lemma {:induction false} UnsetUpdate(bits: seq<bool>, i: nat, v: bool)
    requires i < |bits|
    ensures Unset(bits[i := v]) == Unset(bits) + (if bits[i] then 1 else 0) - (if v then 1 else 0)
    decreases |bits|
  {
    var n := |bits| - 1;
    if i < n {
      UnsetUpdate(bits[..n], i, v);
      assert bits[i := v][..n] == bits[..n][i := v];
    } else {
      assert bits[i := v][..n] == bits[..n];
    }
  }

  lemma {:induction false} UnsetZero(bits: seq<bool>)
    ensures Unset(bits) == 0 <==> forall i :: 0 <= i < |bits| ==> bits[i]
    decreases |bits|
  {
    if bits != [] {
      UnsetZero(bits[..|bits| - 1]);
    }
  }

  lemma {:induction false} UnsetAll(bits: seq<bool>)
    ensures Unset(bits) == |bits| <==> forall i :: 0 <= i < |bits| ==> !bits[i]
    decreases |bits|
  {
    if bits != [] {
      UnsetAll(bits[..|bits| - 1]);
    }
  }

  /** The lowest unset bit, what `bitmap_sfu` finds. */
  function FirstUnset(bits: seq<bool>): (i: nat)
    ensures i <= |bits| && (i < |bits| ==> !bits[i]) && forall j :: 0 <= j < i ==> bits[j]
    decreases |bits|
  {
    if bits == [] || !bits[0] then 0 else
      assert forall j :: 0 < j < |bits| ==> bits[j] == bits[1..][j - 1];
      1 + FirstUnset(bits[1..])
  }

  ghost predicate RunOk(nregs: nat, r: Run)
  {
    && |r.bits| == nregs && r.nfree == Unset(r.bits) && r.nextind <= nregs
    && forall i :: r.nextind <= i < nregs ==> !r.bits[i]
  }

  /** No region at or above `nextind` is taken before the one at `nextind`. */
  lemma NextAbove(nregs: nat, r: Run)
    requires RunOk(nregs, r)
    ensures FirstUnset(r.bits) <= r.nextind
  {
    if r.nextind < nregs {
      assert !r.bits[r.nextind];
    }
  }

  /** `arena_run_reg_alloc`. */
  function RegAlloc(nregs: nat, r: Run): (p: (Run, nat))
    requires RunOk(nregs, r) && r.nfree > 0
    ensures p.1 < nregs && !r.bits[p.1] && (forall i :: 0 <= i < p.1 ==> r.bits[i]) && p.1 < p.0.nextind
    ensures RunOk(nregs, p.0) && p.0.bits == r.bits[p.1 := true] && p.0.nfree == r.nfree - 1
  {
    UnsetZero(r.bits);
    var i := FirstUnset(r.bits);
    UnsetUpdate(r.bits, i, true);
    NextAbove(nregs, r);
    (Run(r.bits[i := true], r.nfree - 1, if i == r.nextind then r.nextind + 1 else r.nextind), i)
  }

  /** Region `i` can be given back. */
  ghost predicate Gives(nregs: nat, r: Run, i: nat)
  {
    RunOk(nregs, r) && i < nregs && r.bits[i]
  }

  /** `arena_run_reg_dalloc`. */
  function RegDalloc(nregs: nat, r: Run, i: nat): (q: Run)
    requires Gives(nregs, r, i)
    ensures RunOk(nregs, q) && q.bits == r.bits[i := false] && q.nfree == r.nfree + 1
  {
    UnsetUpdate(r.bits, i, false);
    Run(r.bits[i := false], r.nfree + 1, r.nextind)
  }

  /** A run as `arena_bin_nonfull_run_get` initialises it. */
  function NewRun(nregs: nat): (r: Run)
    ensures RunOk(nregs, r) && r.nfree == nregs
  {
    var bits := seq(nregs, _ => false);
    UnsetAll(bits);
    Run(bits, nregs, 0)
  }

  /** Region `i` of run `a` is handed out. */
  ghost predicate Live(all: map<nat, Run>, a: nat, i: nat)
  {
    a in all && i < |all[a].bits| && all[a].bits[i]
  }

  /** Region `i` of run `a`, and no other, becomes live. */
  ghost predicate Gains(all: map<nat, Run>, all': map<nat, Run>, a: nat, i: nat)
  {
    !Live(all, a, i) && forall b: nat, j: nat :: Live(all', b, j) <==> Live(all, b, j) || (b == a && j == i)
  }

  /** A run with every region free has nothing live, so it makes no difference. */
  lemma EmptyRun(nregs: nat, all: map<nat, Run>, a: nat)
    requires a in all && RunOk(nregs, all[a]) && all[a].nfree == nregs
    ensures forall b: nat, j: nat :: Live(all - {a}, b, j) <==> Live(all, b, j)
    ensures forall rest, b, j {:trigger Gains(all, rest, b, j)} :: Gains(all, rest, b, j) <==> Gains(all - {a}, rest, b, j)
    ensures forall rest, b, j {:trigger Gains(rest, all, b, j)} :: Gains(rest, all, b, j) <==> Gains(rest, all - {a}, b, j)
  {
    UnsetAll(all[a].bits);
  }

  lemma LiveIn(all: map<nat, Run>, a: nat, i: nat)
    requires Live(all, a, i)
    ensures a in all
  {
  }

  lemma LiveRun(nregs: nat, all: map<nat, Run>, a: nat, i: nat)
    requires Live(all, a, i) && RunOk(nregs, all[a])
    ensures a in all && i < nregs == |all[a].bits| && all[a].bits[i]
  {
  }

  lemma Drops(nregs: nat, all: map<nat, Run>, all': map<nat, Run>, a: nat, i: nat)
    requires a in all && i < |all[a].bits| && all[a].bits[i]
    requires a in all' && all' == all[a := all'[a]] && all'[a].bits == all[a].bits[i := false]
    ensures Gains(all', all, a, i)
  {
  }

  /** The lowest free region `i` of run `a` is handed out, and nothing else changes. */
  ghost predicate Takes(nregs: nat, all: map<nat, Run>, all': map<nat, Run>, a: nat, i: nat)
  {
    a in all && RunOk(nregs, all[a]) && all[a].nfree > 0 && all' == all[a := RegAlloc(nregs, all[a]).0] && i == RegAlloc(nregs, all[a]).1
  }

  ghost function But(all: map<nat, Run>, a: nat): map<nat, Run> { all - {a} }

  lemma WithRun(all: map<nat, Run>, a: nat)
    requires a in all
    ensures But(all, a)[a := all[a]] == all
  {
  }

  /** A run put there and taken out again leaves no trace. */
  lemma TakesWithout(nregs: nat, all: map<nat, Run>, r: Run, all': map<nat, Run>, a: nat, i: nat, b: nat)
    requires b !in all && a != b && Takes(nregs, all[b := r], all', a, i)
    ensures Takes(nregs, all, all' - {b}, a, i)
  {
    hide RunOk;
    assert (all[b := r])[a := RegAlloc(nregs, all[a]).0] - {b} == all[a := RegAlloc(nregs, all[a]).0];
  }

  /* --- The bin ---------------------------------------------------------------------- */

  /** What `MallocStart` comes to: a region, or the lock is dropped to get a new run. */
  datatype Start = Region(run: nat, reg: nat) | NeedRun

  class Bin {
    const nregs: nat
    var runcur: Option<nat>
    var runs: set<nat>
    var all: map<nat, Run>

    /** The tree holds exactly the non-full runs other than `runcur`. */
    ghost predicate TreeOk()
      reads this
    {
      forall a :: a in runs <==> a in all && all[a].nfree > 0 && runcur != Some(a)
    }

    /** No run is left empty, and `nfree` and the tree are right. */
    ghost predicate Valid()
      reads this
    {
      && nregs > 0 && TreeOk()
      && (forall a :: a in all ==> RunOk(nregs, all[a]) && all[a].nfree < nregs)
      && (runcur.Some? ==> runcur.value in all)
    }

    /** What the comment on `arena_bin_lower_run` says of `runcur`. */
    ghost predicate Lowest()
      reads this
    {
      runcur.Some? ==> forall a :: a in runs ==> runcur.value < a
    }

    constructor (nregs: nat)
      requires nregs > 0
      ensures Valid() && Lowest() && all == map[] && this.nregs == nregs
    {
      this.nregs, runcur, runs, all := nregs, None, {}, map[];
    }

    /** `arena_run_tree_first`. */
    method First() returns (o: Option<nat>)
      ensures o.None? ==> runs == {}
      ensures o.Some? ==> o.value in runs
      ensures o.Some? ==> forall a :: a in runs ==> o.value <= a
    {
      o := None;
      var rest := runs;
      while rest != {}
        invariant rest <= runs
        invariant o.None? ==> rest == runs
        invariant o.Some? ==> o.value in runs
        invariant o.Some? ==> forall a :: a in runs ==> a in rest || o.value <= a
        decreases rest
      {
        var a :| a in rest;
        if o.None? || a < o.value {
          o := Some(a);
        }
        rest := rest - {a};
      }
    }

    /** `arena_bin_nonfull_run_tryget`. */
    method TryGet() returns (o: Option<nat>)
      modifies this`runs
      ensures o.None? ==> runs == old(runs) == {}
      ensures o.Some? ==> o.value in old(runs) && runs == old(runs) - {o.value}
      ensures o.Some? ==> forall a :: a in runs ==> o.value < a
    {
      o := First();
      if o.Some? {
        runs := runs - {o.value};
      }
    }

    /** A region from `runcur`; the bin may be in the middle of a change but for that. */
    method FromCurrent() returns (a: nat, i: nat)
      requires runcur.Some? && runcur.value in all && RunOk(nregs, all[runcur.value]) && all[runcur.value].nfree > 0
      modifies this`all
      ensures Some(a) == runcur && a in all && all == old(all)[a := all[a]]
      ensures RunOk(nregs, all[a]) && all[a].nfree == old(all)[a].nfree - 1 && i < nregs == |old(all)[a].bits|
      ensures Gains(old(all), all, a, i) && Takes(nregs, old(all), all, a, i)
    {
      a := runcur.value;
      var p := RegAlloc(nregs, all[a]);
      i := p.1;
      all := all[a := p.0];
    }

    /** `runcur` is set and has a free region. */
    ghost predicate Usable()
      reads this
    {
      runcur.Some? && runcur.value in all && all[runcur.value].nfree > 0
    }

    /** `arena_malloc_small` and `arena_bin_malloc_hard`, until the lock is dropped or a region is found. */
    method MallocStart() returns (r: Start)
      requires Valid()
      modifies this
      ensures Valid() && (old(Lowest()) ==> Lowest())
      ensures r.Region? ==> Gains(old(all), all, r.run, r.reg) && runcur == Some(r.run)
      ensures r.Region? ==> Takes(nregs, old(all), all, r.run, r.reg)
      ensures r.Region? ==>
        if old(Usable()) then runcur == old(runcur) && runs == old(runs)
        else runs == old(runs) - {r.run} && r.run in old(runs) && forall a :: a in old(runs) ==> r.run <= a
      ensures r.NeedRun? <==> !old(Usable()) && old(runs) == {}
      ensures r.NeedRun? ==> all == old(all) && runcur == None && runs == {} && forall a :: a in all ==> all[a].nfree == 0
    {
      hide RunOk, Gains, Takes;
      if runcur.Some? && all[runcur.value].nfree > 0 {
        var a, i := FromCurrent();
        return Region(a, i);
      }
      runcur := None;
      var o := TryGet();
      if o.None? {
        return NeedRun;
      }
      runcur := o;
      var a, i := FromCurrent();
      return Region(a, i);
    }

    /** `arena_bin_lower_run`: a run with free regions goes back under the bin's care. */
    method LowerRun(a: nat)
      requires a in all && all[a].nfree > 0 && runcur != Some(a) && (runcur.Some? ==> runcur.value in all)
      requires forall b :: b in runs <==> b != a && b in all && all[b].nfree > 0 && runcur != Some(b)
      modifies this`runs, this`runcur
      ensures TreeOk() && (old(Lowest()) ==> Lowest())
      ensures runcur == if old(runcur).Some? && a < old(runcur).value then Some(a) else old(runcur)
    {
      if runcur.Some? && a < runcur.value {
        if all[runcur.value].nfree > 0 {
          runs := runs + {runcur.value};
        }
        runcur := Some(a);
      } else {
        runs := runs + {a};
      }
    }

    /** As `Valid`, but for a run with free regions that the thread has taken out or just got. */
    ghost predicate Holding(run: Option<nat>)
      reads this
    {
      && nregs > 0 && (runcur.Some? ==> runcur.value in all)
      && (run.Some? ==> run.value in all && all[run.value].nfree > 0 && runcur != run)
      && (forall a :: a in runs <==> a in all && all[a].nfree > 0 && runcur != Some(a) && run != Some(a))
      && (forall a :: a in all ==> RunOk(nregs, all[a]) && (all[a].nfree < nregs || (run == Some(a) && all[a].nfree == nregs)))
    }

    /** Another thread has set `runcur`: use that, and give the run back. */
    method UseCurrent(run: Option<nat>) returns (a: nat, i: nat)
      requires Holding(run) && runcur.Some? && all[runcur.value].nfree > 0
      modifies this
      ensures Valid() && (old(Lowest()) ==> Lowest())
      ensures Gains(old(all), all, a, i) && Some(a) == old(runcur)
      ensures run.Some? && old(all)[run.value].nfree == nregs ==>
        run.value !in all && runcur == old(runcur) && runs == old(runs) && Takes(nregs, But(old(all), run.value), all, a, i)
      ensures run.None? || old(all)[run.value].nfree < nregs ==> Takes(nregs, old(all), all, a, i)
      ensures run.None? ==> runcur == old(runcur) && runs == old(runs)
    {
      hide RunOk, Gains, Live, Takes;
      ghost var all0 := all;
      a, i := FromCurrent();
      if run.Some? {
        WithRun(all0, run.value);
      }
      if run.Some? {
        if all[run.value].nfree == nregs {
          EmptyRun(nregs, all, run.value);
          TakesWithout(nregs, But(all0, run.value), all0[run.value], all, a, i, run.value);
          all := all - {run.value};
        } else {
          LowerRun(run.value);
        }
      }
    }

    /**
     `arena_bin_malloc_hard` after the lock is taken again, with the run the arena gave, if any.
     `runcur` stays the lowest non-full run except in one case: the new run is taken up while
     other threads have put a lower one into the tree.
     */
    method MallocFinish(fresh_: Option<nat>) returns (o: Option<(nat, nat)>)
      requires Valid() && (fresh_.Some? ==> fresh_.value !in all)
      modifies this
      ensures Valid()
      ensures o.None? <==> fresh_.None? && forall a :: a in old(all) ==> old(all)[a].nfree == 0
      ensures o.None? ==> all == old(all)
      ensures o.Some? ==> Gains(old(all), all, o.value.0, o.value.1)
      ensures o.Some? && old(Usable()) ==> Some(o.value.0) == old(runcur) && Takes(nregs, old(all), all, o.value.0, o.value.1)
      ensures old(Usable()) && fresh_.Some? ==> runcur == old(runcur) && runs == old(runs)
      ensures !old(Usable()) && fresh_.Some? ==>
        && runcur == fresh_ && runs == old(runs) && o.Some? && o.value.0 == fresh_.value
        && Takes(nregs, old(all)[fresh_.value := NewRun(nregs)], all, o.value.0, o.value.1)
      ensures !old(Usable()) && fresh_.None? && o.Some? ==>
        && runcur == Some(o.value.0) && o.value.0 in old(runs) && runs == old(runs) - {o.value.0}
        && (forall a :: a in old(runs) ==> o.value.0 <= a) && Takes(nregs, old(all), all, o.value.0, o.value.1)
      ensures old(Lowest()) ==>
        (Lowest() <==> !(fresh_.Some? && !old(Usable()) && exists a :: a in old(runs) && a < fresh_.value))
    {
      hide RunOk, Gains, Live, Takes;
      ghost var all0 := all;
      var run := fresh_;
      if fresh_.Some? {
        all := all[fresh_.value := NewRun(nregs)];
        EmptyRun(nregs, all, fresh_.value);
        assert all - {fresh_.value} == all0;
      } else {
        run := TryGet();
      }
      assert Holding(run);
      var a, i;
      if runcur.Some? && all[runcur.value].nfree > 0 {
        a, i := UseCurrent(run);
      } else {
        if run.None? {
          return None;
        }
        runcur := run;
        a, i := FromCurrent();
      }
      return Some((a, i));
    }

    /** `arena_dalloc_bin_locked`. */
    method Dalloc(a: nat, i: nat)
      requires Valid() && Live(all, a, i)
      modifies this
      ensures Valid() && (old(Lowest()) ==> Lowest())
      ensures Gains(all, old(all), a, i)
      ensures a in old(all) && Gives(nregs, old(all)[a], i)
      ensures all == if old(all)[a].nfree + 1 < nregs then old(all)[a := RegDalloc(nregs, old(all)[a], i)] else old(all) - {a}
      ensures runcur ==
        if old(all)[a].nfree + 1 == nregs then if old(runcur) == Some(a) then None else old(runcur)
        else if old(all)[a].nfree == 0 && old(runcur).Some? && a < old(runcur).value then Some(a) else old(runcur)
    {
      hide RunOk, Gains, Live;
      LiveIn(all, a, i);
      LiveRun(nregs, all, a, i);
      all := all[a := RegDalloc(nregs, all[a], i)];
      Drops(nregs, old(all), all, a, i);
      if all[a].nfree == nregs {
        if runcur == Some(a) {
          runcur := None;
        } else if nregs != 1 {
          runs := runs - {a};
        }
        EmptyRun(nregs, all, a);
        all := all - {a};
      } else if all[a].nfree == 1 && runcur != Some(a) {
        LowerRun(a);
      }
    }
  }

  /**
   While a thread has the lock dropped, another has freed a region of run 100 into the tree; the
   thread comes back with run 200, which is then `runcur` although it is not the lowest.
   */
  method NotLowest() returns (bin: Bin)
    ensures bin.Valid() && !bin.Lowest()
  {
    bin := new Bin(2);
    RegTwo();
    var one := bin.MallocStart();
    var two := bin.MallocFinish(Some(100));
    assert bin.all == map[100 := Run([true, false], 1, 1)];
    var three := bin.MallocStart();
    assert bin.all == map[100 := Run([true, true], 0, 2)];
    var four := bin.MallocStart();
    bin.Dalloc(100, 0);
    assert 100 in bin.runs;
    var five := bin.MallocFinish(Some(200));
  }

  /** The regions of a run of two, as they are handed out. */
  lemma RegTwo()
    ensures NewRun(2) == Run([false, false], 2, 0)
    ensures RegAlloc(2, NewRun(2)) == (Run([true, false], 1, 1), 0)
    ensures RunOk(2, Run([true, false], 1, 1)) && RegAlloc(2, Run([true, false], 1, 1)) == (Run([true, true], 0, 2), 1)
  {
    assert NewRun(2).bits == [false, false];
    assert [false, false][0 := true] == [true, false];
    assert [true, false][1 := true] == [true, true];
  }

  /* --- Region addresses ------------------------------------------------------------- */

  /** `BITS` of an unsigned int less `LG_RUN_MAXREGS`. */
  const INV_SHIFT: nat := 0x20_0000      // 2^21
  const MAX_REGS: nat := 2048            // 2^11

  function SizeInv(s: nat): nat
    requires s > 0
  {
    INV_SHIFT / s + 1
  }

  /** Factoring the powers of two out of numerator and denominator keeps the quotient. */
  lemma {:induction false} Rescale(interval: nat, k: nat)
    requires interval > 0
    ensures Bitmap.Shr(interval * k, Bitmap.Ffs(interval)) == Bitmap.Shr(interval, Bitmap.Ffs(interval)) * k
    ensures Bitmap.Shr(interval, Bitmap.Ffs(interval)) % 2 == 1
    decreases interval
  {
    if interval % 2 == 0 {
      var half := interval / 2;
      assert interval * k == 2 * (half * k);
      Rescale(half, k);
    }
  }

  /** `arena_run_regind`: the division as one 32-bit multiplication and a shift. */
  method RegIndex(diff: nat, interval: nat) returns (regind: nat)
    requires interval > 0 && exists k: nat :: k < MAX_REGS && diff == interval * k
    ensures diff == interval * regind && regind < MAX_REGS
  {
    hide Bitmap.Shr, Bitmap.Ffs, Quotient;
    ghost var k: nat :| k < MAX_REGS && diff == interval * k;
    Rescale(interval, k);
    var shift := Bitmap.Ffs(interval);
    QuotientExact(Bitmap.Shr(interval, shift), k);
    regind := Quotient(Bitmap.Shr(diff, shift), Bitmap.Shr(interval, shift));
  }

  /** Division by an odd number, by reciprocal where the table has one. */
  function Quotient(d: nat, s: nat): nat
    requires s > 0
  {
    if s == 1 then d
    else if s <= 31 then d * SizeInv(s) % 0x1_0000_0000 / INV_SHIFT
    else d / s
  }

  lemma QuotientExact(s: nat, k: nat)
    requires s > 0 && s != 2 && k < MAX_REGS
    ensures Quotient(s * k, s) == k
  {
    hide SizeInv;
    if 3 <= s <= 31 {
      Reciprocal(s, k);
    } else if s > 31 {
      Exact(s, k);
    }
  }

  lemma Exact(s: nat, k: nat)
    requires s > 0
    ensures s * k / s == k
  {
    var d := s * k;
    assert d == s * (d / s) + d % s;
    Divides(s, k, d / s, d % s);
  }

  lemma Divides(m: nat, k: nat, q: nat, r: nat)
    requires m > 0 && m * k == m * q + r && r < m
    ensures q == k
  {
    assert m * (k - q) == m * k - m * q;
    assert m * (q - k) == m * q - m * k;
    if q < k {
      Scaled(m, k - q);
    } else if k < q {
      Scaled(m, q - k);
    }
  }

  lemma Scaled(m: nat, j: nat)
    requires j >= 1
    ensures m * j >= m
  {
  }

  /** Multiplying by the rounded-up reciprocal is exact below `MAX_REGS`, and does not wrap. */
  lemma Reciprocal(s: nat, k: nat)
    requires 3 <= s <= 31 && k < MAX_REGS
    ensures s * k * SizeInv(s) < 0x1_0000_0000
    ensures s * k * SizeInv(s) / INV_SHIFT == k
  {
    InvTimes(s);
    Rounded(s, k, SizeInv(s), SizeInv(s) * s - INV_SHIFT);
  }

  lemma InvTimes(s: nat)
    requires 3 <= s <= 31
    ensures INV_SHIFT < SizeInv(s) * s <= INV_SHIFT + s
  {
    var q := INV_SHIFT / s;
    assert q * s <= INV_SHIFT < q * s + s;
    assert (q + 1) * s == q * s + s;
  }

  lemma Rounded(s: nat, k: nat, v: nat, e: nat)
    requires k < MAX_REGS && v * s == INV_SHIFT + e && e <= 31
    ensures s * k * v < 0x1_0000_0000 && s * k * v / INV_SHIFT == k
  {
    Regroup(s, k, v);
    Spread(k, e);
    Bounded(k, e);
    Shifted(s * k * v, k, k * e);
  }

  lemma Spread(k: nat, e: nat)
    ensures k * (INV_SHIFT + e) == k * INV_SHIFT + k * e
  {
  }

  lemma Shifted(p: nat, k: nat, f: nat)
    requires k < MAX_REGS && p == k * INV_SHIFT + f && f < INV_SHIFT
    ensures p < 0x1_0000_0000 && p / INV_SHIFT == k
  {
  }

  lemma Regroup(s: nat, k: nat, v: nat)
    ensures s * k * v == k * (v * s)
  {
  }

  lemma Bounded(k: nat, e: nat)
    requires k <= 2047 && e <= 31
    ensures k * e <= 2047 * 31
  {
    assert k * e <= k * 31;
  }
}
