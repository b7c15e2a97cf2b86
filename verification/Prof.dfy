/**
 Heap-profile contexts: how `prof_lookup`, `prof_ctx_merge` and `prof_ctx_destroy` share them.

 A state machine over any number of threads.  Every step is what one thread does while it
 holds the lock(s) the source takes there, or what it does to its own data.  A thread counter
 is identified by its thread and its context; it is in `links` while it is on the context's
 list.  Which cached counter is flushed is left open.
 */
module Prof {

  import Cuckoo

  datatype Ctx = Ctx(bt: nat, nlimbo: nat, merged: int)

  /** Why the lookup was started: to record an allocation, or the release of an object. */
  datatype Goal = Malloc | Release(obj: nat)

  /** Where a thread is. */
  datatype Pc =
    | Idle
    | Search(goal: Goal, bt: nat)
    | HasCtx(goal: Goal, ctx: nat, isNew: bool)                 // in limbo, no counter yet
    | Flush(goal: Goal, ctx: nat, isNew: bool, victim: nat)     // about to merge a cached counter
    | FlushDestroy(goal: Goal, ctx: nat, isNew: bool, victim: nat)
    | HasCnt(goal: Goal, ctx: nat, isNew: bool)                 // counter ready, not cached yet
    | Cached(goal: Goal, ctx: nat)                              // cached, not linked yet
    | Destroying(goal: Goal, ctx: nat)                          // backing out of a new context
    | Ready(goal: Goal, ctx: nat)                               // lookup returned a counter
    | Failed(goal: Goal)                                        // lookup returned NULL
    | ExitMerge(victim: nat)                                    // thread exit, about to merge
    | ExitDestroy(victim: nat)

  datatype Thread = Thread(cache: map<nat, nat>, pc: Pc)

  datatype State = State(
    ctxs: map<nat, Ctx>,               // contexts that exist
    bt2ctx: map<nat, nat>,             // global hash
    links: map<(nat, nat), int>,       // (thread, context) -> counter on the context's list
    threads: map<nat, Thread>,
    objs: map<nat, nat>,               // live sampled objects -> context
    gone: set<nat>)                    // contexts that were destroyed

  /** `PROF_TCMAX` and `opt_prof_accum`. */
  datatype Config = Config(tcmax: nat, accum: bool)

  /* --- Reading a program counter ---------------------------------------------- */

  function GoalOf(pc: Pc): Goal
  {
    if pc.Idle? || pc.ExitMerge? || pc.ExitDestroy? then Malloc else pc.goal
  }

  /** The context the thread raised `nlimbo` for in `prof_lookup` and has not lowered again. */
  predicate HoldsMain(pc: Pc, c: nat)
  {
    match pc
    case HasCtx(_, d, _) => c == d
    case Flush(_, d, _, _) => c == d
    case FlushDestroy(_, d, _, _) => c == d
    case HasCnt(_, d, _) => c == d
    case Cached(_, d) => c == d
    case Destroying(_, d) => c == d
    case _ => false
  }

  /** The context the thread raised `nlimbo` for in `prof_ctx_merge`. */
  predicate HoldsVictim(pc: Pc, c: nat)
  {
    match pc
    case FlushDestroy(_, _, _, v) => c == v
    case ExitDestroy(v) => c == v
    case _ => false
  }

  /** The context whose counter was taken from the cache and is still linked. */
  predicate Merging(pc: Pc, c: nat)
  {
    match pc
    case Flush(_, _, _, v) => c == v
    case ExitMerge(v) => c == v
    case _ => false
  }

  /** The context a lookup is about, before its counter is in the cache. */
  predicate Uncached(pc: Pc, c: nat)
  {
    HoldsMain(pc, c) && !pc.Cached?
  }

  /* --- Counting ------------------------------------------------------------------ */

  ghost function Mains(threads: map<nat, Thread>, c: nat): set<nat>
  {
    set t | t in threads && HoldsMain(threads[t].pc, c)
  }

  ghost function Victims(threads: map<nat, Thread>, c: nat): set<nat>
  {
    set t | t in threads && HoldsVictim(threads[t].pc, c)
  }

  /** The number of threads in limbo on `c`: in a lookup, or in a merge. */
  ghost function Holds(s: State, c: nat): nat
  {
    |Mains(s.threads, c)| + |Victims(s.threads, c)|
  }

  ghost function Refs(s: State, c: nat): set<nat>
  {
    set o | o in s.objs && s.objs[o] == c
  }

  ghost function Linked(links: map<(nat, nat), int>, c: nat): map<(nat, nat), int>
  {
    map p | p in links && p.1 == c :: links[p]
  }

  ghost function Sum(m: map<(nat, nat), int>): int
  {
    if m == map[] then 0 else var p :| p in m; m[p] + Sum(m - {p})
  }

  /* --- The invariant --------------------------------------------------------------- */

  /** The hash and the contexts are inverse to each other; destroyed contexts are not among them. */
  ghost predicate HashInv(s: State)
  {
    && (forall c :: c in s.ctxs ==> s.ctxs[c].bt in s.bt2ctx && s.bt2ctx[s.ctxs[c].bt] == c)
    && (forall b :: b in s.bt2ctx ==> s.bt2ctx[b] in s.ctxs && s.ctxs[s.bt2ctx[b]].bt == b)
    && (forall c :: c in s.gone ==> c !in s.ctxs)
  }

  ghost predicate CachedAs(s: State, t: nat, c: nat)
    requires t in s.threads && c in s.ctxs
  {
    s.ctxs[c].bt in s.threads[t].cache && s.threads[t].cache[s.ctxs[c].bt] == c
  }

  /** A linked counter belongs to an existing context and is in its thread's cache or being merged. */
  ghost predicate LinkInv(s: State, t: nat)
    requires t in s.threads
  {
    forall c :: (t, c) in s.links ==> c in s.ctxs && (Merging(s.threads[t].pc, c) || CachedAs(s, t, c))
  }

  /** A cached counter belongs to the existing context of its backtrace, and is linked or about to be. */
  ghost predicate CacheInv(s: State, t: nat)
    requires t in s.threads
  {
    forall b :: b in s.threads[t].cache ==>
      var c := s.threads[t].cache[b];
      c in s.ctxs && s.ctxs[c].bt == b && ((t, c) in s.links || (s.threads[t].pc.Cached? && s.threads[t].pc.ctx == c))
  }

  /** What a thread in the middle of something relies on. */
  ghost predicate PcInv(s: State, t: nat)
    requires t in s.threads
  {
    var pc := s.threads[t].pc;
    && (forall c :: HoldsMain(pc, c) ==> c in s.ctxs)
    && (forall c :: HoldsVictim(pc, c) ==> c in s.ctxs)
    && (forall c :: Merging(pc, c) ==> (t, c) in s.links && c in s.ctxs && s.ctxs[c].bt !in s.threads[t].cache)
    && (forall c :: Uncached(pc, c) ==> c in s.ctxs && s.ctxs[c].bt !in s.threads[t].cache)
    && (pc.Cached? ==> pc.ctx in s.ctxs && CachedAs(s, t, pc.ctx) && (t, pc.ctx) !in s.links)
    && (pc.Ready? ==> (t, pc.ctx) in s.links)
  }

  /** A release looks up, and ends at, the context its object refers to. */
  ghost predicate GoalInv(s: State, t: nat)
    requires t in s.threads
  {
    var pc := s.threads[t].pc;
    GoalOf(pc).Release? ==> var o := GoalOf(pc).obj;
      && o in s.objs && s.objs[o] in s.ctxs
      && (forall c :: HoldsMain(pc, c) ==> c == s.objs[o])
      && (pc.Search? ==> pc.bt == s.ctxs[s.objs[o]].bt)
      && (pc.Ready? ==> pc.ctx == s.objs[o])
  }

  ghost predicate ThreadInv(s: State, t: nat)
    requires t in s.threads
  {
    LinkInv(s, t) && CacheInv(s, t) && PcInv(s, t) && GoalInv(s, t)
  }

  ghost predicate ThreadsInv(s: State)
  {
    && (forall t :: t in s.threads ==> ThreadInv(s, t))
    && (forall p :: p in s.links ==> p.0 in s.threads)
  }

  /** No object is released twice at the same time. */
  ghost predicate ReleaseInv(s: State)
  {
    forall t, u :: t in s.threads && u in s.threads && t != u && GoalOf(s.threads[t].pc).Release? ==>
      GoalOf(s.threads[t].pc) != GoalOf(s.threads[u].pc)
  }

  /** `nlimbo` is at least the number of threads in limbo; every object keeps its context alive. */
  ghost predicate CountInv(s: State)
  {
    && (forall c :: c in s.ctxs ==> Holds(s, c) <= s.ctxs[c].nlimbo)
    && (forall c :: c in s.ctxs ==> |Refs(s, c)| == s.ctxs[c].merged + Sum(Linked(s.links, c)))
    && (forall o :: o in s.objs ==> s.objs[o] in s.ctxs)
  }

  ghost predicate Inv(s: State)
  {
    HashInv(s) && ThreadsInv(s) && ReleaseInv(s) && CountInv(s)
  }

  /* --- Steps --------------------------------------------------------------------------- */

  datatype Action =
    | StartMalloc(bt: nat)
    | StartRelease(obj: nat)
    | Hit
    | MissNew(ctx: nat)
    | MissOld
    | NoData                                    // the thread has no profiling data
    | MissOom                                   // no memory for a context or its key
    | HashOom(ctx: nat, grown: bool, lost: nat) // no place for it in the global hash
    | Pick(bt: nat)
    | Merge
    | DestroyVictim
    | AllocCnt
    | AllocOom
    | InsertCnt
    | InsertOom(grown: bool, lost: nat)         // no place for the counter in the cache
    | Link
    | DestroyNew
    | CountMalloc(obj: nat)
    | CountRelease
    | GiveUp
    | ExitPick(bt: nat)

  function SetPc(s: State, t: nat, pc: Pc): State
    requires t in s.threads
  {
    s.(threads := s.threads[t := s.threads[t].(pc := pc)])
  }

  function SetCtx(s: State, c: nat, ctx: Ctx): State
  {
    s.(ctxs := s.ctxs[c := ctx])
  }

  ghost predicate NoLinks(s: State, c: nat)
  {
    forall p :: p in s.links ==> p.1 != c
  }

  /** The test of `prof_ctx_destroy`, made with the hash lock and the context lock held. */
  ghost predicate MayDestroy(s: State, c: nat)
    requires c in s.ctxs
  {
    NoLinks(s, c) && s.ctxs[c].merged == 0 && s.ctxs[c].nlimbo == 1
  }

  ghost function CtxDestroy(s: State, c: nat): State
    requires c in s.ctxs && s.ctxs[c].nlimbo > 0
  {
    if MayDestroy(s, c) then
      s.(ctxs := s.ctxs - {c}, bt2ctx := s.bt2ctx - {s.ctxs[c].bt}, gone := s.gone + {c})
    else SetCtx(s, c, s.ctxs[c].(nlimbo := s.ctxs[c].nlimbo - 1))
  }

  /** `prof_ctx_merge` up to the unlock: fold the counter in, unlink it, maybe announce destruction. */
  ghost function CtxMerge(k: Config, s: State, t: nat, c: nat): (State, bool)
    requires c in s.ctxs && (t, c) in s.links
  {
    var ctx := s.ctxs[c].(merged := s.ctxs[c].merged + s.links[(t, c)]);
    var s1 := SetCtx(s, c, ctx).(links := s.links - {(t, c)});
    if !k.accum && NoLinks(s1, c) && ctx.merged == 0 && ctx.nlimbo == 0
    then (SetCtx(s1, c, ctx.(nlimbo := 1)), true) else (s1, false)
  }

  /** `ckh_insert` may fail for `key` and leave the table without `lost`. */
  ghost predicate MayFail(table: map<nat, nat>, key: nat, value: nat, lost: nat, grown: bool)
  {
    Cuckoo.FailedInsert(table, table[key := value] - {lost}, key, value, lost, grown)
  }

  ghost predicate Enabled(k: Config, s: State, t: nat, a: Action)
  {
    && t in s.threads
    && var th := s.threads[t]; var pc := th.pc;
    match a
    case StartMalloc(_) => pc.Idle?
    case StartRelease(o) =>
      pc.Idle? && o in s.objs && forall u :: u in s.threads ==> GoalOf(s.threads[u].pc) != Release(o)
    case Hit => pc.Search? && pc.bt in th.cache
    case MissNew(c) => pc.Search? && pc.bt !in th.cache && pc.bt !in s.bt2ctx && c !in s.ctxs && c !in s.gone
    case MissOld => pc.Search? && pc.bt !in th.cache && pc.bt in s.bt2ctx
    case NoData => pc.Search?
    case MissOom => pc.Search? && pc.bt !in th.cache && pc.bt !in s.bt2ctx
    case HashOom(c, grown, b) =>
      && pc.Search? && pc.bt !in th.cache && pc.bt !in s.bt2ctx && c !in s.ctxs && c !in s.gone
      && MayFail(s.bt2ctx, pc.bt, c, b, grown)
    case Pick(b) => pc.HasCtx? && |th.cache| == k.tcmax && b in th.cache
    case Merge => pc.Flush? || pc.ExitMerge?
    case DestroyVictim => pc.FlushDestroy? || pc.ExitDestroy?
    case AllocCnt => pc.HasCtx? && |th.cache| < k.tcmax
    case AllocOom => pc.HasCtx? && |th.cache| < k.tcmax
    case InsertCnt => pc.HasCnt?
    case InsertOom(grown, b) => pc.HasCnt? && (pc.ctx in s.ctxs ==> MayFail(th.cache, s.ctxs[pc.ctx].bt, pc.ctx, b, grown))
    case Link => pc.Cached?
    case DestroyNew => pc.Destroying?
    case CountMalloc(o) => pc.Ready? && pc.goal.Malloc? && o !in s.objs
    case CountRelease => (pc.Ready? || pc.Failed?) && pc.goal.Release?
    case GiveUp => (pc.Ready? || pc.Failed?) && pc.goal.Malloc?
    case ExitPick(b) => pc.Idle? && b in th.cache
  }

  /** The hash has the context that is to be destroyed, as the source asserts. */
  predicate Found(s: State, c: nat)
    requires c in s.ctxs
  {
    s.ctxs[c].bt in s.bt2ctx && s.bt2ctx[s.ctxs[c].bt] == c
  }

  /** The contexts and counters the step reads or writes exist, and `nlimbo` does not wrap. */
  ghost predicate Sound(k: Config, s: State, t: nat, a: Action)
    requires Enabled(k, s, t, a)
  {
    var pc := s.threads[t].pc;
    match a
    case StartRelease(o) => s.objs[o] in s.ctxs
    case MissOld => s.bt2ctx[pc.bt] in s.ctxs
    case Merge => pc.victim in s.ctxs && (t, pc.victim) in s.links
    case DestroyVictim => pc.victim in s.ctxs && s.ctxs[pc.victim].nlimbo > 0 && Found(s, pc.victim)
    case InsertCnt => pc.ctx in s.ctxs
    case InsertOom(_, _) => pc.ctx in s.ctxs
    case Link => pc.ctx in s.ctxs && s.ctxs[pc.ctx].nlimbo > 0
    case DestroyNew => pc.ctx in s.ctxs && s.ctxs[pc.ctx].nlimbo > 0 && Found(s, pc.ctx)
    case CountMalloc(_) => pc.ctx in s.ctxs && (t, pc.ctx) in s.links
    case CountRelease =>
      if pc.Ready? then pc.ctx in s.ctxs && (t, pc.ctx) in s.links
      else pc.goal.obj in s.objs && s.objs[pc.goal.obj] in s.ctxs
    case _ => true
  }

  ghost function Apply(k: Config, s: State, t: nat, a: Action): State
    requires Enabled(k, s, t, a) && Sound(k, s, t, a)
  {
    var th := s.threads[t];
    var pc := th.pc;
    match a
    case StartMalloc(bt) => SetPc(s, t, Search(Malloc, bt))
    case StartRelease(o) => SetPc(s, t, Search(Release(o), s.ctxs[s.objs[o]].bt))
    case Hit => SetPc(s, t, Ready(pc.goal, th.cache[pc.bt]))
    case MissNew(c) =>
      SetPc(SetCtx(s, c, Ctx(pc.bt, 1, 0)).(bt2ctx := s.bt2ctx[pc.bt := c]), t, HasCtx(pc.goal, c, true))
    case MissOld =>
      var c := s.bt2ctx[pc.bt];
      SetPc(SetCtx(s, c, s.ctxs[c].(nlimbo := s.ctxs[c].nlimbo + 1)), t, HasCtx(pc.goal, c, false))
    case NoData => SetPc(s, t, Failed(pc.goal))
    case MissOom => SetPc(s, t, Failed(pc.goal))
    case HashOom(c, _, b) => SetPc(s.(bt2ctx := s.bt2ctx[pc.bt := c] - {b}, gone := s.gone + {c}), t, Failed(pc.goal))
    case Pick(b) =>
      s.(threads := s.threads[t := Thread(th.cache - {b}, Flush(pc.goal, pc.ctx, pc.isNew, th.cache[b]))])
    case Merge =>
      var (s1, destroy) := CtxMerge(k, s, t, pc.victim);
      SetPc(s1, t,
        if pc.ExitMerge? then if destroy then ExitDestroy(pc.victim) else Idle
        else if destroy then FlushDestroy(pc.goal, pc.ctx, pc.isNew, pc.victim) else HasCnt(pc.goal, pc.ctx, pc.isNew))
    case DestroyVictim =>
      SetPc(CtxDestroy(s, pc.victim), t, if pc.ExitDestroy? then Idle else HasCnt(pc.goal, pc.ctx, pc.isNew))
    case AllocCnt => SetPc(s, t, HasCnt(pc.goal, pc.ctx, pc.isNew))
    case AllocOom => SetPc(s, t, if pc.isNew then Destroying(pc.goal, pc.ctx) else Failed(pc.goal))
    case InsertCnt =>
      s.(threads := s.threads[t := Thread(th.cache[s.ctxs[pc.ctx].bt := pc.ctx], Cached(pc.goal, pc.ctx))])
    case InsertOom(_, b) =>
      s.(threads := s.threads[t := Thread(th.cache[s.ctxs[pc.ctx].bt := pc.ctx] - {b},
           if pc.isNew then Destroying(pc.goal, pc.ctx) else Failed(pc.goal))])
    case Link =>
      var ctx := s.ctxs[pc.ctx];
      SetPc(SetCtx(s, pc.ctx, ctx.(nlimbo := ctx.nlimbo - 1)).(links := s.links[(t, pc.ctx) := 0]), t, Ready(pc.goal, pc.ctx))
    case DestroyNew => SetPc(CtxDestroy(s, pc.ctx), t, Failed(pc.goal))
    case CountMalloc(o) =>
      SetPc(s.(objs := s.objs[o := pc.ctx], links := s.links[(t, pc.ctx) := s.links[(t, pc.ctx)] + 1]), t, Idle)
    case CountRelease =>
      var o := pc.goal.obj;
      if pc.Ready? then
        SetPc(s.(objs := s.objs - {o}, links := s.links[(t, pc.ctx) := s.links[(t, pc.ctx)] - 1]), t, Idle)
      else
        var ctx := s.ctxs[s.objs[o]];
        SetPc(SetCtx(s, s.objs[o], ctx.(merged := ctx.merged - 1)).(objs := s.objs - {o}), t, Idle)
    case GiveUp => SetPc(s, t, Idle)
    case ExitPick(b) => s.(threads := s.threads[t := Thread(th.cache - {b}, ExitMerge(th.cache[b]))])
  }

  /** No entry is left in a table for what the step frees, and none is dropped. */
  ghost predicate Clean(s: State, t: nat, a: Action)
  {
    t in s.threads && var pc := s.threads[t].pc;
    match a
    case HashOom(_, _, b) => pc.Search? && b == pc.bt
    case InsertOom(_, b) => pc.HasCnt? && pc.ctx in s.ctxs && b == s.ctxs[pc.ctx].bt
    case _ => true
  }

  /* --- Counting lemmas ----------------------------------------------------------------- */

  function Bit(b: bool): int { if b then 1 else 0 }

  lemma MainsCount(threads: map<nat, Thread>, t: nat, th: Thread, c: nat)
    requires t in threads
    ensures |Mains(threads[t := th], c)|
         == |Mains(threads, c)| - Bit(HoldsMain(threads[t].pc, c)) + Bit(HoldsMain(th.pc, c))
  {
    hide HoldsMain;
    var m := Mains(threads, c) - {t};
    assert Mains(threads[t := th], c) == if HoldsMain(th.pc, c) then m + {t} else m;
  }

  lemma VictimsCount(threads: map<nat, Thread>, t: nat, th: Thread, c: nat)
    requires t in threads
    ensures |Victims(threads[t := th], c)|
         == |Victims(threads, c)| - Bit(HoldsVictim(threads[t].pc, c)) + Bit(HoldsVictim(th.pc, c))
  {
    hide HoldsVictim;
    var v := Victims(threads, c) - {t};
    assert Victims(threads[t := th], c) == if HoldsVictim(th.pc, c) then v + {t} else v;
  }

  /** Only thread `t` differs. */
  lemma HoldsCount(s: State, s': State, t: nat, c: nat)
    requires t in s.threads && t in s'.threads && s'.threads == s.threads[t := s'.threads[t]]
    ensures var pc, pc' := s.threads[t].pc, s'.threads[t].pc;
      Holds(s', c) == Holds(s, c) - Bit(HoldsMain(pc, c)) - Bit(HoldsVictim(pc, c))
                      + Bit(HoldsMain(pc', c)) + Bit(HoldsVictim(pc', c))
  {
    hide HoldsMain, HoldsVictim, Mains, Victims;
    MainsCount(s.threads, t, s'.threads[t], c);
    VictimsCount(s.threads, t, s'.threads[t], c);
  }

  lemma {:induction false} SumRemove(m: map<(nat, nat), int>, p: (nat, nat))
    requires p in m
    ensures Sum(m) == m[p] + Sum(m - {p})
    decreases |m|
  {
    var q :| q in m && Sum(m) == m[q] + Sum(m - {q});
    if q != p {
      SumRemove(m - {q}, p);
      SumRemove(m - {p}, q);
      assert m - {q} - {p} == m - {p} - {q};
    }
  }

  lemma LinkedUpdate(links: map<(nat, nat), int>, t: nat, c: nat, v: int, d: nat)
    ensures Sum(Linked(links[(t, c) := v], d))
         == Sum(Linked(links, d)) + if d == c then v - (if (t, c) in links then links[(t, c)] else 0) else 0
  {
    hide Sum;
    var p, links' := (t, c), links[(t, c) := v];
    if d == c {
      SumRemove(Linked(links', c), p);
      assert Linked(links', c) - {p} == Linked(links, c) - {p};
      if p in links {
        SumRemove(Linked(links, c), p);
      } else {
        assert Linked(links, c) - {p} == Linked(links, c);
      }
    } else {
      assert Linked(links', d) == Linked(links, d);
    }
  }

  lemma LinkedRemove(links: map<(nat, nat), int>, t: nat, c: nat, d: nat)
    requires (t, c) in links
    ensures Sum(Linked(links - {(t, c)}, d)) == Sum(Linked(links, d)) - if d == c then links[(t, c)] else 0
  {
    hide Sum;
    if d == c {
      SumRemove(Linked(links, c), (t, c));
      assert Linked(links - {(t, c)}, c) == Linked(links, c) - {(t, c)};
    } else {
      assert Linked(links - {(t, c)}, d) == Linked(links, d);
    }
  }

  lemma NoLinksSum(s: State, c: nat)
    requires NoLinks(s, c)
    ensures Sum(Linked(s.links, c)) == 0
  {
    assert Linked(s.links, c) == map[];
  }

  lemma RefsAdd(s: State, s': State, o: nat, d: nat, c: nat)
    requires o !in s.objs && s'.objs == s.objs[o := d]
    ensures |Refs(s', c)| == |Refs(s, c)| + Bit(c == d)
  {
    assert Refs(s', c) == if c == d then Refs(s, c) + {o} else Refs(s, c);
  }

  lemma RefsDrop(s: State, s': State, o: nat, c: nat)
    requires o in s.objs && s'.objs == s.objs - {o}
    ensures |Refs(s', c)| == |Refs(s, c)| - Bit(c == s.objs[o])
  {
    assert Refs(s', c) == if c == s.objs[o] then Refs(s, c) - {o} else Refs(s, c);
  }

  /* --- Every step is sound and keeps the invariant -------------------------------------- */

  lemma HoldsPositive(s: State, t: nat, c: nat)
    requires t in s.threads && (HoldsMain(s.threads[t].pc, c) || HoldsVictim(s.threads[t].pc, c))
    ensures Holds(s, c) >= 1
  {
    hide HoldsMain, HoldsVictim;
    assert t in Mains(s.threads, c) || t in Victims(s.threads, c);
  }

  lemma LimboSound(k: Config, s: State, t: nat, a: Action)
    requires Inv(s) && Enabled(k, s, t, a) && (a.DestroyVictim? || a.Link? || a.DestroyNew?)
    ensures Sound(k, s, t, a)
  {
    hide Refs, Sum, Linked, Holds, ReleaseInv, LinkInv, CacheInv, GoalInv;
    var pc := s.threads[t].pc;
    assert ThreadInv(s, t);
    HoldsPositive(s, t, if a.DestroyVictim? then pc.victim else pc.ctx);
  }

  lemma CountSound(k: Config, s: State, t: nat, a: Action)
    requires Inv(s) && Enabled(k, s, t, a) && (a.CountMalloc? || a.CountRelease?)
    ensures Sound(k, s, t, a)
  {
    hide CountInv, HashInv, ReleaseInv, CacheInv, CachedAs;
    assert ThreadInv(s, t);
  }

  /** No step ever touches a context or a counter that is not there. */
  lemma StepSound(k: Config, s: State, t: nat, a: Action)
    requires Inv(s) && Enabled(k, s, t, a)
    ensures Sound(k, s, t, a)
  {
    hide Refs, Sum, Linked, Holds, ReleaseInv, LinkInv, CacheInv, GoalInv;
    var pc := s.threads[t].pc;
    assert ThreadInv(s, t);
    if a.DestroyVictim? || a.Link? || a.DestroyNew? {
      LimboSound(k, s, t, a);
    } else if a.CountMalloc? || a.CountRelease? {
      CountSound(k, s, t, a);
    } else if a.Merge? {
      assert Merging(pc, pc.victim);
    } else if a.InsertCnt? || a.InsertOom? {
      assert HoldsMain(pc, pc.ctx);
    }
  }

  /** Some thread other than `t` depends on context `c`. */
  ghost predicate Needed(s: State, t: nat, c: nat)
  {
    exists u :: u in s.threads && u != t && NeededBy(s, u, c)
  }

  ghost predicate NeededBy(s: State, u: nat, c: nat)
    requires u in s.threads
  {
    var th := s.threads[u]; var pc := th.pc;
    || (u, c) in s.links
    || (exists b :: b in th.cache && th.cache[b] == c)
    || HoldsMain(pc, c) || HoldsVictim(pc, c)
    || (GoalOf(pc).Release? && GoalOf(pc).obj in s.objs && s.objs[GoalOf(pc).obj] == c)
  }

  /** A step of thread `t` that leaves alone what the other threads depend on. */
  ghost predicate Local(s: State, s': State, t: nat)
  {
    && t in s.threads && t in s'.threads && s'.threads == s.threads[t := s'.threads[t]]
    && (forall p: (nat, nat) :: p.0 != t ==> (p in s'.links <==> p in s.links))
    && (forall c :: c in s.ctxs && Needed(s, t, c) ==> c in s'.ctxs && s'.ctxs[c].bt == s.ctxs[c].bt)
    && (forall u :: u in s.threads && u != t && GoalOf(s.threads[u].pc).Release? && GoalOf(s.threads[u].pc).obj in s.objs ==>
        var o := GoalOf(s.threads[u].pc).obj; o in s'.objs && s'.objs[o] == s.objs[o])
  }

  lemma OtherKeeps(s: State, s': State, t: nat, u: nat)
    requires Local(s, s', t) && u in s.threads && u != t && ThreadInv(s, u)
    ensures ThreadInv(s', u)
  {
    assert s'.threads[u] == s.threads[u];
    assert forall c :: NeededBy(s, u, c) ==> Needed(s, t, c);
    assert LinkInv(s', u) by {
      forall c | (u, c) in s'.links
        ensures c in s'.ctxs && (Merging(s'.threads[u].pc, c) || CachedAs(s', u, c))
      {
        assert NeededBy(s, u, c);
      }
    }
    assert CacheInv(s', u);
    assert PcInv(s', u);
    assert GoalInv(s', u);
  }

  lemma OthersKeep(s: State, s': State, t: nat)
    requires ThreadsInv(s) && Local(s, s', t) && ThreadInv(s', t)
    requires forall p :: p in s'.links ==> p.0 in s'.threads
    ensures ThreadsInv(s')
  {
    hide ThreadInv, Local;
    forall u | u in s'.threads ensures ThreadInv(s', u) {
      LocalThreads(s, s', t);
      if u != t {
        OtherKeeps(s, s', t, u);
      }
    }
  }

  lemma LocalThreads(s: State, s': State, t: nat)
    requires Local(s, s', t)
    ensures s'.threads.Keys == s.threads.Keys
  {
  }

  lemma ReleaseKeeps(s: State, s': State, t: nat)
    requires ReleaseInv(s) && t in s.threads && t in s'.threads && s'.threads == s.threads[t := s'.threads[t]]
    requires var g := GoalOf(s'.threads[t].pc);
      g == GoalOf(s.threads[t].pc) || !g.Release? || forall u :: u in s.threads ==> GoalOf(s.threads[u].pc) != g
    ensures ReleaseInv(s')
  {
  }

  function Bits(pc: Pc, c: nat): int
  {
    Bit(HoldsMain(pc, c)) + Bit(HoldsVictim(pc, c))
  }

  /** `nlimbo` moves with the thread's own holds; the objects' account is given per context. */
  lemma CountKeeps(s: State, s': State, t: nat)
    requires CountInv(s) && t in s.threads && t in s'.threads && s'.threads == s.threads[t := s'.threads[t]]
    requires forall c :: c in s'.ctxs ==>
      if c in s.ctxs then s'.ctxs[c].nlimbo - Bits(s'.threads[t].pc, c) >= s.ctxs[c].nlimbo - Bits(s.threads[t].pc, c)
      else Holds(s, c) == 0 && s'.ctxs[c].nlimbo >= Bits(s'.threads[t].pc, c)
    requires forall c :: c in s'.ctxs ==> |Refs(s', c)| == s'.ctxs[c].merged + Sum(Linked(s'.links, c))
    requires forall o :: o in s'.objs ==> s'.objs[o] in s'.ctxs
    ensures CountInv(s')
  {
    hide Holds, Refs, Sum, Linked, HoldsMain, HoldsVictim;
    forall c | c in s'.ctxs ensures Holds(s', c) <= s'.ctxs[c].nlimbo {
      HoldsCount(s, s', t, c);
    }
  }

  lemma AccountSame(s: State, s': State, c: nat)
    requires c in s.ctxs && c in s'.ctxs && CountInv(s)
    requires s'.objs == s.objs && s'.links == s.links && s'.ctxs[c].merged == s.ctxs[c].merged
    ensures |Refs(s', c)| == s'.ctxs[c].merged + Sum(Linked(s'.links, c))
  {
    assert Refs(s', c) == Refs(s, c);
  }

  /** A step that changes nothing but the thread's own program counter. */
  lemma QuietStep(s: State, t: nat, pc: Pc)
    requires Inv(s) && t in s.threads && ThreadInv(SetPc(s, t, pc), t)
    requires forall c :: Bits(pc, c) <= Bits(s.threads[t].pc, c)
    requires GoalOf(pc) == GoalOf(s.threads[t].pc) || !GoalOf(pc).Release?
      || forall u :: u in s.threads ==> GoalOf(s.threads[u].pc) != GoalOf(pc)
    ensures Inv(SetPc(s, t, pc))
  {
    hide Holds, Refs, Sum, Linked, HoldsMain, HoldsVictim, ThreadInv, Needed;
    var s' := SetPc(s, t, pc);
    OthersKeep(s, s', t);
    ReleaseKeeps(s, s', t);
    forall c | c in s'.ctxs ensures |Refs(s', c)| == s'.ctxs[c].merged + Sum(Linked(s'.links, c)) {
      AccountSame(s, s', c);
    }
    CountKeeps(s, s', t);
  }

  lemma QuietThread(s: State, t: nat, pc: Pc)
    requires t in s.threads && ThreadInv(s, t)
    requires var old_ := s.threads[t].pc; old_.Idle? || old_.Search? || old_.HasCtx? || old_.HasCnt? || old_.Ready? || old_.Failed?
    requires pc.Idle? || pc.Search? || pc.HasCnt? || pc.Destroying? || pc.Ready? || pc.Failed?
    requires forall c :: HoldsMain(pc, c) ==> HoldsMain(s.threads[t].pc, c)
    requires pc.Ready? ==> (t, pc.ctx) in s.links
    requires GoalInv(SetPc(s, t, pc), t)
    ensures ThreadInv(SetPc(s, t, pc), t)
  {
    var s' := SetPc(s, t, pc);
    assert LinkInv(s', t);
    assert CacheInv(s', t);
  }

  ghost predicate IsQuiet(a: Action)
  {
    a.StartMalloc? || a.StartRelease? || a.Hit? || a.NoData? || a.MissOom? || a.AllocCnt? || a.AllocOom? || a.InsertOom? || a.GiveUp?
  }

  /** A clean failure leaves the cache as it was. */
  lemma CleanInsert(k: Config, s: State, t: nat, a: Action)
    requires Enabled(k, s, t, a) && Sound(k, s, t, a) && a.InsertOom? && Clean(s, t, a)
    ensures Apply(k, s, t, a) == SetPc(s, t, Apply(k, s, t, a).threads[t].pc)
  {
    var th := s.threads[t];
    assert th.cache[a.lost := th.pc.ctx] - {a.lost} == th.cache;
  }

  lemma QuietGoal(k: Config, s: State, t: nat, a: Action)
    requires HashInv(s) && t in s.threads && ThreadInv(s, t) && Enabled(k, s, t, a) && Sound(k, s, t, a) && IsQuiet(a) && Clean(s, t, a)
    ensures GoalInv(Apply(k, s, t, a), t)
    ensures a.Hit? ==> (t, Apply(k, s, t, a).threads[t].pc.ctx) in s.links
  {
    hide LinkInv, PcInv, HashInv;
    var pc, pc' := s.threads[t].pc, Apply(k, s, t, a).threads[t].pc;
    if a.Hit? {
      HitGoal(s, t);
    } else {
      assert forall c :: HoldsMain(pc', c) ==> HoldsMain(pc, c);
    }
  }

  /** The cached counter of a backtrace is the one of the context that is looked for. */
  lemma HitGoal(s: State, t: nat)
    requires HashInv(s) && t in s.threads && ThreadInv(s, t) && s.threads[t].pc.Search? && s.threads[t].pc.bt in s.threads[t].cache
    ensures var pc, c := s.threads[t].pc, s.threads[t].cache[s.threads[t].pc.bt];
      (t, c) in s.links && (pc.goal.Release? ==> pc.goal.obj in s.objs && c == s.objs[pc.goal.obj])
  {
    hide LinkInv;
    assert s.threads[t].cache[s.threads[t].pc.bt] in s.ctxs;
  }

  lemma QuietPc(k: Config, s: State, t: nat, a: Action)
    requires Enabled(k, s, t, a) && Sound(k, s, t, a) && IsQuiet(a) && Clean(s, t, a)
    ensures var pc, pc' := s.threads[t].pc, Apply(k, s, t, a).threads[t].pc;
      && Apply(k, s, t, a) == SetPc(s, t, pc')
      && (pc.Idle? || pc.Search? || pc.HasCtx? || pc.HasCnt? || pc.Ready? || pc.Failed?)
      && (pc'.Idle? || pc'.Search? || pc'.HasCnt? || pc'.Destroying? || pc'.Ready? || pc'.Failed?)
      && (forall c :: HoldsMain(pc', c) ==> HoldsMain(pc, c)) && (forall c :: Bits(pc', c) <= Bits(pc, c))
      && (pc'.Ready? ==> a.Hit?)
      && (GoalOf(pc') == GoalOf(pc) || !GoalOf(pc').Release?
          || forall u :: u in s.threads ==> GoalOf(s.threads[u].pc) != GoalOf(pc'))
  {
    hide MayFail;
    if a.InsertOom? {
      CleanInsert(k, s, t, a);
    }
  }

  lemma KeepsQuiet(k: Config, s: State, t: nat, a: Action)
    requires t in s.threads && Inv(s) && Enabled(k, s, t, a) && Sound(k, s, t, a) && IsQuiet(a) && Clean(s, t, a)
    ensures Inv(Apply(k, s, t, a))
  {
    hide Clean, CountInv, ReleaseInv, HashInv, ThreadInv, Apply, Sound, Enabled, IsQuiet, HoldsMain, HoldsVictim, Bits, GoalInv;
    QuietPc(k, s, t, a);
    QuietGoal(k, s, t, a);
    var pc := Apply(k, s, t, a).threads[t].pc;
    QuietThread(s, t, pc);
    QuietStep(s, t, pc);
  }

  /** The account of context `c` balances: objects = merged count + linked counters. */
  ghost predicate Balanced(s: State, c: nat)
    requires c in s.ctxs
  {
    |Refs(s, c)| == s.ctxs[c].merged + Sum(Linked(s.links, c))
  }

  ghost predicate LimboMoves(s: State, s': State, t: nat, c: nat)
    requires t in s.threads && t in s'.threads && c in s'.ctxs
  {
    if c in s.ctxs then s'.ctxs[c].nlimbo - Bits(s'.threads[t].pc, c) >= s.ctxs[c].nlimbo - Bits(s.threads[t].pc, c)
    else Holds(s, c) == 0 && s'.ctxs[c].nlimbo >= Bits(s'.threads[t].pc, c)
  }

  ghost predicate GoalMoves(s: State, s': State, t: nat)
    requires t in s.threads && t in s'.threads
  {
    GoalOf(s'.threads[t].pc) == GoalOf(s.threads[t].pc) || !GoalOf(s'.threads[t].pc).Release?
  }

  lemma StepKeeps(s: State, s': State, t: nat)
    requires t in s.threads && t in s'.threads && Inv(s) && HashInv(s') && Local(s, s', t) && ThreadInv(s', t) && GoalMoves(s, s', t)
    requires forall p :: p in s'.links ==> p.0 in s'.threads
    requires forall c :: c in s'.ctxs ==> LimboMoves(s, s', t, c) && Balanced(s', c)
    requires forall o :: o in s'.objs ==> s'.objs[o] in s'.ctxs
    ensures Inv(s')
  {
    hide Holds, Refs, Sum, Linked, HoldsMain, HoldsVictim, ThreadInv, Needed, HashInv, Bits;
    OthersKeep(s, s', t);
    ReleaseKeeps(s, s', t);
    CountKeeps(s, s', t);
  }

  lemma BalancedSame(s: State, s': State, c: nat)
    requires c in s.ctxs && c in s'.ctxs && CountInv(s)
    requires s'.objs == s.objs && s'.links == s.links && s'.ctxs[c].merged == s.ctxs[c].merged
    ensures Balanced(s', c)
  {
    AccountSame(s, s', c);
  }

  /** A context nobody has ever seen has no holders, references or counters. */
  lemma Unseen(s: State, c: nat)
    requires Inv(s) && c !in s.ctxs
    ensures Holds(s, c) == 0 && Refs(s, c) == {} && NoLinks(s, c)
  {
    hide Sum, Linked;
    assert forall t :: t in s.threads ==> ThreadInv(s, t);
    assert Mains(s.threads, c) == {};
    assert Victims(s.threads, c) == {};
    forall p | p in s.links ensures p.1 != c {
      assert ThreadInv(s, p.0);
      assert (p.0, p.1) in s.links;
    }
  }

  lemma SameRefs(s: State, s': State, c: nat)
    requires s'.objs == s.objs
    ensures Refs(s', c) == Refs(s, c)
  {
  }

  /** No context disappears or changes its backtrace. */
  ghost predicate CtxsStay(s: State, s': State)
  {
    forall c :: c in s.ctxs ==> c in s'.ctxs && s'.ctxs[c].bt == s.ctxs[c].bt
  }

  lemma LocalIntro(s: State, s': State, t: nat)
    requires t in s.threads && t in s'.threads && s'.threads == s.threads[t := s'.threads[t]] && CtxsStay(s, s')
    requires forall p: (nat, nat) :: p.0 != t ==> (p in s'.links <==> p in s.links)
    requires s'.objs == s.objs
    ensures Local(s, s', t)
  {
    hide Needed;
  }

  /** A lookup enters limbo on the context of its backtrace. */
  lemma EnterThread(s: State, s': State, t: nat, c: nat, isNew: bool)
    requires t in s.threads && s.threads[t].pc.Search? && ThreadInv(s, t) && CtxsStay(s, s') && HashInv(s')
    requires s'.links == s.links && s'.objs == s.objs && c in s'.ctxs && s'.ctxs[c].bt == s.threads[t].pc.bt
    requires s.threads[t].pc.bt !in s.threads[t].cache
    requires s'.threads == s.threads[t := s.threads[t].(pc := HasCtx(s.threads[t].pc.goal, c, isNew))]
    ensures ThreadInv(s', t)
  {
    assert LinkInv(s', t);
    assert CacheInv(s', t);
    assert PcInv(s', t);
    assert GoalInv(s', t);
  }

  lemma KeepsMissNew(k: Config, s: State, t: nat, c: nat)
    requires t in s.threads && Inv(s) && Enabled(k, s, t, MissNew(c)) && Sound(k, s, t, MissNew(c))
    ensures Inv(Apply(k, s, t, MissNew(c)))
  {
    hide CountInv, ThreadsInv, ReleaseInv;
    MissNewStep(s, t, c, Apply(k, s, t, MissNew(c)));
  }

  /** The new context finds no place in the hash, which is as before: it is gone before anybody saw it. */
  lemma HashOomStep(s: State, t: nat, c: nat, s': State)
    requires t in s.threads && Inv(s) && s.threads[t].pc.Search? && c !in s.ctxs
    requires s' == s.(gone := s.gone + {c}, threads := s.threads[t := s.threads[t].(pc := Failed(s.threads[t].pc.goal))])
    ensures Inv(s')
  {
    hide Holds, Refs, Sum, Linked, ThreadInv, Local, NoLinks, ReleaseInv;
    LocalIntro(s, s', t);
    FailThread(s, s', t);
    forall d | d in s'.ctxs ensures LimboMoves(s, s', t, d) && Balanced(s', d) {
      BalancedSame(s, s', d);
    }
    StepKeeps(s, s', t);
  }

  lemma FailThread(s: State, s': State, t: nat)
    requires t in s.threads && s.threads[t].pc.Search? && ThreadInv(s, t)
    requires s' == s.(gone := s'.gone, threads := s.threads[t := s.threads[t].(pc := Failed(s.threads[t].pc.goal))])
    ensures ThreadInv(s', t)
  {
    assert LinkInv(s', t);
    assert CacheInv(s', t);
    assert PcInv(s', t);
    assert GoalInv(s', t);
  }

  lemma KeepsHashOom(k: Config, s: State, t: nat, a: Action)
    requires Inv(s) && Enabled(k, s, t, a) && Sound(k, s, t, a) && a.HashOom? && Clean(s, t, a)
    ensures Inv(Apply(k, s, t, a))
  {
    hide Inv, MayFail;
    assert s.bt2ctx[a.lost := a.ctx] - {a.lost} == s.bt2ctx;
    HashOomStep(s, t, a.ctx, Apply(k, s, t, a));
  }

  lemma NewHash(s: State, s': State, c: nat, bt: nat, ctx: Ctx)
    requires HashInv(s) && c !in s.ctxs && c !in s.gone && bt !in s.bt2ctx && ctx.bt == bt
    requires s'.ctxs == s.ctxs[c := ctx] && s'.bt2ctx == s.bt2ctx[bt := c] && s'.gone == s.gone
    ensures HashInv(s') && CtxsStay(s, s')
  {
  }

  lemma MissNewStep(s: State, t: nat, c: nat, s': State)
    requires t in s.threads && Inv(s) && s.threads[t].pc.Search? && s.threads[t].pc.bt !in s.threads[t].cache
    requires c !in s.ctxs && c !in s.gone && s.threads[t].pc.bt !in s.bt2ctx
    requires s' == s.(ctxs := s.ctxs[c := Ctx(s.threads[t].pc.bt, 1, 0)], bt2ctx := s.bt2ctx[s.threads[t].pc.bt := c],
                      threads := s.threads[t := s.threads[t].(pc := HasCtx(s.threads[t].pc.goal, c, true))])
    ensures Inv(s')
  {
    hide Holds, Refs, Sum, Linked, ThreadInv, Local, NoLinks, HashInv, ReleaseInv, CtxsStay;
    NewHash(s, s', c, s.threads[t].pc.bt, Ctx(s.threads[t].pc.bt, 1, 0));
    Unseen(s, c);
    LocalIntro(s, s', t);
    EnterThread(s, s', t, c, true);
    forall d | d in s'.ctxs ensures LimboMoves(s, s', t, d) && Balanced(s', d) {
      if d != c {
        BalancedSame(s, s', d);
      } else {
        NewBalanced(s, s', c);
      }
    }
    StepKeeps(s, s', t);
  }

  lemma NewBalanced(s: State, s': State, c: nat)
    requires Refs(s, c) == {} && NoLinks(s, c) && s'.objs == s.objs && s'.links == s.links
    requires c in s'.ctxs && s'.ctxs[c].merged == 0
    ensures Balanced(s', c)
  {
    NoLinksSum(s', c);
    SameRefs(s, s', c);
  }

  lemma MissOldStep(s: State, t: nat, c: nat, s': State)
    requires t in s.threads && Inv(s) && s.threads[t].pc.Search? && s.threads[t].pc.bt !in s.threads[t].cache
    requires c in s.ctxs && s.ctxs[c].bt == s.threads[t].pc.bt
    requires s' == s.(ctxs := s.ctxs[c := s.ctxs[c].(nlimbo := s.ctxs[c].nlimbo + 1)],
                      threads := s.threads[t := s.threads[t].(pc := HasCtx(s.threads[t].pc.goal, c, false))])
    ensures Inv(s')
  {
    hide Holds, Refs, Sum, Linked, ThreadInv, Local, NoLinks, HashInv, ReleaseInv;
    HashSame(s, s');
    LocalIntro(s, s', t);
    EnterThread(s, s', t, c, false);
    forall d | d in s'.ctxs ensures LimboMoves(s, s', t, d) && Balanced(s', d) {
      BalancedSame(s, s', d);
    }
    StepKeeps(s, s', t);
  }

  lemma KeepsMissOld(k: Config, s: State, t: nat)
    requires t in s.threads && Inv(s) && Enabled(k, s, t, MissOld) && Sound(k, s, t, MissOld)
    ensures Inv(Apply(k, s, t, MissOld))
  {
    hide CountInv, ThreadsInv, ReleaseInv;
    MissOldStep(s, t, s.bt2ctx[s.threads[t].pc.bt], Apply(k, s, t, MissOld));
  }

  /** Steps that leave contexts, counters and objects alone keep every account. */
  lemma ThreadOnly(s: State, s': State, t: nat)
    requires t in s.threads && t in s'.threads && Inv(s) && ThreadInv(s', t) && GoalMoves(s, s', t)
    requires s' == s.(threads := s.threads[t := s'.threads[t]])
    requires forall c :: Bits(s'.threads[t].pc, c) <= Bits(s.threads[t].pc, c)
    ensures Inv(s')
  {
    hide Holds, Refs, Sum, Linked, ThreadInv, Local, NoLinks, HoldsMain, HoldsVictim, Bits;
    LocalIntro(s, s', t);
    forall d | d in s'.ctxs ensures LimboMoves(s, s', t, d) && Balanced(s', d) {
      BalancedSame(s, s', d);
    }
    StepKeeps(s, s', t);
  }

  /** A counter is taken out of the cache, to be merged next. */
  lemma PickThread(s: State, s': State, t: nat, b: nat)
    requires t in s.threads && b in s.threads[t].cache && ThreadInv(s, t)
    requires var pc, v := s.threads[t].pc, s.threads[t].cache[b];
      && (pc.HasCtx? || pc.Idle?)
      && s' == s.(threads := s.threads[t := Thread(s.threads[t].cache - {b},
           if pc.Idle? then ExitMerge(v) else Flush(pc.goal, pc.ctx, pc.isNew, v))])
    ensures ThreadInv(s', t)
  {
    var v := s.threads[t].cache[b];
    assert LinkInv(s', t);
    assert CacheInv(s', t);
    assert PcInv(s', t) by {
      var pc := s.threads[t].pc;
      assert forall c :: HoldsMain(s'.threads[t].pc, c) ==> HoldsMain(pc, c);
      assert forall c :: Uncached(s'.threads[t].pc, c) ==> Uncached(pc, c);
    }
    assert GoalInv(s', t) by {
      assert forall c :: HoldsMain(s'.threads[t].pc, c) ==> HoldsMain(s.threads[t].pc, c);
    }
  }

  lemma KeepsPick(k: Config, s: State, t: nat, a: Action)
    requires t in s.threads && Inv(s) && Enabled(k, s, t, a) && Sound(k, s, t, a) && (a.Pick? || a.ExitPick?)
    ensures Inv(Apply(k, s, t, a))
  {
    hide CountInv, ReleaseInv, HashInv, ThreadInv;
    PickThread(s, Apply(k, s, t, a), t, a.bt);
    ThreadOnly(s, Apply(k, s, t, a), t);
  }

  /** The new counter goes into the cache under the context's backtrace. */
  lemma InsertThread(s: State, s': State, t: nat)
    requires t in s.threads && s.threads[t].pc.HasCnt? && s.threads[t].pc.ctx in s.ctxs && ThreadInv(s, t) && HashInv(s)
    requires var pc := s.threads[t].pc;
      s' == s.(threads := s.threads[t := Thread(s.threads[t].cache[s.ctxs[pc.ctx].bt := pc.ctx], Cached(pc.goal, pc.ctx))])
    ensures ThreadInv(s', t)
  {
    var pc := s.threads[t].pc;
    assert Uncached(pc, pc.ctx);
    assert LinkInv(s', t);
    assert CacheInv(s', t);
    assert PcInv(s', t);
    assert GoalInv(s', t) by {
      assert HoldsMain(pc, pc.ctx);
    }
  }

  lemma KeepsInsert(k: Config, s: State, t: nat)
    requires t in s.threads && Inv(s) && Enabled(k, s, t, InsertCnt) && Sound(k, s, t, InsertCnt)
    ensures Inv(Apply(k, s, t, InsertCnt))
  {
    hide CountInv, ReleaseInv, HashInv, ThreadInv;
    InsertThread(s, Apply(k, s, t, InsertCnt), t);
    ThreadOnly(s, Apply(k, s, t, InsertCnt), t);
  }

  /** The counter is linked and the limbo ends. */
  lemma LinkThread(s: State, s': State, t: nat)
    requires t in s.threads && s.threads[t].pc.Cached? && ThreadInv(s, t) && CtxsStay(s, s')
    requires var pc := s.threads[t].pc;
      && s'.links == s.links[(t, pc.ctx) := 0] && s'.objs == s.objs
      && s'.threads == s.threads[t := s.threads[t].(pc := Ready(pc.goal, pc.ctx))]
    ensures ThreadInv(s', t)
  {
    assert LinkInv(s', t);
    assert CacheInv(s', t);
    assert PcInv(s', t);
    assert GoalInv(s', t) by {
      assert HoldsMain(s.threads[t].pc, s.threads[t].pc.ctx);
    }
  }

  /** The contexts stay the same up to their counters. */
  lemma HashSame(s: State, s': State)
    requires HashInv(s) && CtxsStay(s, s') && s'.ctxs.Keys == s.ctxs.Keys && s'.bt2ctx == s.bt2ctx && s'.gone == s.gone
    ensures HashInv(s')
  {
  }

  lemma LinkStep(s: State, t: nat, c: nat, s': State)
    requires t in s.threads && Inv(s) && s.threads[t].pc.Cached? && s.threads[t].pc.ctx == c
    requires c in s.ctxs && s.ctxs[c].nlimbo > 0
    requires s' == s.(ctxs := s.ctxs[c := s.ctxs[c].(nlimbo := s.ctxs[c].nlimbo - 1)], links := s.links[(t, c) := 0],
                      threads := s.threads[t := s.threads[t].(pc := Ready(s.threads[t].pc.goal, c))])
    ensures Inv(s')
  {
    hide Holds, Refs, Sum, Linked, ThreadInv, Local, NoLinks, HashInv;
    NotLinkedYet(s, t);
    HashSame(s, s');
    LocalIntro(s, s', t);
    LinkThread(s, s', t);
    forall d | d in s'.ctxs ensures LimboMoves(s, s', t, d) && Balanced(s', d) {
      LinkedUpdate(s.links, t, c, 0, d);
      SameRefs(s, s', d);
    }
    StepKeeps(s, s', t);
  }

  lemma NotLinkedYet(s: State, t: nat)
    requires Inv(s) && t in s.threads && s.threads[t].pc.Cached?
    ensures (t, s.threads[t].pc.ctx) !in s.links
  {
    assert ThreadInv(s, t);
  }

  /** The counter is merged: it is unlinked, and the thread may now hold the context for destruction. */
  lemma MergeThread(s: State, s': State, t: nat, v: nat)
    requires t in s.threads && t in s'.threads && ThreadInv(s, t) && CtxsStay(s, s') && Merging(s.threads[t].pc, v) && HashInv(s)
    requires s'.links == s.links - {(t, v)} && s'.objs == s.objs && s'.threads[t].cache == s.threads[t].cache
    requires var pc, pc' := s.threads[t].pc, s'.threads[t].pc;
      if pc.ExitMerge? then pc' == Idle || pc' == ExitDestroy(v)
      else pc.Flush? && (pc' == HasCnt(pc.goal, pc.ctx, pc.isNew) || pc' == FlushDestroy(pc.goal, pc.ctx, pc.isNew, v))
    ensures ThreadInv(s', t)
  {
    var pc, pc' := s.threads[t].pc, s'.threads[t].pc;
    assert forall c :: HoldsMain(pc', c) ==> HoldsMain(pc, c) && Uncached(pc, c);
    assert forall c :: !Merging(pc', c);
    assert LinkInv(s', t) by {
      forall c | (t, c) in s'.links
        ensures c in s'.ctxs && CachedAs(s', t, c)
      {
        assert (t, c) in s.links && c != v;
      }
    }
    assert CacheInv(s', t) by {
      forall b | b in s'.threads[t].cache
        ensures var c := s'.threads[t].cache[b]; c in s'.ctxs && s'.ctxs[c].bt == b && (t, c) in s'.links
      {
        var c := s.threads[t].cache[b];
        assert c in s.ctxs && s.ctxs[c].bt == b;
      }
    }
    assert PcInv(s', t);
    assert GoalInv(s', t);
  }

  ghost predicate MergedTo(k: Config, s: State, t: nat, v: nat, s': State)
    requires t in s.threads && v in s.ctxs && (t, v) in s.links
  {
    var (s1, destroy) := CtxMerge(k, s, t, v);
    var pc := s.threads[t].pc;
    && (pc.ExitMerge? || pc.Flush?)
    && s' == s1.(threads := s.threads[t := s.threads[t].(pc :=
         if pc.ExitMerge? then if destroy then ExitDestroy(v) else Idle
         else if destroy then FlushDestroy(pc.goal, pc.ctx, pc.isNew, v) else HasCnt(pc.goal, pc.ctx, pc.isNew))])
  }

  lemma MergeCounts(k: Config, s: State, t: nat, v: nat, s': State, d: nat)
    requires t in s.threads && CountInv(s) && v in s.ctxs && (t, v) in s.links && MergedTo(k, s, t, v, s') && d in s'.ctxs
    ensures LimboMoves(s, s', t, d) && Balanced(s', d)
  {
    hide Holds, Refs, Sum, Linked, NoLinks;
    LinkedRemove(s.links, t, v, d);
    SameRefs(s, s', d);
  }

  lemma MergeFrame(k: Config, s: State, t: nat, v: nat, s': State)
    requires t in s.threads && v in s.ctxs && (t, v) in s.links && MergedTo(k, s, t, v, s')
    ensures CtxsStay(s, s') && s'.ctxs.Keys == s.ctxs.Keys && s'.bt2ctx == s.bt2ctx && s'.gone == s.gone && s'.objs == s.objs
    ensures t in s'.threads && s'.threads == s.threads[t := s'.threads[t]] && s'.threads[t].cache == s.threads[t].cache
    ensures s'.links == s.links - {(t, v)} && GoalMoves(s, s', t)
    ensures var pc, pc' := s.threads[t].pc, s'.threads[t].pc;
      if pc.ExitMerge? then pc' == Idle || pc' == ExitDestroy(v)
      else pc.Flush? && (pc' == HasCnt(pc.goal, pc.ctx, pc.isNew) || pc' == FlushDestroy(pc.goal, pc.ctx, pc.isNew, v))
  {
    hide NoLinks;
  }

  lemma MergeStep(k: Config, s: State, t: nat, v: nat, s': State)
    requires t in s.threads && Inv(s) && Merging(s.threads[t].pc, v) && v in s.ctxs && (t, v) in s.links
    requires MergedTo(k, s, t, v, s')
    ensures Inv(s')
  {
    hide Holds, Refs, Sum, Linked, ThreadInv, Local, HashInv, NoLinks, MergedTo, LimboMoves, Balanced, GoalMoves, CtxsStay, Merging;
    MergeFrame(k, s, t, v, s');
    HashSame(s, s');
    LocalIntro(s, s', t);
    MergeThread(s, s', t, v);
    forall d | d in s'.ctxs ensures LimboMoves(s, s', t, d) && Balanced(s', d) {
      MergeCounts(k, s, t, v, s', d);
    }
    StepKeeps(s, s', t);
  }

  /* --- Destruction ------------------------------------------------------------------------ */

  /** The thread is about to run `prof_ctx_destroy` on `c`. */
  ghost predicate AboutToDestroy(s: State, t: nat, c: nat)
  {
    t in s.threads && ((s.threads[t].pc.Destroying? && s.threads[t].pc.ctx == c) || HoldsVictim(s.threads[t].pc, c))
  }

  lemma OnlyHolder(s: State, t: nat, c: nat)
    requires t in s.threads && Holds(s, c) <= 1 && Bits(s.threads[t].pc, c) >= 1
    ensures Bits(s.threads[t].pc, c) == 1
    ensures forall u :: u in s.threads && u != t ==> Bits(s.threads[u].pc, c) == 0
  {
    hide HoldsMain, HoldsVictim;
    var m, v := Mains(s.threads, c), Victims(s.threads, c);
    assert t in m ==> |m - {t}| == |m| - 1;
    assert t in v ==> |v - {t}| == |v| - 1;
    forall u | u in s.threads && u != t ensures Bits(s.threads[u].pc, c) == 0 {
      assert u in m ==> u in m - {t};
      assert u in v ==> u in v - {t};
      assert u in m && t !in m ==> |m| >= 1;
      assert u in v && t !in v ==> |v| >= 1;
    }
  }

  /**
   The context that passes the test of `prof_ctx_destroy` is in use by nobody: no other thread
   is in limbo on it, no counter is linked to it, and no live object refers to it.
   */
  lemma DestroyIsSafe(s: State, t: nat, c: nat)
    requires Inv(s) && AboutToDestroy(s, t, c) && c in s.ctxs && MayDestroy(s, c)
    ensures forall u :: u in s.threads && u != t ==> !HoldsMain(s.threads[u].pc, c) && !HoldsVictim(s.threads[u].pc, c)
    ensures Bits(s.threads[t].pc, c) == 1
    ensures forall p :: p in s.links ==> p.1 != c
    ensures forall o :: o in s.objs ==> s.objs[o] != c
  {
    hide Sum, Linked, Holds, ThreadInv, ReleaseInv;
    HoldsPositive(s, t, c);
    OnlyHolder(s, t, c);
    NoLinksSum(s, c);
    assert |Refs(s, c)| == 0;
    forall o | o in s.objs ensures s.objs[o] != c {
      assert o !in Refs(s, c);
    }
    forall u | u in s.threads && u != t ensures !HoldsMain(s.threads[u].pc, c) && !HoldsVictim(s.threads[u].pc, c) {
      assert Bits(s.threads[u].pc, c) == 0;
    }
  }

  lemma NotNeeded(s: State, t: nat, c: nat)
    requires Inv(s) && AboutToDestroy(s, t, c) && c in s.ctxs && MayDestroy(s, c)
    ensures !Needed(s, t, c)
  {
    hide Sum, Linked, Holds, Refs, ReleaseInv, HashInv, GoalInv;
    DestroyIsSafe(s, t, c);
    forall u | u in s.threads && u != t ensures !NeededBy(s, u, c) {
      assert ThreadInv(s, u);
      assert (u, c) !in s.links;
    }
  }

  /** Where a thread goes on after `prof_ctx_destroy`. */
  function DestroyNext(pc: Pc): Pc
    requires pc.ExitDestroy? || pc.FlushDestroy? || pc.Destroying?
  {
    if pc.ExitDestroy? then Idle else if pc.FlushDestroy? then HasCnt(pc.goal, pc.ctx, pc.isNew) else Failed(pc.goal)
  }

  lemma DestroyBits(s: State, t: nat, c: nat, d: nat)
    requires AboutToDestroy(s, t, c)
    ensures Bits(DestroyNext(s.threads[t].pc), d) == Bits(s.threads[t].pc, d) - Bit(c == d)
    ensures HoldsMain(DestroyNext(s.threads[t].pc), d) ==> HoldsMain(s.threads[t].pc, d)
    ensures !HoldsVictim(DestroyNext(s.threads[t].pc), d)
  {
  }

  /** The destroying thread itself no longer depends on `c` when `c` goes. */
  lemma DestroyThread(s: State, s': State, t: nat, c: nat)
    requires ThreadsInv(s) && AboutToDestroy(s, t, c)
    requires s'.threads == s.threads[t := s.threads[t].(pc := DestroyNext(s.threads[t].pc))]
    requires s'.links == s.links && s'.objs == s.objs
    requires forall d :: d in s.ctxs && d != c ==> d in s'.ctxs && s'.ctxs[d].bt == s.ctxs[d].bt
    requires c in s.ctxs
    requires if c in s'.ctxs then s'.ctxs[c].bt == s.ctxs[c].bt else
      Bits(s.threads[t].pc, c) == 1 && NoLinks(s, c) && forall o :: o in s.objs ==> s.objs[o] != c
    ensures ThreadInv(s', t)
  {
    hide Bits, DestroyNext, HoldsMain, HoldsVictim, NoLinks, GoalInv;
    DestroyPcs(s, s', t, c);
    DestroyCaches(s, s', t, c);
    DestroyAim(s, s', t, c);
  }

  lemma DestroyCaches(s: State, s': State, t: nat, c: nat)
    requires t in s.threads && t in s'.threads && LinkInv(s, t) && CacheInv(s, t)
    requires (forall d :: !Merging(s.threads[t].pc, d)) && !s.threads[t].pc.Cached? && s'.threads[t].cache == s.threads[t].cache
    requires s'.links == s.links
    requires forall d :: d in s.ctxs && d != c ==> d in s'.ctxs && s'.ctxs[d].bt == s.ctxs[d].bt
    requires if c in s'.ctxs then c in s.ctxs && s'.ctxs[c].bt == s.ctxs[c].bt else NoLinks(s, c)
    ensures LinkInv(s', t) && CacheInv(s', t)
  {
    hide Merging;
    forall b | b in s'.threads[t].cache
      ensures var d := s'.threads[t].cache[b]; d in s'.ctxs && s'.ctxs[d].bt == b && (t, d) in s'.links
    {
      assert (t, s'.threads[t].cache[b]) in s.links;
    }
  }

  lemma DestroyPcs(s: State, s': State, t: nat, c: nat)
    requires AboutToDestroy(s, t, c) && t in s'.threads && ThreadInv(s, t) && c in s.ctxs
    requires s'.threads[t] == s.threads[t].(pc := DestroyNext(s.threads[t].pc))
    requires forall d :: d in s.ctxs && d != c ==> d in s'.ctxs && s'.ctxs[d].bt == s.ctxs[d].bt
    requires if c in s'.ctxs then s'.ctxs[c].bt == s.ctxs[c].bt else Bits(s.threads[t].pc, c) == 1
    ensures PcInv(s', t)
    ensures (forall d :: !Merging(s.threads[t].pc, d)) && !s.threads[t].pc.Cached?
  {
    hide LinkInv, CacheInv, GoalInv;
    var pc, pc' := s.threads[t].pc, s'.threads[t].pc;
    assert forall d :: HoldsMain(pc', d) ==> Uncached(pc, d) && d in s'.ctxs && s'.ctxs[d].bt == s.ctxs[d].bt;
  }

  lemma DestroyAim(s: State, s': State, t: nat, c: nat)
    requires AboutToDestroy(s, t, c) && t in s'.threads && ThreadInv(s, t) && c in s.ctxs
    requires s'.threads[t] == s.threads[t].(pc := DestroyNext(s.threads[t].pc)) && s'.objs == s.objs
    requires forall d :: d in s.ctxs && d != c ==> d in s'.ctxs && s'.ctxs[d].bt == s.ctxs[d].bt
    requires c in s'.ctxs || forall o :: o in s.objs ==> s.objs[o] != c
    ensures GoalInv(s', t)
  {
    hide LinkInv, CacheInv, PcInv;
    var pc, pc' := s.threads[t].pc, s'.threads[t].pc;
    assert forall d :: HoldsMain(pc', d) ==> HoldsMain(pc, d);
  }

  lemma DestroyHash(s: State, c: nat, s': State)
    requires HashInv(s) && c in s.ctxs && s'.ctxs == s.ctxs - {c} && s'.bt2ctx == s.bt2ctx - {s.ctxs[c].bt} && s'.gone == s.gone + {c}
    ensures HashInv(s')
  {
  }

  lemma DestroyLocal(s: State, t: nat, c: nat, s': State)
    requires t in s.threads && t in s'.threads && s'.threads == s.threads[t := s'.threads[t]]
    requires s'.links == s.links && s'.objs == s.objs && s'.ctxs == s.ctxs - {c} && !Needed(s, t, c)
    ensures Local(s, s', t)
  {
    hide Needed;
  }

  lemma DestroyGone(s: State, t: nat, c: nat, s': State)
    requires Inv(s) && AboutToDestroy(s, t, c) && c in s.ctxs && MayDestroy(s, c)
    requires s' == s.(ctxs := s.ctxs - {c}, bt2ctx := s.bt2ctx - {s.ctxs[c].bt}, gone := s.gone + {c},
                      threads := s.threads[t := s.threads[t].(pc := DestroyNext(s.threads[t].pc))])
    ensures Inv(s')
  {
    hide Holds, Refs, Sum, Linked, ThreadInv, Local, HashInv, NoLinks, GoalOf, Needed, Bits, HoldsMain, HoldsVictim, MayDestroy;
    DestroyIsSafe(s, t, c);
    NotNeeded(s, t, c);
    DestroyTest(s, c);
    DestroyHash(s, c, s');
    DestroyLocal(s, t, c, s');
    DestroyThread(s, s', t, c);
    DestroyGoal(s, t, c);
    forall d | d in s'.ctxs ensures LimboMoves(s, s', t, d) && Balanced(s', d) {
      DestroyBits(s, t, c, d);
      BalancedSame(s, s', d);
    }
    StepKeeps(s, s', t);
  }

  lemma DestroyTest(s: State, c: nat)
    requires c in s.ctxs && MayDestroy(s, c)
    ensures NoLinks(s, c)
  {
  }

  lemma DestroyGoal(s: State, t: nat, c: nat)
    requires AboutToDestroy(s, t, c)
    ensures var pc := s.threads[t].pc; GoalOf(DestroyNext(pc)) == GoalOf(pc) || !GoalOf(DestroyNext(pc)).Release?
  {
  }

  lemma DestroyKept(s: State, t: nat, c: nat, s': State)
    requires Inv(s) && AboutToDestroy(s, t, c) && c in s.ctxs && s.ctxs[c].nlimbo > 0
    requires s' == s.(ctxs := s.ctxs[c := s.ctxs[c].(nlimbo := s.ctxs[c].nlimbo - 1)],
                      threads := s.threads[t := s.threads[t].(pc := DestroyNext(s.threads[t].pc))])
    ensures Inv(s')
  {
    hide Holds, Refs, Sum, Linked, ThreadInv, Local, HashInv, NoLinks, GoalOf, Needed, Bits, HoldsMain, HoldsVictim;
    HashSame(s, s');
    LocalIntro(s, s', t);
    DestroyThread(s, s', t, c);
    DestroyGoal(s, t, c);
    forall d | d in s'.ctxs ensures LimboMoves(s, s', t, d) && Balanced(s', d) {
      DestroyBits(s, t, c, d);
      BalancedSame(s, s', d);
    }
    StepKeeps(s, s', t);
  }

  lemma DestroyStep(s: State, t: nat, c: nat, s': State)
    requires Inv(s) && AboutToDestroy(s, t, c) && c in s.ctxs && s.ctxs[c].nlimbo > 0
    requires s' == CtxDestroy(s, c).(threads := s.threads[t := s.threads[t].(pc := DestroyNext(s.threads[t].pc))])
    ensures Inv(s')
  {
    hide Inv, MayDestroy, AboutToDestroy;
    if MayDestroy(s, c) {
      DestroyGone(s, t, c, s');
    } else {
      DestroyKept(s, t, c, s');
    }
  }

  /* --- Recording allocations and releases --------------------------------------------------- */

  /** The object set changes, but not at an object some other thread is releasing. */
  lemma LocalObjs(s: State, s': State, t: nat, o: nat)
    requires t in s.threads && t in s'.threads && s'.threads == s.threads[t := s'.threads[t]] && CtxsStay(s, s')
    requires s'.links.Keys == s.links.Keys
    requires forall p :: p != o && p in s.objs ==> p in s'.objs && s'.objs[p] == s.objs[p]
    requires o !in s.objs || (ReleaseInv(s) && GoalOf(s.threads[t].pc) == Release(o))
    ensures Local(s, s', t)
  {
    hide Needed;
    forall p: (nat, nat) | p.0 != t ensures p in s'.links <==> p in s.links {
      assert p in s'.links.Keys <==> p in s.links.Keys;
    }
  }

  /** The thread is done and goes idle; no counter is linked or unlinked. */
  lemma IdleThread(s: State, s': State, t: nat)
    requires t in s.threads && t in s'.threads && ThreadInv(s, t) && CtxsStay(s, s')
    requires s.threads[t].pc.Ready? || s.threads[t].pc.Failed?
    requires s'.threads[t] == s.threads[t].(pc := Idle) && s'.links.Keys == s.links.Keys
    ensures ThreadInv(s', t)
  {
    assert forall p: (nat, nat) :: p in s'.links.Keys <==> p in s.links.Keys;
    assert LinkInv(s', t);
    assert CacheInv(s', t);
  }

  lemma MallocStep(s: State, t: nat, c: nat, o: nat, s': State)
    requires Inv(s) && t in s.threads && s.threads[t].pc.Ready? && s.threads[t].pc.ctx == c && o !in s.objs
    requires c in s.ctxs && (t, c) in s.links
    requires s' == s.(objs := s.objs[o := c], links := s.links[(t, c) := s.links[(t, c)] + 1],
                      threads := s.threads[t := s.threads[t].(pc := Idle)])
    ensures Inv(s')
  {
    hide Holds, Refs, Sum, Linked, ThreadInv, Local, HashInv, NoLinks, Needed;
    HashSame(s, s');
    LocalObjs(s, s', t, o);
    IdleThread(s, s', t);
    forall d | d in s'.ctxs ensures LimboMoves(s, s', t, d) && Balanced(s', d) {
      LinkedUpdate(s.links, t, c, s.links[(t, c)] + 1, d);
      RefsAdd(s, s', o, c, d);
    }
    StepKeeps(s, s', t);
  }

  lemma ReleaseStep(s: State, t: nat, o: nat, s': State)
    requires Inv(s) && t in s.threads && s.threads[t].pc.Ready? && s.threads[t].pc.goal == Release(o)
    requires o in s.objs && s.objs[o] == s.threads[t].pc.ctx && s.objs[o] in s.ctxs && (t, s.objs[o]) in s.links
    requires s' == s.(objs := s.objs - {o}, links := s.links[(t, s.objs[o]) := s.links[(t, s.objs[o])] - 1],
                      threads := s.threads[t := s.threads[t].(pc := Idle)])
    ensures Inv(s')
  {
    hide Holds, Refs, Sum, Linked, ThreadInv, Local, HashInv, NoLinks, Needed;
    HashSame(s, s');
    LocalObjs(s, s', t, o);
    IdleThread(s, s', t);
    forall d | d in s'.ctxs ensures LimboMoves(s, s', t, d) && Balanced(s', d) {
      LinkedUpdate(s.links, t, s.objs[o], s.links[(t, s.objs[o])] - 1, d);
      RefsDrop(s, s', o, d);
    }
    StepKeeps(s, s', t);
  }

  lemma ReleaseDirect(s: State, t: nat, o: nat, s': State)
    requires Inv(s) && t in s.threads && s.threads[t].pc == Failed(Release(o)) && o in s.objs && s.objs[o] in s.ctxs
    requires var c := s.objs[o];
      s' == s.(objs := s.objs - {o}, ctxs := s.ctxs[c := s.ctxs[c].(merged := s.ctxs[c].merged - 1)],
               threads := s.threads[t := s.threads[t].(pc := Idle)])
    ensures Inv(s')
  {
    hide Holds, Refs, Sum, Linked, ThreadInv, Local, HashInv, NoLinks, Needed;
    HashSame(s, s');
    LocalObjs(s, s', t, o);
    IdleThread(s, s', t);
    forall d | d in s'.ctxs ensures LimboMoves(s, s', t, d) && Balanced(s', d) {
      RefsDrop(s, s', o, d);
    }
    StepKeeps(s, s', t);
  }

  lemma KeepsRelease(k: Config, s: State, t: nat)
    requires t in s.threads && Inv(s) && Enabled(k, s, t, CountRelease) && Sound(k, s, t, CountRelease)
    ensures Inv(Apply(k, s, t, CountRelease))
  {
    hide CountInv, ReleaseInv, HashInv, LinkInv, CacheInv, PcInv;
    var pc, s' := s.threads[t].pc, Apply(k, s, t, CountRelease);
    assert ThreadInv(s, t);
    if pc.Ready? {
      ReleaseStep(s, t, pc.goal.obj, s');
    } else {
      ReleaseDirect(s, t, pc.goal.obj, s');
    }
  }

  /* --- Runs ------------------------------------------------------------------------------------ */

  /** Every step, by any thread, keeps the invariant, unless a failing insertion leaves its table changed. */
  lemma StepInv(k: Config, s: State, t: nat, a: Action)
    requires Inv(s) && Enabled(k, s, t, a)
    ensures Sound(k, s, t, a) && (Clean(s, t, a) ==> Inv(Apply(k, s, t, a)))
  {
    hide Inv, MayFail;
    StepSound(k, s, t, a);
    var pc := s.threads[t].pc;
    match a
    case MissNew(c) => KeepsMissNew(k, s, t, c);
    case MissOld => KeepsMissOld(k, s, t);
    case Pick(_) => KeepsPick(k, s, t, a);
    case ExitPick(_) => KeepsPick(k, s, t, a);
    case InsertCnt => KeepsInsert(k, s, t);
    case Link => LinkStep(s, t, pc.ctx, Apply(k, s, t, a));
    case Merge => MergeStep(k, s, t, pc.victim, Apply(k, s, t, a));
    case DestroyVictim => DestroyStep(s, t, pc.victim, Apply(k, s, t, a));
    case DestroyNew => DestroyStep(s, t, pc.ctx, Apply(k, s, t, a));
    case CountMalloc(o) => MallocStep(s, t, pc.ctx, o, Apply(k, s, t, a));
    case CountRelease => KeepsRelease(k, s, t);
    case HashOom(_, _, _) => if Clean(s, t, a) { KeepsHashOom(k, s, t, a); }
    case _ => if Clean(s, t, a) { KeepsQuiet(k, s, t, a); }
  }

  datatype Event = Event(thread: nat, action: Action)

  /** What a sequence of events leads to: `Blocked` if one is not enabled, `Broken` if one is not sound. */
  datatype Outcome = Blocked | Broken | Reached(state: State)

  ghost function Run(k: Config, s: State, events: seq<Event>): Outcome
    decreases |events|
  {
    if events == [] then Reached(s)
    else if !Enabled(k, s, events[0].thread, events[0].action) then Blocked
    else if !Sound(k, s, events[0].thread, events[0].action) then Broken
    else Run(k, Apply(k, s, events[0].thread, events[0].action), events[1..])
  }

  /** In this run, as far as it gets, no failing insertion leaves its table changed. */
  ghost predicate CleanRun(k: Config, s: State, events: seq<Event>)
    decreases |events|
  {
    events == [] || !Enabled(k, s, events[0].thread, events[0].action) || !Sound(k, s, events[0].thread, events[0].action)
    || (Clean(s, events[0].thread, events[0].action) && CleanRun(k, Apply(k, s, events[0].thread, events[0].action), events[1..]))
  }

  /** Profiling starts with idle threads, empty caches, and no contexts. */
  ghost predicate Initial(s: State)
  {
    && s.ctxs == map[] && s.bt2ctx == map[] && s.links == map[] && s.objs == map[] && s.gone == {}
    && forall t :: t in s.threads ==> s.threads[t] == Thread(map[], Idle)
  }

  lemma InitialInv(s: State)
    requires Initial(s)
    ensures Inv(s)
  {
    hide Holds, Refs, Sum, Linked;
  }

  /** No clean run breaks, and the invariant holds wherever it leads. */
  lemma {:induction false} RunInv(k: Config, s: State, events: seq<Event>)
    requires Inv(s) && CleanRun(k, s, events)
    ensures !Run(k, s, events).Broken?
    ensures Run(k, s, events).Reached? ==> Inv(Run(k, s, events).state)
    decreases |events|
  {
    hide Inv, Enabled, Sound, Apply;
    if events != [] && Enabled(k, s, events[0].thread, events[0].action) {
      StepInv(k, s, events[0].thread, events[0].action);
      RunInv(k, Apply(k, s, events[0].thread, events[0].action), events[1..]);
    }
  }

  /* --- A context is destroyed at most once, and only when nobody uses it ------------------------- */

  /** Nobody but thread `t` is in limbo on `c`, no counter is linked to it, no live object refers to it. */
  ghost predicate Unused(s: State, t: nat, c: nat)
  {
    && (forall u :: u in s.threads && u != t ==> !HoldsMain(s.threads[u].pc, c) && !HoldsVictim(s.threads[u].pc, c))
    && (forall p :: p in s.links ==> p.1 != c)
    && (forall o :: o in s.objs ==> s.objs[o] != c)
  }

  lemma OnlyDestroyRemoves(k: Config, s: State, t: nat, a: Action, c: nat)
    requires Enabled(k, s, t, a) && Sound(k, s, t, a) && c in s.ctxs && c !in Apply(k, s, t, a).ctxs
    ensures AboutToDestroy(s, t, c) && MayDestroy(s, c) && c in Apply(k, s, t, a).gone
  {
    hide NoLinks;
  }

  lemma GoneGrows(k: Config, s: State, t: nat, a: Action)
    requires Enabled(k, s, t, a) && Sound(k, s, t, a)
    ensures s.gone <= Apply(k, s, t, a).gone
  {
    hide NoLinks;
  }

  lemma NotReused(k: Config, s: State, t: nat, c: nat)
    requires Enabled(k, s, t, MissNew(c))
    ensures c !in s.gone
  {
  }

  lemma {:induction false} GoneForever(k: Config, s: State, events: seq<Event>, c: nat)
    requires c in s.gone && c !in s.ctxs && Run(k, s, events).Reached?
    ensures c in Run(k, s, events).state.gone && c !in Run(k, s, events).state.ctxs
    decreases |events|
  {
    hide Enabled, Sound, Apply;
    if events != [] {
      GoneGrows(k, s, events[0].thread, events[0].action);
      if c in Apply(k, s, events[0].thread, events[0].action).ctxs {
        OnlyMissCreates(k, s, events[0].thread, events[0].action, c);
        NotReused(k, s, events[0].thread, c);
      }
      GoneForever(k, Apply(k, s, events[0].thread, events[0].action), events[1..], c);
    }
  }

  /**
   Whenever, after any clean run, a context disappears, nobody was using it; and whatever happens
   afterwards, it never comes back.
   */
  lemma DestroyedOnceAndUnused(k: Config, init: State, before: seq<Event>, e: Event, after: seq<Event>, c: nat)
    requires Initial(init) && Run(k, init, before).Reached? && CleanRun(k, init, before)
    requires var s := Run(k, init, before).state;
      Enabled(k, s, e.thread, e.action) && Sound(k, s, e.thread, e.action) && c in s.ctxs && c !in Apply(k, s, e.thread, e.action).ctxs
    ensures Unused(Run(k, init, before).state, e.thread, c)
    ensures var r := Run(k, Apply(k, Run(k, init, before).state, e.thread, e.action), after);
      r.Reached? ==> c !in r.state.ctxs
  {
    hide Inv, Enabled, Sound, Apply, MayDestroy, AboutToDestroy, Initial, Run, CleanRun;
    InitialInv(init);
    RunInv(k, init, before);
    var s := Run(k, init, before).state;
    OnlyDestroyRemoves(k, s, e.thread, e.action, c);
    DestroyIsSafe(s, e.thread, c);
    if Run(k, Apply(k, s, e.thread, e.action), after).Reached? {
      GoneForever(k, Apply(k, s, e.thread, e.action), after, c);
    }
  }

  /* --- What the out-of-memory exits cost ----------------------------------------------------------- */

  /** `nlimbo` beyond the threads in limbo. */
  ghost function Slack(s: State, c: nat): int
    requires c in s.ctxs
  {
    s.ctxs[c].nlimbo - Holds(s, c)
  }

  /** An out-of-memory exit from a lookup that found an existing context. */
  predicate Leaks(s: State, e: Event, c: nat)
  {
    && (e.action.AllocOom? || e.action.InsertOom?) && e.thread in s.threads
    && var pc := s.threads[e.thread].pc; (pc.HasCtx? || pc.HasCnt?) && !pc.isNew && pc.ctx == c
  }

  /** How `nlimbo` and the thread's own holds move together, up to a leak. */
  ghost predicate LimboExact(s: State, e: Event, s': State, c: nat)
    requires c in s.ctxs && e.thread in s.threads
  {
    && e.thread in s'.threads && s'.threads == s.threads[e.thread := s'.threads[e.thread]]
    && (c in s'.ctxs ==>
          s'.ctxs[c].nlimbo - Bits(s'.threads[e.thread].pc, c) == s.ctxs[c].nlimbo - Bits(s.threads[e.thread].pc, c) + Bit(Leaks(s, e, c)))
  }

  lemma LimboQuiet(k: Config, s: State, t: nat, a: Action, c: nat)
    requires Enabled(k, s, t, a) && Sound(k, s, t, a) && c in s.ctxs && IsQuiet(a)
    ensures LimboExact(s, Event(t, a), Apply(k, s, t, a), c)
  {
    hide MayFail, Found;
  }

  lemma LimboEnter(k: Config, s: State, t: nat, a: Action, c: nat)
    requires Enabled(k, s, t, a) && Sound(k, s, t, a) && c in s.ctxs && (a.MissNew? || a.MissOld? || a.HashOom?)
    ensures LimboExact(s, Event(t, a), Apply(k, s, t, a), c)
  {
    hide MayFail, Found;
  }

  lemma LimboCount(k: Config, s: State, t: nat, a: Action, c: nat)
    requires Enabled(k, s, t, a) && Sound(k, s, t, a) && c in s.ctxs && (a.CountMalloc? || a.CountRelease?)
    ensures LimboExact(s, Event(t, a), Apply(k, s, t, a), c)
  {
    hide MayFail, Found;
  }

  lemma LimboMove(k: Config, s: State, t: nat, a: Action, c: nat)
    requires Enabled(k, s, t, a) && Sound(k, s, t, a) && c in s.ctxs && (a.Pick? || a.ExitPick? || a.InsertCnt? || a.Link?)
    ensures LimboExact(s, Event(t, a), Apply(k, s, t, a), c)
  {
    hide MayFail, Found;
  }

  lemma LimboMerge(k: Config, s: State, t: nat, c: nat)
    requires Enabled(k, s, t, Merge) && Sound(k, s, t, Merge) && c in s.ctxs
    ensures LimboExact(s, Event(t, Merge), Apply(k, s, t, Merge), c)
  {
    hide NoLinks;
  }

  lemma LimboDestroy(k: Config, s: State, t: nat, a: Action, c: nat)
    requires Enabled(k, s, t, a) && Sound(k, s, t, a) && c in s.ctxs && (a.DestroyVictim? || a.DestroyNew?)
    ensures LimboExact(s, Event(t, a), Apply(k, s, t, a), c)
  {
    hide MayDestroy;
  }

  lemma LimboStep(k: Config, s: State, t: nat, a: Action, c: nat)
    requires Enabled(k, s, t, a) && Sound(k, s, t, a) && c in s.ctxs
    ensures LimboExact(s, Event(t, a), Apply(k, s, t, a), c)
  {
    hide Enabled, Sound, Apply, LimboExact;
    if IsQuiet(a) {
      LimboQuiet(k, s, t, a, c);
    } else if a.Merge? {
      LimboMerge(k, s, t, c);
    } else if a.DestroyVictim? || a.DestroyNew? {
      LimboDestroy(k, s, t, a, c);
    } else if a.MissNew? || a.MissOld? || a.HashOom? {
      LimboEnter(k, s, t, a, c);
    } else if a.CountMalloc? || a.CountRelease? {
      LimboCount(k, s, t, a, c);
    } else {
      LimboMove(k, s, t, a, c);
    }
  }

  lemma SlackStep(k: Config, s: State, e: Event, c: nat)
    requires Enabled(k, s, e.thread, e.action) && Sound(k, s, e.thread, e.action) && c in s.ctxs
    requires c in Apply(k, s, e.thread, e.action).ctxs
    ensures Slack(Apply(k, s, e.thread, e.action), c) == Slack(s, c) + Bit(Leaks(s, e, c))
  {
    hide Holds, HoldsMain, HoldsVictim, Sound, Apply, Leaks;
    LimboStep(k, s, e.thread, e.action, c);
    HoldsCount(s, Apply(k, s, e.thread, e.action), e.thread, c);
  }

  /** How often an event of the run leaks on `c`. */
  ghost function LeakCount(k: Config, s: State, events: seq<Event>, c: nat): nat
    requires Run(k, s, events).Reached?
    decreases |events|
  {
    if events == [] then 0 else
      var later := LeakCount(k, Apply(k, s, events[0].thread, events[0].action), events[1..], c);
      if Leaks(s, events[0], c) then later + 1 else later
  }

  /** A context appears only in the step that creates it. */
  lemma OnlyMissCreates(k: Config, s: State, t: nat, a: Action, c: nat)
    requires Enabled(k, s, t, a) && Sound(k, s, t, a) && c !in s.ctxs && c in Apply(k, s, t, a).ctxs
    ensures a == MissNew(c)
  {
    hide NoLinks;
  }

  lemma NoLeak(s: State, e: Event, c: nat)
    requires Inv(s) && c !in s.ctxs
    ensures !Leaks(s, e, c)
  {
    hide HashInv, ReleaseInv, CountInv;
    if e.thread in s.threads {
      assert ThreadInv(s, e.thread);
    }
  }

  lemma NewSlack(k: Config, s: State, e: Event, c: nat)
    requires Inv(s) && Enabled(k, s, e.thread, e.action) && Sound(k, s, e.thread, e.action)
    requires c !in s.ctxs && e.action == MissNew(c)
    ensures Slack(Apply(k, s, e.thread, e.action), c) == 0
  {
    hide Holds, Refs, NoLinks, CountInv, HashInv, ReleaseInv, ThreadsInv;
    Unseen(s, c);
    HoldsCount(s, Apply(k, s, e.thread, e.action), e.thread, c);
  }

  /** From a context that exists: `nlimbo` is the threads in limbo, plus the old slack, plus the leaks since. */
  lemma {:induction false} SlackSince(k: Config, s: State, events: seq<Event>, c: nat)
    requires Inv(s) && CleanRun(k, s, events) && c in s.ctxs && Run(k, s, events).Reached? && c in Run(k, s, events).state.ctxs
    ensures Slack(Run(k, s, events).state, c) == Slack(s, c) + LeakCount(k, s, events, c)
    decreases |events|
  {
    hide Inv, Enabled, Sound, Apply, Leaks, Holds, AboutToDestroy, MayDestroy;
    if events != [] {
      var e := events[0];
      var s' := Apply(k, s, e.thread, e.action);
      StepInv(k, s, e.thread, e.action);
      if c !in s'.ctxs {
        OnlyDestroyRemoves(k, s, e.thread, e.action, c);
        GoneForever(k, s', events[1..], c);
        assert false;
      }
      SlackStep(k, s, e, c);
      SlackSince(k, s', events[1..], c);
    }
  }

  /**
   `nlimbo` exactly: in every state a clean run reaches it is the number of threads in limbo plus the number
   of out-of-memory exits the run took on the context once it existed.
   */
  lemma {:induction false} NlimboExact(k: Config, s: State, events: seq<Event>, c: nat)
    requires Inv(s) && CleanRun(k, s, events) && c !in s.ctxs && Run(k, s, events).Reached? && c in Run(k, s, events).state.ctxs
    ensures var s' := Run(k, s, events).state;
      s'.ctxs[c].nlimbo == Holds(s', c) + LeakCount(k, s, events, c)
    decreases |events|
  {
    hide Inv, Enabled, Sound, Apply, Leaks, Holds;
    var e := events[0];
    var s' := Apply(k, s, e.thread, e.action);
    StepInv(k, s, e.thread, e.action);
    NoLeak(s, e, c);
    if c in s'.ctxs {
      OnlyMissCreates(k, s, e.thread, e.action, c);
      NewSlack(k, s, e, c);
      SlackSince(k, s', events[1..], c);
    } else {
      NlimboExact(k, s', events[1..], c);
    }
  }

  lemma SlackBlocksDestroy(s: State, t: nat, c: nat)
    requires AboutToDestroy(s, t, c) && c in s.ctxs && Slack(s, c) > 0
    ensures !MayDestroy(s, c)
  {
    hide Holds, NoLinks;
    HoldsPositive(s, t, c);
  }

  /** One leak, and the context is never destroyed, in any clean continuation. */
  lemma {:induction false} LeakKeepsAlive(k: Config, s: State, events: seq<Event>, c: nat)
    requires Inv(s) && CleanRun(k, s, events) && c in s.ctxs && Slack(s, c) > 0 && Run(k, s, events).Reached?
    ensures c in Run(k, s, events).state.ctxs
    decreases |events|
  {
    hide Inv, Enabled, Sound, Apply, Leaks, Holds, AboutToDestroy, MayDestroy;
    if events != [] {
      var e := events[0];
      var s' := Apply(k, s, e.thread, e.action);
      StepInv(k, s, e.thread, e.action);
      if c !in s'.ctxs {
        OnlyDestroyRemoves(k, s, e.thread, e.action, c);
        SlackBlocksDestroy(s, e.thread, c);
        assert false;
      }
      SlackStep(k, s, e, c);
      LeakKeepsAlive(k, s', events[1..], c);
    }
  }

  /** The states of a run in which thread 0 runs out of memory on the context that thread 1 has made. */
  function LeakState(i: nat): State
    requires i <= 5
  {
    var idle, bare := Thread(map[], Idle), Ctx(3, if i <= 3 then 1 else 2, 0);
    var t1 := if i == 0 then idle else if i == 1 then Thread(map[], Search(Malloc, 3)) else Thread(map[], HasCtx(Malloc, 0, true));
    var t0 := if i <= 2 then idle else if i == 3 then Thread(map[], Search(Malloc, 3))
      else if i == 4 then Thread(map[], HasCtx(Malloc, 0, false)) else Thread(map[], Failed(Malloc));
    State(if i <= 1 then map[] else map[0 := bare], if i <= 1 then map[] else map[3 := 0], map[], map[0 := t0, 1 := t1], map[], {})
  }

  function LeakEvent(i: nat): Event
    requires i < 5
  {
    if i == 0 then Event(1, StartMalloc(3)) else if i == 1 then Event(1, MissNew(0))
    else if i == 2 then Event(0, StartMalloc(3)) else if i == 3 then Event(0, MissOld) else Event(0, AllocOom)
  }

  function LeakEvents(i: nat): seq<Event>
    requires i <= 5
    decreases 5 - i
  {
    if i == 5 then [] else [LeakEvent(i)] + LeakEvents(i + 1)
  }

  /** Step `i` of the run is possible and leads on. */
  ghost predicate LeakStep(k: Config, i: nat)
    requires i < 5
  {
    var s, e := LeakState(i), LeakEvent(i);
    && Enabled(k, s, e.thread, e.action) && Sound(k, s, e.thread, e.action)
    && Apply(k, s, e.thread, e.action) == LeakState(i + 1) && Clean(s, e.thread, e.action) && (Leaks(s, e, 0) <==> i == 4)
  }

  lemma LeakStarts(k: Config)
    ensures LeakStep(k, 0) && LeakStep(k, 1)
  {
  }

  lemma LeakGoesOn(k: Config)
    ensures LeakStep(k, 2) && LeakStep(k, 3)
  {
  }

  lemma LeakEnds(k: Config)
    requires k.tcmax > 0
    ensures LeakStep(k, 4)
  {
  }

  lemma {:induction false} LeakRun(k: Config, i: nat)
    requires k.tcmax > 0 && i <= 5
    ensures Run(k, LeakState(i), LeakEvents(i)) == Reached(LeakState(5)) && CleanRun(k, LeakState(i), LeakEvents(i))
    ensures LeakCount(k, LeakState(i), LeakEvents(i), 0) == if i == 5 then 0 else 1
    decreases 5 - i
  {
    hide Enabled, Sound, Apply, Clean, LeakState, LeakEvent, Leaks;
    if i < 5 {
      LeakStarts(k);
      LeakGoesOn(k);
      LeakEnds(k);
      assert LeakStep(k, i);
      LeakRun(k, i + 1);
      assert LeakEvents(i)[1..] == LeakEvents(i + 1) && LeakEvents(i)[0] == LeakEvent(i);
    }
  }

  /** So `nlimbo` can exceed the number of threads in limbo. */
  lemma LeakHappens(k: Config)
    requires k.tcmax > 0
    ensures Initial(LeakState(0)) && Run(k, LeakState(0), LeakEvents(0)) == Reached(LeakState(5))
    ensures 0 in LeakState(5).ctxs && Slack(LeakState(5), 0) == 1
  {
    hide Inv, Holds, LeakEvents, Run;
    LeakRun(k, 0);
    InitialInv(LeakState(0));
    NlimboExact(k, LeakState(0), LeakEvents(0), 0);
  }

  /**
   The states of a run of one thread: it makes a context and links its counter there, gets no
   memory for the object itself, and exits, which folds the counter in.
   */
  function LifeState(i: nat): State
    requires i <= 9
  {
    var pc := if i == 1 then Search(Malloc, 3) else if i == 2 then HasCtx(Malloc, 0, true)
      else if i == 3 then HasCnt(Malloc, 0, true) else if i == 4 then Cached(Malloc, 0) else if i == 5 then Ready(Malloc, 0)
      else if i == 7 then ExitMerge(0) else if i == 8 then ExitDestroy(0) else Idle;
    State(if 2 <= i < 9 then map[0 := Ctx(3, if i <= 4 || i == 8 then 1 else 0, 0)] else map[],
          if 2 <= i < 9 then map[3 := 0] else map[],
          if 5 <= i < 8 then map[(0, 0) := 0] else map[],
          map[0 := Thread(if 4 <= i < 7 then map[3 := 0] else map[], pc)],
          map[], if i == 9 then {0} else {})
  }

  const lifeActions: seq<Action> := [StartMalloc(3), MissNew(0), AllocCnt, InsertCnt, Link, GiveUp, ExitPick(3), Merge, DestroyVictim]

  function LifeEvents(i: nat): seq<Event>
    requires i <= 9
    decreases 9 - i
  {
    if i == 9 then [] else [Event(0, lifeActions[i])] + LifeEvents(i + 1)
  }

  ghost predicate LifeStep(k: Config, i: nat)
    requires i < 9
  {
    var s, a := LifeState(i), lifeActions[i];
    Enabled(k, s, 0, a) && Sound(k, s, 0, a) && Apply(k, s, 0, a) == LifeState(i + 1)
  }

  lemma LifeStarts(k: Config)
    requires k.tcmax > 0
    ensures LifeStep(k, 0) && LifeStep(k, 1) && LifeStep(k, 2)
  {
  }

  lemma LifeLinks(k: Config)
    ensures LifeStep(k, 3) && LifeStep(k, 4)
  {
  }

  lemma LifeGivesUp(k: Config)
    ensures LifeStep(k, 5)
  {
  }

  lemma LifeLeaves(k: Config)
    ensures LifeStep(k, 6)
  {
  }

  lemma LifeMerges(k: Config)
    requires !k.accum
    ensures LifeStep(k, 7)
  {
  }

  lemma LifeEnds(k: Config)
    ensures LifeStep(k, 8)
  {
  }

  lemma {:induction false} LifeRun(k: Config, i: nat)
    requires k.tcmax > 0 && !k.accum && i <= 9
    ensures Run(k, LifeState(i), LifeEvents(i)) == Reached(LifeState(9))
    decreases 9 - i
  {
    hide Enabled, Sound, Apply, LifeState;
    if i < 9 {
      LifeStarts(k);
      LifeLinks(k);
      LifeGivesUp(k);
      LifeLeaves(k);
      LifeMerges(k);
      LifeEnds(k);
      assert LifeStep(k, i);
      LifeRun(k, i + 1);
      assert LifeEvents(i)[1..] == LifeEvents(i + 1) && LifeEvents(i)[0] == Event(0, lifeActions[i]);
    }
  }

  /** So contexts do go: between a start and the end of a thread's life, the context it used is made and destroyed. */
  lemma DestroyHappens(k: Config)
    requires k.tcmax > 0 && !k.accum
    ensures Initial(LifeState(0)) && Run(k, LifeState(0), LifeEvents(0)) == Reached(LifeState(9))
    ensures 0 in LifeState(8).ctxs && 0 !in LifeState(9).ctxs && 0 in LifeState(9).gone
  {
    hide Run, LifeEvents;
    LifeRun(k, 0);
  }

  /* --- What a failing insertion costs ------------------------------------------------------------- */

  /**
   A step with a failing `ckh_insert` keeps the invariant exactly if the entry that is missing at the
   end is the new one; never so if the table has not grown before.
   */
  lemma FailedInsertIff(k: Config, s: State, t: nat, a: Action)
    requires Inv(s) && Enabled(k, s, t, a) && (a.HashOom? || a.InsertOom?)
    ensures Sound(k, s, t, a) && (Inv(Apply(k, s, t, a)) <==> Clean(s, t, a))
    ensures !a.grown ==> !Clean(s, t, a)
  {
    hide Inv, Enabled, Sound, Apply, Clean;
    StepInv(k, s, t, a);
    NotGrown(k, s, t, a);
    if !Clean(s, t, a) {
      Traps(k, s, t, a);
      TrapsBreak(k, s, t, a);
    }
  }

  lemma NotGrown(k: Config, s: State, t: nat, a: Action)
    requires Enabled(k, s, t, a) && Sound(k, s, t, a) && (a.HashOom? || a.InsertOom?)
    ensures !a.grown ==> !Clean(s, t, a)
  {
  }

  /** Thread `t` has a counter for backtrace `b` in its cache that is freed, because it is linked nowhere. */
  ghost predicate CacheTrap(s: State, t: nat, b: nat)
  {
    t in s.threads && b in s.threads[t].cache && (t, s.threads[t].cache[b]) !in s.links
  }

  /** The hash has a context for `b` that is freed, and thread `t` will look there. */
  ghost predicate HashTrap(s: State, t: nat, b: nat)
  {
    t in s.threads && b !in s.threads[t].cache && b in s.bt2ctx && s.bt2ctx[b] !in s.ctxs
  }

  ghost predicate Fails(s: State, t: nat, a: Action)
  {
    t in s.threads && var pc := s.threads[t].pc;
    if a.HashOom? then pc.Search? else a.InsertOom? && pc.HasCnt? && pc.ctx in s.ctxs
  }

  /** The backtrace a failing insertion is about. */
  ghost function Key(s: State, t: nat, a: Action): nat
    requires Fails(s, t, a)
  {
    if a.HashOom? then s.threads[t].pc.bt else s.ctxs[s.threads[t].pc.ctx].bt
  }

  /** A step that is not clean leaves its trap, and the entry that had to make room is out. */
  ghost predicate Trapped(s: State, t: nat, a: Action, s': State)
    requires Fails(s, t, a)
  {
    && t in s'.threads && s'.objs == s.objs
    && var pc, pc' := s.threads[t].pc, s'.threads[t].pc;
    && pc' == (if a.InsertOom? && pc.isNew then Destroying(pc.goal, pc.ctx) else Failed(pc.goal))
    && if a.HashOom? then HashTrap(s', t, Key(s, t, a)) && a.lost in s.bt2ctx && s.bt2ctx[a.lost] in s'.ctxs && a.lost !in s'.bt2ctx
       else CacheTrap(s', t, Key(s, t, a)) && a.lost in s.threads[t].cache && a.lost !in s'.threads[t].cache
  }

  lemma Traps(k: Config, s: State, t: nat, a: Action)
    requires Inv(s) && Enabled(k, s, t, a) && Sound(k, s, t, a) && (a.HashOom? || a.InsertOom?) && !Clean(s, t, a)
    ensures Fails(s, t, a) && Trapped(s, t, a, Apply(k, s, t, a))
  {
    hide CountInv, ReleaseInv, CacheInv, GoalInv, ThreadInv, HashInv, Trapped;
    if a.InsertOom? {
      assert ThreadInv(s, t);
      CacheTraps(k, s, t, a);
    } else {
      HashTraps(k, s, t, a);
    }
  }

  lemma CacheTraps(k: Config, s: State, t: nat, a: Action)
    requires t in s.threads && ThreadInv(s, t) && Enabled(k, s, t, a) && Sound(k, s, t, a) && a.InsertOom? && !Clean(s, t, a)
    ensures Fails(s, t, a) && Trapped(s, t, a, Apply(k, s, t, a))
  {
    hide CacheInv, GoalInv;
    assert Uncached(s.threads[t].pc, s.threads[t].pc.ctx);
  }

  lemma HashTraps(k: Config, s: State, t: nat, a: Action)
    requires HashInv(s) && Enabled(k, s, t, a) && Sound(k, s, t, a) && a.HashOom? && !Clean(s, t, a)
    ensures Fails(s, t, a) && Trapped(s, t, a, Apply(k, s, t, a))
  {
  }

  lemma TrapsBreak(k: Config, s: State, t: nat, a: Action)
    requires Fails(s, t, a) && Enabled(k, s, t, a) && Sound(k, s, t, a)
    requires var s' := Apply(k, s, t, a);
      if a.HashOom? then HashTrap(s', t, Key(s, t, a)) else CacheTrap(s', t, Key(s, t, a)) && !s'.threads[t].pc.Cached?
    ensures !Inv(Apply(k, s, t, a))
  {
    hide CountInv, ReleaseInv, LinkInv, PcInv, GoalInv, Enabled, Sound, Apply;
    var s' := Apply(k, s, t, a);
    if a.InsertOom? {
      assert !CacheInv(s', t);
    }
  }

  /** The thread finishes what it was doing. */
  function Quit(t: nat, goal: Goal): Event
  {
    Event(t, if goal.Malloc? then GiveUp else CountRelease)
  }

  /** The thread samples the same backtrace again. */
  function Again(t: nat, b: nat, o: nat): seq<Event>
  {
    [Event(t, StartMalloc(b)), Event(t, Hit), Event(t, CountMalloc(o))]
  }

  lemma RunFirst(k: Config, s: State, e: Event, rest: seq<Event>)
    ensures Enabled(k, s, e.thread, e.action) ==>
      Run(k, s, [e] + rest) == if Sound(k, s, e.thread, e.action) then Run(k, Apply(k, s, e.thread, e.action), rest) else Broken
  {
    hide Enabled, Sound, Apply;
    assert ([e] + rest)[1..] == rest;
  }

  lemma HitBreaks(k: Config, s: State, t: nat, b: nat, o: nat)
    requires CacheTrap(s, t, b) && s.threads[t].pc.Idle? && o !in s.objs
    ensures Run(k, s, Again(t, b, o)).Broken?
  {
    hide Run;
    var e1, e2, e3 := Event(t, StartMalloc(b)), Event(t, Hit), Event(t, CountMalloc(o));
    var s1 := SetPc(s, t, Search(Malloc, b));
    var s2 := SetPc(s1, t, Ready(Malloc, s.threads[t].cache[b]));
    RunFirst(k, s, e1, [e2] + ([e3] + []));
    RunFirst(k, s1, e2, [e3] + []);
    RunFirst(k, s2, e3, []);
    assert Again(t, b, o) == [e1] + ([e2] + ([e3] + []));
  }

  /** Finishing neither repairs the cache nor makes the object live. */
  lemma QuitTrapped(k: Config, s: State, t: nat, b: nat, o: nat, goal: Goal)
    requires t in s.threads && s.threads[t].pc == Failed(goal) && o !in s.objs
    ensures var e := Quit(t, goal);
      Enabled(k, s, t, e.action) && (Sound(k, s, t, e.action) ==>
        var s' := Apply(k, s, t, e.action);
        && t in s'.threads && s'.threads[t].pc.Idle? && o !in s'.objs
        && (CacheTrap(s, t, b) ==> CacheTrap(s', t, b)) && (HashTrap(s, t, b) ==> HashTrap(s', t, b)))
  {
  }

  lemma DestroyTrapped(k: Config, s: State, t: nat, b: nat)
    requires CacheTrap(s, t, b) && s.threads[t].pc.Destroying?
    ensures Enabled(k, s, t, DestroyNew) && (Sound(k, s, t, DestroyNew) ==>
      var s' := Apply(k, s, t, DestroyNew);
      t in s'.threads && CacheTrap(s', t, b) && s'.threads[t].pc == Failed(s.threads[t].pc.goal) && s'.objs == s.objs)
  {
    hide MayDestroy;
  }

  lemma CacheBreaks(k: Config, s: State, t: nat, b: nat, o: nat, goal: Goal)
    requires t in s.threads && CacheTrap(s, t, b) && s.threads[t].pc == Failed(goal) && o !in s.objs
    ensures Run(k, s, [Quit(t, goal)] + Again(t, b, o)).Broken?
  {
    hide Run, Enabled, Sound, Apply, CacheTrap, HashTrap, Again;
    QuitTrapped(k, s, t, b, o, goal);
    var e := Quit(t, goal);
    RunFirst(k, s, e, Again(t, b, o));
    if Sound(k, s, t, e.action) {
      HitBreaks(k, Apply(k, s, t, e.action), t, b, o);
    }
  }

  lemma MissBreaks(k: Config, s: State, t: nat, b: nat)
    requires HashTrap(s, t, b) && s.threads[t].pc.Idle?
    ensures Run(k, s, [Event(t, StartMalloc(b)), Event(t, MissOld)]).Broken?
  {
    hide Run;
    var e1, e2 := Event(t, StartMalloc(b)), Event(t, MissOld);
    var s1 := SetPc(s, t, Search(Malloc, b));
    RunFirst(k, s, e1, [e2] + []);
    RunFirst(k, s1, e2, []);
    assert [e1, e2] == [e1] + ([e2] + []);
  }

  lemma HashBreaks(k: Config, s: State, t: nat, b: nat, o: nat, goal: Goal)
    requires t in s.threads && HashTrap(s, t, b) && s.threads[t].pc == Failed(goal) && o !in s.objs
    ensures Run(k, s, [Quit(t, goal)] + [Event(t, StartMalloc(b)), Event(t, MissOld)]).Broken?
  {
    hide Run, Enabled, Sound, Apply, CacheTrap, HashTrap;
    QuitTrapped(k, s, t, b, o, goal);
    var e := Quit(t, goal);
    RunFirst(k, s, e, [Event(t, StartMalloc(b)), Event(t, MissOld)]);
    if Sound(k, s, t, e.action) {
      MissBreaks(k, Apply(k, s, t, e.action), t, b);
    }
  }

  /** What the thread can do next after its insertion has failed. */
  ghost function Aftermath(s: State, t: nat, a: Action, o: nat): seq<Event>
    requires Fails(s, t, a)
  {
    var pc, b := s.threads[t].pc, Key(s, t, a);
    if a.HashOom? then [Quit(t, pc.goal)] + [Event(t, StartMalloc(b)), Event(t, MissOld)]
    else (if pc.isNew then [Event(t, DestroyNew)] else []) + ([Quit(t, pc.goal)] + Again(t, b, o))
  }

  /**
   If another entry than the new one is missing at the end, the table keeps what the failing lookup
   frees.  The same thread need only look the backtrace up once more to use it.
   */
  lemma DirtyBreaks(k: Config, s: State, t: nat, a: Action, o: nat)
    requires Inv(s) && Enabled(k, s, t, a) && Sound(k, s, t, a) && (a.HashOom? || a.InsertOom?) && !Clean(s, t, a) && o !in s.objs
    ensures Fails(s, t, a) && Run(k, Apply(k, s, t, a), Aftermath(s, t, a, o)).Broken?
  {
    hide Run, Inv, Enabled, Sound, Apply, Clean, CacheTrap, HashTrap, Again;
    Traps(k, s, t, a);
    var s', pc, b := Apply(k, s, t, a), s.threads[t].pc, Key(s, t, a);
    if a.HashOom? {
      HashBreaks(k, s', t, b, o, pc.goal);
    } else if pc.isNew {
      DestroyTrapped(k, s', t, b);
      RunFirst(k, s', Event(t, DestroyNew), [Quit(t, pc.goal)] + Again(t, b, o));
      if Sound(k, s', t, DestroyNew) {
        CacheBreaks(k, Apply(k, s', t, DestroyNew), t, b, o, pc.goal);
      }
    } else {
      assert [] + ([Quit(t, pc.goal)] + Again(t, b, o)) == [Quit(t, pc.goal)] + Again(t, b, o);
      CacheBreaks(k, s', t, b, o, pc.goal);
    }
  }

  /** The event is possible, clean, and leads to `s'`. */
  ghost predicate Leads(k: Config, s: State, e: Event, s': State)
  {
    Enabled(k, s, e.thread, e.action) && Sound(k, s, e.thread, e.action) && Clean(s, e.thread, e.action) && Apply(k, s, e.thread, e.action) == s'
  }

  lemma Then(k: Config, s: State, e: Event, s': State, rest: seq<Event>)
    requires Leads(k, s, e, s')
    ensures Run(k, s, [e] + rest) == Run(k, s', rest) && (CleanRun(k, s, [e] + rest) <==> CleanRun(k, s', rest))
  {
    hide Enabled, Sound, Apply, Clean;
    assert ([e] + rest)[1..] == rest;
  }

  lemma {:induction false} RunConcat(k: Config, s: State, a: seq<Event>, b: seq<Event>)
    requires Run(k, s, a).Reached?
    ensures Run(k, s, a + b) == Run(k, Run(k, s, a).state, b)
    ensures CleanRun(k, s, a + b) <==> CleanRun(k, s, a) && CleanRun(k, Run(k, s, a).state, b)
    decreases |a|
  {
    hide Enabled, Sound, Apply, Clean;
    if a == [] {
      assert a + b == b;
    } else {
      assert (a + b)[1..] == a[1..] + b;
      RunConcat(k, Apply(k, s, a[0].thread, a[0].action), a[1..], b);
    }
  }

  /** Thread `t` may use backtrace `b` for the first time, with `c` as its new context. */
  ghost predicate FirstUse(k: Config, s: State, t: nat, b: nat, c: nat)
  {
    && t in s.threads && s.threads[t].pc.Idle? && b !in s.threads[t].cache && b !in s.bt2ctx && c !in s.ctxs && c !in s.gone
    && |s.threads[t].cache| < k.tcmax
  }

  /** The context is there, its counter is not in the cache yet. */
  ghost function Halfway(s: State, t: nat, b: nat, c: nat): State
    requires t in s.threads
  {
    SetPc(SetCtx(s, c, Ctx(b, 1, 0)).(bt2ctx := s.bt2ctx[b := c]), t, HasCnt(Malloc, c, true))
  }

  ghost function Settled(s: State, t: nat, b: nat, c: nat): State
    requires t in s.threads
  {
    SetCtx(s, c, Ctx(b, 0, 0)).(bt2ctx := s.bt2ctx[b := c], links := s.links[(t, c) := 0],
                                threads := s.threads[t := Thread(s.threads[t].cache[b := c], Idle)])
  }

  function FirstHalf(t: nat, b: nat, c: nat): seq<Event>
  {
    [Event(t, StartMalloc(b)), Event(t, MissNew(c)), Event(t, AllocCnt)]
  }

  function SecondHalf(t: nat): seq<Event>
  {
    [Event(t, InsertCnt), Event(t, Link), Event(t, GiveUp)]
  }

  lemma HalfwayRun(k: Config, s: State, t: nat, b: nat, c: nat)
    requires FirstUse(k, s, t, b, c)
    ensures Run(k, s, FirstHalf(t, b, c)) == Reached(Halfway(s, t, b, c)) && CleanRun(k, s, FirstHalf(t, b, c))
  {
    hide Run, CleanRun;
    var e1, e2, e3 := Event(t, StartMalloc(b)), Event(t, MissNew(c)), Event(t, AllocCnt);
    var s1 := SetPc(s, t, Search(Malloc, b));
    var s2 := SetPc(SetCtx(s, c, Ctx(b, 1, 0)).(bt2ctx := s.bt2ctx[b := c]), t, HasCtx(Malloc, c, true));
    var s3 := Halfway(s, t, b, c);
    Then(k, s, e1, s1, [e2] + ([e3] + []));
    Then(k, s1, e2, s2, [e3] + []);
    Then(k, s2, e3, s3, []);
    Nothing(k, s3);
    assert FirstHalf(t, b, c) == [e1] + ([e2] + ([e3] + []));
  }

  lemma Nothing(k: Config, s: State)
    ensures Run(k, s, []) == Reached(s) && CleanRun(k, s, [])
  {
  }

  lemma InsertLeads(k: Config, s: State, t: nat)
    requires t in s.threads && s.threads[t].pc.HasCnt? && s.threads[t].pc.ctx in s.ctxs
    ensures var th, c := s.threads[t], s.threads[t].pc.ctx;
      Leads(k, s, Event(t, InsertCnt), s.(threads := s.threads[t := Thread(th.cache[s.ctxs[c].bt := c], Cached(th.pc.goal, c))]))
  {
  }

  lemma LinkLeads(k: Config, s: State, t: nat)
    requires t in s.threads && s.threads[t].pc.Cached? && s.threads[t].pc.ctx in s.ctxs && s.ctxs[s.threads[t].pc.ctx].nlimbo > 0
    ensures var pc := s.threads[t].pc; var ctx := s.ctxs[pc.ctx];
      Leads(k, s, Event(t, Link),
        SetPc(SetCtx(s, pc.ctx, ctx.(nlimbo := ctx.nlimbo - 1)).(links := s.links[(t, pc.ctx) := 0]), t, Ready(pc.goal, pc.ctx)))
  {
  }

  lemma GiveUpLeads(k: Config, s: State, t: nat)
    requires t in s.threads && s.threads[t].pc.Ready? && s.threads[t].pc.goal.Malloc?
    ensures Leads(k, s, Event(t, GiveUp), SetPc(s, t, Idle))
  {
  }

  lemma SettledRun(k: Config, s: State, t: nat, b: nat, c: nat)
    requires FirstUse(k, s, t, b, c)
    ensures Run(k, Halfway(s, t, b, c), SecondHalf(t)) == Reached(Settled(s, t, b, c))
    ensures CleanRun(k, Halfway(s, t, b, c), SecondHalf(t))
  {
    hide Run, CleanRun, Leads;
    var e1, e2, e3 := Event(t, InsertCnt), Event(t, Link), Event(t, GiveUp);
    var s0 := Halfway(s, t, b, c);
    var s1 := s0.(threads := s0.threads[t := Thread(s.threads[t].cache[b := c], Cached(Malloc, c))]);
    var s2 := SetPc(SetCtx(s1, c, Ctx(b, 0, 0)).(links := s.links[(t, c) := 0]), t, Ready(Malloc, c));
    var s3 := Settled(s, t, b, c);
    InsertLeads(k, s0, t);
    LinkLeads(k, s1, t);
    GiveUpLeads(k, s2, t);
    Then(k, s0, e1, s1, [e2] + ([e3] + []));
    Then(k, s1, e2, s2, [e3] + []);
    assert s3 == SetPc(s2, t, Idle);
    Then(k, s2, e3, s3, []);
    Nothing(k, s3);
    assert SecondHalf(t) == [e1] + ([e2] + ([e3] + []));
  }

  /** Thread 0 has used backtraces 0 to `n` - 1, with the contexts of the same numbers. */
  ghost function Filled(n: nat): (s: State)
    ensures 0 in s.threads && s.threads[0].pc.Idle? && s.objs == map[] && s.gone == {}
    ensures forall i: nat :: i in s.threads[0].cache <==> i < n
    ensures forall i: nat :: i in s.bt2ctx <==> i < n
    ensures forall i: nat :: i in s.ctxs <==> i < n
    ensures |s.threads[0].cache| == n && |s.bt2ctx| == n
  {
    if n == 0 then State(map[], map[], map[], map[0 := Thread(map[], Idle)], map[], {})
    else var m: nat := n - 1; Settled(Filled(m), 0, m, m)
  }

  function FillEvents(n: nat): seq<Event>
  {
    if n == 0 then [] else FillEvents(n - 1) + (FirstHalf(0, n - 1, n - 1) + SecondHalf(0))
  }

  lemma {:induction false} FillRun(k: Config, n: nat)
    requires n <= k.tcmax
    ensures Run(k, Filled(0), FillEvents(n)) == Reached(Filled(n)) && CleanRun(k, Filled(0), FillEvents(n))
  {
    hide Run, CleanRun, Halfway, Settled, FirstHalf, SecondHalf;
    if n == 0 {
      Nothing(k, Filled(0));
    } else {
      var m := n - 1;
      FillRun(k, m);
      HalfwayRun(k, Filled(m), 0, m, m);
      SettledRun(k, Filled(m), 0, m, m);
      RunConcat(k, Filled(m), FirstHalf(0, m, m), SecondHalf(0));
      RunConcat(k, Filled(0), FillEvents(m), FirstHalf(0, m, m) + SecondHalf(0));
    }
  }

  /**
   Four counters share a bucket of the cache, a fifth finds no place there, and the cache cannot grow.
   The lookup fails and frees the counter and its context.  The next sample of the same backtrace
   finds them and writes to them.
   */
  lemma FreedCounterUsed(k: Config)
    requires k.tcmax > 4
    ensures Initial(Filled(0))
    ensures var before := FillEvents(4) + FirstHalf(0, 4, 4);
      && CleanRun(k, Filled(0), before) && Run(k, Filled(0), before).Reached?
      && Run(k, Filled(0), before + ([Event(0, InsertOom(false, 0))] + ([Event(0, DestroyNew)] + ([Quit(0, Malloc)] + Again(0, 4, 7))))).Broken?
  {
    hide Run, CleanRun, Inv, FirstHalf, FillEvents, Again, Halfway, Settled, Filled;
    var s, a := Halfway(Filled(4), 0, 4, 4), InsertOom(false, 0);
    var before, after := FillEvents(4) + FirstHalf(0, 4, 4), [Event(0, DestroyNew)] + ([Quit(0, Malloc)] + Again(0, 4, 7));
    FillRun(k, 4);
    HalfwayRun(k, Filled(4), 0, 4, 4);
    RunConcat(k, Filled(0), FillEvents(4), FirstHalf(0, 4, 4));
    FilledStart();
    InitialInv(Filled(0));
    RunInv(k, Filled(0), before);
    RunConcat(k, Filled(0), before, [Event(0, a)] + after);
    CrowdedCache(k);
    FailedInsertIff(k, s, 0, a);
    DirtyBreaks(k, s, 0, a, 7);
    RunFirst(k, s, Event(0, a), after);
  }

  lemma FilledStart()
    ensures Initial(Filled(0))
  {
  }

  lemma CrowdedCache(k: Config)
    ensures var s, a := Halfway(Filled(4), 0, 4, 4), InsertOom(false, 0);
      Enabled(k, s, 0, a) && s.objs == map[] && Fails(s, 0, a) && Aftermath(s, 0, a, 7) == [Event(0, DestroyNew)] + ([Quit(0, Malloc)] + Again(0, 4, 7))
  {
    hide Filled;
  }

  /** The same with the global hash: the next lookup of the backtrace finds a context that is freed. */
  lemma FreedContextUsed(k: Config)
    requires k.tcmax > 4
    ensures Run(k, Filled(0), FillEvents(4) + ([Event(0, StartMalloc(4))] + ([Event(0, HashOom(4, false, 0))] +
      ([Quit(0, Malloc)] + [Event(0, StartMalloc(4)), Event(0, MissOld)])))).Broken?
  {
    hide Run, CleanRun, Inv, FillEvents, Settled, Filled;
    var s, a := SetPc(Filled(4), 0, Search(Malloc, 4)), HashOom(4, false, 0);
    var after := [Quit(0, Malloc)] + [Event(0, StartMalloc(4)), Event(0, MissOld)];
    FillRun(k, 4);
    FilledStart();
    InitialInv(Filled(0));
    RunInv(k, Filled(0), FillEvents(4));
    StepInv(k, Filled(4), 0, StartMalloc(4));
    RunConcat(k, Filled(0), FillEvents(4), [Event(0, StartMalloc(4))] + ([Event(0, a)] + after));
    RunFirst(k, Filled(4), Event(0, StartMalloc(4)), [Event(0, a)] + after);
    FailedInsertIff(k, s, 0, a);
    DirtyBreaks(k, s, 0, a, 7);
    RunFirst(k, s, Event(0, a), after);
  }
}
