/**
 Lists and key lists, as the broker's objects hold them (list.c, keylist.c), and what linking and
 unlinking one entry does to the relation they stand for.
 */
module Indices {

  /** One list per owner. */
  type Lists = map<nat, seq<nat>>

  /** One key list per owner: under each key a list. */
  type Keyed = map<nat, map<nat, seq<nat>>>

  ghost predicate NoDup(s: seq<nat>)
  {
    forall i, j :: 0 <= i < j < |s| ==> s[i] != s[j]
  }

  /** `list_delete_value`: the first occurrence goes. */
  function Remove(s: seq<nat>, x: nat): (r: seq<nat>)
  {
    if s == [] then [] else if s[0] == x then s[1..] else [s[0]] + Remove(s[1..], x)
  }

  lemma {:induction false} RemoveOne(s: seq<nat>, x: nat)
    requires NoDup(s)
    ensures NoDup(Remove(s, x)) && forall y :: y in Remove(s, x) <==> y in s && y != x
    ensures |Remove(s, x)| == |s| - if x in s then 1 else 0
    decreases |s|
  {
    if s != [] {
      assert s == [s[0]] + s[1..];
      assert forall i :: 0 <= i < |s| - 1 ==> s[1..][i] == s[i + 1];
      RemoveOne(s[1..], x);
      assert s[0] !in s[1..];
    }
  }

  lemma AppendOne(s: seq<nat>, x: nat)
    requires NoDup(s) && x !in s
    ensures NoDup(s + [x]) && forall y :: y in s + [x] <==> y in s || y == x
  {
  }

  /* --- Lists ------------------------------------------------------------------------- */

  ghost predicate In(l: Lists, a: nat, b: nat)
  {
    a in l && b in l[a]
  }

  function Len(l: Lists, a: nat): nat
  {
    if a in l then |l[a]| else 0
  }

  ghost predicate ListsOk(l: Lists)
  {
    forall a :: a in l ==> NoDup(l[a])
  }

  function Add(l: Lists, a: nat, b: nat): Lists
    requires a in l
  {
    l[a := l[a] + [b]]
  }

  function Drop(l: Lists, a: nat, b: nat): Lists
    requires a in l
  {
    l[a := Remove(l[a], b)]
  }

  lemma AddIn(l: Lists, a: nat, b: nat)
    requires a in l && ListsOk(l) && b !in l[a]
    ensures ListsOk(Add(l, a, b)) && Add(l, a, b).Keys == l.Keys
    ensures forall x, y :: In(Add(l, a, b), x, y) <==> In(l, x, y) || (x == a && y == b)
  {
    AppendOne(l[a], b);
  }

  lemma DropIn(l: Lists, a: nat, b: nat)
    requires a in l && ListsOk(l)
    ensures ListsOk(Drop(l, a, b)) && Drop(l, a, b).Keys == l.Keys
    ensures forall x, y :: In(Drop(l, a, b), x, y) <==> In(l, x, y) && !(x == a && y == b)
  {
    RemoveOne(l[a], b);
  }

  /* --- Key lists ------------------------------------------------------------------------ */

  ghost predicate Has(n: Keyed, a: nat, k: nat, b: nat)
  {
    a in n && k in n[a] && b in n[a][k]
  }

  /** No list under a key is empty or has an entry twice. */
  ghost predicate KeyedOk(n: Keyed)
  {
    forall a, k :: a in n && k in n[a] ==> n[a][k] != [] && NoDup(n[a][k])
  }

  function Put(m: map<nat, seq<nat>>, k: nat, s: seq<nat>): map<nat, seq<nat>>
  {
    m[k := s]
  }

  /** Find or make the list under the key; append unless it is there. */
  function Link(n: Keyed, a: nat, k: nat, b: nat): Keyed
    requires a in n
  {
    if k !in n[a] then n[a := Put(n[a], k, [b])]
    else if b in n[a][k] then n
    else n[a := Put(n[a], k, n[a][k] + [b])]
  }

  /** Delete from the list under the key; a key with nothing left goes too. */
  function Unlink(n: Keyed, a: nat, k: nat, b: nat): Keyed
    requires a in n
  {
    if k !in n[a] then n else
      var rest := Remove(n[a][k], b);
      if rest == [] then n[a := n[a] - {k}] else n[a := Put(n[a], k, rest)]
  }

  lemma LinkHas(n: Keyed, a: nat, k: nat, b: nat)
    requires a in n && KeyedOk(n)
    ensures KeyedOk(Link(n, a, k, b)) && Link(n, a, k, b).Keys == n.Keys
    ensures forall x, y, z :: Has(Link(n, a, k, b), x, y, z) <==> Has(n, x, y, z) || (x == a && y == k && z == b)
  {
    if k in n[a] && b !in n[a][k] {
      AppendOne(n[a][k], b);
    }
  }

  lemma UnlinkHas(n: Keyed, a: nat, k: nat, b: nat)
    requires a in n && KeyedOk(n)
    ensures KeyedOk(Unlink(n, a, k, b)) && Unlink(n, a, k, b).Keys == n.Keys
    ensures forall x, y, z :: Has(Unlink(n, a, k, b), x, y, z) <==> Has(n, x, y, z) && !(x == a && y == k && z == b)
    ensures Unlink(n, a, k, b)[a].Keys <= n[a].Keys
    ensures forall x :: x in n && x != a ==> Unlink(n, a, k, b)[x] == n[x]
  {
    if k in n[a] {
      RemoveOne(n[a][k], b);
    }
  }

  /** An owner has no keys exactly when nothing is linked under it. */
  lemma NoKeys(n: Keyed, a: nat)
    requires a in n && KeyedOk(n)
    ensures n[a] == map[] <==> forall k, b :: !Has(n, a, k, b)
  {
    if forall k, b :: !Has(n, a, k, b) {
      forall k ensures k !in n[a] {
        assert k in n[a] ==> Has(n, a, k, n[a][k][0]);
      }
      assert n[a] == map[];
    }
  }

  lemma FirstIn(l: Lists, a: nat)
    requires a in l
    ensures l[a] == [] ==> forall b :: !In(l, a, b)
    ensures l[a] != [] ==> In(l, a, l[a][0])
  {
  }

  lemma FirstHas(n: Keyed, a: nat, k: nat)
    requires a in n && KeyedOk(n)
    ensures k !in n[a] ==> forall b :: !Has(n, a, k, b)
    ensures k in n[a] ==> n[a][k] != [] && Has(n, a, k, n[a][k][0])
  {
  }

  /** Taking out or bringing in an owner that has nothing. */
  lemma OwnerIn(l: Lists, a: nat)
    requires ListsOk(l) && (a in l ==> l[a] == [])
    ensures ListsOk(l - {a}) && ListsOk(l[a := []])
    ensures forall x, y :: In(l - {a}, x, y) <==> In(l, x, y)
    ensures forall x, y :: In(l[a := []], x, y) <==> In(l, x, y)
  {
  }

  lemma OwnerHas(n: Keyed, a: nat)
    requires KeyedOk(n) && (a in n ==> n[a] == map[])
    ensures KeyedOk(n - {a}) && KeyedOk(n[a := map[]])
    ensures forall x, y, z :: Has(n - {a}, x, y, z) <==> Has(n, x, y, z)
    ensures forall x, y, z :: Has(n[a := map[]], x, y, z) <==> Has(n, x, y, z)
  {
  }

  lemma DropLength(l: Lists, a: nat, b: nat)
    requires ListsOk(l) && In(l, a, b)
    ensures |Drop(l, a, b)[a]| == |l[a]| - 1
  {
    RemoveOne(l[a], b);
  }

  /* --- Two lists for one relation ------------------------------------------------------------ */

  ghost predicate Mirror(l: Lists, m: Lists)
  {
    ListsOk(l) && ListsOk(m) && forall a, b :: In(l, a, b) <==> In(m, b, a)
  }

  /** As `l`, but for the pairs about `a` and `b`. */
  ghost predicate More(l: Lists, l': Lists, a: nat, b: nat)
  {
    l'.Keys == l.Keys && forall x, y :: In(l', x, y) <==> In(l, x, y) || (x == a && y == b)
  }

  ghost predicate Less(l: Lists, l': Lists, a: nat, b: nat)
  {
    l'.Keys == l.Keys && forall x, y :: In(l', x, y) <==> In(l, x, y) && !(x == a && y == b)
  }

  lemma MirrorAdd(l: Lists, m: Lists, a: nat, b: nat)
    requires Mirror(l, m) && a in l && b in m && b !in l[a]
    ensures Mirror(Add(l, a, b), Add(m, b, a)) && More(l, Add(l, a, b), a, b)
    ensures Add(l, a, b).Keys == l.Keys && Add(m, b, a).Keys == m.Keys
  {
    assert !In(l, a, b) && !In(m, b, a);
    AddIn(l, a, b);
    AddIn(m, b, a);
  }

  lemma MirrorDrop(l: Lists, m: Lists, a: nat, b: nat)
    requires Mirror(l, m) && a in l && b in m
    ensures Mirror(Drop(l, a, b), Drop(m, b, a)) && Less(l, Drop(l, a, b), a, b)
    ensures Drop(l, a, b).Keys == l.Keys && Drop(m, b, a).Keys == m.Keys
    ensures In(l, a, b) ==> Len(Drop(l, a, b), a) < Len(l, a) && Len(Drop(m, b, a), b) < Len(m, b)
  {
    DropIn(l, a, b);
    DropIn(m, b, a);
    if In(l, a, b) {
      DropLength(l, a, b);
      DropLength(m, b, a);
    }
  }

  /** A client's subscriptions, against a queue's two lists of subscribers. */
  ghost predicate SubMirror(s: Lists, m: Lists, n: Lists)
  {
    && ListsOk(s) && ListsOk(m) && ListsOk(n)
    && (forall c, q :: In(s, c, q) <==> In(m, q, c) || In(n, q, c))
    && (forall c, q :: In(m, q, c) ==> !In(n, q, c))
  }

  lemma SubAdd(s: Lists, m: Lists, n: Lists, c: nat, q: nat)
    requires SubMirror(s, m, n) && c in s && q in m && q in n && q !in s[c]
    ensures SubMirror(Add(s, c, q), Add(m, q, c), n) && SubMirror(Add(s, c, q), m, Add(n, q, c))
    ensures More(s, Add(s, c, q), c, q) && More(m, Add(m, q, c), q, c) && More(n, Add(n, q, c), q, c)
    ensures Add(s, c, q).Keys == s.Keys && Add(m, q, c).Keys == m.Keys && Add(n, q, c).Keys == n.Keys
  {
    assert !In(s, c, q);
    AddIn(s, c, q);
    AddIn(m, q, c);
    AddIn(n, q, c);
  }

  lemma SubDrop(s: Lists, m: Lists, n: Lists, c: nat, q: nat)
    requires SubMirror(s, m, n) && c in s && q in m && q in n
    ensures In(s, c, q) ==> Len(Drop(s, c, q), c) < Len(s, c)
    ensures Less(s, Drop(s, c, q), c, q)
    ensures Drop(s, c, q).Keys == s.Keys && Drop(m, q, c).Keys == m.Keys && Drop(n, q, c).Keys == n.Keys
    ensures c in m[q] ==> Len(Drop(m, q, c), q) < Len(m, q)
    ensures c in n[q] ==> c !in m[q] && Len(Drop(n, q, c), q) < Len(n, q)
    ensures c in m[q] ==> SubMirror(Drop(s, c, q), Drop(m, q, c), n)
    ensures c in n[q] ==> SubMirror(Drop(s, c, q), m, Drop(n, q, c))
    ensures c !in m[q] && c !in n[q] ==> SubMirror(Drop(s, c, q), m, n)
  {
    DropIn(s, c, q);
    DropIn(m, q, c);
    DropIn(n, q, c);
    RemoveOne(s[c], q);
    RemoveOne(m[q], c);
    RemoveOne(n[q], c);
    assert c in m[q] <==> In(m, q, c);
    assert c in n[q] <==> In(n, q, c);
  }

  /** Whoever subscribes has declared. */
  ghost predicate Within(s: Lists, d: Lists)
  {
    forall c, q :: In(s, c, q) ==> In(d, c, q)
  }

  lemma WithinAdd(s: Lists, s': Lists, d: Lists, d': Lists, c: nat, q: nat)
    requires Within(s, d)
    ensures More(s, s', c, q) && In(d, c, q) ==> Within(s', d)
    ensures More(d, d', c, q) ==> Within(s, d')
    ensures Less(s, s', c, q) ==> Within(s', d)
  {
  }

  /* --- Two key lists for one relation ---------------------------------------------------------- */

  /** route -> key -> queues, queue -> key -> routes. */
  ghost predicate KeyMirror(n: Keyed, m: Keyed)
  {
    KeyedOk(n) && KeyedOk(m) && forall a, k, b :: Has(n, a, k, b) <==> Has(m, b, k, a)
  }

  /** channel -> topic -> clients, client -> channel -> topics. */
  ghost predicate TopicMirror(n: Keyed, m: Keyed)
  {
    KeyedOk(n) && KeyedOk(m) && forall a, k, b :: Has(n, a, k, b) <==> Has(m, b, a, k)
  }

  ghost predicate Gains(n: Keyed, n': Keyed, a: nat, k: nat, b: nat)
  {
    n'.Keys == n.Keys && forall x, y, z :: Has(n', x, y, z) <==> Has(n, x, y, z) || (x == a && y == k && z == b)
  }

  ghost predicate Loses(n: Keyed, n': Keyed, a: nat, k: nat, b: nat)
  {
    n'.Keys == n.Keys && forall x, y, z :: Has(n', x, y, z) <==> Has(n, x, y, z) && !(x == a && y == k && z == b)
  }

  lemma KeyLink(n: Keyed, m: Keyed, a: nat, k: nat, b: nat)
    requires KeyMirror(n, m) && a in n && b in m
    ensures KeyMirror(Link(n, a, k, b), Link(m, b, k, a)) && Gains(n, Link(n, a, k, b), a, k, b)
    ensures Link(n, a, k, b).Keys == n.Keys && Link(m, b, k, a).Keys == m.Keys
  {
    LinkHas(n, a, k, b);
    LinkHas(m, b, k, a);
  }

  lemma KeyUnlink(n: Keyed, m: Keyed, a: nat, k: nat, b: nat)
    requires KeyMirror(n, m) && a in n && b in m
    ensures KeyMirror(Unlink(n, a, k, b), Unlink(m, b, k, a))
    ensures Loses(n, Unlink(n, a, k, b), a, k, b) && Loses(m, Unlink(m, b, k, a), b, k, a)
    ensures Unlink(n, a, k, b).Keys == n.Keys && Unlink(m, b, k, a).Keys == m.Keys
  {
    UnlinkHas(n, a, k, b);
    UnlinkHas(m, b, k, a);
  }

  lemma TopicLink(n: Keyed, m: Keyed, a: nat, k: nat, b: nat)
    requires TopicMirror(n, m) && a in n && b in m
    ensures TopicMirror(Link(n, a, k, b), Link(m, b, a, k)) && Gains(n, Link(n, a, k, b), a, k, b)
    ensures Link(n, a, k, b).Keys == n.Keys && Link(m, b, a, k).Keys == m.Keys
  {
    LinkHas(n, a, k, b);
    LinkHas(m, b, a, k);
  }

  lemma TopicUnlink(n: Keyed, m: Keyed, a: nat, k: nat, b: nat)
    requires TopicMirror(n, m) && a in n && b in m
    ensures TopicMirror(Unlink(n, a, k, b), Unlink(m, b, a, k))
    ensures Loses(n, Unlink(n, a, k, b), a, k, b) && Loses(m, Unlink(m, b, a, k), b, a, k)
    ensures Unlink(n, a, k, b).Keys == n.Keys && Unlink(m, b, a, k).Keys == m.Keys
  {
    UnlinkHas(n, a, k, b);
    UnlinkHas(m, b, a, k);
  }

  /* --- Owners that are in use ------------------------------------------------------------------- */

  ghost function Users(n: Keyed): set<nat>
  {
    set a | a in n && n[a] != map[]
  }

  ghost function ListUsers(l: Lists): set<nat>
  {
    set a | a in l && l[a] != []
  }

  /** Of the objects to be deleted automatically exactly those are gone that lost their last user. */
  ghost predicate Left(objs: map<nat, bool>, used: set<nat>, objs': map<nat, bool>, used': set<nat>)
  {
    && used' <= used
    && (forall x :: x in objs' <==> x in objs && !(objs[x] && x in used && x !in used'))
    && (forall x :: x in objs' ==> objs'[x] == objs[x])
  }

  lemma LeftSame(objs: map<nat, bool>, used: set<nat>)
    ensures Left(objs, used, objs, used)
  {
  }

  lemma LeftTrans(o0: map<nat, bool>, u0: set<nat>, o1: map<nat, bool>, u1: set<nat>, o2: map<nat, bool>, u2: set<nat>)
    requires Left(o0, u0, o1, u1) && Left(o1, u1, o2, u2)
    ensures Left(o0, u0, o2, u2)
  {
  }

  /** One owner `a` lost something, nothing else changed. */
  lemma LeftOne(objs: map<nat, bool>, used: set<nat>, used': set<nat>, a: nat)
    requires used - {a} <= used' <= used && a in objs
    ensures Left(objs, used, if objs[a] && a in used && a !in used' then objs - {a} else objs, used')
  {
  }

  /** The entries under one owner. */
  ghost function Pairs(n: Keyed, a: nat): set<(nat, nat)>
  {
    if a in n then set k, b | k in n[a] && b in n[a][k] :: (k, b) else {}
  }

  lemma PairsFewer(n: Keyed, n': Keyed, a: nat, k: nat, b: nat)
    requires Loses(n, n', a, k, b) && Has(n, a, k, b)
    ensures Pairs(n', a) == Pairs(n, a) - {(k, b)} && (k, b) in Pairs(n, a)
  {
    forall p: (nat, nat) ensures p in Pairs(n', a) <==> p in Pairs(n, a) && p != (k, b) {
      assert p in Pairs(n', a) <==> Has(n', a, p.0, p.1);
      assert p in Pairs(n, a) <==> Has(n, a, p.0, p.1);
    }
  }

  /** Unlinking under `a` changes only whether `a` is in use. */
  lemma UsersUnlink(n: Keyed, a: nat, k: nat, b: nat)
    requires a in n && KeyedOk(n)
    ensures Users(n) - {a} <= Users(Unlink(n, a, k, b)) <= Users(n)
    ensures a in Users(Unlink(n, a, k, b)) <==> Unlink(n, a, k, b)[a] != map[]
    ensures k in n[a] ==> a in Users(n)
    ensures k !in n[a] ==> Unlink(n, a, k, b) == n
  {
    UnlinkHas(n, a, k, b);
  }

  lemma UsersOwner(n: Keyed, a: nat)
    requires a in n ==> n[a] == map[]
    ensures Users(n - {a}) == Users(n) && Users(n[a := map[]]) == Users(n)
  {
  }

  /** What is left without the entries that name `b`. */
  ghost predicate Without(n: Keyed, n': Keyed, b: nat)
  {
    forall x, y, z :: Has(n', x, y, z) <==> Has(n, x, y, z) && z != b
  }

  /** Leaving out the owner `a` as well. */
  ghost predicate WithoutOwner(n: Keyed, n': Keyed, a: nat)
  {
    forall x, y, z :: Has(n', x, y, z) <==> Has(n, x, y, z) && x != a
  }

  ghost predicate SameHas(n: Keyed, n': Keyed)
  {
    forall x, y, z :: Has(n', x, y, z) <==> Has(n, x, y, z)
  }

  /** Owners apart, the one entry is gone. */
  ghost predicate Minus(n: Keyed, n': Keyed, a: nat, k: nat, b: nat)
  {
    forall x, y, z :: Has(n', x, y, z) <==> Has(n, x, y, z) && !(x == a && y == k && z == b)
  }

  lemma LosesMinus(n: Keyed, n': Keyed, n'': Keyed, a: nat, k: nat, b: nat)
    requires Loses(n, n', a, k, b)
    ensures Minus(n, n', a, k, b) && (SameHas(n', n'') ==> Minus(n, n'', a, k, b))
  {
    hide Has;
  }

  /** As before, but for the entries under the owner `a`. */
  ghost predicate SameBut(n: Keyed, n': Keyed, a: nat)
  {
    forall x, y, z :: x != a ==> (Has(n', x, y, z) <==> Has(n, x, y, z))
  }

  lemma SameButStart(n: Keyed, a: nat)
    ensures SameBut(n, n, a)
  {
  }

  lemma SameButNext(n: Keyed, n1: Keyed, n2: Keyed, a: nat, k: nat, b: nat)
    requires SameBut(n, n1, a) && (Loses(n1, n2, a, k, b) || Minus(n1, n2, a, k, b))
    ensures SameBut(n, n2, a)
  {
    hide Has;
  }

  lemma SameButEnd(n: Keyed, n1: Keyed, n2: Keyed, a: nat)
    requires SameBut(n, n1, a) && SameHas(n1, n2) && (a in n1 ==> n1[a] == map[])
    ensures WithoutOwner(n, n2, a)
  {
    assert forall y, z :: !Has(n1, a, y, z);
  }

  /** As before, but for the entries that name `b`. */
  ghost predicate SameButTarget(n: Keyed, n': Keyed, b: nat)
  {
    forall x, y, z :: z != b ==> (Has(n', x, y, z) <==> Has(n, x, y, z))
  }

  lemma TargetStart(n: Keyed, b: nat)
    ensures SameButTarget(n, n, b)
  {
  }

  lemma TargetNext(n: Keyed, n1: Keyed, n2: Keyed, a: nat, k: nat, b: nat)
    requires SameButTarget(n, n1, b) && Minus(n1, n2, a, k, b)
    ensures SameButTarget(n, n2, b)
  {
    hide Has;
  }

  lemma TargetEnd(n: Keyed, n1: Keyed, m1: Keyed, b: nat)
    requires SameButTarget(n, n1, b) && b in m1 && m1[b] == map[]
    requires KeyMirror(n1, m1) || TopicMirror(n1, m1)
    ensures Without(n, n1, b)
  {
    assert forall y, z :: !Has(m1, b, y, z);
  }

  /** The same for lists. */
  ghost predicate ListBut(l: Lists, l': Lists, b: nat)
  {
    forall x, y :: y != b ==> (In(l', x, y) <==> In(l, x, y))
  }

  ghost predicate ListWithout(l: Lists, l': Lists, b: nat)
  {
    forall x, y :: In(l', x, y) <==> In(l, x, y) && y != b
  }

  ghost predicate ListWithoutOwner(l: Lists, l': Lists, a: nat)
  {
    forall x, y :: In(l', x, y) <==> In(l, x, y) && x != a
  }

  ghost predicate SameIn(l: Lists, l': Lists)
  {
    forall x, y :: In(l', x, y) <==> In(l, x, y)
  }

  lemma ListStart(l: Lists, b: nat)
    ensures ListBut(l, l, b)
  {
  }

  lemma ListNext(l: Lists, l1: Lists, l2: Lists, a: nat, b: nat)
    requires ListBut(l, l1, b) && Less(l1, l2, a, b)
    ensures ListBut(l, l2, b)
  {
    hide In;
  }

  lemma ListEnd(l: Lists, l1: Lists, m1: Lists, b: nat)
    requires ListBut(l, l1, b) && Mirror(l1, m1) && b in m1 && m1[b] == []
    ensures ListWithout(l, l1, b)
  {
    FirstIn(m1, b);
  }

  lemma SubEnd(l: Lists, l1: Lists, m1: Lists, n1: Lists, b: nat)
    requires ListBut(l, l1, b) && SubMirror(l1, m1, n1) && b in m1 && b in n1 && m1[b] == [] && n1[b] == []
    ensures ListWithout(l, l1, b)
  {
    FirstIn(m1, b);
    FirstIn(n1, b);
  }

  lemma WithinWithout(s: Lists, d: Lists, s': Lists, d': Lists, b: nat)
    requires Within(s, d) && ListWithout(s, s', b) && ListWithout(d, d', b)
    ensures Within(s', d')
  {
    hide In;
  }

  /** Owners with nothing come and go without a trace. */
  lemma MirrorOwner(l: Lists, m: Lists, a: nat)
    requires Mirror(l, m) && (a in l ==> l[a] == [])
    ensures Mirror(l - {a}, m) && Mirror(l[a := []], m)
  {
    OwnerIn(l, a);
  }

  lemma MirrorOwner2(l: Lists, m: Lists, b: nat)
    requires Mirror(l, m) && (b in m ==> m[b] == [])
    ensures Mirror(l, m - {b}) && Mirror(l, m[b := []])
  {
    OwnerIn(m, b);
  }

  lemma SubSame(s: Lists, m: Lists, n: Lists, s': Lists, m': Lists, n': Lists)
    requires SubMirror(s, m, n) && SameIn(s, s') && SameIn(m, m') && SameIn(n, n') && ListsOk(s') && ListsOk(m') && ListsOk(n')
    ensures SubMirror(s', m', n')
  {
    hide In, ListsOk;
  }

  lemma SubOwner(s: Lists, m: Lists, n: Lists, q: nat)
    requires SubMirror(s, m, n) && (q in m ==> m[q] == []) && (q in n ==> n[q] == [])
    ensures SubMirror(s, m - {q}, n - {q}) && SubMirror(s, m[q := []], n[q := []])
  {
    OwnerIn(m, q);
    OwnerIn(n, q);
    SubSame(s, m, n, s, m - {q}, n - {q});
    SubSame(s, m, n, s, m[q := []], n[q := []]);
  }

  lemma SubOwner1(s: Lists, m: Lists, n: Lists, c: nat)
    requires SubMirror(s, m, n) && (c in s ==> s[c] == [])
    ensures SubMirror(s - {c}, m, n) && SubMirror(s[c := []], m, n)
  {
    OwnerIn(s, c);
    SubSame(s, m, n, s - {c}, m, n);
    SubSame(s, m, n, s[c := []], m, n);
  }

  lemma KeyOwner(n: Keyed, m: Keyed, a: nat)
    requires KeyMirror(n, m) && (a in n ==> n[a] == map[])
    ensures KeyMirror(n - {a}, m) && KeyMirror(n[a := map[]], m) && SameHas(n, n - {a}) && SameHas(n, n[a := map[]])
    ensures Users(n - {a}) == Users(n)
  {
    OwnerHas(n, a);
    UsersOwner(n, a);
  }

  lemma KeyOwner2(n: Keyed, m: Keyed, b: nat)
    requires KeyMirror(n, m) && (b in m ==> m[b] == map[])
    ensures KeyMirror(n, m - {b}) && KeyMirror(n, m[b := map[]])
  {
    OwnerHas(m, b);
  }

  lemma TopicOwner(n: Keyed, m: Keyed, a: nat)
    requires TopicMirror(n, m) && (a in n ==> n[a] == map[])
    ensures TopicMirror(n - {a}, m) && TopicMirror(n[a := map[]], m) && SameHas(n, n - {a}) && SameHas(n, n[a := map[]])
    ensures Users(n - {a}) == Users(n)
  {
    OwnerHas(n, a);
    UsersOwner(n, a);
  }

  lemma TopicOwner2(n: Keyed, m: Keyed, b: nat)
    requires TopicMirror(n, m) && (b in m ==> m[b] == map[])
    ensures TopicMirror(n, m - {b}) && TopicMirror(n, m[b := map[]])
  {
    OwnerHas(m, b);
  }

  /** Some element of a set of keys, while there is one. */
  method SomeKey(ks: set<nat>) returns (found: bool, k: nat)
    ensures !found ==> ks == {}
    ensures found ==> k in ks
  {
    if ks == {} {
      return false, 0;
    }
    k :| k in ks;
    found := true;
  }

  ghost function Elems(l: Lists, a: nat): set<nat>
  {
    if a in l then set b | b in l[a] else {}
  }

  lemma ElemsFewer(l: Lists, l': Lists, a: nat, b: nat)
    requires Less(l, l', a, b) && In(l, a, b)
    ensures Elems(l', a) == Elems(l, a) - {b} && b in Elems(l, a)
  {
    forall y ensures y in Elems(l', a) <==> y in Elems(l, a) && y != b {
      assert y in Elems(l', a) <==> In(l', a, y);
      assert y in Elems(l, a) <==> In(l, a, y);
    }
  }

  /** As before, but for the list of the owner `a`. */
  ghost predicate OwnerBut(l: Lists, l': Lists, a: nat)
  {
    forall x, y :: x != a ==> (In(l', x, y) <==> In(l, x, y))
  }

  lemma OwnerStart(l: Lists, a: nat)
    ensures OwnerBut(l, l, a)
  {
  }

  lemma OwnerNext(l: Lists, l1: Lists, l2: Lists, a: nat, b: nat)
    requires OwnerBut(l, l1, a)
    ensures Less(l1, l2, a, b) ==> OwnerBut(l, l2, a)
    ensures SameIn(l1, l2) ==> OwnerBut(l, l2, a)
  {
    hide In;
  }

  lemma OwnerEnd(l: Lists, l1: Lists, l2: Lists, a: nat)
    requires OwnerBut(l, l1, a) && SameIn(l1, l2) && (a in l1 ==> l1[a] == [])
    ensures ListWithoutOwner(l, l2, a)
  {
    assert forall y :: !In(l1, a, y);
  }

  /** Taking out a target nobody has leaves the lists as they are. */
  lemma NobodyHas(l: Lists, l': Lists, m: Lists, b: nat)
    requires ListWithout(l, l', b) && Mirror(l, m) && b in m && m[b] == []
    ensures SameIn(l, l')
  {
    assert forall x :: !In(m, b, x);
  }

  lemma NobodySubscribes(s: Lists, s': Lists, d: Lists, m: Lists, b: nat)
    requires ListWithout(s, s', b) && Within(s, d) && Mirror(d, m) && b in m && m[b] == []
    ensures SameIn(s, s')
  {
    assert forall x :: !In(m, b, x);
  }

  lemma UsersIn(l: Lists, a: nat)
    ensures a in ListUsers(l) <==> exists b :: In(l, a, b)
  {
    if a in l && l[a] != [] {
      assert In(l, a, l[a][0]);
    }
  }

  lemma MirrorUsers(l: Lists, m: Lists, l': Lists, m': Lists)
    requires Mirror(l, m) && Mirror(l', m') && SameIn(l, l')
    ensures ListUsers(m') == ListUsers(m)
  {
    forall a ensures a in ListUsers(m') <==> a in ListUsers(m) {
      UsersIn(m, a);
      UsersIn(m', a);
      assert forall b :: In(m', a, b) <==> In(m, a, b);
    }
  }

  lemma MirrorUsersLess(l: Lists, m: Lists, l': Lists, m': Lists, a: nat, b: nat)
    requires Mirror(l, m) && Mirror(l', m') && Less(l, l', a, b) && In(l, a, b) && b in m'
    ensures ListUsers(m) - {b} <= ListUsers(m') <= ListUsers(m) && b in ListUsers(m)
    ensures b in ListUsers(m') <==> m'[b] != []
  {
    forall x ensures x in ListUsers(m') ==> x in ListUsers(m) {
      UsersIn(m, x);
      UsersIn(m', x);
      assert forall y :: In(m', x, y) ==> In(m, x, y);
    }
    forall x | x != b && x in ListUsers(m) ensures x in ListUsers(m') {
      UsersIn(m, x);
      UsersIn(m', x);
      assert forall y :: In(m, x, y) ==> In(m', x, y);
    }
    UsersIn(m, b);
    assert In(m, b, a);
  }

  /** The entries whose target is still there. */
  ghost predicate Kept(n: Keyed, n': Keyed, targets: set<nat>)
  {
    forall x, y, z :: Has(n', x, y, z) <==> Has(n, x, y, z) && z in targets
  }

  lemma KeptNext(n: Keyed, n1: Keyed, n2: Keyed, targets: set<nat>, b: nat)
    requires Kept(n, n1, targets) && Without(n1, n2, b)
    ensures Kept(n, n2, targets - {b})
  {
    hide Has;
  }

  lemma SameHasTrans(n0: Keyed, n1: Keyed, n2: Keyed, b: nat)
    requires SameHas(n1, n2)
    ensures SameHas(n0, n1) ==> SameHas(n0, n2)
    ensures Without(n0, n1, b) ==> Without(n0, n2, b)
  {
    hide Has;
  }
}
