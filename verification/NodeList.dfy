/**
 The doubly linked queue of EagleMQ (`queue.c`), node by node.

 A pointer is a number and `NULL` is 0; `nodes` is the memory of the nodes that are allocated.  An
 allocation may return any address that is not in use, a freed one too.  `Pop` frees the tail and
 leaves the pointer to it in the new tail's `next`; `Purge` leaves `head` and `tail` as they were.
 `View` says what the list is to its callers: its values and whether such a pointer is left over.
 */
module NodeList {

  import opened Basics

  const NULL: nat := 0

  datatype Node<T> = Node(prev: nat, next: nat, value: T)

  /** `stale`: `next` of the tail is not `NULL`, or the tail of an empty list is not. */
  datatype View<T> = View(items: seq<T>, stale: bool)

  function AddedHead<T>(v: View<T>, x: T): View<T>
  {
    View([x] + v.items, v.stale && v.items != [])
  }

  function AddedTail<T>(v: View<T>, x: T): View<T>
  {
    View(v.items + [x], false)
  }

  function Popped<T>(v: View<T>): View<T>
    requires v.items != []
  {
    View(v.items[..|v.items| - 1], |v.items| > 1)
  }

  function Purged<T>(v: View<T>): View<T>
  {
    View([], v.stale || v.items != [])
  }

  function Cut<T>(v: View<T>, i: nat): View<T>
    requires i < |v.items|
  {
    View(v.items[..i] + v.items[i + 1..], v.stale)
  }

  /** Deleting the node at `i` would follow the pointer that is left over. */
  predicate Hazard<T>(v: View<T>, i: nat)
  {
    v.stale && i == |v.items| - 1
  }

  /* --- A chain of nodes ------------------------------------------------------------------- */

  function Last(s: seq<nat>): nat
    requires s != []
  {
    s[|s| - 1]
  }

  function Before(sp: seq<nat>, i: nat): nat
    requires i < |sp|
  {
    if i == 0 then NULL else sp[i - 1]
  }

  /** The node at `i` points to its neighbours; what the tail's `next` holds is left open. */
  ghost predicate At<T>(nodes: map<nat, Node<T>>, sp: seq<nat>, i: nat)
    requires i < |sp|
  {
    && sp[i] in nodes && nodes[sp[i]].prev == Before(sp, i)
    && (i + 1 < |sp| ==> nodes[sp[i]].next == sp[i + 1])
  }

  ghost predicate Distinct(sp: seq<nat>)
  {
    forall i, j :: 0 <= i < j < |sp| ==> sp[i] != sp[j]
  }

  /** The nodes are `sp`, from the head to the tail. */
  ghost predicate Chain<T>(nodes: map<nat, Node<T>>, sp: seq<nat>)
  {
    && NULL !in nodes && |nodes| == |sp| && Distinct(sp)
    && (forall i :: 0 <= i < |sp| ==> At(nodes, sp, i))
    && (sp != [] ==> At(nodes, sp, |sp| - 1) && nodes[Last(sp)].next != Last(sp))
  }

  ghost function Values<T>(nodes: map<nat, Node<T>>, sp: seq<nat>): (s: seq<T>)
    requires forall i :: 0 <= i < |sp| ==> At(nodes, sp, i)
    ensures |s| == |sp|
  {
    seq(|sp|, i requires 0 <= i < |sp| => assert At(nodes, sp, i); nodes[sp[i]].value)
  }

  ghost predicate Loose<T>(nodes: map<nat, Node<T>>, sp: seq<nat>, tail: nat)
    requires Chain(nodes, sp)
  {
    if sp == [] then tail != NULL else nodes[Last(sp)].next != NULL
  }

  function WithHead<T>(nodes: map<nat, Node<T>>, head: nat, p: nat, x: T): map<nat, Node<T>>
    requires head in nodes
  {
    nodes[p := Node(NULL, head, x)][head := nodes[head].(prev := p)]
  }

  function WithTail<T>(nodes: map<nat, Node<T>>, tail: nat, p: nat, x: T): map<nat, Node<T>>
    requires tail in nodes
  {
    nodes[p := Node(tail, NULL, x)][tail := nodes[tail].(next := p)]
  }

  lemma Neighbours<T>(nodes: map<nat, Node<T>>, sp: seq<nat>, i: nat)
    requires Chain(nodes, sp) && i < |sp|
    ensures At(nodes, sp, i) && var n := nodes[sp[i]];
      && (n.prev in nodes <==> n.prev != NULL) && n.prev != sp[i] && n.next != sp[i]
      && (i + 1 < |sp| ==> n.next in nodes && n.next != NULL && nodes[n.next].prev == sp[i])
      && (n.prev == NULL <==> i == 0) && (i > 0 ==> n.prev in nodes && nodes[n.prev].next == sp[i])
  {
    assert At(nodes, sp, i);
    if i > 0 {
      var k := i - 1;
      assert At(nodes, sp, k);
    }
    if i + 1 < |sp| {
      var k := i + 1;
      assert At(nodes, sp, k);
    }
  }

  lemma NotInChain<T>(nodes: map<nat, Node<T>>, sp: seq<nat>, p: nat)
    requires Chain(nodes, sp) && p !in nodes
    ensures p !in sp
  {
    forall i | 0 <= i < |sp| ensures sp[i] != p {
      Neighbours(nodes, sp, i);
    }
  }

  lemma OneNode<T>(nodes: map<nat, Node<T>>, p: nat, x: T)
    requires Chain(nodes, []) && p != NULL
    ensures Chain(nodes[p := Node(NULL, NULL, x)], [p]) && Values(nodes[p := Node(NULL, NULL, x)], [p]) == [x]
    ensures !Loose(nodes[p := Node(NULL, NULL, x)], [p], p)
  {
    assert At(nodes[p := Node(NULL, NULL, x)], [p], 0);
  }

  lemma HeadChain<T>(nodes: map<nat, Node<T>>, sp: seq<nat>, p: nat, x: T, tail: nat)
    requires Chain(nodes, sp) && sp != [] && p != NULL && p !in nodes
    ensures sp[0] in nodes && Chain(WithHead(nodes, sp[0], p, x), [p] + sp)
    ensures Values(WithHead(nodes, sp[0], p, x), [p] + sp) == [x] + Values(nodes, sp)
    ensures Loose(WithHead(nodes, sp[0], p, x), [p] + sp, tail) <==> Loose(nodes, sp, tail)
  {
    Neighbours(nodes, sp, 0);
    var n, s := WithHead(nodes, sp[0], p, x), [p] + sp;
    assert At(n, s, 0);
    forall i | 1 <= i < |s|
      ensures At(n, s, i) && s[i] == sp[i - 1] && s[i] != p && n[s[i]] == nodes[s[i]].(prev := s[i - 1])
    {
      Neighbours(nodes, sp, i - 1);
    }
    NotInChain(nodes, sp, p);
    DistinctHead(sp, p);
  }

  lemma TailChain<T>(nodes: map<nat, Node<T>>, sp: seq<nat>, p: nat, x: T)
    requires Chain(nodes, sp) && sp != [] && p != NULL && p !in nodes
    ensures Last(sp) in nodes && Chain(WithTail(nodes, Last(sp), p, x), sp + [p])
    ensures Values(WithTail(nodes, Last(sp), p, x), sp + [p]) == Values(nodes, sp) + [x]
    ensures !Loose(WithTail(nodes, Last(sp), p, x), sp + [p], p)
  {
    Neighbours(nodes, sp, |sp| - 1);
    var n, s := WithTail(nodes, Last(sp), p, x), sp + [p];
    forall i | 0 <= i < |s|
      ensures At(n, s, i) && (i < |sp| ==> sp[i] != p && n[s[i]] == nodes[sp[i]].(next := s[i + 1]))
    {
      if i < |sp| {
        Neighbours(nodes, sp, i);
      }
    }
    NotInChain(nodes, sp, p);
    DistinctTail(sp, p);
  }

  lemma DistinctHead(sp: seq<nat>, p: nat)
    requires Distinct(sp) && p !in sp
    ensures Distinct([p] + sp)
  {
    var s := [p] + sp;
    forall i, j | 0 <= i < j < |s| ensures s[i] != s[j] {
      assert s[j] == sp[j - 1];
      assert i > 0 ==> s[i] == sp[i - 1];
    }
  }

  lemma DistinctTail(sp: seq<nat>, p: nat)
    requires Distinct(sp) && p !in sp
    ensures Distinct(sp + [p])
  {
    var s := sp + [p];
    forall i, j | 0 <= i < j < |s| ensures s[i] != s[j] {
      assert s[i] == sp[i];
      assert j < |sp| ==> s[j] == sp[j];
    }
  }

  lemma DistinctCut(sp: seq<nat>, i: nat)
    requires Distinct(sp) && i < |sp|
    ensures Distinct(sp[..i] + sp[i + 1..])
  {
    var s := sp[..i] + sp[i + 1..];
    forall j, k | 0 <= j < k < |s| ensures s[j] != s[k] {
      assert s[j] == sp[Skip(i, j)] && s[k] == sp[Skip(i, k)];
    }
  }

  /** The new tail still points to the node that is freed. */
  lemma PopChain<T>(nodes: map<nat, Node<T>>, sp: seq<nat>)
    requires Chain(nodes, sp) && sp != []
    ensures At(nodes, sp, |sp| - 1) && var n, s, prev := nodes - {Last(sp)}, sp[..|sp| - 1], nodes[Last(sp)].prev;
      && Chain(n, s) && Values(n, s) == Values(nodes, sp)[..|s|] && (s != [] ==> prev == Last(s))
      && (Loose(n, s, prev) <==> s != [])
  {
    hide Distinct, At, Values;
    var n, s := nodes - {Last(sp)}, sp[..|sp| - 1];
    PopAt(nodes, sp);
    PopValues(nodes, sp);
  }

  lemma PopAt<T>(nodes: map<nat, Node<T>>, sp: seq<nat>)
    requires Chain(nodes, sp) && sp != []
    ensures At(nodes, sp, |sp| - 1) && Last(sp) in nodes && var n, s, prev := nodes - {Last(sp)}, sp[..|sp| - 1], nodes[Last(sp)].prev;
      && NULL !in n && |n| == |s| && Distinct(s) && (s == [] ==> prev == NULL)
      && (s != [] ==> prev == Last(s) && Last(s) in n && n[Last(s)].next != NULL && n[Last(s)].next != Last(s))
  {
    var s := sp[..|sp| - 1];
    Neighbours(nodes, sp, |sp| - 1);
    if s != [] {
      Neighbours(nodes, sp, |s| - 1);
    }
  }

  lemma PopValues<T>(nodes: map<nat, Node<T>>, sp: seq<nat>)
    requires Chain(nodes, sp) && sp != []
    ensures At(nodes, sp, |sp| - 1) && var n, s := nodes - {Last(sp)}, sp[..|sp| - 1];
      (forall i :: 0 <= i < |s| ==> At(n, s, i)) && Values(n, s) == Values(nodes, sp)[..|s|]
  {
    var n, s := nodes - {Last(sp)}, sp[..|sp| - 1];
    assert At(nodes, sp, |sp| - 1);
    forall i | 0 <= i < |s| ensures At(n, s, i) && n[s[i]] == nodes[sp[i]] {
      Neighbours(nodes, sp, i);
    }
  }

  /** Taking out node `p` by its own pointers. */
  function Unlinked<T>(nodes: map<nat, Node<T>>, p: nat): map<nat, Node<T>>
    requires p in nodes
  {
    var n := nodes[p];
    var m := if n.prev in nodes then nodes[n.prev := nodes[n.prev].(next := n.next)] else nodes;
    (if n.next in m then m[n.next := m[n.next].(prev := n.prev)] else m) - {p}
  }

  function Skip(i: nat, j: nat): nat
  {
    if j < i then j else j + 1
  }

  lemma CutAt<T>(nodes: map<nat, Node<T>>, sp: seq<nat>, i: nat, j: nat)
    requires Chain(nodes, sp) && i < |sp| && sp[i] in nodes && j + 1 < |sp| && (i + 1 == |sp| ==> nodes[sp[i]].next == NULL)
    ensures var n, s, k := Unlinked(nodes, sp[i]), sp[..i] + sp[i + 1..], Skip(i, j);
      && s[j] == sp[k] && At(n, s, j) && k < |sp| && sp[k] in nodes && n[s[j]].value == nodes[sp[k]].value
      && (j + 1 == |s| ==> n[s[j]].next == nodes[Last(sp)].next)
  {
    Neighbours(nodes, sp, i);
    Neighbours(nodes, sp, Skip(i, j));
  }

  lemma CutChain<T>(nodes: map<nat, Node<T>>, sp: seq<nat>, i: nat)
    requires Chain(nodes, sp) && i < |sp| && sp[i] in nodes && (i + 1 == |sp| ==> nodes[sp[i]].next == NULL)
    ensures var n, s := Unlinked(nodes, sp[i]), sp[..i] + sp[i + 1..];
      Chain(n, s) && Values(n, s) == Values(nodes, sp)[..i] + Values(nodes, sp)[i + 1..]
    ensures var n, s := Unlinked(nodes, sp[i]), sp[..i] + sp[i + 1..];
      s != [] ==> Last(s) in n && Last(sp) in nodes && n[Last(s)].next == nodes[Last(sp)].next
  {
    hide Unlinked, At, Distinct, Skip, Values;
    var n, s := Unlinked(nodes, sp[i]), sp[..i] + sp[i + 1..];
    CutSize(nodes, sp, i);
    CutRest(nodes, sp, i);
    CutEnd(nodes, sp, i);
    DistinctCut(sp, i);
    CutValues(nodes, sp, i);
  }

  lemma CutSize<T>(nodes: map<nat, Node<T>>, sp: seq<nat>, i: nat)
    requires Chain(nodes, sp) && i < |sp| && sp[i] in nodes
    ensures NULL !in Unlinked(nodes, sp[i]) && |Unlinked(nodes, sp[i])| == |sp| - 1
  {
    Neighbours(nodes, sp, i);
  }

  lemma CutEnd<T>(nodes: map<nat, Node<T>>, sp: seq<nat>, i: nat)
    requires Chain(nodes, sp) && i < |sp| && sp[i] in nodes && (i + 1 == |sp| ==> nodes[sp[i]].next == NULL)
    ensures var n, s := Unlinked(nodes, sp[i]), sp[..i] + sp[i + 1..];
      s != [] ==> Last(s) in n && Last(sp) in nodes && n[Last(s)].next == nodes[Last(sp)].next && n[Last(s)].next != Last(s)
  {
    hide Unlinked;
    if |sp| > 1 {
      CutAt(nodes, sp, i, |sp| - 2);
      DistinctCut(sp, i);
    }
  }

  lemma CutValues<T>(nodes: map<nat, Node<T>>, sp: seq<nat>, i: nat)
    requires Chain(nodes, sp) && i < |sp| && sp[i] in nodes && (i + 1 == |sp| ==> nodes[sp[i]].next == NULL)
    ensures var n, s := Unlinked(nodes, sp[i]), sp[..i] + sp[i + 1..];
      (forall j :: 0 <= j < |s| ==> At(n, s, j)) && Values(n, s) == Values(nodes, sp)[..i] + Values(nodes, sp)[i + 1..]
  {
    hide Unlinked, Distinct;
    CutRest(nodes, sp, i);
    var n, s := Unlinked(nodes, sp[i]), sp[..i] + sp[i + 1..];
    var v, w := Values(n, s), Values(nodes, sp);
    forall j | 0 <= j < |s| ensures v[j] == (w[..i] + w[i + 1..])[j] {
      assert At(n, s, j) && At(nodes, sp, Skip(i, j));
    }
  }

  lemma CutRest<T>(nodes: map<nat, Node<T>>, sp: seq<nat>, i: nat)
    requires Chain(nodes, sp) && i < |sp| && sp[i] in nodes && (i + 1 == |sp| ==> nodes[sp[i]].next == NULL)
    ensures var n, s := Unlinked(nodes, sp[i]), sp[..i] + sp[i + 1..];
      forall j :: 0 <= j < |s| ==> At(n, s, j) && s[j] == sp[Skip(i, j)] && Skip(i, j) < |sp| && At(nodes, sp, Skip(i, j)) && n[s[j]].value == nodes[s[j]].value
  {
    var s := sp[..i] + sp[i + 1..];
    forall j | 0 <= j < |s|
      ensures var n := Unlinked(nodes, sp[i]);
        At(n, s, j) && s[j] == sp[Skip(i, j)] && Skip(i, j) < |sp| && At(nodes, sp, Skip(i, j)) && n[s[j]].value == nodes[s[j]].value
    {
      CutAt(nodes, sp, i, j);
      Neighbours(nodes, sp, Skip(i, j));
    }
  }

  /* --- The list -------------------------------------------------------------------------- */

  class List<T> {
    var head: nat
    var tail: nat
    var len: nat
    var nodes: map<nat, Node<T>>
    /** Something was written to through a pointer to a node that is not allocated. */
    var wild: bool
    ghost var spine: seq<nat>

    /** The list can be read as the nodes `sp`. */
    ghost predicate Reads(sp: seq<nat>)
      reads this
    {
      Chain(nodes, sp) && len == |sp| && (sp != [] ==> head == sp[0] && tail == Last(sp))
    }

    ghost predicate Valid()
      reads this
    {
      !wild && Reads(spine)
    }

    ghost function Now(): View<T>
      reads this
      requires Valid()
    {
      View(Values(nodes, spine), Loose(nodes, spine, tail))
    }

    constructor ()
      ensures Valid() && Now() == View([], false)
    {
      head, tail, len, nodes, wild, spine := NULL, NULL, 0, map[], false, [];
    }

    /** `queue_push_value_head`, with the address `p` from the allocator. */
    method PushHead(x: T, p: nat)
      requires Valid() && p != NULL && p !in nodes
      modifies this
      ensures Valid() && Now() == AddedHead(old(Now()), x)
    {
      hide Chain, Values, Loose, WithHead;
      if len == 0 {
        OneNode(nodes, p, x);
        head, tail := p, p;
        nodes := nodes[p := Node(NULL, NULL, x)];
        spine := [p];
      } else {
        HeadChain(nodes, spine, p, x, tail);
        nodes := WithHead(nodes, head, p, x);
        head := p;
        spine := [p] + spine;
      }
      len := len + 1;
    }

    /** `queue_push_value_tail`. */
    method PushTail(x: T, p: nat)
      requires Valid() && p != NULL && p !in nodes
      modifies this
      ensures Valid() && Now() == AddedTail(old(Now()), x)
    {
      hide Chain, Values, Loose, WithTail;
      if len == 0 {
        OneNode(nodes, p, x);
        head, tail := p, p;
        nodes := nodes[p := Node(NULL, NULL, x)];
        spine := [p];
      } else {
        TailChain(nodes, spine, p, x);
        nodes := WithTail(nodes, tail, p, x);
        tail := p;
        spine := spine + [p];
      }
      len := len + 1;
    }

    /** `queue_get_value`. */
    method Get() returns (o: Option<T>)
      requires Valid()
      ensures var s := Now().items; o == if s == [] then None else Some(s[|s| - 1])
    {
      if len == 0 {
        return None;
      }
      Neighbours(nodes, spine, len - 1);
      return Some(nodes[tail].value);
    }

    /** `queue_pop_value`. */
    method Pop() returns (o: Option<T>)
      requires Valid()
      modifies this
      ensures Valid() && var v := old(Now());
        if v.items == [] then o == None && Now() == v else o == Some(v.items[|v.items| - 1]) && Now() == Popped(v)
    {
      hide Chain, Loose;
      if len == 0 {
        return None;
      }
      Neighbours(nodes, spine, len - 1);
      PopChain(nodes, spine);
      o := Some(nodes[tail].value);
      var prev := nodes[tail].prev;
      nodes := nodes - {tail};
      tail := prev;
      len := len - 1;
      spine := spine[..|spine| - 1];
    }

    /** `queue_purge`: the nodes are freed one by one from the head. */
    method Purge()
      requires Valid()
      modifies this
      ensures Valid() && Now() == Purged(old(Now()))
    {
      hide Values;
      ghost var sp, was := spine, nodes;
      forall i | 0 <= i < |sp| ensures sp[i] in nodes {
        Neighbours(nodes, sp, i);
      }
      var current, n := head, len;
      while n > 0
        invariant 0 <= n <= |sp| == len && tail == old(tail) && !wild
        invariant n > 0 ==> current == sp[|sp| - n]
        invariant NULL !in nodes && |nodes| == n
        invariant forall i :: |sp| - n <= i < |sp| ==> sp[i] in nodes && sp[i] in was && nodes[sp[i]] == was[sp[i]]
      {
        Neighbours(was, sp, |sp| - n);
        var next := nodes[current].next;
        nodes := nodes - {current};
        current := next;
        n := n - 1;
      }
      len := 0;
      spine := [];
    }

    /**
     `queue_delete_node` for the node `p` at position `i`.  If it is the tail, and its `next` is left
     over, something is written to through a freed node, or the list cannot be read any more: its tail
     is the node that is now freed.
     */
    method Delete(p: nat, ghost i: nat)
      requires Valid() && i < |spine| && p == spine[i]
      modifies this
      ensures !old(Hazard(Now(), i)) ==> Valid() && Now() == Cut(old(Now()), i)
      ensures old(Hazard(Now(), i)) ==> wild || forall sp :: !Reads(sp)
    {
      hide Values, At, Distinct, Chain, Loose;
      ghost var was, sp := nodes, spine;
      Around(was, sp, tail, i);
      if !Hazard(Now(), i) {
        CutChain(was, sp, i);
        CutLoose(was, sp, i, tail);
      }
      var n := nodes[p];
      if n.prev != NULL {
        nodes := nodes[n.prev := nodes[n.prev].(next := n.next)];
      } else {
        head := n.next;
      }
      if n.next != NULL {
        if n.next in nodes {
          nodes := nodes[n.next := nodes[n.next].(prev := n.prev)];
        } else {
          wild := true;
        }
      } else {
        tail := n.prev;
      }
      nodes := nodes - {p};
      len := len - 1;
      assert nodes == Unlinked(was, p);
      spine := sp[..i] + sp[i + 1..];
      Unreadable();
    }

    /**
     A walk from the tail along `prev`, as the store makes it to save a queue, oldest first.  It is
     sound unless the list was purged and not used since: then it starts at a freed node.
     */
    method Walk() returns (values: seq<T>, sound: bool)
      requires Valid()
      ensures var v := Now();
        && (sound <==> v.items != [] || !v.stale)
        && (sound ==> |values| == |v.items| && forall j :: 0 <= j < |values| ==> values[j] == v.items[|v.items| - 1 - j])
    {
      hide Distinct;
      values := [];
      var current := tail;
      ghost var k: nat := len;
      if len > 0 {
        Neighbours(nodes, spine, len - 1);
      }
      while current != NULL
        invariant 0 <= k <= len == |spine|
        invariant if k > 0 then current == spine[k - 1] && current in nodes else current == if len == 0 then tail else NULL
        invariant |values| == len - k && forall j :: 0 <= j < len - k ==> values[j] == Values(nodes, spine)[len - 1 - j]
        decreases k
      {
        if current !in nodes {
          return values, false;
        }
        Neighbours(nodes, spine, k - 1);
        values := values + [nodes[current].value];
        current := nodes[current].prev;
        k := k - 1;
        if k > 0 {
          Neighbours(nodes, spine, k - 1);
        }
      }
      sound := true;
    }

    /** A list that is not empty has an allocated tail. */
    lemma Unreadable()
      ensures len > 0 && tail !in nodes ==> forall sp :: !Reads(sp)
    {
    }
  }

  /** What deleting the node at `i` sees. */
  lemma Around<T>(nodes: map<nat, Node<T>>, sp: seq<nat>, tail: nat, i: nat)
    requires Chain(nodes, sp) && i < |sp| && tail == Last(sp)
    ensures sp[i] in nodes && var n := nodes[sp[i]];
      && n.prev == Before(sp, i) && (n.prev in nodes <==> n.prev != NULL) && (n.prev == NULL <==> i == 0) && n.prev != sp[i] && n.next != sp[i] && NULL !in nodes
      && (i + 1 < |sp| ==> n.next == sp[i + 1] && n.next in nodes && sp[i] != tail)
      && (i + 1 == |sp| ==> (Loose(nodes, sp, tail) <==> n.next != NULL))
      && (|sp| == 1 ==> n.next !in nodes)
  {
    hide Distinct;
    Neighbours(nodes, sp, i);
    var others := nodes - {sp[i]};
    assert |others| == |sp| - 1;
    assert nodes[sp[i]].next in nodes ==> nodes[sp[i]].next in others;
    if i + 1 < |sp| {
      Apart(nodes, sp, i);
    }
  }

  lemma Apart<T>(nodes: map<nat, Node<T>>, sp: seq<nat>, i: nat)
    requires Chain(nodes, sp) && i + 1 < |sp|
    ensures sp[i] != Last(sp)
  {
  }

  /** The tail's `next` is as before, unless the last node went. */
  lemma CutLoose<T>(nodes: map<nat, Node<T>>, sp: seq<nat>, i: nat, tail: nat)
    requires Chain(nodes, sp) && i < |sp| && sp[i] in nodes && (i + 1 == |sp| ==> nodes[sp[i]].next == NULL)
    ensures var n, s := Unlinked(nodes, sp[i]), sp[..i] + sp[i + 1..];
      Chain(n, s) && forall t :: (s == [] ==> t == NULL) ==> (Loose(n, s, t) <==> Loose(nodes, sp, tail))
    ensures var s := sp[..i] + sp[i + 1..];
      s != [] ==> s[0] == (if i == 0 then nodes[sp[i]].next else sp[0]) && Last(s) == (if i + 1 == |sp| then nodes[sp[i]].prev else Last(sp))
  {
    hide Unlinked, Distinct, Values;
    CutChain(nodes, sp, i);
    Neighbours(nodes, sp, i);
  }
}
