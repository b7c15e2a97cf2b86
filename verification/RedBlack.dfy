/**
 Left-leaning 2-3 red-black trees.

 Keys are integers standing for positions in the comparison order.  A tree is a value;
 the `path` array of the source is a sequence of frames, each holding what a node on the
 way down contributes besides the subtree below it.  Insertion and removal wind down to a
 leaf and then unwind, rebalancing as they go.
 */
module RedBlack {

  import opened Basics

  datatype Tree = Nil | Node(left: Tree, key: int, right: Tree, red: bool)

  predicate Red(t: Tree) { t.Node? && t.red }

  function Blacken(t: Tree): Tree { if t.Node? then t.(red := false) else t }

  function RotateLeft(t: Tree): Tree
    requires t.Node? && t.right.Node?
  {
    t.right.(left := t.(right := t.right.left))
  }

  function RotateRight(t: Tree): Tree
    requires t.Node? && t.left.Node?
  {
    t.left.(right := t.(left := t.left.right))
  }

  /* --- What a tree must satisfy -------------------------------------------- */

  function Inorder(t: Tree): seq<int>
  {
    if t.Nil? then [] else Inorder(t.left) + [t.key] + Inorder(t.right)
  }

  function Black(t: Tree): nat
  {
    if t.Nil? then 0 else Black(t.left) + if t.red then 0 else 1
  }

  /** No red right child, no red child of a red node, equal black height on both sides. */
  ghost predicate Shape(t: Tree)
  {
    t.Node? ==>
      && Shape(t.left) && Shape(t.right) && Black(t.left) == Black(t.right)
      && !Red(t.right) && !(t.red && Red(t.left))
  }

  ghost predicate Ascending(s: seq<int>)
  {
    forall i, j :: 0 <= i < j < |s| ==> s[i] < s[j]
  }

  ghost predicate Valid(t: Tree)
  {
    Shape(t) && !Red(t) && Ascending(Inorder(t))
  }

  /* --- Paths ------------------------------------------------------------------ */

  /** A node on the path: its key and colour, its other child, and whether the path went left. */
  datatype Frame = Frame(key: int, red: bool, other: Tree, left: bool)

  function Fill(f: Frame, t: Tree): Tree
  {
    if f.left then Node(t, f.key, f.other, f.red) else Node(f.other, f.key, t, f.red)
  }

  function Plug(path: seq<Frame>, t: Tree): Tree
    decreases |path|
  {
    if path == [] then t else Plug(path[..|path| - 1], Fill(path[|path| - 1], t))
  }

  ghost function Before(path: seq<Frame>): seq<int>
  {
    if path == [] then []
    else
      var f := path[|path| - 1];
      Before(path[..|path| - 1]) + if f.left then [] else Inorder(f.other) + [f.key]
  }

  ghost function After(path: seq<Frame>): seq<int>
  {
    if path == [] then []
    else
      var f := path[|path| - 1];
      (if f.left then [f.key] + Inorder(f.other) else []) + After(path[..|path| - 1])
  }

  lemma FillInorder(f: Frame, t: Tree, a: seq<int>, b: seq<int>)
    ensures a + Inorder(Fill(f, t)) + b
         == (a + if f.left then [] else Inorder(f.other) + [f.key]) + Inorder(t)
            + ((if f.left then [f.key] + Inorder(f.other) else []) + b)
  {
    var o, k, i := Inorder(f.other), [f.key], Inorder(t);
    if f.left {
      assert a + (i + k + o) + b == (a + []) + i + ((k + o) + b);
    } else {
      assert a + (o + k + i) + b == (a + (o + k)) + i + ([] + b);
    }
  }

  lemma {:induction false} PlugInorder(path: seq<Frame>, t: Tree)
    ensures Inorder(Plug(path, t)) == Before(path) + Inorder(t) + After(path)
    decreases |path|
  {
    hide Inorder;
    if path == [] {
      assert [] + Inorder(t) + [] == Inorder(t);
    } else {
      var f, up := path[|path| - 1], path[..|path| - 1];
      PlugInorder(up, Fill(f, t));
      FillInorder(f, t, Before(up), After(up));
    }
  }

  /** The path accepts a subtree of black height `h` whose root is red only if `red` holds. */
  ghost predicate Accepts(path: seq<Frame>, h: nat, red: bool)
    decreases |path|
  {
    if path == [] then !red
    else
      var f := path[|path| - 1];
      && Shape(f.other) && Black(f.other) == h
      && (if f.left then !Red(f.other) && !(f.red && red) else !red && !(f.red && Red(f.other)))
      && Accepts(path[..|path| - 1], h + (if f.red then 0 else 1), f.red)
  }

  lemma {:induction false} PlugShape(path: seq<Frame>, t: Tree)
    requires Shape(t) && Accepts(path, Black(t), Red(t))
    ensures Shape(Plug(path, t)) && !Red(Plug(path, t))
    decreases |path|
  {
    if path != [] {
      PlugShape(path[..|path| - 1], Fill(path[|path| - 1], t));
    }
  }

  lemma AcceptsBlack(path: seq<Frame>, h: nat)
    requires Accepts(path, h, true)
    ensures Accepts(path, h, false)
  {
  }

  lemma Pushed(path: seq<Frame>, f: Frame)
    ensures (path + [f])[..|path + [f]| - 1] == path && (path + [f])[|path + [f]| - 1] == f
  {
  }

  /* --- Insertion ----------------------------------------------------------------- */

  /** A red node that may have a red left child, as insertion leaves it for its parent to fix. */
  ghost predicate Almost(t: Tree)
  {
    t.Node? && t.red && Shape(t.left) && Shape(t.right) && Black(t.left) == Black(t.right) && !Red(t.right)
  }

  /** What the unwinding knows about the rebuilt subtree, given the colour it replaces. */
  ghost predicate Rebuilt(t: Tree, wasRed: bool)
  {
    if wasRed then Almost(t) else Shape(t)
  }

  /** The subtree on the left was rebuilt as `t`: fix up a 4-node; stop if `t` is black. */
  function UnwindLeft(f: Frame, t: Tree): (Tree, bool)
    requires f.left
  {
    var cnode := Fill(f, t);
    if Red(t) then
      if Red(t.left) then (RotateRight(cnode.(left := t.(left := Blacken(t.left)))), false)
      else (cnode, false)
    else (cnode, true)
  }

  /** The subtree on the right was rebuilt as `t`: split a 4-node or lean left; stop if `t` is black. */
  function UnwindRight(f: Frame, t: Tree): (Tree, bool)
    requires !f.left
  {
    var cnode := Fill(f, t);
    if Red(t) then
      if Red(f.other) then (Node(Blacken(f.other), f.key, Blacken(t), true), false)
      else (RotateLeft(cnode.(red := true)).(red := f.red), false)
    else (cnode, true)
  }

  lemma UnwindInsert(path: seq<Frame>, t: Tree, wasRed: bool)
    requires path != [] && Rebuilt(t, wasRed) && Accepts(path, Black(t), wasRed)
    ensures var f, up := path[|path| - 1], path[..|path| - 1];
      var (t', stop) := if f.left then UnwindLeft(f, t) else UnwindRight(f, t);
      && Inorder(t') == Inorder(Fill(f, t))
      && Black(t') == Black(Fill(f, t)) && Accepts(up, Black(t'), f.red)
      && (stop ==> Shape(t') && Red(t') == f.red)
      && (!stop ==> Rebuilt(t', f.red))
  {
    var f := path[|path| - 1];
    if f.left {
      if Red(t) && Red(t.left) {
        assert Inorder(Blacken(t.left)) == Inorder(t.left);
        var L := t.left;
        assert Inorder(L) + [t.key] + Inorder(t.right) + [f.key] + Inorder(f.other)
            == Inorder(L) + [t.key] + (Inorder(t.right) + [f.key] + Inorder(f.other));
      }
    } else {
      if Red(t) && !Red(f.other) {
        assert Inorder(f.other) + [f.key] + (Inorder(t.left) + [t.key] + Inorder(t.right))
            == Inorder(f.other) + [f.key] + Inorder(t.left) + [t.key] + Inorder(t.right);
      }
    }
  }

  /* --- Order facts ------------------------------------------------------------------ */

  lemma AscendingSplit(a: seq<int>, k: int, b: seq<int>)
    requires Ascending(a + [k] + b)
    ensures Ascending(a) && Ascending(b) && (forall x :: x in a ==> x < k) && (forall x :: x in b ==> k < x)
  {
    var s := a + [k] + b;
    assert s[|a|] == k;
    assert forall i :: 0 <= i < |a| ==> s[i] == a[i];
    assert forall i :: 0 <= i < |b| ==> s[|a| + 1 + i] == b[i];
  }

  lemma AscendingJoin(a: seq<int>, k: int, b: seq<int>)
    requires Ascending(a) && Ascending(b) && (forall x :: x in a ==> x < k) && (forall x :: x in b ==> k < x)
    ensures Ascending(a + [k] + b)
  {
    var s := a + [k] + b;
    forall i, j | 0 <= i < j < |s|
      ensures s[i] < s[j]
    {
      assert s[i] == if i < |a| then a[i] else if i == |a| then k else b[i - |a| - 1];
      assert s[j] == if j < |a| then a[j] else if j == |a| then k else b[j - |a| - 1];
      assert i < |a| ==> a[i] in a;
      assert j > |a| ==> b[j - |a| - 1] in b;
    }
  }

  lemma AscendingParts(a: seq<int>, k: int, b: seq<int>)
    ensures Ascending(a + [k] + b) <==>
      Ascending(a) && Ascending(b) && (forall x :: x in a ==> x < k) && (forall x :: x in b ==> k < x)
  {
    hide Ascending;
    if Ascending(a + [k] + b) {
      AscendingSplit(a, k, b);
    }
    if Ascending(a) && Ascending(b) && (forall x :: x in a ==> x < k) && (forall x :: x in b ==> k < x) {
      AscendingJoin(a, k, b);
    }
  }

  /** All keys before the current subtree are smaller than `key`, all after it larger. */
  ghost predicate Straddles(path: seq<Frame>, key: int)
  {
    (forall x :: x in Before(path) ==> x < key) && (forall x :: x in After(path) ==> key < x)
  }

  lemma WindStep(root: Tree, path: seq<Frame>, t: Tree, key: int, left: bool)
    requires t.Node? && Plug(path, t) == root && Valid(root) && Shape(t) && Accepts(path, Black(t), Red(t))
    requires Straddles(path, key) && (if left then key < t.key else t.key < key)
    ensures var f := Frame(t.key, t.red, if left then t.right else t.left, left);
      var t' := if left then t.left else t.right; var path' := path + [f];
      Plug(path', t') == root && Shape(t') && Accepts(path', Black(t'), Red(t')) && Straddles(path', key)
  {
    var f := Frame(t.key, t.red, if left then t.right else t.left, left);
    Pushed(path, f);
    PlugInorder(path, t);
    var (l, r) := (Inorder(t.left), Inorder(t.right));
    assert Inorder(root) == (Before(path) + l) + [t.key] + (r + After(path));
    AscendingParts(Before(path) + l, t.key, r + After(path));
    assert forall x :: x in l ==> x in Before(path) + l;
    assert forall x :: x in r ==> x in r + After(path);
  }

  /**
   Insertion of a key that is not in the tree (the source asserts that no comparison yields
   zero): wind down to a leaf, put a red node there, unwind, and blacken the root.
   */
  method Insert(root: Tree, key: int) returns (r: Tree)
    requires Valid(root) && key !in Inorder(root)
    ensures Valid(r)
    ensures exists a, b :: Inorder(root) == a + b && Inorder(r) == a + [key] + b
  {
    hide Inorder, Plug, Accepts, Shape, Before, After;
    var path: seq<Frame>, t := [], root;
    WindStart(root, key);
    while t.Node?
      invariant Plug(path, t) == root && Shape(t) && Accepts(path, Black(t), Red(t)) && Straddles(path, key)
      decreases t
    {
      KeyInside(path, t);
      var left := key < t.key;
      WindStep(root, path, t, key, left);
      path := path + [Frame(t.key, t.red, if left then t.right else t.left, left)];
      t := if left then t.left else t.right;
    }
    LeafInorder(path, key);
    SplitAscending(Before(path), After(path), key);
    r := Unwind(path, Node(Nil, key, Nil, true), Before(path) + [key] + After(path));
  }

  lemma WindStart(root: Tree, key: int)
    requires Valid(root)
    ensures Plug([], root) == root && Shape(root) && Accepts([], Black(root), Red(root)) && Straddles([], key)
  {
  }

  lemma KeyInside(path: seq<Frame>, t: Tree)
    requires t.Node?
    ensures t.key in Inorder(Plug(path, t))
  {
    PlugInorder(path, t);
    assert t.key in Inorder(t);
  }

  /** Replacing the leaf at the end of a path by a new red node inserts one key. */
  lemma LeafInorder(path: seq<Frame>, key: int)
    ensures Inorder(Plug(path, Nil)) == Before(path) + After(path)
    ensures Inorder(Plug(path, Node(Nil, key, Nil, true))) == Before(path) + [key] + After(path)
    ensures Shape(Node(Nil, key, Nil, true)) && Black(Node(Nil, key, Nil, true)) == 0
  {
    PlugInorder(path, Nil);
    PlugInorder(path, Node(Nil, key, Nil, true));
    assert Inorder(Node(Nil, key, Nil, true)) == [key];
  }

  lemma SplitAscending(a: seq<int>, b: seq<int>, key: int)
    requires Ascending(a + b) && (forall x :: x in a ==> x < key) && (forall x :: x in b ==> key < x)
    ensures Ascending(a + [key] + b)
  {
    assert forall i :: 0 <= i < |a| ==> (a + b)[i] == a[i];
    assert forall i :: 0 <= i < |b| ==> (a + b)[|a| + i] == b[i];
    AscendingParts(a, key, b);
  }

  method Unwind(path0: seq<Frame>, t0: Tree, ghost keys: seq<int>) returns (r: Tree)
    requires Shape(t0) && Accepts(path0, Black(t0), false) && Ascending(keys) && Inorder(Plug(path0, t0)) == keys
    ensures Valid(r) && Inorder(r) == keys
  {
    var path, t := path0, t0;
    ghost var wasRed := false;
    while path != []
      invariant Rebuilt(t, wasRed) && Accepts(path, Black(t), wasRed) && Inorder(Plug(path, t)) == keys
      decreases |path|
    {
      var f, up := path[|path| - 1], path[..|path| - 1];
      UnwindInsert(path, t, wasRed);
      PlugInorder(up, Fill(f, t));
      var (t', stop) := if f.left then UnwindLeft(f, t) else UnwindRight(f, t);
      PlugInorder(up, t');
      if stop {
        PlugShape(up, t');
        return Plug(up, t');
      }
      path, t, wasRed := up, t', f.red;
    }
    r := Blacken(t);
  }

  /* --- Removal ---------------------------------------------------------------------- */

  /** The nodes the rebalancing dereferences are there. */
  predicate Mendable(f: Frame)
  {
    f.other.Node? && (!f.left && Red(f.other) ==> f.other.right.Node?)
  }

  /** The left subtree lost one black level: rebalance, or pass the loss on (second component). */
  function MendLeft(f: Frame, t: Tree): (Tree, bool)
    requires f.left && Mendable(f)
  {
    var p, right := Fill(f, t), f.other;
    if f.red then
      if Red(right.left) then (RotateLeft(p.(red := false, right := RotateRight(right))), false)
      else (RotateLeft(p), false)
    else if Red(right.left) then
      (RotateLeft(p.(right := RotateRight(right.(left := Blacken(right.left))))), false)
    else (RotateLeft(p.(red := true)), true)
  }

  /** The right subtree lost one black level. */
  function MendRight(f: Frame, t: Tree): (Tree, bool)
    requires !f.left && Mendable(f)
  {
    var p, left := Fill(f, t), f.other;
    if Red(left) then
      var lr := left.right;
      if Red(lr.left) then
        // The two right rotations and the left rotation bring the inner grandchild to the top.
        var lr' := lr.(left := Blacken(lr.left));
        var u := RotateRight(p.(left := left.(right := lr')));
        (RotateLeft(u.(right := RotateRight(u.right))), false)
      else (RotateRight(p.(left := left.(right := lr.(red := true)))).(red := false), false)
    else if f.red then
      if Red(left.left) then
        (RotateRight(p.(red := false, left := left.(red := true, left := Blacken(left.left)))), false)
      else (p.(red := false, left := left.(red := true)), false)
    else if Red(left.left) then (RotateRight(p.(left := left.(left := Blacken(left.left)))), false)
    else (p.(left := left.(red := true)), true)
  }

  function Mend(f: Frame, t: Tree): (Tree, bool)
    requires Mendable(f)
  {
    if f.left then MendLeft(f, t) else MendRight(f, t)
  }

  lemma BlackenInorder(t: Tree)
    ensures Inorder(Blacken(t)) == Inorder(t)
  {
  }

  lemma MendLeftInorder(f: Frame, t: Tree)
    requires f.left && Mendable(f)
    ensures Inorder(MendLeft(f, t).0) == Inorder(Fill(f, t))
  {
    var right := f.other;
    var (x, k, y, rk, z) := (Inorder(t), [f.key], Inorder(right.left), [right.key], Inorder(right.right));
    assert x + k + (y + rk + z) == (x + k + y) + rk + z;
    if Red(right.left) {
      BlackenInorder(right.left);
      var rl := right.left;
      var (y1, rlk, y2) := (Inorder(rl.left), [rl.key], Inorder(rl.right));
      assert x + k + ((y1 + rlk + y2) + rk + z) == (x + k + y1) + rlk + (y2 + rk + z);
    }
  }

  lemma MendRightInorder(f: Frame, t: Tree)
    requires !f.left && Mendable(f)
    ensures Inorder(MendRight(f, t).0) == Inorder(Fill(f, t))
  {
    var left := f.other;
    var (x, lk, y, k, z) := (Inorder(left.left), [left.key], Inorder(left.right), [f.key], Inorder(t));
    BlackenInorder(left.left);
    assert x + lk + y + k + z == x + lk + (y + k + z);
    if Red(left) && !Red(left.right.left) {
      assert Inorder(left.right.(red := true)) == y;
    }
    if Red(left) && Red(left.right.left) {
      var lr := left.right;
      BlackenInorder(lr.left);
      var (y1, lrk, y2) := (Inorder(lr.left), [lr.key], Inorder(lr.right));
      assert x + lk + (y1 + lrk + y2) + k + z == (x + lk + y1) + lrk + (y2 + k + z);
    }
  }

  /** Result of mending: a full black height again, or a black root one level short. */
  ghost predicate Mended(f: Frame, t: Tree, t': Tree, short: bool)
  {
    var h := Black(t) + 1 + if f.red then 0 else 1;
    Shape(t') && if short then !f.red && !Red(t') && Black(t') + 1 == h else (Red(t') ==> f.red) && Black(t') == h
  }

  lemma MendLeftShape(f: Frame, t: Tree)
    requires f.left && Shape(t) && !Red(t) && Shape(f.other) && Black(f.other) == Black(t) + 1 && !Red(f.other)
    ensures Mendable(f) && Mended(f, t, MendLeft(f, t).0, MendLeft(f, t).1)
  {
  }

  lemma MendRightShape(f: Frame, t: Tree)
    requires !f.left && Shape(t) && !Red(t) && Shape(f.other) && Black(f.other) == Black(t) + 1 && !(f.red && Red(f.other))
    ensures Mendable(f) && Mended(f, t, MendRight(f, t).0, MendRight(f, t).1)
  {
    var left := f.other;
    if Red(left) {
      var lr := left.right;
      assert Shape(lr) && lr.Node? && Black(lr) == Black(t) + 1;
      if Red(lr.left) {
        BlackenShape(lr.left);
        var l' := left.(right := Blacken(lr.left));
        var r' := Node(lr.right, f.key, t, f.red);
        assert Shape(l') && Shape(r') && Black(l') == Black(r') == Black(t) + 1;
        assert MendRight(f, t).0 == Node(l', lr.key, r', lr.red);
      } else {
        var r' := Node(lr.(red := true), f.key, t, f.red);
        assert Shape(lr.(red := true)) && Shape(r');
      }
    } else if Red(left.left) {
      BlackenShape(left.left);
      assert Shape(Node(left.right, f.key, t, false));
    } else {
      assert Shape(left.(red := true));
    }
  }

  lemma BlackenShape(t: Tree)
    requires Shape(t) && Red(t)
    ensures Shape(Blacken(t)) && Black(Blacken(t)) == Black(t) + 1 && !Red(Blacken(t))
  {
  }

  lemma UnwindRemove(path: seq<Frame>, t: Tree)
    requires path != [] && Shape(t) && !Red(t) && Accepts(path, Black(t) + 1, false)
    ensures var f, up := path[|path| - 1], path[..|path| - 1];
      && Mendable(f)
      && var (t', short) := Mend(f, t);
      && Inorder(t') == Inorder(Fill(f, t))
      && Shape(t') && (short ==> !Red(t') && Accepts(up, Black(t') + 1, false))
      && (!short ==> Accepts(up, Black(t'), Red(t')))
  {
    hide Inorder, Shape, Black, MendLeft, MendRight, Mendable, Accepts, Red, Fill;
    var f, up := path[|path| - 1], path[..|path| - 1];
    AcceptsLast(path, Black(t) + 1);
    if f.left {
      MendLeftShape(f, t);
      MendLeftInorder(f, t);
    } else {
      MendRightShape(f, t);
      MendRightInorder(f, t);
    }
    var (t', short) := Mend(f, t);
    if f.red && !Red(t') {
      AcceptsBlack(up, Black(t) + 1);
    }
  }

  lemma AcceptsLast(path: seq<Frame>, h: nat)
    requires path != [] && Accepts(path, h, false)
    ensures var f, up := path[|path| - 1], path[..|path| - 1];
      && Shape(f.other) && Black(f.other) == h && (if f.left then !Red(f.other) else !(f.red && Red(f.other)))
      && Accepts(up, if f.red then h else h + 1, f.red)
  {
  }

  /** Unwind after a black node has been pruned. */
  method UnwindPruned(path0: seq<Frame>, ghost keys: seq<int>) returns (r: Tree)
    requires Accepts(path0, 1, false) && Inorder(Plug(path0, Nil)) == keys && Ascending(keys)
    ensures Valid(r) && Inorder(r) == keys
  {
    hide Inorder, Mend, Plug;
    var path, t := path0, Nil;
    while path != []
      invariant Shape(t) && !Red(t) && Accepts(path, Black(t) + 1, false) && Inorder(Plug(path, t)) == keys
      decreases |path|
    {
      var f, up := path[|path| - 1], path[..|path| - 1];
      UnwindRemove(path, t);
      var (t', short) := Mend(f, t);
      PlugSame(path, t, t');
      if !short {
        PlugShape(up, t');
        return Plug(up, t');
      }
      path, t := up, t';
    }
    PlugTop(t);
    r := t;
  }

  lemma PlugTop(t: Tree)
    ensures Plug([], t) == t
  {
  }

  lemma PlugSame(path: seq<Frame>, t: Tree, t': Tree)
    requires path != [] && Inorder(t') == Inorder(Fill(path[|path| - 1], t))
    ensures Inorder(Plug(path[..|path| - 1], t')) == Inorder(Plug(path, t))
  {
    var up := path[..|path| - 1];
    PlugInorder(up, t');
    PlugInorder(up, Fill(path[|path| - 1], t));
  }

  ghost predicate AllLeft(down: seq<Frame>)
  {
    forall f :: f in down ==> f.left
  }

  /** Frames that went left depend on what is above them only through its later keys and shape. */
  lemma {:induction false} SameBelow(p: seq<Frame>, q: seq<Frame>, down: seq<Frame>, h: nat, red: bool)
    requires AllLeft(down) && Accepts(p + down, h, red) && After(p) == After(q)
    requires forall h', red' :: Accepts(p, h', red') ==> Accepts(q, h', red')
    ensures Accepts(q + down, h, red) && After(p + down) == After(q + down)
    ensures Before(p + down) == Before(p) && Before(q + down) == Before(q)
    decreases |down|
  {
    hide Shape, Black, Inorder;
    if down == [] {
      assert p + down == p && q + down == q;
    } else {
      var d, up := down[|down| - 1], down[..|down| - 1];
      assert d in down;
      assert p + down == (p + up) + [d] && q + down == (q + up) + [d];
      Pushed(p + up, d);
      Pushed(q + up, d);
      assert AllLeft(up) by { assert forall x :: x in up ==> x in down; }
      SameBelow(p, q, up, h + (if d.red then 0 else 1), d.red);
      assert Before(p + up) + [] == Before(p + up) && Before(q + up) + [] == Before(q + up);
    }
  }

  /** Below a node whose key is exchanged, everything stays as it was. */
  lemma SwapKey(path: seq<Frame>, f: Frame, key: int, down: seq<Frame>, h: nat, red: bool)
    requires !f.left && AllLeft(down) && Accepts(path + [f] + down, h, red)
    ensures var p, q := path + [f] + down, path + [f.(key := key)] + down;
      && Accepts(q, h, red)
      && Before(p) == Before(path) + Inorder(f.other) + [f.key]
      && Before(q) == Before(path) + Inorder(f.other) + [key]
      && After(p) == After(q)
  {
    hide Shape, Black, Inorder;
    var g := f.(key := key);
    Pushed(path, f);
    Pushed(path, g);
    SameBelow(path + [f], path + [g], down, h, red);
    assert Before(path) + Inorder(f.other) + [f.key] == Before(path) + (Inorder(f.other) + [f.key]);
    assert Before(path) + Inorder(f.other) + [key] == Before(path) + (Inorder(f.other) + [key]);
  }

  /** One more step to the left on the way to the successor. */
  lemma DownStep(path: seq<Frame>, s: Tree)
    requires s.Node? && Shape(s) && Accepts(path, Black(s), Red(s))
    ensures var f := Frame(s.key, s.red, s.right, true);
      && Plug(path + [f], s.left) == Plug(path, s) && Shape(s.left) && Accepts(path + [f], Black(s.left), Red(s.left))
  {
    Pushed(path, Frame(s.key, s.red, s.right, true));
  }

  lemma RightStep(path: seq<Frame>, t: Tree)
    requires t.Node? && Shape(t) && Accepts(path, Black(t), Red(t))
    ensures var f := Frame(t.key, t.red, t.left, false);
      && Plug(path + [f], t.right) == Plug(path, t) && Shape(t.right) && Accepts(path + [f], Black(t.right), Red(t.right))
  {
    Pushed(path, Frame(t.key, t.red, t.left, false));
  }

  /** Removal of `key` from the key sequence. */
  ghost predicate Removes(keys: seq<int>, key: int, keys': seq<int>)
  {
    exists a, b :: keys == a + [key] + b && keys' == a + b
  }

  lemma RemovesAscending(a: seq<int>, key: int, b: seq<int>)
    requires Ascending(a + [key] + b)
    ensures Ascending(a + b) && Removes(a + [key] + b, key, a + b)
  {
    var s, s' := a + [key] + b, a + b;
    forall i, j | 0 <= i < j < |s'|
      ensures s'[i] < s'[j]
    {
      var i', j' := if i < |a| then i else i + 1, if j < |a| then j else j + 1;
      assert s'[i] == s[i'] && s'[j] == s[j'];
    }
  }

  /** Prune the childless node at the end of `path`, which contributed nothing but its key. */
  method Prune(path: seq<Frame>, red: bool, ghost keys: seq<int>) returns (r: Tree)
    requires Accepts(path, if red then 0 else 1, red) && Before(path) + After(path) == keys && Ascending(keys)
    ensures Valid(r) && Inorder(r) == keys
  {
    LeafInorder(path, 0);
    if path == [] {
      r := Nil;
    } else if red {
      AcceptsBlack(path, 0);
      PlugShape(path, Nil);
      r := Plug(path, Nil);
    } else {
      r := UnwindPruned(path, keys);
    }
  }

  /** Removal when the node has no right child: splice in its red left child, or prune it. */
  method RemoveHere(path: seq<Frame>, t: Tree) returns (r: Tree)
    requires t.Node? && t.right.Nil? && Shape(t) && Accepts(path, Black(t), Red(t)) && Ascending(Inorder(Plug(path, t)))
    ensures Valid(r) && Removes(Inorder(Plug(path, t)), t.key, Inorder(r))
  {
    PlugInorder(path, t);
    ghost var a, b := Before(path) + Inorder(t.left), After(path);
    assert Inorder(Plug(path, t)) == a + [t.key] + b;
    RemovesAscending(a, t.key, b);
    if t.left.Node? {
      r := Plug(path, Blacken(t.left));
      PlugShape(path, Blacken(t.left));
      PlugInorder(path, Blacken(t.left));
      assert Inorder(Blacken(t.left)) == Inorder(t.left);
    } else {
      assert a + b == Before(path) + After(path);
      r := Prune(path, t.red, a + b);
    }
  }

  /** Removal when there is a right child: the successor's key moves up and its node is pruned. */
  method RemoveSwap(path: seq<Frame>, t: Tree) returns (r: Tree)
    requires t.Node? && t.right.Node? && Shape(t) && Accepts(path, Black(t), Red(t)) && Ascending(Inorder(Plug(path, t)))
    ensures Valid(r) && Removes(Inorder(Plug(path, t)), t.key, Inorder(r))
  {
    hide Inorder, Plug, Accepts;
    var f := Frame(t.key, t.red, t.left, false);
    RightStep(path, t);
    var down: seq<Frame>, s := [], t.right;
    assert path + [f] + down == path + [f];
    while s.left.Node?
      invariant s.Node? && Shape(s) && AllLeft(down) && Plug(path + [f] + down, s) == Plug(path, t)
      invariant Accepts(path + [f] + down, Black(s), Red(s))
      decreases s
    {
      DownStep(path + [f] + down, s);
      assert path + [f] + down + [Frame(s.key, s.red, s.right, true)] == path + [f] + (down + [Frame(s.key, s.red, s.right, true)]);
      down := down + [Frame(s.key, s.red, s.right, true)];
      s := s.left;
    }
    SwapKey(path, f, s.key, down, Black(s), Red(s));
    ghost var p := path + [f] + down;
    var q := path + [f.(key := s.key)] + down;
    LeafOf(p, s);
    ghost var a, b := Before(path) + Inorder(t.left), [s.key] + After(p);
    assert Before(p) + [s.key] + After(p) == a + [t.key] + b;
    assert Before(q) + After(q) == a + b;
    RemovesAscending(a, t.key, b);
    r := Prune(q, s.red, a + b);
  }

  /** A node of a balanced tree without a left child has no right child either. */
  lemma LeafOf(path: seq<Frame>, s: Tree)
    requires s.Node? && s.left.Nil? && Shape(s)
    ensures s.right.Nil? && Black(s) == (if s.red then 0 else 1)
    ensures Inorder(Plug(path, s)) == Before(path) + [s.key] + After(path)
  {
    PlugInorder(path, s);
    assert Inorder(s) == [s.key];
  }

  /** Removal of a key that is in the tree. */
  method Remove(root: Tree, key: int) returns (r: Tree)
    requires Valid(root) && key in Inorder(root)
    ensures Valid(r) && Removes(Inorder(root), key, Inorder(r))
  {
    hide Inorder, Plug, Accepts, Shape, Before, After, Removes;
    var path: seq<Frame>, t := [], root;
    WindStart(root, key);
    Reaches(path, t, key);
    while t.key != key
      invariant t.Node? && Plug(path, t) == root && Shape(t) && Accepts(path, Black(t), Red(t)) && Straddles(path, key)
      decreases t
    {
      var left := key < t.key;
      WindStep(root, path, t, key, left);
      path := path + [Frame(t.key, t.red, if left then t.right else t.left, left)];
      t := if left then t.left else t.right;
      Reaches(path, t, key);
    }
    if t.right.Nil? {
      r := RemoveHere(path, t);
    } else {
      r := RemoveSwap(path, t);
    }
  }

  lemma Reaches(path: seq<Frame>, t: Tree, key: int)
    requires Straddles(path, key) && key in Inorder(Plug(path, t))
    ensures t.Node?
  {
    PlugInorder(path, t);
  }

  /* --- Searching --------------------------------------------------------------------- */

  /** `o` is the least of `keys` that is not below `key`, if there is one. */
  ghost predicate Ceiling(keys: seq<int>, key: int, o: Option<int>)
  {
    match o
    case None => forall x :: x in keys ==> x < key
    case Some(v) => v in keys && key <= v && forall x :: x in keys && key <= x ==> v <= x
  }

  ghost predicate Floor(keys: seq<int>, key: int, o: Option<int>)
  {
    match o
    case None => forall x :: x in keys ==> key < x
    case Some(v) => v in keys && v <= key && forall x :: x in keys && x <= key ==> x <= v
  }

  lemma Parts(t: Tree)
    requires t.Node? && Ascending(Inorder(t))
    ensures Ascending(Inorder(t.left)) && Ascending(Inorder(t.right)) && t.key in Inorder(t)
    ensures forall x :: x in Inorder(t) <==> x in Inorder(t.left) || x == t.key || x in Inorder(t.right)
    ensures (forall x :: x in Inorder(t.left) ==> x < t.key) && (forall x :: x in Inorder(t.right) ==> t.key < x)
  {
    AscendingParts(Inorder(t.left), t.key, Inorder(t.right));
  }

  method Search(root: Tree, key: int) returns (found: bool)
    requires Valid(root)
    ensures found <==> key in Inorder(root)
  {
    hide Inorder;
    var t := root;
    while t.Node? && key != t.key
      invariant Ascending(Inorder(t)) && (key in Inorder(t) <==> key in Inorder(root))
      decreases t
    {
      Parts(t);
      t := if key < t.key then t.left else t.right;
    }
    if t.Node? {
      Parts(t);
    } else {
      NoKeys(t);
    }
    found := t.Node?;
  }

  lemma NoKeys(t: Tree)
    requires t.Nil?
    ensures Inorder(t) == []
  {
  }

  /** `nsearch`: the matching key, else the next larger one. */
  method NSearch(root: Tree, key: int) returns (o: Option<int>)
    requires Valid(root)
    ensures Ceiling(Inorder(root), key, o)
  {
    hide Inorder;
    var t := root;
    o := None;
    ghost var keys := Inorder(root);
    while t.Node?
      invariant Ascending(Inorder(t)) && forall x :: x in Inorder(t) ==> x in keys
      invariant forall x :: x in keys && key <= x ==> x in Inorder(t) || (o.Some? && o.value <= x)
      invariant o.Some? ==> o.value in keys && key <= o.value && forall x :: x in Inorder(t) ==> x < o.value
      decreases t
    {
      Parts(t);
      if key < t.key {
        o, t := Some(t.key), t.left;
      } else if key > t.key {
        t := t.right;
      } else {
        return Some(t.key);
      }
    }
    NoKeys(t);
  }

  /** `psearch`: the matching key, else the next smaller one. */
  method PSearch(root: Tree, key: int) returns (o: Option<int>)
    requires Valid(root)
    ensures Floor(Inorder(root), key, o)
  {
    hide Inorder;
    var t := root;
    o := None;
    ghost var keys := Inorder(root);
    while t.Node?
      invariant Ascending(Inorder(t)) && forall x :: x in Inorder(t) ==> x in keys
      invariant forall x :: x in keys && x <= key ==> x in Inorder(t) || (o.Some? && x <= o.value)
      invariant o.Some? ==> o.value in keys && o.value <= key && forall x :: x in Inorder(t) ==> o.value < x
      decreases t
    {
      Parts(t);
      if key < t.key {
        t := t.left;
      } else if key > t.key {
        o, t := Some(t.key), t.right;
      } else {
        return Some(t.key);
      }
    }
    NoKeys(t);
  }

  method First(t0: Tree) returns (k: int)
    requires t0.Node? && Ascending(Inorder(t0))
    ensures k in Inorder(t0) && forall x :: x in Inorder(t0) ==> k <= x
  {
    hide Inorder;
    var t := t0;
    while t.left.Node?
      invariant t.Node? && Ascending(Inorder(t)) && forall x :: x in Inorder(t) ==> x in Inorder(t0)
      invariant forall x :: x in Inorder(t0) ==> x in Inorder(t) || forall y :: y in Inorder(t) ==> y < x
      decreases t
    {
      Parts(t);
      t := t.left;
    }
    Parts(t);
    NoKeys(t.left);
    k := t.key;
  }

  method Last(t0: Tree) returns (k: int)
    requires t0.Node? && Ascending(Inorder(t0))
    ensures k in Inorder(t0) && forall x :: x in Inorder(t0) ==> x <= k
  {
    hide Inorder;
    var t := t0;
    while t.right.Node?
      invariant t.Node? && Ascending(Inorder(t)) && forall x :: x in Inorder(t) ==> x in Inorder(t0)
      invariant forall x :: x in Inorder(t0) ==> x in Inorder(t) || forall y :: y in Inorder(t) ==> x < y
      decreases t
    {
      Parts(t);
      t := t.right;
    }
    Parts(t);
    NoKeys(t.right);
    k := t.key;
  }

  /** The node that holds `key`. */
  function At(t: Tree, key: int): Tree
  {
    if t.Nil? || t.key == key then t else if key < t.key then At(t.left, key) else At(t.right, key)
  }

  /** The subtree under the node of `key` is a contiguous part of the key sequence. */
  lemma {:induction false} AtNode(t: Tree, key: int)
    requires Ascending(Inorder(t)) && key in Inorder(t)
    ensures var n := At(t, key); n.Node? && n.key == key && Ascending(Inorder(n))
    ensures forall x :: x in Inorder(At(t, key)) ==> x in Inorder(t)
    ensures forall x, y :: x in Inorder(t) && y in Inorder(At(t, key)) && x !in Inorder(At(t, key)) ==> (x < y <==> x < key)
    decreases t
  {
    if t.Node? {
      Parts(t);
      if key < t.key {
        AtNode(t.left, key);
      } else if t.key < key {
        AtNode(t.right, key);
      }
    }
  }

  /**
   `next`: the first key of the right subtree, else the last node at which the way down from
   the root turned left.
   */
  method Next(root: Tree, key: int) returns (o: Option<int>)
    requires Valid(root) && key in Inorder(root)
    ensures Ceiling(Inorder(root), key + 1, o)
  {
    hide Inorder;
    AtNode(root, key);
    var node := At(root, key);
    Parts(node);
    if node.right.Node? {
      var k := First(node.right);
      return Some(k);
    }
    NoKeys(node.right);
    var t := root;
    o := None;
    ghost var keys := Inorder(root);
    while key != t.key
      invariant t.Node? && Ascending(Inorder(t)) && key in Inorder(t) && At(t, key) == node
      invariant forall x :: x in keys && key < x ==> x in Inorder(t) || (o.Some? && o.value <= x)
      invariant forall x :: x in Inorder(t) ==> x in keys
      invariant o.Some? ==> o.value in keys && key < o.value && forall x :: x in Inorder(t) ==> x < o.value
      decreases t
    {
      Parts(t);
      if key < t.key {
        o, t := Some(t.key), t.left;
      } else {
        t := t.right;
      }
      if t.Nil? { NoKeys(t); }
    }
  }

  /** `prev`, the mirror image. */
  method Prev(root: Tree, key: int) returns (o: Option<int>)
    requires Valid(root) && key in Inorder(root)
    ensures Floor(Inorder(root), key - 1, o)
  {
    hide Inorder;
    AtNode(root, key);
    var node := At(root, key);
    Parts(node);
    if node.left.Node? {
      var k := Last(node.left);
      return Some(k);
    }
    NoKeys(node.left);
    var t := root;
    o := None;
    ghost var keys := Inorder(root);
    while key != t.key
      invariant t.Node? && Ascending(Inorder(t)) && key in Inorder(t) && At(t, key) == node
      invariant forall x :: x in keys && x < key ==> x in Inorder(t) || (o.Some? && x <= o.value)
      invariant forall x :: x in Inorder(t) ==> x in keys
      invariant o.Some? ==> o.value in keys && o.value < key && forall x :: x in Inorder(t) ==> o.value < x
      decreases t
    {
      Parts(t);
      if key > t.key {
        o, t := Some(t.key), t.right;
      } else {
        t := t.left;
      }
      if t.Nil? { NoKeys(t); }
    }
  }

  /* --- Height ------------------------------------------------------------------------- */

  function Height(t: Tree): nat
  {
    if t.Nil? then 0
    else 1 + if Height(t.left) > Height(t.right) then Height(t.left) else Height(t.right)
  }

  /** Every path alternates at most one red node per black one, and black levels are full. */
  lemma {:induction false} HeightAndSize(t: Tree)
    requires Shape(t)
    ensures Height(t) <= 2 * Black(t) + if Red(t) then 1 else 0
    ensures Pow2(Black(t)) <= |Inorder(t)| + 1
    decreases t
  {
    if t.Node? {
      HeightAndSize(t.left);
      HeightAndSize(t.right);
    }
  }

  lemma {:induction false} Pow2Sum(m: nat, n: nat)
    ensures Pow2(m + n) == Pow2(m) * Pow2(n)
    decreases m
  {
    if m > 0 {
      Pow2Sum(m - 1, n);
    }
  }

  lemma {:induction false} Pow2Mono(m: nat, n: nat)
    requires m <= n
    ensures Pow2(m) <= Pow2(n)
    decreases n - m
  {
    if m < n {
      Pow2Mono(m + 1, n);
    }
  }

  lemma {:induction false} Scaled(m: nat, n: nat, k: nat)
    requires m <= n
    ensures m * k <= n * k
    decreases k
  {
    if k > 0 {
      Scaled(m, n, k - 1);
      assert m * k == m * (k - 1) + m && n * k == n * (k - 1) + n;
    }
  }

  lemma SquareMono(m: nat, n: nat)
    requires m <= n
    ensures m * m <= n * n
  {
    Scaled(m, n, m);
    Scaled(m, n, n);
    assert n * m == m * n;
  }

  /** Height at most 2 log2(n + 1): two to the height is at most (n + 1) squared. */
  lemma HeightBound(t: Tree)
    requires Valid(t)
    ensures Pow2(Height(t)) <= (|Inorder(t)| + 1) * (|Inorder(t)| + 1)
  {
    hide Pow2, Inorder, Height, Shape, Black;
    HeightAndSize(t);
    var h := Black(t);
    Pow2Mono(Height(t), h + h);
    Pow2Sum(h, h);
    SquareMono(Pow2(h), |Inorder(t)| + 1);
  }

  const PATH_ENTRIES: nat := 128

  /**
   The path array has `sizeof(void *) << 4` entries, one per node on the way down plus one
   for the leaf: enough for any tree of fewer than 2^63 nodes, before and after an insertion.
   */
  lemma PathFits(t: Tree)
    requires Valid(t) && |Inorder(t)| + 1 <= Pow2(63)
    ensures Height(t) + 1 < PATH_ENTRIES
  {
    hide Pow2, Inorder, Height, Shape, Black;
    HeightBound(t);
    Pow2Sum(63, 63);
    SquareMono(|Inorder(t)| + 1, Pow2(63));
    if Height(t) >= 127 {
      Pow2Mono(127, Height(t));
      Pow2Grows(126);
      assert false;
    }
  }

  lemma Pow2Grows(n: nat)
    ensures Pow2(n) < Pow2(n + 1)
  {
    Pow2Mono(0, n);
  }
}
