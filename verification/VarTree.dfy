/**
 Nodes of the variable tree, the ghost trees and contexts ("zippers") that
 describe how they hang together, and the facts about order, height and
 rotation that the in-place operations rest on.
 */
module VarTree {
  import opened Names
  import opened Naturals

  /** The words that are a variable's value. */
  type Words = seq<Name>

  class Varent {
    var vec: Words
    var name: Name
    var left: Varent?
    var right: Varent?
    var parent: Varent?
    var bal: int

    constructor (name: Name, parent: Varent)
      ensures this.name == name && this.parent == parent && this.bal == 0
      ensures left == null && right == null && vec == []
    {
      this.name, this.parent, this.bal := name, parent, 0;
      left, right, vec := null, null, [];
    }

    /** The sentinel: a node that is nobody's child. */
    constructor Header()
      ensures left == null && right == null && parent == null
    {
      name, vec, bal := [], [], 0;
      left, right, parent := null, null, null;
    }
  }

  /** An entry met on a walk of the tree: a node with its name and value. */
  datatype Binding = Binding(v: Varent, name: Name, val: Words)

  /** A tree of nodes together with what each node's fields hold. */
  datatype Tree =
    | Leaf
    | Node(v: Varent, name: Name, val: Words, bal: int, left: Tree, right: Tree)

  /** A tree with one subtree missing: the hole is the right child of `v` iff `side`. */
  datatype Context =
    | Top
    | Step(v: Varent, name: Name, val: Words, bal: int, side: bool, sib: Tree, up: Context)

  // -------- shape --------

  ghost function Root(t: Tree): (r: Varent?)
    ensures t.Node? ==> r == t.v
  {
    if t.Leaf? then null else t.v
  }

  ghost function Nodes(t: Tree): set<Varent>
  {
    if t.Leaf? then {} else {t.v} + Nodes(t.left) + Nodes(t.right)
  }

  ghost function CtxNodes(c: Context): set<Varent>
  {
    if c.Top? then {} else {c.v} + Nodes(c.sib) + CtxNodes(c.up)
  }

  ghost function Over(c: Context, t: Tree): Tree
    requires c.Step?
  {
    if c.side then Node(c.v, c.name, c.val, c.bal, c.sib, t)
    else Node(c.v, c.name, c.val, c.bal, t, c.sib)
  }

  ghost function Plug(c: Context, t: Tree): Tree
    decreases c
  {
    if c.Top? then t else Plug(c.up, Over(c, t))
  }

  /** No node occurs twice. */
  ghost predicate Distinct(t: Tree)
  {
    t.Node? ==>
      && t.v !in Nodes(t.left) && t.v !in Nodes(t.right)
      && Nodes(t.left) !! Nodes(t.right)
      && Distinct(t.left) && Distinct(t.right)
  }

  ghost predicate CtxDistinct(c: Context)
  {
    c.Step? ==>
      && c.v !in Nodes(c.sib) && c.v !in CtxNodes(c.up)
      && Nodes(c.sib) !! CtxNodes(c.up)
      && Distinct(c.sib) && CtxDistinct(c.up)
  }

  lemma {:induction false} PlugNodes(c: Context, t: Tree)
    ensures Nodes(Plug(c, t)) == CtxNodes(c) + Nodes(t)
    decreases c
  {
    if c.Step? {
      PlugNodes(c.up, Over(c, t));
    }
  }

  /** Putting a tree with the same nodes in the hole keeps nodes apart. */
  lemma {:induction false} PlugDistinct(c: Context, t: Tree)
    ensures Distinct(Plug(c, t)) <==> Distinct(t) && CtxDistinct(c) && Nodes(t) !! CtxNodes(c)
    decreases c
  {
    if c.Step? {
      PlugDistinct(c.up, Over(c, t));
    }
  }

  // -------- order --------

  ghost function Inorder(t: Tree): seq<Binding>
  {
    if t.Leaf? then []
    else Inorder(t.left) + [Binding(t.v, t.name, t.val)] + Inorder(t.right)
  }

  /** What an in-order walk meets before it reaches the hole. */
  ghost function Before(c: Context): seq<Binding>
  {
    if c.Top? then []
    else if c.side then Before(c.up) + Inorder(c.sib) + [Binding(c.v, c.name, c.val)]
    else Before(c.up)
  }

  /** What an in-order walk meets after the hole. */
  ghost function After(c: Context): seq<Binding>
  {
    if c.Top? then []
    else if c.side then After(c.up)
    else [Binding(c.v, c.name, c.val)] + Inorder(c.sib) + After(c.up)
  }

  lemma {:induction false} Around(a: seq<Binding>, l: seq<Binding>, b: seq<Binding>, r: seq<Binding>, z: seq<Binding>)
    ensures a + (l + b + r) + z == (a + l + b) + r + z
    ensures a + (l + b + r) + z == a + l + (b + r + z)
    ensures a + (l + b + r) + z == (a + l) + b + (r + z)
  {
  }

  lemma {:induction false} PlugInorder(c: Context, t: Tree)
    ensures Inorder(Plug(c, t)) == Before(c) + Inorder(t) + After(c)
    decreases c
  {
    if c.Step? {
      PlugInorder(c.up, Over(c, t));
      if c.side {
        Around(Before(c.up), Inorder(c.sib), [Binding(c.v, c.name, c.val)], Inorder(t), After(c.up));
      } else {
        Around(Before(c.up), Inorder(t), [Binding(c.v, c.name, c.val)], Inorder(c.sib), After(c.up));
      }
    } else {
      assert Before(c) + Inorder(t) == Inorder(t);
    }
  }

  lemma {:induction false} PlugTop(t: Tree)
    ensures Plug(Top, t) == t
  {
  }

  ghost predicate Sorted(s: seq<Binding>)
  {
    forall i, j :: 0 <= i < j < |s| ==> Below(s[i].name, s[j].name)
  }

  ghost predicate AllBelow(s: seq<Binding>, name: Name)
  {
    forall i :: 0 <= i < |s| ==> Below(s[i].name, name)
  }

  ghost predicate AllAbove(s: seq<Binding>, name: Name)
  {
    forall i :: 0 <= i < |s| ==> Below(name, s[i].name)
  }

  /** The first thing a walk meets in a nonempty tree has a name below the rest, and so on. */
  lemma {:induction false} SortedSplit(a: seq<Binding>, b: Binding, c: seq<Binding>)
    ensures Sorted(a + [b] + c) <==>
            Sorted(a) && Sorted(c) && AllBelow(a, b.name) && AllAbove(c, b.name)
  {
    var s := a + [b] + c;
    assert forall i :: 0 <= i < |a| ==> s[i] == a[i];
    assert s[|a|] == b;
    assert forall i :: 0 <= i < |c| ==> s[|a| + 1 + i] == c[i];
    if Sorted(a) && Sorted(c) && AllBelow(a, b.name) && AllAbove(c, b.name) {
      forall i, j | 0 <= i < j < |s| ensures Below(s[i].name, s[j].name) {
        if i < |a| < j {
          assert s[j] == c[j - |a| - 1];
          BelowTransitive(s[i].name, b.name, s[j].name);
        } else if |a| < i {
          assert s[i] == c[i - |a| - 1] && s[j] == c[j - |a| - 1];
        }
      }
    }
    if Sorted(s) {
      forall i, j | 0 <= i < j < |c| ensures Below(c[i].name, c[j].name) {
        assert c[i] == s[|a| + 1 + i] && c[j] == s[|a| + 1 + j];
      }
      forall i | 0 <= i < |c| ensures Below(b.name, c[i].name) {
        assert c[i] == s[|a| + 1 + i];
      }
    }
  }

  // -------- each node is met once --------

  ghost predicate Once(s: seq<Binding>)
  {
    forall i, j :: 0 <= i < j < |s| ==> s[i].v != s[j].v
  }

  lemma {:induction false} WalkNodes(t: Tree)
    ensures forall i :: 0 <= i < |Inorder(t)| ==> Inorder(t)[i].v in Nodes(t)
  {
    if t.Node? {
      WalkNodes(t.left);
      WalkNodes(t.right);
    }
  }

  lemma {:induction false} WalkOnce(t: Tree)
    requires Distinct(t)
    ensures Once(Inorder(t))
  {
    if t.Node? {
      WalkOnce(t.left);
      WalkOnce(t.right);
      WalkNodes(t.left);
      WalkNodes(t.right);
    }
  }

  /** Where a node is met on a walk is determined by the node. */
  lemma {:induction false} UniqueSplit(a: seq<Binding>, b: Binding, c: seq<Binding>, a': seq<Binding>, b': Binding, c': seq<Binding>)
    requires a + [b] + c == a' + [b'] + c' && Once(a + [b] + c) && b.v == b'.v
    ensures a == a' && b == b' && c == c'
  {
    var s := a + [b] + c;
    assert s[|a|] == b && s[|a'|] == b';
    assert |a| == |a'|;
    assert a == s[..|a|] && a' == s[..|a'|];
    assert c == s[|a| + 1..] && c' == s[|a'| + 1..];
  }

  // -------- the finite map a sorted walk stands for --------

  ghost function Dict(s: seq<Binding>): map<Name, Words>
  {
    if s == [] then map[] else Dict(s[1..])[s[0].name := s[0].val]
  }

  lemma {:induction false} DictKeys(s: seq<Binding>, name: Name)
    ensures name in Dict(s) <==> exists i :: 0 <= i < |s| && s[i].name == name
  {
    if s != [] {
      DictKeys(s[1..], name);
      if name in Dict(s[1..]) {
        var i :| 0 <= i < |s[1..]| && s[1..][i].name == name;
        assert s[i + 1].name == name;
      }
      if i :| 0 < i < |s| && s[i].name == name {
        assert s[1..][i - 1].name == name;
      }
    }
  }

  lemma {:induction false} DictConcat(a: seq<Binding>, b: seq<Binding>)
    ensures Dict(a + b) == Dict(b) + Dict(a)
  {
    if a == [] {
      assert a + b == b;
    } else {
      assert (a + b)[1..] == a[1..] + b;
      DictConcat(a[1..], b);
    }
  }

  /** A name strictly between two parts of a walk is bound by neither. */
  lemma {:induction false} NotBound(a: seq<Binding>, name: Name)
    requires AllBelow(a, name) || AllAbove(a, name)
    ensures name !in Dict(a)
  {
    DictKeys(a, name);
    if i :| 0 <= i < |a| && a[i].name == name {
      BelowTrichotomy(a[i].name, name);
    }
  }

  /** Around a binding in a sorted walk: its own entry, and the map with it changed or taken out. */
  lemma {:induction false} DictAround(a: seq<Binding>, b: Binding, c: seq<Binding>)
    requires Sorted(a + [b] + c)
    ensures b.name in Dict(a + [b] + c) && Dict(a + [b] + c)[b.name] == b.val
    ensures Dict(a + [b] + c) == Dict(a + c)[b.name := b.val]
    ensures b.name !in Dict(a + c)
  {
    SortedSplit(a, b, c);
    NotBound(a, b.name);
    NotBound(c, b.name);
    DictConcat(a, c);
    DictConcat(a, [b] + c);
    assert a + [b] + c == a + ([b] + c);
    assert ([b] + c)[1..] == c;
  }

  /** Bindings outnumber nothing: a sorted walk binds as many names as it has entries. */
  lemma {:induction false} DictSize(s: seq<Binding>)
    requires Sorted(s)
    ensures |Dict(s)| == |s|
  {
    if s != [] {
      DictSize(s[1..]);
      assert s == [] + [s[0]] + s[1..];
      SortedSplit([], s[0], s[1..]);
      NotBound(s[1..], s[0].name);
    }
  }

  // -------- height and balance --------

  ghost function Max(a: int, b: int): int { if a < b then b else a }

  ghost function Height(t: Tree): nat
  {
    if t.Leaf? then 0 else 1 + Max(Height(t.left), Height(t.right))
  }

  /** Every stored balance is the height difference, and is -1, 0 or 1. */
  ghost predicate Avl(t: Tree)
  {
    t.Node? ==>
      && t.bal == Height(t.right) - Height(t.left)
      && -1 <= t.bal <= 1
      && Avl(t.left) && Avl(t.right)
  }

  /** The context is balanced for a subtree of height `h` in the hole. */
  ghost predicate CtxAvl(c: Context, h: int)
  {
    c.Step? ==>
      && 0 <= h
      && c.bal == (if c.side then h - Height(c.sib) else Height(c.sib) - h)
      && -1 <= c.bal <= 1
      && Avl(c.sib)
      && CtxAvl(c.up, 1 + Max(h, Height(c.sib)))
  }

  lemma {:induction false} PlugAvl(c: Context, t: Tree)
    requires Avl(t) && CtxAvl(c, Height(t))
    ensures Avl(Plug(c, t))
    decreases c
  {
    if c.Step? {
      PlugAvl(c.up, Over(c, t));
    }
  }

  lemma {:induction false} UnplugAvl(c: Context, t: Tree)
    requires Avl(Plug(c, t))
    ensures Avl(t) && CtxAvl(c, Height(t))
    decreases c
  {
    if c.Step? {
      UnplugAvl(c.up, Over(c, t));
    }
  }

  function Fib(n: nat): nat
  {
    if n < 2 then n else Fib(n - 1) + Fib(n - 2)
  }

  lemma {:induction false} FibMonotone(m: nat, n: nat)
    requires m <= n
    ensures Fib(m) <= Fib(n)
    decreases n
  {
    if m < n {
      FibMonotone(m, n - 1);
    }
  }

  /** A balanced tree of height h holds at least Fib(h + 2) - 1 names. */
  lemma {:induction false} FibonacciBound(t: Tree)
    requires Avl(t)
    ensures |Inorder(t)| >= Fib(Height(t) + 2) - 1
  {
    hide Fib;
    var h := Height(t);
    FibStep(h);
    if t.Node? {
      FibonacciBound(t.left);
      FibonacciBound(t.right);
      FibMonotone(h, Height(t.left) + 2);
      FibMonotone(h, Height(t.right) + 2);
    }
  }

  lemma {:induction false} FibStep(h: nat)
    ensures Fib(h + 2) == Fib(h + 1) + Fib(h) && (h == 0 ==> Fib(h + 2) == 1)
  {
  }

  lemma {:induction false} FibGrowth(h: nat)
    ensures Fib(h + 2) >= Pow2((h + 1) / 2)
  {
    if h >= 2 {
      FibGrowth(h - 2);
      FibMonotone(h, h + 1);
      assert (h + 1) / 2 == (h - 2 + 1) / 2 + 1;
    }
  }

  /** Hence the height is logarithmic in the number of names. */
  lemma {:induction false} HeightBound(t: Tree)
    requires Avl(t)
    ensures Pow2((Height(t) + 1) / 2) <= |Inorder(t)| + 1
  {
    FibonacciBound(t);
    FibGrowth(Height(t));
  }

  // -------- rotation --------

  ghost function RotLeft(t: Tree): Tree
    requires t.Node? && t.right.Node?
  {
    t.right.(left := t.(right := t.right.left))
  }

  ghost function RotRight(t: Tree): Tree
    requires t.Node? && t.left.Node?
  {
    t.left.(right := t.(left := t.left.right))
  }

  ghost predicate SameWalk(t: Tree, u: Tree)
  {
    Nodes(t) == Nodes(u) && Inorder(t) == Inorder(u) && (Distinct(t) <==> Distinct(u))
  }

  lemma {:induction false} RotLeftSameWalk(t: Tree)
    requires t.Node? && t.right.Node?
    ensures SameWalk(RotLeft(t), t)
  {
    var a, b, c := Inorder(t.left), Inorder(t.right.left), Inorder(t.right.right);
    var x, y := [Binding(t.v, t.name, t.val)], [Binding(t.right.v, t.right.name, t.right.val)];
    assert Inorder(RotLeft(t)) == (a + x + b) + y + c;
    assert Inorder(t) == a + x + (b + y + c);
  }

  lemma {:induction false} RotRightSameWalk(t: Tree)
    requires t.Node? && t.left.Node?
    ensures SameWalk(RotRight(t), t)
  {
    assert RotLeft(RotRight(t)) == t;
    RotLeftSameWalk(RotRight(t));
  }

  /** Overwrite the balances of the root and of its two children (where they exist). */
  ghost function Rebal(t: Tree, bl: int, b: int, br: int): Tree
    requires t.Node?
  {
    t.(bal := b,
       left := if t.left.Leaf? then Leaf else t.left.(bal := bl),
       right := if t.right.Leaf? then Leaf else t.right.(bal := br))
  }

  lemma {:induction false} BalSameWalk(t: Tree, b: int)
    requires t.Node?
    ensures SameWalk(t.(bal := b), t)
  {
  }

  lemma {:induction false} RebalSameWalk(t: Tree, bl: int, b: int, br: int)
    requires t.Node?
    ensures SameWalk(Rebal(t, bl, b, br), t)
  {
  }

  /** The nodes one turn of the rebalancing loop looks at are there. */
  ghost predicate CanFixRight(t: Tree)
  {
    && t.Node? && -1 <= t.bal <= 1
    && (t.bal == 1 ==>
          t.right.Node? && -1 <= t.right.bal <= 1 && (t.right.bal == -1 ==> t.right.left.Node?))
  }

  ghost predicate CanFixLeft(t: Tree)
  {
    && t.Node? && -1 <= t.bal <= 1
    && (t.bal == -1 ==>
          t.left.Node? && -1 <= t.left.bal <= 1 && (t.left.bal == 1 ==> t.left.right.Node?))
  }

  /**
   What one turn of the rebalancing loop makes of a node whose right side has
   become one too high for the recorded balance.
   */
  ghost function FixRight(t: Tree): Tree
    requires CanFixRight(t)
  {
    if t.bal < 1 then t.(bal := t.bal + 1)
    else if t.right.bal == 1 then
      var r := RotLeft(t); r.(bal := 0, left := r.left.(bal := 0))
    else if t.right.bal == 0 then
      var r := RotLeft(t); r.(bal := -1, left := r.left.(bal := 1))
    else
      var r := RotLeft(t.(right := RotRight(t.right)));
      Rebal(r, if r.bal < 1 then 0 else -1, 0, if r.bal > -1 then 0 else 1)
  }

  ghost function FixLeft(t: Tree): Tree
    requires CanFixLeft(t)
  {
    if t.bal > -1 then t.(bal := t.bal - 1)
    else if t.left.bal == -1 then
      var r := RotRight(t); r.(bal := 0, right := r.right.(bal := 0))
    else if t.left.bal == 0 then
      var r := RotRight(t); r.(bal := 1, right := r.right.(bal := -1))
    else
      var r := RotRight(t.(left := RotLeft(t.left)));
      Rebal(r, if r.bal < 1 then 0 else -1, 0, if r.bal > -1 then 0 else 1)
  }

  /** The node's children are balanced and the right one is `skew` higher than recorded. */
  ghost predicate Skewed(t: Tree, skew: int)
  {
    && t.Node? && Avl(t.left) && Avl(t.right)
    && -1 <= t.bal <= 1
    && Height(t.right) - Height(t.left) == t.bal + skew
  }

  /**
   One turn restores balance, whatever was inserted or deleted below. The height
   of the result is that of the skewed tree, one less when the skew was undone by
   a rotation that leaves the node level.
   */
  lemma {:induction false} FixRightBalances(t: Tree)
    requires Skewed(t, 1)
    ensures CanFixRight(t)
    ensures Avl(FixRight(t))
    ensures Height(FixRight(t)) == Height(t) - (if t.bal == 1 && t.right.bal != 0 then 1 else 0)
    ensures FixRight(t).bal == 0 <==> t.bal == -1 || (t.bal == 1 && t.right.bal != 0)
  {
    if t.bal == 1 && t.right.bal == -1 {
      var g := t.right.left;
      assert Avl(g);
    }
  }

  lemma {:induction false} FixLeftBalances(t: Tree)
    requires Skewed(t, -1)
    ensures CanFixLeft(t)
    ensures Avl(FixLeft(t))
    ensures Height(FixLeft(t)) == Height(t) - (if t.bal == -1 && t.left.bal != 0 then 1 else 0)
    ensures FixLeft(t).bal == 0 <==> t.bal == 1 || (t.bal == -1 && t.left.bal != 0)
  {
    if t.bal == -1 && t.left.bal == 1 {
      var g := t.left.right;
      assert Avl(g);
    }
  }

  lemma {:induction false} FixRightSameWalk(t: Tree)
    requires CanFixRight(t)
    ensures SameWalk(FixRight(t), t)
  {
    if t.bal == 1 {
      if t.right.bal == -1 {
        DoubleLeftSameWalk(t);
        var r := RotLeft(t.(right := RotRight(t.right)));
        RebalSameWalk(r, if r.bal < 1 then 0 else -1, 0, if r.bal > -1 then 0 else 1);
      } else {
        RotLeftSameWalk(t);
      }
    }
  }

  lemma {:induction false} DoubleLeftSameWalk(t: Tree)
    requires t.Node? && t.right.Node? && t.right.left.Node?
    ensures SameWalk(RotLeft(t.(right := RotRight(t.right))), t)
  {
    RotRightSameWalk(t.right);
    RotLeftSameWalk(t.(right := RotRight(t.right)));
  }

  lemma {:induction false} FixLeftSameWalk(t: Tree)
    requires CanFixLeft(t)
    ensures SameWalk(FixLeft(t), t)
  {
    if t.bal == -1 {
      if t.left.bal == 1 {
        DoubleRightSameWalk(t);
        var r := RotRight(t.(left := RotLeft(t.left)));
        RebalSameWalk(r, if r.bal < 1 then 0 else -1, 0, if r.bal > -1 then 0 else 1);
      } else {
        RotRightSameWalk(t);
      }
    }
  }

  lemma {:induction false} DoubleRightSameWalk(t: Tree)
    requires t.Node? && t.left.Node? && t.left.right.Node?
    ensures SameWalk(RotRight(t.(left := RotLeft(t.left))), t)
  {
    RotLeftSameWalk(t.left);
    RotRightSameWalk(t.(left := RotLeft(t.left)));
  }
}
