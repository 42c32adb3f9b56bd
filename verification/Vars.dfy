/**
 The shell's variable and alias store: a balanced tree of linked nodes that is
 searched, extended, pruned and rebalanced in place.
 */
module Vars {
  import opened Names
  import opened VarTree

  // -------- what the heap looks like --------

  /** The fields of the nodes of `t` are as `t` says, and its root's parent is `p`. */
  ghost predicate Linked(t: Tree, p: Varent?)
    reads Nodes(t)
  {
    t.Node? ==>
      && t.v.name == t.name && t.v.vec == t.val && t.v.bal == t.bal
      && t.v.parent == p
      && t.v.left == Root(t.left) && t.v.right == Root(t.right)
      && Linked(t.left, t.v) && Linked(t.right, t.v)
  }

  /** The node whose child the hole is. */
  ghost function Above(c: Context, head: Varent): Varent
  {
    if c.Top? then head else c.v
  }

  /** The context is linked up to the header, with `child` in the hole. */
  ghost predicate Hung(c: Context, head: Varent, child: Varent?)
    reads CtxNodes(c), head
  {
    if c.Top? then head.parent == null && head.right == null && head.left == child
    else
      && c.v.name == c.name && c.v.vec == c.val && c.v.bal == c.bal
      && c.v.parent == Above(c.up, head)
      && c.v.left == (if c.side then Root(c.sib) else child)
      && c.v.right == (if c.side then child else Root(c.sib))
      && Linked(c.sib, c.v)
      && Hung(c.up, head, c.v)
  }

  /** The heap holds `t` in the hole of `c`, below `head`, no node shared. */
  ghost predicate Zipped(c: Context, t: Tree, head: Varent)
    reads CtxNodes(c), Nodes(t), head
  {
    && Hung(c, head, Root(t)) && Linked(t, Above(c, head))
    && Distinct(t) && CtxDistinct(c) && Nodes(t) !! CtxNodes(c)
    && head !in Nodes(t) && head !in CtxNodes(c)
  }

  lemma {:induction false} ZipUp(c: Context, t: Tree, head: Varent)
    requires Zipped(c, t, head) && c.Step?
    ensures Zipped(c.up, Over(c, t), head)
  {
  }

  ghost function Down(c: Context, t: Tree, side: bool): Context
    requires t.Node?
  {
    Step(t.v, t.name, t.val, t.bal, side, if side then t.left else t.right, c)
  }

  ghost function Child(t: Tree, side: bool): Tree
    requires t.Node?
  {
    if side then t.right else t.left
  }

  lemma {:induction false} ZipDown(c: Context, t: Tree, side: bool, head: Varent)
    requires Zipped(c, t, head) && t.Node?
    ensures Zipped(Down(c, t, side), Child(t, side), head)
    ensures Plug(Down(c, t, side), Child(t, side)) == Plug(c, t)
  {
  }

  lemma {:induction false} ZipTop(c: Context, t: Tree, head: Varent)
    requires Zipped(c, t, head)
    ensures Zipped(Top, Plug(c, t), head)
    decreases c
  {
    if c.Step? {
      ZipUp(c, t, head);
      ZipTop(c.up, Over(c, t), head);
    }
  }

  // -------- rotations --------

  /** `rleft`: the right child of `p` takes its place; the caller stores the result in the parent. */
  method RotateLeft(p: Varent, ghost s: Tree, ghost q: Varent) returns (t: Varent)
    requires s.Node? && s.v == p && s.right.Node?
    requires Linked(s, q) && Distinct(s)
    modifies Nodes(s)
    ensures Linked(RotLeft(s), q) && t == RotLeft(s).v
  {
    ghost var mid, out := s.right.left, s.right.right;
    t := p.right;
    t.parent := p.parent;
    p.right := t.left;
    assert Linked(mid, t) && Linked(s.left, p) && Linked(out, t);
    assert allocated(Nodes(s.left)) && allocated(Nodes(out)) && allocated(Nodes(mid));
    Adopt(t.left, p, mid, t);
    assert Linked(s.left, p) && Linked(out, t);
    SeatLeft(t, p, s.right, s.(right := mid), q);
  }

  /** `p` becomes the left child of `t`. */
  method SeatLeft(t: Varent, p: Varent, ghost u: Tree, ghost s: Tree, ghost q: Varent)
    requires u.Node? && u.v == t && t.name == u.name && t.vec == u.val && t.bal == u.bal && t.parent == q
    requires t.right == Root(u.right) && Linked(u.right, t) && Linked(s, q) && s.Node? && s.v == p && Distinct(s)
    requires t !in Nodes(s) && t !in Nodes(u.right) && p !in Nodes(u.right)
    modifies t, p
    ensures Linked(u.(left := s), q)
  {
    t.left := p;
    assert Linked(s, q) && Linked(u.right, t);
    assert allocated(Nodes(u.right));
    Adopt(p, t, s, q);
    assert Linked(u.right, t);
  }

  /** `rright`, the mirror image. */
  method RotateRight(p: Varent, ghost s: Tree, ghost q: Varent) returns (t: Varent)
    requires s.Node? && s.v == p && s.left.Node?
    requires Linked(s, q) && Distinct(s)
    modifies Nodes(s)
    ensures Linked(RotRight(s), q) && t == RotRight(s).v
  {
    ghost var mid, out := s.left.right, s.left.left;
    t := p.left;
    t.parent := p.parent;
    p.left := t.right;
    assert Linked(mid, t) && Linked(s.right, p) && Linked(out, t);
    assert allocated(Nodes(s.right)) && allocated(Nodes(out)) && allocated(Nodes(mid));
    Adopt(t.right, p, mid, t);
    assert Linked(s.right, p) && Linked(out, t);
    SeatRight(t, p, s.left, s.(left := mid), q);
  }

  /** `p` becomes the right child of `t`. */
  method SeatRight(t: Varent, p: Varent, ghost u: Tree, ghost s: Tree, ghost q: Varent)
    requires u.Node? && u.v == t && t.name == u.name && t.vec == u.val && t.bal == u.bal && t.parent == q
    requires t.left == Root(u.left) && Linked(u.left, t) && Linked(s, q) && s.Node? && s.v == p && Distinct(s)
    requires t !in Nodes(s) && t !in Nodes(u.left) && p !in Nodes(u.left)
    modifies t, p
    ensures Linked(u.(right := s), q)
  {
    t.right := p;
    assert Linked(s, q) && Linked(u.left, t);
    assert allocated(Nodes(u.left));
    Adopt(p, t, s, q);
    assert Linked(u.left, t);
  }

  /** A subtree, if it is not empty, gets another parent. */
  method Adopt(r: Varent?, p: Varent, ghost t: Tree, ghost q: Varent)
    requires Linked(t, q) && Distinct(t) && r == Root(t)
    modifies if r == null then {} else {r}
    ensures Linked(t, p)
    ensures r != null ==> r.left == old(r.left) && r.right == old(r.right)
  {
    if r != null {
      assert Linked(t.left, r) && Linked(t.right, r);
      r.parent := p;
      assert Linked(t.left, r) && Linked(t.right, r);
    }
  }

  /** `pp->v_link[ff] = r`: hang the tree `t`, already linked to its new parent, in the hole. */
  method Hang(pp: Varent, ff: bool, r: Varent?, head: Varent, ghost c: Context, ghost was: Varent?, ghost t: Tree)
    requires Hung(c, head, was) && CtxDistinct(c) && head !in CtxNodes(c)
    requires Linked(t, pp) && Distinct(t) && Nodes(t) !! CtxNodes(c) && head !in Nodes(t)
    requires pp == Above(c, head) && ff == (c.Step? && c.side) && r == Root(t)
    modifies pp
    ensures Zipped(c, t, head)
  {
    assert c.Step? ==> Hung(c.up, head, c.v) && Linked(c.sib, c.v);
    if ff {
      pp.right := r;
    } else {
      pp.left := r;
    }
    assert c.Step? ==> Hung(c.up, head, c.v) && Linked(c.sib, c.v);
  }

  method SetBal(v: Varent, b: int, ghost t: Tree, ghost q: Varent)
    requires t.Node? && t.v == v && Linked(t, q) && Distinct(t)
    modifies v`bal
    ensures Linked(t.(bal := b), q)
  {
    assert Linked(t.left, v) && Linked(t.right, v);
    v.bal := b;
    assert Linked(t.left, v) && Linked(t.right, v);
  }

  /** The balances of `r` and of its left child, rewritten after a rotation. */
  method SetLeftBalances(r: Varent, bl: int, b: int, ghost t: Tree, ghost q: Varent)
    requires t.Node? && t.v == r && t.left.Node? && Linked(t, q) && Distinct(t)
    modifies r`bal, r.left`bal
    ensures Linked(t.(bal := b, left := t.left.(bal := bl)), q)
  {
    assert Linked(t.left, r) && Linked(t.right, r);
    assert allocated(Nodes(t.left)) && allocated(Nodes(t.right));
    SetBal(r.left, bl, t.left, r);
    assert Linked(t.right, r);
    SetBal(r, b, t.(left := t.left.(bal := bl)), q);
  }

  method SetRightBalances(r: Varent, b: int, br: int, ghost t: Tree, ghost q: Varent)
    requires t.Node? && t.v == r && t.right.Node? && Linked(t, q) && Distinct(t)
    modifies r`bal, r.right`bal
    ensures Linked(t.(bal := b, right := t.right.(bal := br)), q)
  {
    assert Linked(t.left, r) && Linked(t.right, r);
    assert allocated(Nodes(t.left)) && allocated(Nodes(t.right));
    SetBal(r.right, br, t.right, r);
    assert Linked(t.left, r);
    SetBal(r, b, t.(right := t.right.(bal := br)), q);
  }

  method SetBothBalances(r: Varent, bl: int, b: int, br: int, ghost t: Tree, ghost q: Varent)
    requires t.Node? && t.v == r && t.left.Node? && t.right.Node? && Linked(t, q) && Distinct(t)
    modifies r`bal, r.left`bal, r.right`bal
    ensures Linked(Rebal(t, bl, b, br), q)
  {
    BalSameWalk(t.left, bl);
    SetLeftBalances(r, bl, b, t, q);
    SetRightBalances(r, b, br, t.(bal := b, left := t.left.(bal := bl)), q);
  }

  /** `pp->v_link[ff] = rleft(p)`, then new balances for the new root and its left child. */
  method SingleLeft(p: Varent, pp: Varent, ff: bool, bl: int, b: int, head: Varent, ghost c: Context, ghost s: Tree)
    returns (r: Varent)
    requires Zipped(c, s, head) && s.Node? && s.v == p && s.right.Node?
    requires pp == Above(c, head) && ff == (c.Step? && c.side)
    modifies Nodes(s), pp
    ensures var w := RotLeft(s); Zipped(c, w.(bal := b, left := w.left.(bal := bl)), head) && r == w.v
  {
    RotLeftSameWalk(s);
    ghost var w := RotLeft(s);
    assert allocated(CtxNodes(c));
    r := RotateLeft(p, s, pp);
    assert Hung(c, head, p);
    SetLeftBalances(r, bl, b, w, pp);
    assert Hung(c, head, p);
    BalSameWalk(w.left, bl);
    Hang(pp, ff, r, head, c, p, w.(bal := b, left := w.left.(bal := bl)));
  }

  /** `rright` on the right child, then `rleft`. */
  method RotateRightLeft(p: Varent, ghost s: Tree, ghost q: Varent) returns (r: Varent)
    requires s.Node? && s.v == p && s.right.Node? && s.right.left.Node?
    requires Linked(s, q) && Distinct(s)
    modifies Nodes(s)
    ensures var w := RotLeft(s.(right := RotRight(s.right))); Linked(w, q) && r == w.v
  {
    RotRightSameWalk(s.right);
    ghost var u := s.(right := RotRight(s.right));
    assert Linked(s.left, p) && Linked(s.right, p);
    assert allocated(Nodes(s.left));
    var t := RotateRight(p.right, s.right, p);
    p.right := t;
    assert Linked(s.left, p) && Linked(u.right, p);
    r := RotateLeft(p, u, q);
  }

  /** The double rotation, then new balances for the three nodes involved. */
  method DoubleLeft(p: Varent, pp: Varent, ff: bool, head: Varent, ghost c: Context, ghost s: Tree)
    returns (r: Varent)
    requires Zipped(c, s, head) && s.Node? && s.v == p && s.right.Node? && s.right.left.Node?
    requires pp == Above(c, head) && ff == (c.Step? && c.side)
    modifies Nodes(s), pp
    ensures var w := RotLeft(s.(right := RotRight(s.right)));
            && Zipped(c, Rebal(w, if w.bal < 1 then 0 else -1, 0, if w.bal > -1 then 0 else 1), head)
            && r == w.v
  {
    DoubleLeftSameWalk(s);
    ghost var w := RotLeft(s.(right := RotRight(s.right)));
    assert allocated(CtxNodes(c));
    r := RotateRightLeft(p, s, pp);
    assert Hung(c, head, p);
    var b := r.bal;
    RebalSameWalk(w, if b < 1 then 0 else -1, 0, if b > -1 then 0 else 1);
    SetBothBalances(r, if b < 1 then 0 else -1, 0, if b > -1 then 0 else 1, w, pp);
    assert Hung(c, head, p);
    Hang(pp, ff, r, head, c, p, Rebal(w, if b < 1 then 0 else -1, 0, if b > -1 then 0 else 1));
  }

  /** The turn taken when the right side of `p` has become too heavy. */
  method FixRightInPlace(p: Varent, pp: Varent, ff: bool, head: Varent, ghost c: Context, ghost s: Tree)
    returns (r: Varent)
    requires Zipped(c, s, head) && CanFixRight(s) && s.v == p
    requires pp == Above(c, head) && ff == (c.Step? && c.side)
    modifies Nodes(s), pp
    ensures Zipped(c, FixRight(s), head) && r == FixRight(s).v
  {
    assert Linked(s.right, p);
    if p.bal != 1 {
      assert allocated(CtxNodes(c));
      SetBal(p, if p.bal == -1 then 0 else 1, s, pp);
      r := p;
    } else if p.right.bal == 1 {
      r := SingleLeft(p, pp, ff, 0, 0, head, c, s);
    } else if p.right.bal == 0 {
      r := SingleLeft(p, pp, ff, 1, -1, head, c, s);
    } else {
      r := DoubleLeft(p, pp, ff, head, c, s);
    }
  }

  /** `pp->v_link[ff] = rright(p)`, then new balances for the new root and its right child. */
  method SingleRight(p: Varent, pp: Varent, ff: bool, b: int, br: int, head: Varent, ghost c: Context, ghost s: Tree)
    returns (r: Varent)
    requires Zipped(c, s, head) && s.Node? && s.v == p && s.left.Node?
    requires pp == Above(c, head) && ff == (c.Step? && c.side)
    modifies Nodes(s), pp
    ensures var w := RotRight(s); Zipped(c, w.(bal := b, right := w.right.(bal := br)), head) && r == w.v
  {
    RotRightSameWalk(s);
    ghost var w := RotRight(s);
    assert allocated(CtxNodes(c));
    r := RotateRight(p, s, pp);
    assert Hung(c, head, p);
    SetRightBalances(r, b, br, w, pp);
    assert Hung(c, head, p);
    BalSameWalk(w.right, br);
    Hang(pp, ff, r, head, c, p, w.(bal := b, right := w.right.(bal := br)));
  }

  /** `rleft` on the left child, then `rright`. */
  method RotateLeftRight(p: Varent, ghost s: Tree, ghost q: Varent) returns (r: Varent)
    requires s.Node? && s.v == p && s.left.Node? && s.left.right.Node?
    requires Linked(s, q) && Distinct(s)
    modifies Nodes(s)
    ensures var w := RotRight(s.(left := RotLeft(s.left))); Linked(w, q) && r == w.v
  {
    RotLeftSameWalk(s.left);
    ghost var u := s.(left := RotLeft(s.left));
    assert Linked(s.right, p) && Linked(s.left, p);
    assert allocated(Nodes(s.right));
    var t := RotateLeft(p.left, s.left, p);
    p.left := t;
    assert Linked(s.right, p) && Linked(u.left, p);
    r := RotateRight(p, u, q);
  }

  /** The double rotation, then new balances for the three nodes involved. */
  method DoubleRight(p: Varent, pp: Varent, ff: bool, head: Varent, ghost c: Context, ghost s: Tree)
    returns (r: Varent)
    requires Zipped(c, s, head) && s.Node? && s.v == p && s.left.Node? && s.left.right.Node?
    requires pp == Above(c, head) && ff == (c.Step? && c.side)
    modifies Nodes(s), pp
    ensures var w := RotRight(s.(left := RotLeft(s.left)));
            && Zipped(c, Rebal(w, if w.bal < 1 then 0 else -1, 0, if w.bal > -1 then 0 else 1), head)
            && r == w.v
  {
    DoubleRightSameWalk(s);
    ghost var w := RotRight(s.(left := RotLeft(s.left)));
    assert allocated(CtxNodes(c));
    r := RotateLeftRight(p, s, pp);
    assert Hung(c, head, p);
    var b := r.bal;
    RebalSameWalk(w, if b < 1 then 0 else -1, 0, if b > -1 then 0 else 1);
    SetBothBalances(r, if b < 1 then 0 else -1, 0, if b > -1 then 0 else 1, w, pp);
    assert Hung(c, head, p);
    Hang(pp, ff, r, head, c, p, Rebal(w, if b < 1 then 0 else -1, 0, if b > -1 then 0 else 1));
  }

  /** The turn taken when the left side of `p` has become too heavy. */
  method FixLeftInPlace(p: Varent, pp: Varent, ff: bool, head: Varent, ghost c: Context, ghost s: Tree)
    returns (r: Varent)
    requires Zipped(c, s, head) && CanFixLeft(s) && s.v == p
    requires pp == Above(c, head) && ff == (c.Step? && c.side)
    modifies Nodes(s), pp
    ensures Zipped(c, FixLeft(s), head) && r == FixLeft(s).v
  {
    assert Linked(s.left, p);
    if p.bal != -1 {
      assert allocated(CtxNodes(c));
      SetBal(p, if p.bal == 1 then 0 else -1, s, pp);
      r := p;
    } else if p.left.bal == -1 {
      r := SingleRight(p, pp, ff, 0, 0, head, c, s);
    } else if p.left.bal == 0 {
      r := SingleRight(p, pp, ff, 1, -1, head, c, s);
    } else {
      r := DoubleRight(p, pp, ff, head, c, s);
    }
  }

  /** The same turn by what it achieves: balance is back, the walk is unchanged. */
  method RestoreRight(p: Varent, pp: Varent, ff: bool, head: Varent, ghost c: Context, ghost s: Tree)
    returns (r: Varent, ghost u: Tree)
    requires Zipped(c, s, head) && Skewed(s, 1) && s.v == p
    requires pp == Above(c, head) && ff == (c.Step? && c.side)
    modifies Nodes(s), pp
    ensures Zipped(c, u, head) && u.Node? && r == u.v && SameWalk(u, s) && Avl(u)
    ensures Height(u) == Height(s) - (if s.bal == 1 && s.right.bal != 0 then 1 else 0)
    ensures u.bal == 0 <==> s.bal == -1 || (s.bal == 1 && s.right.bal != 0)
  {
    FixRightBalances(s);
    FixRightSameWalk(s);
    r := FixRightInPlace(p, pp, ff, head, c, s);
    u := FixRight(s);
  }

  /** The same turn by what it achieves: balance is back, the walk is unchanged. */
  method RestoreLeft(p: Varent, pp: Varent, ff: bool, head: Varent, ghost c: Context, ghost s: Tree)
    returns (r: Varent, ghost u: Tree)
    requires Zipped(c, s, head) && Skewed(s, -1) && s.v == p
    requires pp == Above(c, head) && ff == (c.Step? && c.side)
    modifies Nodes(s), pp
    ensures Zipped(c, u, head) && u.Node? && r == u.v && SameWalk(u, s) && Avl(u)
    ensures Height(u) == Height(s) - (if s.bal == -1 && s.left.bal != 0 then 1 else 0)
    ensures u.bal == 0 <==> s.bal == 1 || (s.bal == -1 && s.left.bal != 0)
  {
    FixLeftBalances(s);
    FixLeftSameWalk(s);
    r := FixLeftInPlace(p, pp, ff, head, c, s);
    u := FixLeft(s);
  }

  // -------- the rebalancing loop --------

  /** The subtree in the hole has changed height: shrunk after a delete, grown after an insert. */
  ghost predicate Changed(c: Context, t: Tree, h: nat, d: bool)
  {
    && Avl(t) && CtxAvl(c, h)
    && Height(t) == (if d then h - 1 else h + 1)
    && (!d ==> t.bal != 0 || Height(t) == 1)
  }

  /**
   Whether a turn absorbs the level change shows in the balance of its result
   `u`: the loop's test for stopping is exact.
   */
  lemma {:induction false} AbsorbRight(c: Context, t: Tree, h: nat, d: bool, u: Tree)
    requires c.Step? && c.side != d && Changed(c, t, h, d)
    requires u.Node? && Avl(u)
    requires var s := Over(c, t);
             && Height(u) == Height(s) - (if s.bal == 1 && s.right.bal != 0 then 1 else 0)
             && (u.bal == 0 <==> s.bal == -1 || (s.bal == 1 && s.right.bal != 0))
    ensures if (u.bal == 0) != d then CtxAvl(c.up, Height(u))
            else Changed(c.up, u, 1 + Max(h, Height(c.sib)), d)
  {
    hide Avl;
  }

  lemma {:induction false} AbsorbLeft(c: Context, t: Tree, h: nat, d: bool, u: Tree)
    requires c.Step? && c.side == d && Changed(c, t, h, d)
    requires u.Node? && Avl(u)
    requires var s := Over(c, t);
             && Height(u) == Height(s) - (if s.bal == -1 && s.left.bal != 0 then 1 else 0)
             && (u.bal == 0 <==> s.bal == 1 || (s.bal == -1 && s.left.bal != 0))
    ensures if (u.bal == 0) != d then CtxAvl(c.up, Height(u))
            else Changed(c.up, u, 1 + Max(h, Height(c.sib)), d)
  {
    hide Avl;
  }

  /** A changed child leaves its parent skewed to the heavier side. */
  lemma {:induction false} ChangedSkews(c: Context, t: Tree, h: nat, d: bool)
    requires c.Step? && Changed(c, t, h, d)
    ensures if c.side != d then Skewed(Over(c, t), 1) else Skewed(Over(c, t), -1)
  {
  }

  lemma {:induction false} PlugSameWalk(c: Context, t: Tree, u: Tree)
    requires SameWalk(t, u)
    ensures Inorder(Plug(c, t)) == Inorder(Plug(c, u)) && Nodes(Plug(c, t)) == Nodes(Plug(c, u))
  {
    PlugInorder(c, t);
    PlugInorder(c, u);
    PlugNodes(c, t);
    PlugNodes(c, u);
  }

  /** One turn of the loop at `p`, found heavy on the right, before the loop moves on to `pp`. */
  method TurnRight(p: Varent, pp: Varent, ff: bool, d: bool, head: Varent, ghost c: Context, ghost t: Tree, ghost h: nat)
    returns (r: Varent, ghost u: Tree, ghost k: nat)
    requires c.Step? && Zipped(c, t, head) && c.v == p && c.side != d && Changed(c, t, h, d)
    requires pp == Above(c.up, head) && ff == (c.up.Step? && c.up.side)
    modifies CtxNodes(c), Nodes(t), head
    ensures u.Node? && u.v == r && Zipped(c.up, u, head) && Avl(u)
    ensures Inorder(Plug(c.up, u)) == Inorder(Plug(c, t)) && Nodes(Plug(c.up, u)) == Nodes(Plug(c, t))
    ensures if (u.bal == 0) != d then CtxAvl(c.up, Height(u)) else Changed(c.up, u, k, d)
  {
    hide Avl, Inorder, Distinct, Height, CtxAvl, Skewed, Changed, SameWalk, Zipped;
    ChangedSkews(c, t, h, d);
    k := 1 + Max(h, Height(c.sib));
    ZipUp(c, t, head);
    r, u := RestoreRight(p, pp, ff, head, c.up, Over(c, t));
    AbsorbRight(c, t, h, d, u);
    PlugSameWalk(c.up, u, Over(c, t));
  }

  /** One turn of the loop at `p`, found heavy on the left, before the loop moves on to `pp`. */
  method TurnLeft(p: Varent, pp: Varent, ff: bool, d: bool, head: Varent, ghost c: Context, ghost t: Tree, ghost h: nat)
    returns (r: Varent, ghost u: Tree, ghost k: nat)
    requires c.Step? && Zipped(c, t, head) && c.v == p && c.side == d && Changed(c, t, h, d)
    requires pp == Above(c.up, head) && ff == (c.up.Step? && c.up.side)
    modifies CtxNodes(c), Nodes(t), head
    ensures u.Node? && u.v == r && Zipped(c.up, u, head) && Avl(u)
    ensures Inorder(Plug(c.up, u)) == Inorder(Plug(c, t)) && Nodes(Plug(c.up, u)) == Nodes(Plug(c, t))
    ensures if (u.bal == 0) != d then CtxAvl(c.up, Height(u)) else Changed(c.up, u, k, d)
  {
    hide Avl, Inorder, Distinct, Height, CtxAvl, Skewed, Changed, SameWalk, Zipped;
    ChangedSkews(c, t, h, d);
    k := 1 + Max(h, Height(c.sib));
    ZipUp(c, t, head);
    r, u := RestoreLeft(p, pp, ff, head, c.up, Over(c, t));
    AbsorbLeft(c, t, h, d, u);
    PlugSameWalk(c.up, u, Over(c, t));
  }

  /**
   `balance`: from the changed subtree up, turn by turn, until the change is
   absorbed or the header is reached. `f` tells which child of `p` has changed,
   `d` whether by a delete.
   */
  method Balance(p: Varent, f: bool, d: bool, head: Varent, ghost c: Context, ghost t: Tree, ghost h: nat)
    returns (ghost u: Tree)
    requires Zipped(c, t, head) && Changed(c, t, h, d)
    requires p == Above(c, head) && f == (c.Step? && c.side)
    modifies CtxNodes(c), Nodes(t), head
    ensures Zipped(Top, u, head) && Avl(u)
    ensures Inorder(u) == Inorder(Plug(c, t)) && Nodes(u) == Nodes(Plug(c, t))
  {
    var p, f := p, f;
    ghost var c', t', h': nat := c, t, h;
    var pp := p.parent;
    PlugNodes(c, t);
    while pp != null
      invariant Zipped(c', t', head) && Changed(c', t', h', d)
      invariant p == Above(c', head) && f == (c'.Step? && c'.side) && pp == p.parent
      invariant Inorder(Plug(c', t')) == Inorder(Plug(c, t)) && Nodes(Plug(c', t')) == Nodes(Plug(c, t))
      invariant CtxNodes(c') + Nodes(t') == CtxNodes(c) + Nodes(t)
      decreases c'
    {
      assert Hung(c'.up, head, p);
      var ff := pp.right == p;
      if f != d {
        p, t', h' := TurnRight(p, pp, ff, d, head, c', t', h');
      } else {
        p, t', h' := TurnLeft(p, pp, ff, d, head, c', t', h');
      }
      c' := c'.up;
      PlugNodes(c', t');
      if (p.bal == 0) != d {
        PlugAvl(c', t');
        ZipTop(c', t', head);
        return Plug(c', t');
      }
      p, f := pp, ff;
      pp := p.parent;
    }
    u := t';
  }
}
