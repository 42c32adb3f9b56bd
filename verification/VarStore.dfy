/**
 The operations on a table of variables, each proved against the finite map
 from names to values that the table stands for.
 */
module VarStore {
  import opened Names
  import opened Naturals
  import opened VarTree
  import opened Vars

  class Table {
    const head: Varent
    ghost var tree: Tree

    /** Linked both ways, balanced with exact balance factors, strictly ordered by name. */
    ghost predicate Valid()
      reads this, head, Nodes(tree)
    {
      Zipped(Top, tree, head) && Avl(tree) && Sorted(Inorder(tree))
    }

    ghost function Contents(): map<Name, Words>
      reads this
    {
      Dict(Inorder(tree))
    }

    constructor ()
      ensures Valid() && tree.Leaf? && Contents() == map[] && fresh(head)
    {
      head := new Varent.Header();
      tree := Leaf;
    }

    /** `adrof1`: the node of that name, found in a number of steps logarithmic in the table's size. */
    method Adrof1(name: Name) returns (v: Varent?, ghost steps: nat)
      requires Valid()
      ensures v == null <==> name !in Contents()
      ensures v != null ==> v in Nodes(tree) && v.name == name && v.vec == Contents()[name]
      ensures Pow2((steps + 1) / 2) <= |Contents()| + 1
    {
      hide Avl, Sorted, Dict, Inorder, Before, After, Height, Plug, AllBelow, AllAbove, Pow2, Nodes, Distinct;
      v, steps := head.left, 0;
      ghost var c, t := Top, tree;
      Everywhere(tree, name);
      while v != null
        invariant Linked(t, Above(c, head)) && v == Root(t) && Plug(c, t) == tree
        invariant AllBelow(Before(c), name) && AllAbove(After(c), name)
        invariant steps + Height(t) <= Height(tree)
        decreases t
      {
        assert allocated(Nodes(t));
        var cmp := Compare(name, v.name);
        if cmp == 0 {
          break;
        }
        Descend(c, t, name, cmp > 0);
        Nearer(c, t, cmp > 0, head);
        if cmp < 0 {
          c, t, v := Down(c, t, false), t.left, v.left;
        } else {
          c, t, v := Down(c, t, true), t.right, v.right;
        }
        steps := steps + 1;
      }
      FoundHere(c, t, name);
      StepsBound(tree, steps);
    }

    /** `setq`: bind the name, in its node if it has one, else in a new leaf. */
    method Setq(name: Name, vec: Words)
      requires Valid()
      modifies this, head, Nodes(tree)
      ensures Valid() && Contents() == old(Contents())[name := vec]
      ensures old(Nodes(tree)) <= Nodes(tree) && fresh(Nodes(tree) - old(Nodes(tree)))
    {
      hide *;
      var v, p, f, c := Place(name);
      if v == null {
        v := Graft(p, f, name, c);
      }
      Store(v, vec);
    }

    /** The search of `setq`: the node of that name, or the link where it belongs. */
    method Place(name: Name) returns (v: Varent?, p: Varent, f: bool, ghost c: Context)
      requires Valid()
      ensures Valid()
      ensures v != null ==> v in Nodes(tree) && v.name == name
      ensures v == null ==> Zipped(c, Leaf, head) && Plug(c, Leaf) == tree
      ensures v == null ==> p == Above(c, head) && f == (c.Step? && c.side)
      ensures v == null ==> AllBelow(Before(c), name) && AllAbove(After(c), name)
    {
      p, f, v := head, false, head.left;
      c := Top;
      ghost var t := tree;
      while v != null
        invariant Zipped(c, t, head) && v == Root(t) && Plug(c, t) == tree
        invariant p == Above(c, head) && f == (c.Step? && c.side)
        invariant AllBelow(Before(c), name) && AllAbove(After(c), name)
        decreases t
      {
        assert allocated(Nodes(t)) && allocated(CtxNodes(c));
        var cmp := Compare(name, v.name);
        if cmp == 0 {
          break;
        }
        Descend(c, t, name, cmp > 0);
        p := v;
        if cmp > 0 {
          ZipDown(c, t, true, head);
          c, t, v, f := Down(c, t, true), t.right, v.right, true;
        } else {
          ZipDown(c, t, false, head);
          c, t, v, f := Down(c, t, false), t.left, v.left, false;
        }
      }
      PlugNodes(c, t);
      ZipTop(c, t, head);
    }

    /** Hang a new leaf in the place found for it and rebalance; its value is stored afterwards. */
    method Graft(p: Varent, f: bool, name: Name, ghost c: Context) returns (v: Varent)
      requires Valid() && Zipped(c, Leaf, head) && Plug(c, Leaf) == tree
      requires p == Above(c, head) && f == (c.Step? && c.side)
      requires AllBelow(Before(c), name) && AllAbove(After(c), name)
      modifies this, head, Nodes(tree)
      ensures Valid() && fresh(v) && v in Nodes(tree) && v.name == name
      ensures Nodes(tree) == old(Nodes(tree)) + {v}
      ensures Contents() == old(Contents())[name := []]
    {
      hide Sorted, Dict, Inorder, Before, After, Plug;
      UnplugAvl(c, Leaf);
      PlugNodes(c, Leaf);
      ghost var leaf;
      v, leaf := NewLeaf(p, f, name, head, c);
      tree := Balance(p, f, false, head, c, leaf, 0);
      GraftWalk(c, leaf, tree);
      WalkHolds(tree, head);
    }

    /**
     `unsetv1`: remove the binding held by node `v`. When `v` has two children it
     stays and takes over its predecessor's binding, and that node goes instead.
     */
    method Unsetv1(v: Varent) returns (ghost gone: Varent)
      requires Valid() && v in Nodes(tree)
      modifies this, head, Nodes(tree)
      ensures Valid() && Contents() == old(Contents()) - {old(v.name)}
      ensures gone in old(Nodes(tree)) && Nodes(tree) == old(Nodes(tree)) - {gone}
    {
      hide Avl, Sorted, Dict, Inorder, Before, After, Height, Plug;
      var p := v;
      PlugTop(tree);
      ghost var c, s := Focus(Top, tree, v, head);
      PlugNodes(c, s);
      if v.right != null && v.left != null {
        p, c, s := Vacate(v, head, c, s);
      } else {
        WalkAround(c, s);
        TakeOut(Before(c) + Inorder(s.left), Binding(v, s.name, s.val), Inorder(s.right) + After(c));
      }
      gone := p;
      assert Linked(s, Above(c, head));
      tree := Cut(p, if p.right == null then p.left else p.right, head, c, s);
    }

    /** `unsetv`: unset by name; an undefined name is an error and changes nothing. */
    method Unsetv(name: Name) returns (ok: bool)
      requires Valid()
      modifies this, head, Nodes(tree)
      ensures Valid() && ok == (name in old(Contents()))
      ensures Contents() == old(Contents()) - {name}
      ensures Nodes(tree) <= old(Nodes(tree))
    {
      assert allocated(Nodes(tree));
      var v, steps := Adrof1(name);
      ok := v != null;
      if ok {
        ghost var gone := Unsetv1(v);
      }
    }

    /** `unset1`: for each pattern, unset matching names until none is left. */
    method Unset1(pats: seq<Name>, gmatch: (Name, Name) -> bool)
      requires Valid()
      modifies this, head, Nodes(tree)
      ensures Valid() && Nodes(tree) <= old(Nodes(tree))
      ensures Contents() == map n | n in old(Contents()) && Spared(n, pats, gmatch) :: old(Contents())[n]
    {
      for i := 0 to |pats|
        invariant Valid() && Nodes(tree) <= old(Nodes(tree))
        invariant Contents() == map n | n in old(Contents()) && Spared(n, pats[..i], gmatch) :: old(Contents())[n]
      {
        UnsetMatching(pats[i], gmatch);
        assert pats[..i + 1] == pats[..i] + [pats[i]];
        SparedExtend(pats[..i], pats[i], gmatch);
      }
      assert pats[..|pats|] == pats;
    }

    method UnsetMatching(pat: Name, gmatch: (Name, Name) -> bool)
      requires Valid()
      modifies this, head, Nodes(tree)
      ensures Valid() && Nodes(tree) <= old(Nodes(tree))
      ensures Contents() == map n | n in old(Contents()) && !gmatch(n, pat) :: old(Contents())[n]
    {
      hide Avl, Sorted, Dict, Inorder, Height, Nodes, Distinct;
      ghost var before := Contents();
      assert allocated(Nodes(tree));
      var v, pre := Madrof(pat, head.left, gmatch, tree, head);
      NoMatchDict(pre, pat, gmatch);
      while v != null
        invariant Valid() && Nodes(tree) <= old(Nodes(tree))
        invariant forall n :: n in Contents() ==> n in before && Contents()[n] == before[n]
        invariant forall n :: n in before && !gmatch(n, pat) ==> n in Contents()
        invariant v == null ==> forall n :: n in Contents() ==> !gmatch(n, pat)
        invariant v != null ==> v in Nodes(tree) && gmatch(v.name, pat)
        decreases Nodes(tree)
      {
        ghost var gone := Unsetv1(v);
        assert allocated(Nodes(tree));
        v, pre := Madrof(pat, head.left, gmatch, tree, head);
        NoMatchDict(pre, pat, gmatch);
      }
    }

    /** `plist`: an in-order walk by parent links, without recursion or a stack. */
    method Plist() returns (out: seq<(Name, Words)>)
      requires Valid()
      ensures |out| == |Contents()|
      ensures forall i :: 0 <= i < |out| ==> out[i].0 in Contents() && Contents()[out[i].0] == out[i].1
      ensures forall i, j :: 0 <= i < j < |out| ==> Below(out[i].0, out[j].0)
    {
      out := Walk(head, tree);
      ReportMeaning(Inorder(tree));
    }

    /** `c->vec = vec` at a node of the tree. */
    method Store(v: Varent, vec: Words)
      requires Valid() && v in Nodes(tree)
      modifies this, v`vec
      ensures Valid() && Contents() == old(Contents())[v.name := vec]
      ensures Nodes(tree) == old(Nodes(tree))
    {
      hide Avl, Sorted, Dict, Inorder, Before, After, Height, Plug, CtxAvl;
      PlugTop(tree);
      ghost var c, t := Focus(Top, tree, v, head);
      WalkAround(c, t);
      ghost var a, z := Before(c) + Inorder(t.left), Inorder(t.right) + After(c);
      assert Linked(t.left, v) && Linked(t.right, v);
      v.vec := vec;
      assert Linked(t.left, v) && Linked(t.right, v);
      ghost var u := t.(val := vec);
      RelabelShape(c, t, t.name, vec);
      WalkAround(c, u);
      Rebind(a, Binding(v, t.name, t.val), Binding(v, t.name, vec), z);
      ZipTop(c, u, head);
      tree := Plug(c, u);
    }
  }

  /**
   The end of `unsetv1`: a node with at most one child is replaced by that
   child (or nothing) and the tree rebalanced from its parent up.
   */
  method Cut(p: Varent, child: Varent?, head: Varent, ghost c: Context, ghost s: Tree) returns (ghost u: Tree)
    requires Zipped(c, s, head) && s.Node? && s.v == p && Avl(Plug(c, s))
    requires s.left.Leaf? || s.right.Leaf?
    requires child == if s.right.Leaf? then Root(s.left) else Root(s.right)
    modifies CtxNodes(c), Nodes(s), head
    ensures Zipped(Top, u, head) && Avl(u)
    ensures Inorder(u) == WalkWithout(c, s)
    ensures Nodes(u) == Nodes(Plug(c, s)) - {p}
  {
    ghost var t := if s.right.Leaf? then s.left else s.right;
    CutLevel(c, s, t);
    CutWalk(c, s, t);
    var pp := p.parent;
    assert Hung(c, head, p);
    var f := pp.right == p;
    Splice(pp, f, p, child, head, c, s, t);
    u := Balance(pp, f, true, head, c, t, Height(s));
  }

  /** With a node replaced by its only child, the level drops by one ... */
  lemma {:induction false} CutLevel(c: Context, s: Tree, t: Tree)
    requires s.Node? && Avl(Plug(c, s))
    requires (s.left.Leaf? && t == s.right) || (s.right.Leaf? && t == s.left)
    ensures Changed(c, t, Height(s), true)
  {
    UnplugAvl(c, s);
  }

  /** ... and the walk skips that node and no other. */
  lemma {:induction false} CutWalk(c: Context, s: Tree, t: Tree)
    requires s.Node? && Distinct(s) && Nodes(s) !! CtxNodes(c)
    requires (s.left.Leaf? && t == s.right) || (s.right.Leaf? && t == s.left)
    ensures Inorder(Plug(c, t)) == WalkWithout(c, s)
    ensures Nodes(Plug(c, t)) == Nodes(Plug(c, s)) - {s.v}
  {
    PlugNodes(c, s);
    PlugNodes(c, t);
    PlugInorder(c, t);
    SkipEmpty(Before(c), Inorder(s.left), Inorder(s.right), After(c), Inorder(t));
  }

  lemma {:induction false} SkipEmpty(a: seq<Binding>, l: seq<Binding>, r: seq<Binding>, z: seq<Binding>, m: seq<Binding>)
    requires (l == [] && m == r) || (r == [] && m == l)
    ensures a + m + z == (a + l) + (r + z)
  {
    if l == [] {
      assert a + l == a;
    } else {
      assert r + z == z;
    }
  }

  /** The links that make `child` the child of `pp` in place of `p`. */
  method Splice(pp: Varent, f: bool, ghost p: Varent, child: Varent?, head: Varent, ghost c: Context, ghost s: Tree, ghost t: Tree)
    requires Zipped(c, s, head) && s.Node? && s.v == p && (t == s.left || t == s.right) && child == Root(t)
    requires pp == Above(c, head) && f == (c.Step? && c.side)
    modifies pp, child
    ensures Zipped(c, t, head)
  {
    hide Avl, Sorted, Dict, Height, Inorder, Before, After, Plug, CtxAvl;
    assert Linked(t, p) && Distinct(t);
    assert t.Node? ==> Linked(t.left, t.v) && Linked(t.right, t.v);
    if child != null {
      child.parent := pp;
    }
    assert t.Node? ==> Linked(t.left, t.v) && Linked(t.right, t.v);
    Hang(pp, f, child, head, c, p, t);
  }

  /** Down to the left once, then to the right as far as possible. */
  method Predecessor(p: Varent, ghost t: Tree) returns (q: Varent, ghost x: seq<Binding>)
    requires t.Node? && t.v == p && t.left.Node? && Linked(t, p.parent)
    ensures q in Nodes(t.left) && q.right == null
    ensures Inorder(t.left) == x + [Binding(q, q.name, q.vec)]
  {
    q, x := p.left, [];
    ghost var s, up := t.left, p;
    while q.right != null
      invariant s.Node? && q == s.v && Linked(s, up) && Nodes(s) <= Nodes(t.left)
      invariant Inorder(t.left) == x + Inorder(s)
      decreases s
    {
      SpineStep(x, s);
      x := x + Inorder(s.left) + [Binding(q, q.name, q.vec)];
      up, s, q := q, s.right, q.right;
    }
    SpineStep(x, s);
    x := x + Inorder(s.left);
  }

  lemma {:induction false} SpineStep(x: seq<Binding>, s: Tree)
    requires s.Node?
    ensures x + Inorder(s) == (x + Inorder(s.left) + [Binding(s.v, s.name, s.val)]) + Inorder(s.right)
    ensures s.right.Leaf? ==> x + Inorder(s) == (x + Inorder(s.left)) + [Binding(s.v, s.name, s.val)]
  {
  }

  /** A name that none of the patterns matches. */
  ghost predicate Spared(n: Name, pats: seq<Name>, gmatch: (Name, Name) -> bool)
  {
    forall i :: 0 <= i < |pats| ==> !gmatch(n, pats[i])
  }

  lemma {:induction false} SparedExtend(pats: seq<Name>, pat: Name, gmatch: (Name, Name) -> bool)
    ensures forall n :: Spared(n, pats + [pat], gmatch) <==> Spared(n, pats, gmatch) && !gmatch(n, pat)
  {
    forall n ensures Spared(n, pats + [pat], gmatch) <==> Spared(n, pats, gmatch) && !gmatch(n, pat) {
      if Spared(n, pats + [pat], gmatch) {
        assert (pats + [pat])[|pats|] == pat;
        assert forall i :: 0 <= i < |pats| ==> (pats + [pat])[i] == pats[i];
      }
    }
  }

  ghost predicate NoMatch(s: seq<Binding>, pat: Name, gmatch: (Name, Name) -> bool)
  {
    forall b :: b in s ==> !gmatch(b.name, pat)
  }

  lemma {:induction false} NoMatchConcat(a: seq<Binding>, b: seq<Binding>, pat: Name, gmatch: (Name, Name) -> bool)
    requires NoMatch(a, pat, gmatch) && NoMatch(b, pat, gmatch)
    ensures NoMatch(a + b, pat, gmatch)
  {
  }

  lemma {:induction false} NoMatchDict(s: seq<Binding>, pat: Name, gmatch: (Name, Name) -> bool)
    requires NoMatch(s, pat, gmatch)
    ensures forall n :: n in Dict(s) ==> !gmatch(n, pat)
  {
    forall n | n in Dict(s) ensures !gmatch(n, pat) {
      DictKeys(s, n);
    }
  }

  /**
   `madrof`: the first node in name order that matches. Left subtrees are
   searched by recursion, the right spine by the loop; `pre` is what comes first.
   */
  method Madrof(pat: Name, vp: Varent?, gmatch: (Name, Name) -> bool, ghost t: Tree, ghost up: Varent)
    returns (r: Varent?, ghost pre: seq<Binding>)
    requires Linked(t, up) && vp == Root(t)
    ensures r == null ==> pre == Inorder(t)
    ensures r != null ==> r in Nodes(t) && gmatch(r.name, pat) && pre + [Binding(r, r.name, r.vec)] <= Inorder(t)
    ensures NoMatch(pre, pat, gmatch)
    decreases t
  {
    hide NoMatch, Inorder, Nodes;
    r, pre := vp, [];
    ghost var s, q := t, up;
    NoMatchEmpty(t, pat, gmatch);
    while r != null
      invariant r == Root(s) && Linked(s, q) && Nodes(s) <= Nodes(t) && (s == t || s < t)
      invariant Inorder(t) == pre + Inorder(s) && NoMatch(pre, pat, gmatch)
      decreases s
    {
      assert allocated(Nodes(s));
      WalkHere(s);
      ghost var left := Inorder(s.left);
      if r.left == null {
        NoMatchEmpty(s.left, pat, gmatch);
      } else {
        var r1;
        r1, left := Madrof(pat, r.left, gmatch, s.left, s.v);
        if r1 != null {
          NoMatchConcat(pre, left, pat, gmatch);
          PrefixUnder(pre, left + [Binding(r1, r1.name, r1.vec)], Inorder(s.left), Inorder(s));
          return r1, pre + left;
        }
      }
      Advance(pre, left, Binding(r, r.name, r.vec), Inorder(s.right));
      NoMatchConcat(pre, left, pat, gmatch);
      pre := pre + left;
      if gmatch(r.name, pat) {
        return;
      }
      NoMatchSnoc(pre, Binding(r, r.name, r.vec), pat, gmatch);
      pre := pre + [Binding(r, r.name, r.vec)];
      s, q, r := s.right, r, r.right;
    }
    NoMatchEmpty(s, pat, gmatch);
  }

  lemma {:induction false} WalkHere(t: Tree)
    requires t.Node?
    ensures Inorder(t) == Inorder(t.left) + [Binding(t.v, t.name, t.val)] + Inorder(t.right)
    ensures t.v in Nodes(t) && Nodes(t.left) <= Nodes(t) && Nodes(t.right) <= Nodes(t)
  {
  }

  lemma {:induction false} NoMatchEmpty(t: Tree, pat: Name, gmatch: (Name, Name) -> bool)
    ensures NoMatch([], pat, gmatch) && (t.Leaf? ==> Inorder(t) == [])
  {
  }

  lemma {:induction false} NoMatchSnoc(s: seq<Binding>, b: Binding, pat: Name, gmatch: (Name, Name) -> bool)
    requires NoMatch(s, pat, gmatch) && !gmatch(b.name, pat)
    ensures NoMatch(s + [b], pat, gmatch)
  {
  }

  lemma {:induction false} Advance(pre: seq<Binding>, l: seq<Binding>, b: Binding, r: seq<Binding>)
    ensures pre + (l + [b] + r) == (pre + l + [b]) + r
    ensures pre + l + [b] <= pre + (l + [b] + r)
  {
  }

  lemma {:induction false} PrefixUnder(pre: seq<Binding>, x: seq<Binding>, l: seq<Binding>, s: seq<Binding>)
    requires x <= l <= s
    ensures pre + x <= pre + s
  {
  }

  ghost function Report(s: seq<Binding>): (r: seq<(Name, Words)>)
    ensures |r| == |s| && forall i :: 0 <= i < |s| ==> r[i] == (s[i].name, s[i].val)
  {
    if s == [] then [] else Report(s[..|s| - 1]) + [(s[|s| - 1].name, s[|s| - 1].val)]
  }

  /** A report of a sorted walk lists every binding once, in ascending order. */
  lemma {:induction false} ReportMeaning(s: seq<Binding>)
    requires Sorted(s)
    ensures |Report(s)| == |Dict(s)|
    ensures forall i :: 0 <= i < |s| ==> Report(s)[i].0 in Dict(s) && Dict(s)[Report(s)[i].0] == Report(s)[i].1
  {
    DictSize(s);
    forall i | 0 <= i < |s| ensures s[i].name in Dict(s) && Dict(s)[s[i].name] == s[i].val {
      assert s == s[..i] + [s[i]] + s[i + 1..];
      DictAround(s[..i], s[i], s[i + 1..]);
    }
  }

  /** Where the walk stands: about to visit `p`, or done and back at the header. */
  ghost predicate AtVisit(p: Varent, head: Varent, c: Context, t: Tree, tree: Tree, met: seq<Binding>)
    reads head, CtxNodes(c), Nodes(t)
  {
    && Zipped(c, t, head) && Plug(c, t) == tree
    && if p == head then met == Inorder(tree)
       else t.Node? && p == t.v && met == Before(c) + Inorder(t.left)
  }

  /** The walk of `plist`; `met` is what has been visited. */
  method Walk(head: Varent, ghost tree: Tree) returns (out: seq<(Name, Words)>)
    requires Zipped(Top, tree, head)
    ensures out == Report(Inorder(tree))
  {
    out := [];
    ghost var met: seq<Binding> := [];
    ghost var c, t := Top, tree;
    assert allocated(Nodes(tree));
    var p := head;
    if p.left != null {
      p, c, t := Leftmost(p.left, head, c, t);
    }
    while p.parent != null
      invariant AtVisit(p, head, c, t, tree, met) && out == Report(met)
      decreases |Inorder(tree)| - |met|
    {
      out := out + [(p.name, p.vec)];
      p, c, t, met := Next(p, head, c, t, tree, met);
    }
  }

  /** From a visited node to the next: into the right subtree if there is one, else up. */
  method Next(v: Varent, head: Varent, ghost c: Context, ghost t: Tree, ghost tree: Tree, ghost met: seq<Binding>)
    returns (p: Varent, ghost c': Context, ghost t': Tree, ghost met': seq<Binding>)
    requires AtVisit(v, head, c, t, tree, met) && v != head
    ensures AtVisit(p, head, c', t', tree, met')
    ensures met' == met + [Binding(v, v.name, v.vec)] && |met'| <= |Inorder(tree)| && met'[..|met|] == met
  {
    WalkAround(c, t);
    met' := met + [Binding(v, v.name, v.vec)];
    assert allocated(CtxNodes(c)) && allocated(Nodes(t));
    if v.right != null {
      ZipDown(c, t, true, head);
      p, c', t' := Leftmost(v.right, head, Down(c, t, true), t.right);
    } else {
      assert met' == Before(c) + Inorder(t);
      p, c', t' := Climb(v, head, c, t, tree, met');
    }
  }

  /** To the leftmost node of a subtree: nothing in it has been met yet. */
  method Leftmost(v: Varent, head: Varent, ghost c: Context, ghost t: Tree)
    returns (p: Varent, ghost c': Context, ghost t': Tree)
    requires Zipped(c, t, head) && t.Node? && v == t.v
    ensures Zipped(c', t', head) && Plug(c', t') == Plug(c, t) && t'.Node? && p == t'.v
    ensures t'.left.Leaf? && Before(c') == Before(c)
  {
    p, c', t' := v, c, t;
    while p.left != null
      invariant Zipped(c', t', head) && Plug(c', t') == Plug(c, t) && t'.Node? && p == t'.v
      invariant Before(c') == Before(c)
      decreases t'
    {
      ZipDown(c', t', false, head);
      p, c', t' := p.left, Down(c', t', false), t'.left;
    }
  }

  /** Up out of every subtree whose walk is complete, to the next node to visit or to the header. */
  method Climb(v: Varent, head: Varent, ghost c: Context, ghost t: Tree, ghost tree: Tree, ghost met: seq<Binding>)
    returns (p: Varent, ghost c': Context, ghost t': Tree)
    requires Zipped(c, t, head) && Plug(c, t) == tree && t.Node? && v == t.v
    requires met == Before(c) + Inorder(t)
    ensures AtVisit(p, head, c', t', tree, met)
  {
    hide Avl, Sorted, Dict, Height, CtxAvl;
    c', t' := c, t;
    var child := v;
    p := v.parent;
    while p.right == child
      invariant Zipped(c', t', head) && Plug(c', t') == tree && t'.Node? && child == t'.v
      invariant p == Above(c', head) && met == Before(c') + Inorder(t')
      decreases c'
    {
      assert c'.Step? && c'.side;
      ZipUp(c', t', head);
      child, p := p, p.parent;
      c', t' := c'.up, Over(c', t');
    }
    if c'.Step? {
      ZipUp(c', t', head);
      c', t' := c'.up, Over(c', t');
    }
  }

  /** What a walk meets when it leaves out the node at the root of `s`. */
  ghost function WalkWithout(c: Context, s: Tree): seq<Binding>
    requires s.Node?
  {
    (Before(c) + Inorder(s.left)) + (Inorder(s.right) + After(c))
  }

  /** A node with two children takes over its predecessor's binding; the predecessor is to be cut out. */
  method Vacate(v: Varent, head: Varent, ghost c: Context, ghost s: Tree)
    returns (q: Varent, ghost c': Context, ghost s': Tree)
    requires Zipped(c, s, head) && Avl(Plug(c, s)) && Sorted(Inorder(Plug(c, s)))
    requires s.Node? && s.v == v && s.left.Node? && s.right.Node?
    modifies v`name, v`vec
    ensures Zipped(c', s', head) && s'.Node? && s'.v == q && s'.right.Leaf? && Avl(Plug(c', s'))
    ensures Nodes(Plug(c', s')) == Nodes(Plug(c, s)) == CtxNodes(c') + Nodes(s')
    ensures Sorted(WalkWithout(c', s'))
    ensures Dict(WalkWithout(c', s')) == Dict(Inorder(Plug(c, s))) - {s.name}
  {
    assert allocated(CtxNodes(c)) && allocated(Nodes(s));
    ghost var x;
    q, x := Predecessor(v, s);
    ghost var b := Binding(q, q.name, q.vec);
    RelabelShape(c, s, b.name, b.val);
    Borrow(v, q, head, c, s);
    PlugTop(Plug(c, s.(name := b.name, val := b.val)));
    c', s' := Focus(Top, Plug(c, s.(name := b.name, val := b.val)), q, head);
    PlugNodes(c', s');
    BorrowWalk(c, s, x, b, c', s');
  }

  /** `p` takes over the binding of `q`, which for the moment is in the tree twice. */
  method Borrow(p: Varent, q: Varent, head: Varent, ghost c: Context, ghost s: Tree)
    requires Zipped(c, s, head) && s.Node? && s.v == p && q != p
    modifies p`name, p`vec
    ensures Zipped(Top, Plug(c, s.(name := q.name, val := q.vec)), head)
  {
    assert Linked(s.left, p) && Linked(s.right, p);
    p.name := q.name;
    p.vec := q.vec;
    assert Linked(s.left, p) && Linked(s.right, p);
    ZipTop(c, s.(name := q.name, val := q.vec), head);
  }

  lemma {:induction false} RelabelShape(c: Context, s: Tree, name: Name, val: Words)
    requires s.Node? && Avl(Plug(c, s))
    ensures Avl(Plug(c, s.(name := name, val := val)))
    ensures Nodes(Plug(c, s.(name := name, val := val))) == Nodes(Plug(c, s)) == CtxNodes(c) + Nodes(s)
  {
    UnplugAvl(c, s);
    PlugAvl(c, s.(name := name, val := val));
    PlugNodes(c, s);
    PlugNodes(c, s.(name := name, val := val));
  }

  /**
   Copying the predecessor's binding `b` into the node of `s` and then cutting
   the predecessor out, at `s'`, amounts to removing the binding of `s`.
   */
  lemma {:induction false} BorrowWalk(c: Context, s: Tree, x: seq<Binding>, b: Binding, c': Context, s': Tree)
    requires s.Node? && s'.Node? && s'.v == b.v && s'.right.Leaf?
    requires Inorder(s.left) == x + [b] && Sorted(Inorder(Plug(c, s)))
    requires Plug(c', s') == Plug(c, s.(name := b.name, val := b.val)) && Distinct(Plug(c', s'))
    ensures Sorted(WalkWithout(c', s'))
    ensures Dict(WalkWithout(c', s')) == Dict(Inorder(Plug(c, s))) - {s.name}
  {
    var p, p' := Binding(s.v, s.name, s.val), Binding(s.v, b.name, b.val);
    var a, z := Before(c) + x, Inorder(s.right) + After(c);
    WalkAround(c, s);
    assert Inorder(Plug(c, s)) == (a + [b]) + [p] + z;
    BorrowSplit(c, s, x, b, c', s');
    TakeOver(a, b, p, p', z);
  }

  lemma {:induction false} BorrowSplit(c: Context, s: Tree, x: seq<Binding>, b: Binding, c': Context, s': Tree)
    requires s.Node? && s'.Node? && s'.v == b.v && Inorder(s.left) == x + [b]
    requires Plug(c', s') == Plug(c, s.(name := b.name, val := b.val)) && Distinct(Plug(c', s'))
    ensures WalkWithout(c', s')
         == (Before(c) + x) + [Binding(s.v, b.name, b.val)] + (Inorder(s.right) + After(c))
  {
    var a, z := Before(c) + x, [Binding(s.v, b.name, b.val)] + (Inorder(s.right) + After(c));
    WalkAround(c, s.(name := b.name, val := b.val));
    Shift(Before(c), x, b, Binding(s.v, b.name, b.val), Inorder(s.right) + After(c));
    WalkAround(c', s');
    WalkOnce(Plug(c', s'));
    UniqueSplit(a, b, z, Before(c') + Inorder(s'.left), Binding(s'.v, s'.name, s'.val), Inorder(s'.right) + After(c'));
  }

  lemma {:induction false} Shift(a: seq<Binding>, x: seq<Binding>, b: Binding, p: Binding, z: seq<Binding>)
    ensures (a + (x + [b])) + [p] + z == (a + x) + [b] + ([p] + z)
  {
  }

  /** Of two neighbours the second takes over the first one's binding, and the first goes. */
  lemma {:induction false} TakeOver(a: seq<Binding>, b: Binding, p: Binding, p': Binding, z: seq<Binding>)
    requires Sorted((a + [b]) + [p] + z) && p'.name == b.name && p'.val == b.val
    ensures Sorted(a + [p'] + z)
    ensures Dict(a + [p'] + z) == Dict((a + [b]) + [p] + z) - {p.name}
  {
    TakeOut(a + [b], p, z);
    Rebind(a, b, p', z);
    DictAround(a, b, z);
  }

  /** A binding taken out of a sorted walk. */
  lemma {:induction false} TakeOut(a: seq<Binding>, b: Binding, z: seq<Binding>)
    requires Sorted(a + [b] + z)
    ensures Sorted(a + z) && Dict(a + z) == Dict(a + [b] + z) - {b.name}
  {
    DictAround(a, b, z);
    var s, t := a + [b] + z, a + z;
    forall i, j | 0 <= i < j < |t| ensures Below(t[i].name, t[j].name) {
      assert t[i] == s[if i < |a| then i else i + 1];
      assert t[j] == s[if j < |a| then j else j + 1];
    }
  }

  /** A new node, linked in where the search ended. */
  method NewLeaf(p: Varent, f: bool, name: Name, head: Varent, ghost c: Context) returns (v: Varent, ghost leaf: Tree)
    requires Zipped(c, Leaf, head)
    requires p == Above(c, head) && f == (c.Step? && c.side)
    modifies p
    ensures leaf == Node(v, name, [], 0, Leaf, Leaf) && fresh(v)
    ensures Zipped(c, leaf, head)
  {
    assert allocated(CtxNodes(c));
    v := new Varent(name, p);
    leaf := Node(v, name, [], 0, Leaf, Leaf);
    Hang(p, f, v, head, c, null, leaf);
  }

  /** The place of a node in the tree. */
  lemma {:induction false} Focus(c: Context, t: Tree, v: Varent, head: Varent) returns (c': Context, t': Tree)
    requires Zipped(c, t, head) && v in Nodes(t)
    ensures Zipped(c', t', head) && t'.Node? && t'.v == v && Plug(c', t') == Plug(c, t)
    decreases t
  {
    if t.v == v {
      c', t' := c, t;
    } else if v in Nodes(t.left) {
      ZipDown(c, t, false, head);
      c', t' := Focus(Down(c, t, false), t.left, v, head);
    } else {
      ZipDown(c, t, true, head);
      c', t' := Focus(Down(c, t, true), t.right, v, head);
    }
  }

  /** The fields of a node are what a walk reports of it. */
  lemma {:induction false} WalkHolds(t: Tree, q: Varent)
    requires Linked(t, q)
    ensures forall i :: 0 <= i < |Inorder(t)| ==>
              Inorder(t)[i].v.name == Inorder(t)[i].name && Inorder(t)[i].v.vec == Inorder(t)[i].val
  {
    if t.Node? {
      WalkHolds(t.left, t.v);
      WalkHolds(t.right, t.v);
    }
  }

  lemma {:induction false} PlugLeaf(c: Context)
    ensures Inorder(Plug(c, Leaf)) == Before(c) + After(c)
  {
    PlugInorder(c, Leaf);
    assert Before(c) + [] == Before(c);
  }

  /** The walk of a tree that differs from `Plug(c, Leaf)` by one new leaf. */
  lemma {:induction false} GraftWalk(c: Context, leaf: Tree, u: Tree)
    requires leaf.Node? && leaf.left.Leaf? && leaf.right.Leaf?
    requires Sorted(Inorder(Plug(c, Leaf)))
    requires AllBelow(Before(c), leaf.name) && AllAbove(After(c), leaf.name)
    requires Inorder(u) == Inorder(Plug(c, leaf)) && Nodes(u) == Nodes(Plug(c, leaf))
    ensures Sorted(Inorder(u)) && Dict(Inorder(u)) == Dict(Inorder(Plug(c, Leaf)))[leaf.name := leaf.val]
    ensures Nodes(u) == Nodes(Plug(c, Leaf)) + {leaf.v}
    ensures exists i :: 0 <= i < |Inorder(u)| && Inorder(u)[i] == Binding(leaf.v, leaf.name, leaf.val)
  {
    var b := Binding(leaf.v, leaf.name, leaf.val);
    PlugNodes(c, Leaf);
    PlugNodes(c, leaf);
    PlugLeaf(c);
    PlugInorder(c, leaf);
    assert Inorder(leaf) == [b];
    InsertBetween(Before(c), b, After(c));
    assert Inorder(u)[|Before(c)|] == b;
  }

  lemma {:induction false} InsertBetween(a: seq<Binding>, b: Binding, z: seq<Binding>)
    requires Sorted(a + z) && AllBelow(a, b.name) && AllAbove(z, b.name)
    ensures Sorted(a + [b] + z) && Dict(a + [b] + z) == Dict(a + z)[b.name := b.val]
  {
    assert forall i :: 0 <= i < |a| ==> (a + z)[i] == a[i];
    assert forall i :: 0 <= i < |z| ==> (a + z)[|a| + i] == z[i];
    SortedSplit(a, b, z);
    DictAround(a, b, z);
  }

  /** A binding's value, or the node that holds it, can change without disturbing the order. */
  lemma {:induction false} Rebind(a: seq<Binding>, b: Binding, b': Binding, z: seq<Binding>)
    requires Sorted(a + [b] + z) && b.name == b'.name
    ensures Sorted(a + [b'] + z)
    ensures Dict(a + [b'] + z) == Dict(a + [b] + z)[b.name := b'.val]
  {
    SortedSplit(a, b, z);
    SortedSplit(a, b', z);
    DictAround(a, b, z);
    DictAround(a, b', z);
  }

  // -------- whole runs --------

  datatype Op = Set(name: Name, vec: Words) | Unset(name: Name)

  /** The bindings a run of commands leaves: each name's last value, if not unset since. */
  ghost function Meaning(ops: seq<Op>): map<Name, Words>
  {
    if ops == [] then map[]
    else
      var m := Meaning(ops[..|ops| - 1]);
      match ops[|ops| - 1]
      case Set(name, vec) => m[name := vec]
      case Unset(name) => m - {name}
  }

  /** Every table reachable by a run is well formed and stands for the run's bindings. */
  method Replay(ops: seq<Op>) returns (table: Table)
    ensures fresh(table) && table.Valid() && table.Contents() == Meaning(ops)
  {
    table := new Table();
    for i := 0 to |ops|
      invariant fresh(table) && fresh(table.head) && fresh(Nodes(table.tree))
      invariant table.Valid() && table.Contents() == Meaning(ops[..i])
    {
      assert ops[..i + 1][..i] == ops[..i];
      ghost var was := Nodes(table.tree);
      match ops[i] {
        case Set(name, vec) => table.Setq(name, vec);
        case Unset(name) => var ok := table.Unsetv(name);
      }
      assert allocated(Nodes(table.tree)) && fresh(Nodes(table.tree) - was);
    }
    assert ops[..|ops|] == ops;
  }

  lemma {:induction false} StepsBound(t: Tree, steps: nat)
    requires Avl(t) && Sorted(Inorder(t)) && steps <= Height(t)
    ensures Pow2((steps + 1) / 2) <= |Dict(Inorder(t))| + 1
  {
    HeightBound(t);
    DictSize(Inorder(t));
    Pow2Monotone((steps + 1) / 2, (Height(t) + 1) / 2);
  }

  /** Going down on the proper side keeps the name between what is left behind. */
  lemma {:induction false} Everywhere(t: Tree, name: Name)
    ensures Plug(Top, t) == t && AllBelow(Before(Top), name) && AllAbove(After(Top), name)
  {
  }

  lemma {:induction false} Nearer(c: Context, t: Tree, side: bool, head: Varent)
    requires t.Node? && Linked(t, Above(c, head))
    ensures Linked(Child(t, side), Above(Down(c, t, side), head))
    ensures Plug(Down(c, t, side), Child(t, side)) == Plug(c, t) && Height(Child(t, side)) < Height(t)
  {
  }

  lemma {:induction false} Descend(c: Context, t: Tree, name: Name, side: bool)
    requires t.Node? && Sorted(Inorder(Plug(c, t)))
    requires AllBelow(Before(c), name) && AllAbove(After(c), name)
    requires if side then Below(t.name, name) else Below(name, t.name)
    ensures AllBelow(Before(Down(c, t, side)), name) && AllAbove(After(Down(c, t, side)), name)
  {
    SortedAround(c, t);
    var l, r := Inorder(t.left), Inorder(t.right);
    if side {
      forall i | 0 <= i < |l| ensures Below(l[i].name, name) {
        BelowTransitive(l[i].name, t.name, name);
      }
    } else {
      forall i | 0 <= i < |r| ensures Below(name, r[i].name) {
        BelowTransitive(name, t.name, r[i].name);
      }
    }
  }

  /** The walk of the whole tree, cut at a node. */
  lemma {:induction false} WalkAround(c: Context, t: Tree)
    requires t.Node?
    ensures Inorder(Plug(c, t))
         == (Before(c) + Inorder(t.left)) + [Binding(t.v, t.name, t.val)] + (Inorder(t.right) + After(c))
  {
    PlugInorder(c, t);
    Around(Before(c), Inorder(t.left), [Binding(t.v, t.name, t.val)], Inorder(t.right), After(c));
  }

  lemma {:induction false} SortedAround(c: Context, t: Tree)
    requires t.Node? && Sorted(Inorder(Plug(c, t)))
    ensures AllBelow(Before(c), t.name) && AllBelow(Inorder(t.left), t.name)
    ensures AllAbove(Inorder(t.right), t.name) && AllAbove(After(c), t.name)
  {
    WalkAround(c, t);
    var a, z := Before(c) + Inorder(t.left), Inorder(t.right) + After(c);
    SortedSplit(a, Binding(t.v, t.name, t.val), z);
    assert forall i :: 0 <= i < |Before(c)| ==> a[i] == Before(c)[i];
    assert forall i :: 0 <= i < |Inorder(t.left)| ==> a[|Before(c)| + i] == Inorder(t.left)[i];
    assert forall i :: 0 <= i < |Inorder(t.right)| ==> z[i] == Inorder(t.right)[i];
    assert forall i :: 0 <= i < |After(c)| ==> z[|Inorder(t.right)| + i] == After(c)[i];
  }

  /** Where the search stops: at the node of that name, or at the place where it is missing. */
  lemma {:induction false} FoundHere(c: Context, t: Tree, name: Name)
    requires Sorted(Inorder(Plug(c, t)))
    requires t.Node? ==> t.name == name
    requires t.Leaf? ==> AllBelow(Before(c), name) && AllAbove(After(c), name)
    ensures t.Node? <==> name in Dict(Inorder(Plug(c, t)))
    ensures t.Node? ==> Dict(Inorder(Plug(c, t)))[name] == t.val && t.v in Nodes(Plug(c, t))
  {
    PlugNodes(c, t);
    if t.Node? {
      WalkAround(c, t);
      DictAround(Before(c) + Inorder(t.left), Binding(t.v, t.name, t.val), Inorder(t.right) + After(c));
    } else {
      PlugInorder(c, t);
      DictConcat(Before(c), After(c));
      assert Before(c) + [] + After(c) == Before(c) + After(c);
      NotBound(Before(c), name);
      NotBound(After(c), name);
    }
  }
}
