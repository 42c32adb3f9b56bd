/**
 Memory of directory entries and the ring they form. A pointer is a number and
 memory a map from live pointers to structures: `xfree` takes the pointer out of
 the map, so that every use of a pointer is proved to be of a live structure.
 */
module Dirs {

  type Ptr = nat

  const NULL: Ptr := 0

  datatype Directory = Directory(next: Ptr, prev: Ptr, count: nat, name: string)

  type Memory = map<Ptr, Directory>

  ghost predicate Distinct<T>(s: seq<T>)
  {
    forall i, j :: 0 <= i < j < |s| ==> s[i] != s[j]
  }

  /** Going along `prev` from c[0] one meets the entries of `c` in turn, each once, and `next` leads back. */
  ghost predicate Chain(m: Memory, c: seq<Ptr>)
  {
    if c == [] then true
    else if |c| == 1 then c[0] in m
    else
      && c[0] in m && c[1] in m && m[c[0]].prev == c[1] && m[c[1]].next == c[0]
      && c[0] !in c[1..] && Chain(m, c[1..])
  }

  /** A ring, read from c[0] along `prev`. */
  ghost predicate Cyclic(m: Memory, c: seq<Ptr>)
  {
    && c != [] && Chain(m, c)
    && c[0] in m && c[|c| - 1] in m && m[c[|c| - 1]].prev == c[0] && m[c[0]].next == c[|c| - 1]
  }

  /** The same, entry by entry. */
  ghost predicate Woven(m: Memory, c: seq<Ptr>)
  {
    && |c| > 0 && Distinct(c)
    && (forall i :: 0 <= i < |c| ==> c[i] in m)
    && (forall i {:trigger m[c[i]].prev} :: 0 <= i < |c| - 1 ==> m[c[i]].prev == c[i + 1])
    && m[c[|c| - 1]].prev == c[0]
    && (forall i {:trigger m[c[i]].next} :: 0 < i < |c| ==> m[c[i]].next == c[i - 1])
    && m[c[0]].next == c[|c| - 1]
  }

  lemma {:induction false} ChainEach(m: Memory, c: seq<Ptr>)
    ensures Chain(m, c) <==>
            && Distinct(c) && (forall i :: 0 <= i < |c| ==> c[i] in m)
            && (forall i {:trigger m[c[i]].prev} :: 0 <= i < |c| - 1 ==> m[c[i]].prev == c[i + 1])
            && (forall i {:trigger m[c[i]].next} :: 0 < i < |c| ==> m[c[i]].next == c[i - 1])
  {
    if |c| > 1 {
      var t := c[1..];
      ChainEach(m, t);
      assert forall i {:trigger t[i]} :: 0 <= i < |t| ==> t[i] == c[i + 1];
      assert forall i {:trigger c[i]} :: 0 < i < |c| ==> c[i] == t[i - 1];
    }
  }

  lemma {:induction false} CyclicEach(m: Memory, c: seq<Ptr>)
    ensures Cyclic(m, c) <==> Woven(m, c)
  {
    ChainEach(m, c);
  }

  /** The two assignments that make `b` follow `a` along `prev`. */
  function Join(m: Memory, a: Ptr, b: Ptr): (r: Memory)
    requires a in m && b in m
    ensures r.Keys == m.Keys
    ensures forall p :: p in m ==> r[p].count == m[p].count && r[p].name == m[p].name
    ensures forall p :: p in m ==> r[p].prev == if p == a then b else m[p].prev
    ensures forall p :: p in m ==> r[p].next == if p == b then a else m[p].next
  {
    var r := m[a := m[a].(prev := b)];
    r[b := r[b].(next := a)]
  }

  /** A ring has no first entry: it can be read from any of them. */
  lemma {:induction false} CyclicRotate(m: Memory, a: seq<Ptr>, b: seq<Ptr>)
    requires Cyclic(m, a + b)
    ensures Cyclic(m, b + a)
  {
    CyclicEach(m, a + b);
    CyclicEach(m, b + a);
    WovenRotate(m, a, b);
  }

  lemma {:induction false} WovenRotate(m: Memory, a: seq<Ptr>, b: seq<Ptr>)
    requires Woven(m, a + b)
    ensures Woven(m, b + a)
  {
    if a == [] || b == [] {
      assert a + b == b + a;
    } else {
      var c, d := a + b, b + a;
      assert forall i {:trigger d[i]} :: 0 <= i < |d| ==> d[i] == if i < |b| then c[|a| + i] else c[i - |b|];
    }
  }

  /** Unlinking an entry. */
  lemma {:induction false} CyclicUnlink(m: Memory, d: Ptr, rest: seq<Ptr>)
    requires rest != [] && Cyclic(m, [d] + rest)
    ensures m[d].next in m && m[d].prev in m
    ensures Cyclic(Join(m, m[d].next, m[d].prev), rest)
  {
    var c := [d] + rest;
    CyclicEach(m, c);
    assert m[d].next in m && m[d].prev in m;
    CyclicEach(Join(m, m[d].next, m[d].prev), rest);
    assert forall i {:trigger rest[i]} :: 0 <= i < |rest| ==> rest[i] == c[i + 1];
  }

  /** Linking an entry in ahead of the first. */
  lemma {:induction false} CyclicAhead(m: Memory, d: Ptr, c: seq<Ptr>)
    requires Cyclic(m, c) && d in m && d !in c
    ensures m[c[0]].next in m
    ensures Cyclic(Join(Join(m, m[c[0]].next, d), d, c[0]), [d] + c)
  {
    var r := [d] + c;
    CyclicEach(m, c);
    CyclicEach(Join(Join(m, m[c[0]].next, d), d, c[0]), r);
    assert forall i {:trigger r[i]} :: 0 < i < |r| ==> r[i] == c[i - 1];
  }

  /** Putting an entry in the place of the first. */
  lemma {:induction false} CyclicReplace(m: Memory, d: Ptr, rest: seq<Ptr>, was: Ptr)
    requires rest != [] && Cyclic(m, [was] + rest) && d in m && d !in [was] + rest
    ensures m[was].next in m && m[was].prev in m
    ensures Cyclic(Join(Join(m, m[was].next, d), d, m[was].prev), [d] + rest)
  {
    CyclicUnlink(m, was, rest);
    var a, b := m[was].next, m[was].prev;
    assert ([was] + rest)[1] == rest[0] == b;
    var u := Join(m, a, b);
    CyclicAhead(u, d, rest);
    assert Join(Join(u, a, d), d, b) == Join(Join(m, a, d), d, b);
  }

  /** Memory may change elsewhere, and counts may change, without disturbing a ring. */
  lemma {:induction false} CyclicFrame(m: Memory, m': Memory, c: seq<Ptr>)
    requires Cyclic(m, c)
    requires forall p :: p in c ==> p in m && p in m' && m'[p].next == m[p].next && m'[p].prev == m[p].prev
    ensures Cyclic(m', c)
  {
    CyclicEach(m, c);
    CyclicEach(m', c);
  }

  /** There is always an address to allocate. */
  lemma {:induction false} FreshExists(used: set<Ptr>)
    ensures exists p: Ptr :: p != NULL && p !in used
  {
    var bound := Above(used);
    assert bound != NULL && bound !in used;
  }

  lemma {:induction false} Above(used: set<Ptr>) returns (bound: Ptr)
    ensures bound > 0 && forall p :: p in used ==> p < bound
  {
    if used == {} {
      bound := 1;
    } else {
      var x :| x in used;
      var b := Above(used - {x});
      bound := if x < b then b else x + 1;
      assert forall p :: p in used ==> p == x || p in used - {x};
    }
  }
}
