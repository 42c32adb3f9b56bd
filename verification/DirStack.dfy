/**
 The directory stack (`cd`, `pushd`, `popd`): each command, done by relinking
 the ring in place, is proved against an operation on the sequence of
 directories read from the current one along `prev`, header skipped.
 */
module DirStack {
  import opened Dirs
  import opened Numbers

  datatype Outcome = Done | NoOther | TooDeep | BadDir | Empty | CantChange

  datatype Found = At(d: Ptr) | NotNumeric | Deep

  /** The ring, read from the current directory, of a stack with the header in place `at`. */
  ghost function Ring(stack: seq<Ptr>, at: nat, head: Ptr): seq<Ptr>
    requires at <= |stack|
  {
    stack[..at] + [head] + stack[at..]
  }

  ghost function Rotated<T>(s: seq<T>, n: nat): seq<T>
    requires n <= |s|
  {
    s[n..] + s[..n]
  }

  ghost function Without<T>(s: seq<T>, n: nat): seq<T>
    requires n < |s|
  {
    s[..n] + s[n + 1..]
  }

  /** The number in a word of the form "+<digits>", as an int; 0 for any other word. */
  ghost function Depth(word: string): int
  {
    if word != [] && word[0] == '+' && AllDigits(word[1..]) then Wrap(Decimal(word[1..])) else 0
  }

  /** The ring of `stack` is linked in memory. */
  ghost predicate Stacked(m: Memory, head: Ptr, stack: seq<Ptr>, at: nat)
  {
    0 < at <= |stack| && Cyclic(m, Ring(stack, at, head))
  }

  lemma {:induction false} StackedFacts(m: Memory, head: Ptr, stack: seq<Ptr>, at: nat)
    requires Stacked(m, head, stack, at)
    ensures Distinct(stack) && head !in stack && head in m
    ensures forall p :: p in stack ==> p in m && m[p].next in m && m[p].prev in m
  {
    var r := Ring(stack, at, head);
    CyclicEach(m, r);
    assert r[at] == head;
    forall i | 0 <= i < |stack|
      ensures stack[i] == r[if i < at then i else i + 1] && m[stack[i]].next in m && m[stack[i]].prev in m
    {
      var k := if i < at then i else i + 1;
      assert stack[i] == r[k];
    }
  }

  /** Where a stack is cut to be rotated, and how its ring falls into two parts there. */
  lemma {:induction false} RingCut(stack: seq<Ptr>, at: nat, head: Ptr, n: nat) returns (at': nat, a: seq<Ptr>, b: seq<Ptr>)
    requires 0 < at <= |stack| && n < |stack|
    ensures 0 < at' <= |stack| && Ring(stack, at, head) == a + b
    ensures Ring(Rotated(stack, n), at', head) == b + a
  {
    if n < at {
      at', a, b := at - n, stack[..n], stack[n..at] + [head] + stack[at..];
      assert Rotated(stack, n)[..at'] == stack[n..at];
      assert Rotated(stack, n)[at'..] == stack[at..] + stack[..n];
    } else {
      at', a, b := |stack| - n + at, stack[..at] + [head] + stack[at..n], stack[n..];
      assert Rotated(stack, n)[..at'] == stack[n..] + stack[..at];
      assert Rotated(stack, n)[at'..] == stack[at..n];
      assert Ring(stack, at, head) == stack[..at] + [head] + (stack[at..n] + stack[n..]);
    }
  }

  lemma {:induction false} RingTail(stack: seq<Ptr>, at: nat, head: Ptr, d: Ptr)
    requires 0 < at <= |stack|
    ensures Ring(stack, at, head) == [stack[0]] + Ring(stack, at, head)[1..]
    ensures at == 1 ==> Ring(stack, at, head)[1..] == [head] + stack[1..]
    ensures at > 1 ==> Ring(stack, at, head)[1..] == Ring(stack[1..], at - 1, head)
    ensures [d] + Ring(stack, at, head)[1..] == Ring([d] + stack[1..], at, head)
    ensures [d] + Ring(stack, at, head) == Ring([d] + stack, at + 1, head)
  {
    assert ([d] + stack)[..at + 1] == [d] + stack[..at];
    assert ([d] + stack)[at + 1..] == stack[at..];
    assert ([d] + stack[1..])[..at] == [d] + stack[1..at];
    assert ([d] + stack[1..])[at..] == stack[at..];
    assert stack[..at] == [stack[0]] + stack[1..at];
  }

  /** The ring of a rotated stack is the same ring. */
  lemma {:induction false} RotateRing(m: Memory, head: Ptr, stack: seq<Ptr>, at: nat, n: nat) returns (at': nat)
    requires Stacked(m, head, stack, at) && n < |stack|
    ensures Stacked(m, head, Rotated(stack, n), at')
  {
    var a, b;
    at', a, b := RingCut(stack, at, head, n);
    CyclicRotate(m, a, b);
  }

  /** The memory with entry `d` unlinked. */
  function Unlinked(m: Memory, d: Ptr): Memory
    requires d in m && m[d].next in m && m[d].prev in m
  {
    Join(m, m[d].next, m[d].prev)
  }

  /** Unlinking the first entry leaves the ring of the rest. */
  lemma {:induction false} UnlinkFirst(m: Memory, head: Ptr, stack: seq<Ptr>, at: nat) returns (at': nat)
    requires Stacked(m, head, stack, at) && |stack| > 1
    ensures stack[0] in m && m[stack[0]].next in m && m[stack[0]].prev in m
    ensures Stacked(Unlinked(m, stack[0]), head, stack[1..], at')
  {
    RingTail(stack, at, head, head);
    CyclicUnlink(m, stack[0], Ring(stack, at, head)[1..]);
    if at == 1 {
      at' := |stack| - 1;
      CyclicRotate(Unlinked(m, stack[0]), [head], stack[1..]);
      assert Ring(stack[1..], at', head) == stack[1..] + [head];
    } else {
      at' := at - 1;
    }
  }

  /** Unlinking an entry anywhere. */
  lemma {:induction false} UnlinkAt(m: Memory, head: Ptr, stack: seq<Ptr>, at: nat, n: nat) returns (at': nat)
    requires Stacked(m, head, stack, at) && |stack| > 1 && n < |stack|
    ensures stack[n] in m && m[stack[n]].next in m && m[stack[n]].prev in m
    ensures Stacked(Unlinked(m, stack[n]), head, Without(stack, n), at')
  {
    var s := Rotated(stack, n);
    var k := RotateRing(m, head, stack, at, n);
    at' := UnlinkFirst(m, head, s, k);
    assert s[1..] == stack[n + 1..] + stack[..n];
    if n == 0 {
      assert s[1..] == Without(stack, n);
    } else {
      at' := RotateRing(Unlinked(m, stack[n]), head, s[1..], at', |stack| - 1 - n);
      assert Rotated(s[1..], |stack| - 1 - n) == Without(stack, n);
    }
  }

  lemma {:induction false} AheadRing(m: Memory, head: Ptr, stack: seq<Ptr>, at: nat, d: Ptr)
    requires Stacked(m, head, stack, at) && d in m && d != head && d !in stack
    ensures stack[0] in m && m[stack[0]].next in m
    ensures Stacked(Join(Join(m, m[stack[0]].next, d), d, stack[0]), head, [d] + stack, at + 1)
  {
    var r := Ring(stack, at, head);
    assert d !in r;
    RingTail(stack, at, head, d);
    CyclicAhead(m, d, r);
  }

  lemma {:induction false} ReplaceRing(m: Memory, head: Ptr, stack: seq<Ptr>, at: nat, d: Ptr)
    requires Stacked(m, head, stack, at) && d in m && d != head && d !in stack
    ensures stack[0] in m && m[stack[0]].next in m && m[stack[0]].prev in m
    ensures Stacked(Join(Join(m, m[stack[0]].next, d), d, m[stack[0]].prev), head, [d] + stack[1..], at)
  {
    var r := Ring(stack, at, head);
    assert d !in r;
    RingTail(stack, at, head, d);
    CyclicReplace(m, d, r[1..], stack[0]);
  }

  lemma {:induction false} WithoutMembers<T>(s: seq<T>, n: nat)
    requires n < |s| && Distinct(s)
    ensures forall d :: d in Without(s, n) <==> d in s && d != s[n]
  {
    var w := Without(s, n);
    assert forall i :: 0 <= i < |w| ==> w[i] == s[if i < n then i else i + 1];
    forall d | d in s && d != s[n] ensures d in w {
      var i :| 0 <= i < |s| && s[i] == d;
      assert w[if i < n then i else i - 1] == d;
    }
  }

  /** Entries out of the ring, `loose` ones apart, are marked by a null link and held by a job. */
  ghost predicate Marked(m: Memory, head: Ptr, stack: seq<Ptr>, loose: set<Ptr>)
  {
    && NULL !in m
    && forall p :: p in m && p != head && p !in stack && p !in loose ==> m[p].next == NULL && m[p].count > 0
  }

  lemma {:induction false} MarkedUnlink(m: Memory, head: Ptr, stack: seq<Ptr>, at: nat, n: nat)
    requires Stacked(m, head, stack, at) && Marked(m, head, stack, {}) && n < |stack|
    ensures stack[n] in m && m[stack[n]].next in m && m[stack[n]].prev in m
    ensures Marked(Unlinked(m, stack[n]), head, Without(stack, n), {stack[n]})
    ensures stack[n] !in Without(stack, n) && stack[n] != head
  {
    StackedFacts(m, head, stack, at);
    WithoutMembers(stack, n);
    LinksInside(m, head, stack, at, n);
  }

  /** The neighbours of an entry are the header or other entries. */
  lemma {:induction false} LinksInside(m: Memory, head: Ptr, stack: seq<Ptr>, at: nat, n: nat)
    requires Stacked(m, head, stack, at) && n < |stack|
    ensures stack[n] in m
    ensures m[stack[n]].next == head || m[stack[n]].next in stack
    ensures m[stack[n]].prev == head || m[stack[n]].prev in stack
  {
    var r := Ring(stack, at, head);
    var k := if n < at then n else n + 1;
    CyclicEach(m, r);
    assert stack[n] == r[k];
    RingMembers(stack, at, head);
    assert m[r[k]].next in r && m[r[k]].prev in r;
  }

  lemma {:induction false} MarkedReplace(m: Memory, head: Ptr, stack: seq<Ptr>, at: nat, d: Ptr)
    requires Stacked(m, head, stack, at) && Marked(m, head, stack, {d}) && d in m && d != head && d !in stack
    ensures stack[0] in m && m[stack[0]].next in m && m[stack[0]].prev in m
    ensures Marked(Join(Join(m, m[stack[0]].next, d), d, m[stack[0]].prev), head, [d] + stack[1..], {stack[0]})
    ensures stack[0] !in [d] + stack[1..] && stack[0] != head
  {
    StackedFacts(m, head, stack, at);
    WithoutMembers(stack, 0);
    assert Without(stack, 0) == stack[1..];
    LinksInside(m, head, stack, at, 0);
  }

  function Detached(m: Memory, x: Ptr): Memory
    requires x in m
  {
    m[x := m[x].(next := NULL, prev := NULL)]
  }

  /** An entry that has left the ring can be marked, or freed, without harm to the ring. */
  lemma {:induction false} DetachedOk(m: Memory, head: Ptr, stack: seq<Ptr>, at: nat, x: Ptr)
    requires Stacked(m, head, stack, at) && Marked(m, head, stack, {x}) && x in m && x != head && x !in stack
    ensures Stacked(Detached(m, x), head, stack, at) && Stacked(m - {x}, head, stack, at)
    ensures m[x].count > 0 ==> Marked(Detached(m, x), head, stack, {})
    ensures Marked(m - {x}, head, stack, {})
  {
    RingMembers(stack, at, head);
    StackedFacts(m, head, stack, at);
    CyclicFrame(m, Detached(m, x), Ring(stack, at, head));
    CyclicFrame(m, m - {x}, Ring(stack, at, head));
  }

  /** Counts do not matter to the ring; an entry out of the ring whose count drops to 0 is loose. */
  lemma {:induction false} CountOk(m: Memory, head: Ptr, stack: seq<Ptr>, at: nat, d: Ptr, n: nat)
    requires Stacked(m, head, stack, at) && Marked(m, head, stack, {}) && stack != [] && (d in m || d == stack[0])
    ensures d in m && head !in stack && NULL !in m
    ensures Stacked(m[d := m[d].(count := n)], head, stack, at)
    ensures n > 0 || d in stack ==> Marked(m[d := m[d].(count := n)], head, stack, {})
    ensures Marked(m[d := m[d].(count := n)], head, stack, {d})
    ensures d != head ==> (d !in stack <==> m[d].next == NULL)
  {
    RingMembers(stack, at, head);
    StackedFacts(m, head, stack, at);
    CyclicFrame(m, m[d := m[d].(count := n)], Ring(stack, at, head));
  }

  /** The entry's count one higher, and one lower. */
  function Bumped(m: Memory, d: Ptr): Memory
    requires d in m
  {
    m[d := m[d].(count := m[d].count + 1)]
  }

  function Lowered(m: Memory, d: Ptr): Memory
    requires d in m && m[d].count > 0
  {
    m[d := m[d].(count := m[d].count - 1)]
  }

  class Stack {
    const head: Ptr := 1
    var dirs: Memory
    var dcwd: Ptr

    /** The directories from the current one on, and the header's place among them. */
    ghost var stack: seq<Ptr>
    ghost var at: nat

    /** Every entry not in the ring is marked so, and is kept only because a job holds it. */
    ghost predicate Valid()
      reads this
    {
      stack != [] && stack[0] == dcwd && Apart({})
    }

    ghost predicate Apart(loose: set<Ptr>)
      reads this
    {
      Stacked(dirs, head, stack, at) && Marked(dirs, head, stack, loose)
    }

    /** Counts and names are as before, of entries old and still there. */
    twostate predicate Held()
      reads this
    {
      forall p :: p in old(dirs) && p in dirs ==> dirs[p].count == old(dirs)[p].count && dirs[p].name == old(dirs)[p].name
    }

    /** The entries that remain when `x` leaves the stack: `x` is freed unless a job holds it. */
    twostate predicate Dropped(x: Ptr)
      requires x in old(dirs)
      reads this
    {
      dirs.Keys == old(dirs).Keys - (if old(dirs)[x].count == 0 then {x} else {})
    }

    /** `dinit`: the stack holds the directory the shell starts in. */
    constructor (name: string)
      ensures Valid() && |stack| == 1 && dirs.Keys == {head, dcwd}
      ensures dirs[dcwd].name == name && dirs[dcwd].count == 0
    {
      dirs := map[1 := Directory(2, 2, 0, ""), 2 := Directory(1, 1, 0, name)];
      dcwd, stack, at := 2, [2], 1;
      new;
      CyclicEach(dirs, [2, 1]);
      assert Ring(stack, at, head) == [2, 1];
    }

    /** Along `prev` from one directory to the next, header skipped. */
    method Back(d: Ptr, ghost i: nat) returns (e: Ptr)
      requires Valid() && i < |stack| && stack[i] == d
      ensures e == if i + 1 < |stack| then stack[i + 1] else stack[0]
    {
      ghost var r := Ring(stack, at, head);
      ghost var k := if i < at then i else i + 1;
      CyclicEach(dirs, r);
      assert r[k] == d && r[at] == head && r[0] == stack[0];
      assert i + 1 < at ==> r[i + 1] == stack[i + 1];
      assert i >= at && i + 1 < |stack| ==> r[i + 2] == stack[i + 1];
      assert at < |stack| ==> r[at + 1] == stack[at];
      e := dirs[d].prev;
      if e == head {
        e := dirs[e].prev;
      }
    }

    /** `dfind`: the directory so many places down the stack. */
    method Dfind(word: string) returns (r: Found)
      requires Valid()
      ensures r.NotNumeric? <==> Depth(word) <= 0
      ensures r.Deep? <==> Depth(word) >= |stack|
      ensures r.At? ==> 0 < Depth(word) < |stack| && r.d == stack[Depth(word)]
    {
      if word == [] || word[0] != '+' {
        return NotNumeric;
      }
      var i, ep := ScanDigits(word, 1);
      assert ep < |word| ==> word[1..][ep - 1] == word[ep];
      if ep < |word| {
        return NotNumeric;
      }
      TailIsRest(word, 1, ep);
      if i <= 0 {
        return NotNumeric;
      }
      StackedFacts(dirs, head, stack, at);
      var d, k := dcwd, 0;
      while k < i
        invariant 0 <= k <= i && k < |stack| && d == stack[k]
      {
        d := Back(d, k);
        if d == dcwd {
          return Deep;
        }
        k := k + 1;
      }
      return At(d);
    }

    /** `dfree`: an entry that jobs still hold is kept, marked as out of the ring; any other is freed. */
    method Dfree(x: Ptr)
      requires stack != [] && stack[0] == dcwd && Apart({x}) && x in dirs && x != head && x !in stack
      modifies this`dirs
      ensures Valid() && Held() && Dropped(x)
      ensures dirs == if old(dirs)[x].count == 0 then old(dirs) - {x} else Detached(old(dirs), x)
    {
      DetachedOk(dirs, head, stack, at, x);
      hide Stacked, Marked;
      if dirs[x].count != 0 {
        dirs := dirs[x := dirs[x].(next := NULL, prev := NULL)];
      } else {
        dirs := dirs - {x};
      }
    }

    /** The two assignments that take an entry out of the ring. */
    method Unlink(x: Ptr, ghost n: nat)
      requires Valid() && |stack| > 1 && n < |stack| && stack[n] == x
      modifies this`dirs, this`stack, this`at
      ensures stack == Without(old(stack), n) && Apart({x}) && x in dirs && x != head && x !in stack
      ensures Held() && dirs.Keys == old(dirs).Keys
    {
      MarkedUnlink(dirs, head, stack, at, n);
      at := UnlinkAt(dirs, head, stack, at, n);
      dirs := Join(dirs, dirs[x].next, dirs[x].prev);
      stack := Without(stack, n);
    }

    lemma {:induction false} NullFree()
      requires Valid()
      ensures NULL !in dirs && dcwd in dirs && dcwd != head
    {
      StackedFacts(dirs, head, stack, at);
    }

    /** `dcwd->di_count++`: a job starts in the current directory. */
    method Hold()
      requires Valid()
      modifies this`dirs
      ensures Valid() && dcwd in old(dirs) && dcwd != head && dirs == Bumped(old(dirs), dcwd)
    {
      hide Stacked, Marked;
      CountOk(dirs, head, stack, at, dcwd, if dcwd in dirs then dirs[dcwd].count + 1 else 0);
      dirs := dirs[dcwd := dirs[dcwd].(count := dirs[dcwd].count + 1)];
    }

    /** `--d->di_count == 0` and, if the entry has left the ring, `dfree`: a job that held it is reaped. */
    method Release(d: Ptr)
      requires Valid() && d in dirs && d != head && dirs[d].count > 0
      modifies this`dirs
      ensures Valid()
      ensures dirs == if old(dirs)[d].count == 1 && d !in stack then old(dirs) - {d} else Lowered(old(dirs), d)
    {
      hide Stacked, Marked;
      CountOk(dirs, head, stack, at, d, dirs[d].count - 1);
      ghost var was := dirs;
      dirs := dirs[d := dirs[d].(count := dirs[d].count - 1)];
      if dirs[d].count == 0 {
        if dirs[d].next == NULL {
          Dfree(d);
          assert dirs == was - {d};
        }
      }
    }

    /** `popd`: the current directory goes and the next becomes current. */
    method Popd(reach: bool) returns (out: Outcome)
      requires Valid()
      modifies this
      ensures Valid() && Held()
      ensures out == if |old(stack)| == 1 then Empty else if !reach then CantChange else Done
      ensures out == Done ==> stack == old(stack)[1..] && Dropped(old(dcwd))
      ensures out != Done ==> stack == old(stack) && dirs == old(dirs)
    {
      OnlyEntry();
      if dirs[dcwd].prev == head && dirs[dcwd].next == head {
        return Empty;
      }
      var p := Back(dcwd, 0);
      if !reach {
        return CantChange;
      }
      var dp := dcwd;
      Unlink(dp, 0);
      dcwd := p;
      Dfree(dp);
      return Done;
    }

    /** `popd +n`: the entry n places down goes; the current directory stays. */
    method PopdAt(word: string) returns (out: Outcome)
      requires Valid()
      modifies this
      ensures Valid() && Held() && dcwd == old(dcwd)
      ensures out == if Depth(word) <= 0 then BadDir else if Depth(word) >= |old(stack)| then TooDeep else Done
      ensures out == Done ==> stack == Without(old(stack), Depth(word)) && old(stack)[Depth(word)] in old(dirs)
      ensures out == Done ==> Dropped(old(stack)[Depth(word)])
      ensures out != Done ==> stack == old(stack) && dirs == old(dirs)
    {
      var found := Dfind(word);
      match found {
        case NotNumeric => return BadDir;
        case Deep => return TooDeep;
        case At(dp) =>
          Unlink(dp, Depth(word));
          Dfree(dp);
          return Done;
      }
    }

    /** Make an entry that is not in the ring the current one, just ahead of the old. */
    method LinkAhead(dp: Ptr)
      requires stack != [] && stack[0] == dcwd && Apart({dp}) && dp in dirs && dp != head && dp !in stack
      modifies this
      ensures Valid() && Held() && dcwd == dp && stack == [dp] + old(stack) && dirs.Keys == old(dirs).Keys
    {
      AheadRing(dirs, head, stack, at, dp);
      dirs := Join(dirs, dirs[dcwd].next, dp);
      dirs := Join(dirs, dp, dcwd);
      dcwd, stack, at := dp, [dp] + stack, at + 1;
    }

    /** `dnewcwd`, when the new current directory is already on the stack. */
    method Newcwd(dp: Ptr, ghost n: nat, ghost loose: set<Ptr>)
      requires n < |stack| && stack[n] == dp && Apart(loose)
      modifies this`dcwd, this`stack, this`at
      ensures dcwd == dp && stack == Rotated(old(stack), n) && stack[0] == dcwd && Apart(loose)
    {
      at := RotateRing(dirs, head, stack, at, n);
      dcwd, stack := dp, Rotated(stack, n);
    }

    /** A new entry, not yet linked. */
    method Alloc(name: string) returns (p: Ptr)
      requires Valid()
      modifies this`dirs
      ensures p !in old(dirs) && p != NULL && dirs == old(dirs)[p := Directory(NULL, NULL, 0, name)]
      ensures stack[0] == dcwd && Apart({p}) && p !in stack && p != head
    {
      FreshExists(dirs.Keys);
      p :| p != NULL && p !in dirs;
      StackedFacts(dirs, head, stack, at);
      RingMembers(stack, at, head);
      CyclicFrame(dirs, dirs[p := Directory(NULL, NULL, 0, name)], Ring(stack, at, head));
      dirs := dirs[p := Directory(NULL, NULL, 0, name)];
    }

    /** `pushd` without argument: the two top entries change places. */
    method PushdSwap(reach: bool) returns (out: Outcome)
      requires Valid()
      modifies this
      ensures Valid() && Held() && dirs.Keys == old(dirs).Keys
      ensures out == if |old(stack)| == 1 then NoOther else if !reach then CantChange else Done
      ensures out == Done ==> stack == [old(stack)[1], old(stack)[0]] + old(stack)[2..]
      ensures out != Done ==> stack == old(stack) && dirs == old(dirs)
    {
      StackedFacts(dirs, head, stack, at);
      var dp := Back(dcwd, 0);
      if dp == dcwd {
        return NoOther;
      }
      if !reach {
        return CantChange;
      }
      Swap(dp);
      return Done;
    }

    method Swap(dp: Ptr)
      requires Valid() && |stack| > 1 && stack[1] == dp
      modifies this
      ensures Valid() && Held() && dirs.Keys == old(dirs).Keys
      ensures stack == [old(stack)[1], old(stack)[0]] + old(stack)[2..]
    {
      assert Without(stack, 1) == [stack[0]] + stack[2..];
      Unlink(dp, 1);
      LinkAhead(dp);
    }

    /** `pushd +n` brings the entry n places down to the top; `pushd dir` puts a new entry there. */
    method Pushd(word: string, reach: bool, name: string) returns (out: Outcome)
      requires Valid()
      modifies this
      ensures Valid() && Held()
      ensures out == if Depth(word) >= |old(stack)| then TooDeep else if !reach then CantChange else Done
      ensures out == Done && Depth(word) > 0 ==> stack == Rotated(old(stack), Depth(word)) && dirs == old(dirs)
      ensures out == Done && Depth(word) <= 0 ==>
                && stack == [dcwd] + old(stack) && dcwd !in old(dirs) && dirs.Keys == old(dirs).Keys + {dcwd}
                && dirs[dcwd].name == name && dirs[dcwd].count == 0
      ensures out != Done ==> stack == old(stack) && dirs == old(dirs)
    {
      var found := Dfind(word);
      if found.Deep? {
        return TooDeep;
      }
      if !reach {
        return CantChange;
      }
      match found {
        case At(dp) =>
          Newcwd(dp, Depth(word), {});
        case NotNumeric =>
          var dp := Alloc(name);
          LinkAhead(dp);
      }
      return Done;
    }

    /** `cd +n` drops the current directory for the one n places down; `cd dir` puts a new entry in its place. */
    method Cd(word: string, reach: bool, name: string) returns (out: Outcome)
      requires Valid()
      modifies this
      ensures Valid() && Held() && old(dcwd) in old(dirs)
      ensures out == if Depth(word) >= |old(stack)| then TooDeep else if !reach then CantChange else Done
      ensures out == Done && Depth(word) > 0 ==>
                stack == Rotated(old(stack)[1..], Depth(word) - 1) && Dropped(old(dcwd))
      ensures out == Done && Depth(word) <= 0 ==>
                && stack == [dcwd] + old(stack)[1..] && dcwd !in old(dirs)
                && dirs.Keys == old(dirs).Keys + {dcwd} - (if old(dirs[dcwd].count) == 0 then {old(dcwd)} else {})
                && dirs[dcwd].name == name && dirs[dcwd].count == 0
      ensures out != Done ==> stack == old(stack) && dirs == old(dirs)
    {
      StackedFacts(dirs, head, stack, at);
      var found := Dfind(word);
      if found.Deep? {
        return TooDeep;
      }
      if !reach {
        return CantChange;
      }
      match found {
        case At(dp) =>
          CdTo(dp, Depth(word));
        case NotNumeric =>
          CdNew(name);
      }
      return Done;
    }

    method CdTo(dp: Ptr, ghost n: nat)
      requires Valid() && 0 < n < |stack| && stack[n] == dp && dcwd in dirs
      modifies this
      ensures Valid() && Held() && stack == Rotated(old(stack)[1..], n - 1) && Dropped(old(dcwd))
    {
      var was := dcwd;
      assert Without(stack, 0) == stack[1..];
      Unlink(was, 0);
      Newcwd(dp, n - 1, {was});
      Dfree(was);
    }

    method CdNew(name: string)
      requires Valid() && dcwd in dirs
      modifies this
      ensures Valid() && Held() && stack == [dcwd] + old(stack)[1..] && dcwd !in old(dirs)
      ensures dirs.Keys == old(dirs).Keys + {dcwd} - (if old(dirs[dcwd].count) == 0 then {old(dcwd)} else {})
      ensures dirs[dcwd].name == name && dirs[dcwd].count == 0
    {
      var was := Renew(name);
      Dfree(was);
    }

    method Renew(name: string) returns (was: Ptr)
      requires Valid()
      modifies this
      ensures stack == [dcwd] + old(stack)[1..] && was == old(dcwd) && Apart({was}) && dcwd !in old(dirs)
      ensures was in dirs && was != head && was !in stack
      ensures Held() && dirs.Keys == old(dirs).Keys + {dcwd} && dirs[dcwd].name == name && dirs[dcwd].count == 0
    {
      was := dcwd;
      var dp := Alloc(name);
      Supplant(dp);
    }

    /** The new entry in the place of the current one. */
    method Supplant(dp: Ptr)
      requires stack != [] && stack[0] == dcwd && Apart({dp}) && dp in dirs && dp != head && dp !in stack
      modifies this`dirs, this`dcwd, this`stack
      ensures dcwd == dp && stack == [dp] + old(stack)[1..] && Apart({old(dcwd)})
      ensures old(dcwd) in dirs && old(dcwd) != head && old(dcwd) !in stack
      ensures Held() && dirs.Keys == old(dirs).Keys
    {
      MarkedReplace(dirs, head, stack, at, dp);
      ReplaceRing(dirs, head, stack, at, dp);
      var prev := dirs[dcwd].prev;
      dirs := Join(dirs, dirs[dcwd].next, dp);
      dirs := Join(dirs, dp, prev);
      dcwd, stack := dp, [dp] + stack[1..];
    }

    /** The header is on both sides of the current directory just when there is no other. */
    lemma {:induction false} OnlyEntry()
      requires Valid()
      ensures dcwd in dirs && (dirs[dcwd].prev == head && dirs[dcwd].next == head <==> |stack| == 1)
    {
      var r := Ring(stack, at, head);
      CyclicEach(dirs, r);
      assert r[at] == head && r[0] == dcwd;
      assert at == 1 ==> r[1] == head;
      assert at > 1 ==> r[1] == stack[1];
      assert at == |stack| ==> r[|r| - 1] == head;
      assert at < |stack| ==> r[|r| - 1] == stack[|stack| - 1];
    }
  }

  lemma {:induction false} RingMembers(stack: seq<Ptr>, at: nat, head: Ptr)
    requires at <= |stack|
    ensures forall d :: d in Ring(stack, at, head) <==> d == head || d in stack
  {
    assert stack == stack[..at] + stack[at..];
  }
}
