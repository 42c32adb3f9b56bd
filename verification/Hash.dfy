/**
 Looking for a command along the path (`exec.c`), with a table of bits that says
 in which directories a name may be.
 */
module Hash {
  const HSHSIZ := 8192
  const HSHMUL := 243

  datatype Entry = Entry(ino: nat, name: string)

  /** The file system at one time: what directories hold, which of them can be read, and what can be executed. */
  datatype World = World(
    entries: string -> seq<Entry>,
    readable: string -> bool,
    executable: string -> bool)

  // -------- bits in bytes --------

  function Mask(b: nat): bv8
    requires b < 8
  {
    if b == 0 then 1 else if b == 1 then 2 else if b == 2 then 4 else if b == 3 then 8
    else if b == 4 then 16 else if b == 5 then 32 else if b == 6 then 64 else 128
  }

  predicate Bit(xs: seq<bv8>, h: nat)
    requires h < 8 * |xs|
  {
    xs[h / 8] & Mask(h % 8) != 0
  }

  lemma {:induction false} MasksApart(x: bv8, a: nat, b: nat)
    requires a < 8 && b < 8
    ensures (x | Mask(a)) & Mask(b) != 0 <==> x & Mask(b) != 0 || a == b
  {
    if a == b {
      MaskOne(x, a);
    } else {
      MaskTwo(a, b);
      var m, n := Mask(a), Mask(b);
      assert (x | m) & n == (x & n) | (m & n);
    }
  }

  lemma {:induction false} MaskOne(x: bv8, a: nat)
    requires a < 8
    ensures (x | Mask(a)) & Mask(a) != 0
  {
    var m := Mask(a);
    assert (x | m) & m == m;
  }

  lemma {:induction false} MaskTwo(a: nat, b: nat)
    requires a < 8 && b < 8 && a != b
    ensures Mask(a) & Mask(b) == 0
  {
  }

  /** `bis`: set one bit and no other. */
  method Bis(xhash: array<bv8>, h: nat)
    requires h < 8 * xhash.Length
    modifies xhash
    ensures forall k :: 0 <= k < 8 * xhash.Length ==> (Bit(xhash[..], k) <==> old(Bit(xhash[..], k)) || k == h)
  {
    hide Mask, Bit;
    ghost var was := xhash[..];
    xhash[h / 8] := xhash[h / 8] | Mask(h % 8);
    assert xhash[..] == was[h / 8 := was[h / 8] | Mask(h % 8)];
    forall k | 0 <= k < 8 * xhash.Length ensures Bit(xhash[..], k) <==> Bit(was, k) || k == h {
      SetOne(was, h, k);
    }
  }

  lemma {:induction false} SetOne(xs: seq<bv8>, h: nat, k: nat)
    requires h < 8 * |xs| && k < 8 * |xs|
    ensures Bit(xs[h / 8 := xs[h / 8] | Mask(h % 8)], k) <==> Bit(xs, k) || k == h
  {
    hide Mask;
    if k / 8 == h / 8 {
      MasksApart(xs[h / 8], h % 8, k % 8);
    }
  }

  // -------- hashing --------

  function Mix(a: nat, b: nat): (h: nat)
    ensures h < HSHSIZ
  {
    (a * HSHMUL + b) % HSHSIZ
  }

  /** The characters of a name, one after the other. */
  function HashOf(name: string): nat
  {
    if name == "" then 0 else Mix(HashOf(name[..|name| - 1]), name[|name| - 1] as nat)
  }

  /** A name as a number to the base 243. */
  function Digits(name: string): nat
  {
    if name == "" then 0 else Digits(name[..|name| - 1]) * 243 + name[|name| - 1] as nat
  }

  /** The hash of a name, and the bit that stands for it at place `i`, are what that number leaves modulo the table's size. */
  lemma {:induction false} HashIsResidue(name: string, i: nat)
    ensures HashOf(name) == Digits(name) % 8192 && Mix(HashOf(name), i) == (Digits(name) * 243 + i) % 8192
  {
    if name != "" {
      HashIsResidue(name[..|name| - 1], name[|name| - 1] as nat);
    }
    Reduce(Digits(name), i);
  }

  lemma {:induction false} Reduce(d: nat, i: nat)
    ensures (d % 8192 * 243 + i) % 8192 == (d * 243 + i) % 8192
  {
    var q := d / 8192;
    assert d * 243 + i == d % 8192 * 243 + i + 243 * q * 8192;
  }

  method Hashname(name: string) returns (h: nat)
    ensures h == HashOf(name)
  {
    h := 0;
    for i := 0 to |name|
      invariant h == HashOf(name[..i])
    {
      assert name[..i + 1][..i] == name[..i];
      h := Mix(h, name[i] as nat);
    }
    assert name[..|name|] == name;
  }

  predicate Absolute(dir: string)
  {
    dir != "" && dir[0] == '/'
  }

  predicate Dots(name: string)
  {
    name == "." || name == ".."
  }

  predicate Has(w: World, dir: string, name: string)
  {
    exists e :: e in w.entries(dir) && e.ino != 0 && e.name == name
  }

  /** A name that the table is to know of in a directory of the path. */
  predicate Listed(w: World, dir: string, name: string)
  {
    Absolute(dir) && w.readable(dir) && !Dots(name) && Has(w, dir, name)
  }

  /** Bit `h` stands for some name listed in the first `n` directories, at its place in the path. */
  ghost predicate Noted(w: World, path: seq<string>, n: nat, h: nat)
    requires n <= |path|
  {
    exists i, name :: 0 <= i < n && Listed(w, path[i], name) && h == Mix(HashOf(name), i)
  }

  /** `dohash`: every bit is set exactly if it stands for a listed name. */
  method Dohash(w: World, path: seq<string>) returns (xhash: array<bv8>)
    ensures fresh(xhash) && xhash.Length == HSHSIZ / 8
    ensures forall h :: 0 <= h < HSHSIZ ==> (Bit(xhash[..], h) <==> Noted(w, path, |path|, h))
  {
    xhash := new bv8[HSHSIZ / 8](_ => 0);
    for i := 0 to |path|
      invariant forall h :: 0 <= h < HSHSIZ ==> (Bit(xhash[..], h) <==> Noted(w, path, i, h))
    {
      ghost var before := xhash[..];
      if Absolute(path[i]) && w.readable(path[i]) {
        Directory(xhash, w.entries(path[i]), i);
      }
      forall h | 0 <= h < HSHSIZ ensures Bit(xhash[..], h) <==> Noted(w, path, i + 1, h) {
        NotedStep(w, path, i, h);
      }
    }
  }

  /** Some entry counted here gives bit `h` at place `i`. */
  ghost predicate Gives(es: seq<Entry>, n: nat, i: nat, h: nat)
    requires n <= |es|
  {
    exists k :: 0 <= k < n && es[k].ino != 0 && !Dots(es[k].name) && h == Mix(HashOf(es[k].name), i)
  }

  method Directory(xhash: array<bv8>, es: seq<Entry>, i: nat)
    requires xhash.Length == HSHSIZ / 8
    modifies xhash
    ensures forall h :: 0 <= h < HSHSIZ ==> (Bit(xhash[..], h) <==> old(Bit(xhash[..], h)) || Gives(es, |es|, i, h))
  {
    for k := 0 to |es|
      invariant forall h :: 0 <= h < HSHSIZ ==> (Bit(xhash[..], h) <==> old(Bit(xhash[..], h)) || Gives(es, k, i, h))
    {
      if es[k].ino != 0 && !Dots(es[k].name) {
        var hash := Hashname(es[k].name);
        Bis(xhash, Mix(hash, i));
      }
      forall h | 0 <= h < HSHSIZ
        ensures Gives(es, k + 1, i, h) <==>
                Gives(es, k, i, h) || (es[k].ino != 0 && !Dots(es[k].name) && h == Mix(HashOf(es[k].name), i)) {
      }
    }
  }

  lemma {:induction false} NotedStep(w: World, path: seq<string>, i: nat, h: nat)
    requires i < |path|
    ensures Noted(w, path, i + 1, h) <==>
            Noted(w, path, i, h) || (Absolute(path[i]) && w.readable(path[i]) && Gives(w.entries(path[i]), |w.entries(path[i])|, i, h))
  {
  }

  // -------- searching --------

  /** What is tried for a name in a component of the path; an empty one and "." are the current directory. */
  function Candidate(dir: string, name: string): string
  {
    if dir == "" || dir == "." then name else dir + ['/'] + name
  }

  /** The path that is gone through: just the name if it has a slash, or if there is no path. */
  function Searched(path: seq<string>, name: string): (pv: seq<string>)
    ensures pv != []
  {
    if path == [] || '/' in name then [""] else path
  }

  /** The place, from 1, of the first component where the name can be executed; 0 if there is none. */
  function Find(w: World, pv: seq<string>, name: string, i: nat): (r: nat)
    requires i <= |pv|
    ensures r == 0 ==> forall k :: i <= k < |pv| ==> !w.executable(Candidate(pv[k], name))
    ensures r > 0 ==> i < r <= |pv| && w.executable(Candidate(pv[r - 1], name)) && forall k :: i <= k < r - 1 ==> !w.executable(Candidate(pv[k], name))
    decreases |pv| - i
  {
    if i == |pv| then 0 else if w.executable(Candidate(pv[i], name)) then i + 1 else Find(w, pv, name, i + 1)
  }

  /**
   The file that a component stands for can be executed: the name by itself where the component is the current
   directory, else the name after the component and a slash.
   */
  predicate Runs(w: World, dir: string, name: string)
  {
    if dir == "" || dir == "." then w.executable(name) else w.executable(dir + "/" + name)
  }

  /** The place of the first component whose file can be executed, in a path or, for a name with a slash, by itself. */
  ghost predicate FirstPlace(w: World, path: seq<string>, name: string, r: nat)
  {
    if '/' in name || path == [] then r == if w.executable(name) then 1 else 0
    else
      && r <= |path| && (r > 0 ==> Runs(w, path[r - 1], name))
      && forall k :: 0 <= k < (if r > 0 then r - 1 else |path|) ==> !Runs(w, path[k], name)
  }

  lemma {:induction false} FindFirst(w: World, path: seq<string>, name: string)
    ensures FirstPlace(w, path, name, Find(w, Searched(path, name), name, 0))
  {
    CandidateRuns(w, name);
  }

  lemma {:induction false} CandidateRuns(w: World, name: string)
    ensures forall dir :: w.executable(Candidate(dir, name)) <==> Runs(w, dir, name)
  {
    forall dir ensures w.executable(Candidate(dir, name)) <==> Runs(w, dir, name) {
      assert dir + ['/'] + name == dir + "/" + name;
    }
  }

  /** One absolute directory, by itself. */
  lemma {:induction false} FindOne(w: World, dir: string, name: string)
    requires Absolute(dir) && '/' !in name
    ensures Find(w, Searched([dir], name), name, 0) == if w.executable(dir + "/" + name) then 1 else 0
  {
    FindFirst(w, [dir], name);
  }

  /** Whether the table lets a component be tried. */
  predicate Tried(xs: seq<bv8>, pv: seq<string>, name: string, i: nat)
    requires |xs| == HSHSIZ / 8 && i < |pv|
  {
    '/' in name || !Absolute(pv[i]) || Bit(xs, Mix(HashOf(name), i))
  }

  /** The place, from 1, of the first component that is both tried and right; 0 if there is none. */
  ghost predicate Fast(w: World, xs: seq<bv8>, pv: seq<string>, name: string, r: nat)
    requires |xs| == HSHSIZ / 8
  {
    && (r > 0 ==> r <= |pv| && Tried(xs, pv, name, r - 1) && Runs(w, pv[r - 1], name))
    && forall k :: 0 <= k < (if r > 0 then r - 1 else |pv|) && k < |pv| ==> !(Tried(xs, pv, name, k) && Runs(w, pv[k], name))
  }

  /** `iscommand`, with the table and without. */
  method Iscommand(w: World, path: seq<string>, name: string, havhash: bool, xhash: array<bv8>) returns (r: nat)
    requires xhash.Length == HSHSIZ / 8
    ensures !havhash ==> r == Find(w, Searched(path, name), name, 0) && FirstPlace(w, path, name, r)
    ensures havhash ==> Fast(w, xhash[..], Searched(path, name), name, r)
  {
    hide Mix, HashOf, Bit, Candidate, Runs, FirstPlace;
    FindFirst(w, path, name);
    CandidateRuns(w, name);
    var slash := '/' in name;
    var pv := if path == [] || slash then [""] else path;
    var hashval := 0;
    if havhash {
      hashval := Hashname(name);
    }
    for i := 0 to |pv|
      invariant !havhash ==> Find(w, pv, name, 0) == Find(w, pv, name, i)
      invariant havhash ==> forall k :: 0 <= k < i ==> !(Tried(xhash[..], pv, name, k) && Runs(w, pv[k], name))
    {
      var skip := false;
      if !slash && Absolute(pv[i]) && havhash {
        skip := !Bit(xhash[..], Mix(hashval, i));
      }
      if !skip && w.executable(Candidate(pv[i], name)) {
        return i + 1;
      }
    }
    r := 0;
  }

  /** The table makes no difference exactly if it lets the right component be tried. */
  lemma {:induction false} SameAnswer(w: World, xs: seq<bv8>, pv: seq<string>, name: string, r: nat)
    requires |xs| == HSHSIZ / 8 && Fast(w, xs, pv, name, r)
    ensures var slow := Find(w, pv, name, 0); r == slow <==> slow == 0 || Tried(xs, pv, name, slow - 1)
  {
    hide Tried, Runs, Candidate;
    CandidateRuns(w, name);
  }

  /** What can be executed in a directory under a plain name is an entry of it, and no directory. */
  ghost predicate Consistent(w: World)
  {
    forall dir, name :: Absolute(dir) && '/' !in name && w.executable(dir + "/" + name) ==> !Dots(name) && Has(w, dir, name)
  }

  /** Every directory that the table is made from can be read. */
  predicate AllRead(w: World, path: seq<string>)
  {
    forall i :: 0 <= i < |path| && Absolute(path[i]) ==> w.readable(path[i])
  }

  /** No name has come to the directories of the path; names may have gone. */
  ghost predicate NothingNew(made: World, now: World, path: seq<string>)
  {
    forall i, name :: 0 <= i < |path| && Has(now, path[i], name) ==> Has(made, path[i], name)
  }

  /**
   The table, made at one time, lets a component be tried at another: exactly if it need not be asked, or if
   some name that was listed in a directory has the same bit.
   */
  ghost predicate Allowed(made: World, path: seq<string>, name: string, i: nat)
    requires i < |Searched(path, name)|
  {
    '/' in name || !Absolute(Searched(path, name)[i]) || Noted(made, path, |path|, Mix(HashOf(name), i))
  }

  /** The search with a table finds the component that the search without one finds exactly if that one is allowed. */
  lemma {:induction false} TableExact(made: World, now: World, xs: seq<bv8>, path: seq<string>, name: string, r: nat)
    requires |xs| == HSHSIZ / 8 && (forall h :: 0 <= h < HSHSIZ ==> (Bit(xs, h) <==> Noted(made, path, |path|, h)))
    requires Fast(now, xs, Searched(path, name), name, r)
    ensures var slow := Find(now, Searched(path, name), name, 0);
            r == slow <==> slow == 0 || Allowed(made, path, name, slow - 1)
  {
    hide Mix, HashOf, Bit, Noted, Fast;
    SameAnswer(now, xs, Searched(path, name), name, r);
  }

  /** If all directories could be read then, and no name is new, what is found now was listed then. */
  lemma {:induction false} TableIsSafe(made: World, now: World, path: seq<string>, name: string)
    requires AllRead(made, path) && NothingNew(made, now, path) && Consistent(now)
    ensures var slow := Find(now, Searched(path, name), name, 0); slow == 0 || Allowed(made, path, name, slow - 1)
  {
    hide Mix, HashOf, Has, Dots;
    var pv := Searched(path, name);
    var slow := Find(now, pv, name, 0);
    CandidateRuns(now, name);
    if slow > 0 && '/' !in name && Absolute(pv[slow - 1]) {
      var i := slow - 1;
      assert now.executable(path[i] + "/" + name);
      assert Has(now, path[i], name);
      assert Listed(made, path[i], name);
      assert Noted(made, path, |path|, Mix(HashOf(name), i));
    }
  }

  /** Directories with nothing in them. */
  const BARE := World(_ => [], _ => true, _ => false)

  /** The same, but for one command in one directory. */
  function With(dir: string, name: string): World
  {
    World(d => if d == dir then [Entry(1, name)] else [], _ => true, f => f == dir + "/" + name)
  }

  /** A command that has come to a directory of the path since the table was made is not found, though it is there. */
  lemma {:induction false} NewCommandMissed(dir: string, name: string, xs: seq<bv8>, r: nat)
    requires Absolute(dir) && '/' !in name
    requires |xs| == HSHSIZ / 8 && forall h :: 0 <= h < HSHSIZ ==> (Bit(xs, h) <==> Noted(BARE, [dir], 1, h))
    requires Fast(With(dir, name), xs, Searched([dir], name), name, r)
    ensures Find(With(dir, name), Searched([dir], name), name, 0) == 1 && r == 0
  {
    hide Mix, HashOf, Bit, Fast;
    var w := With(dir, name);
    FindOne(w, dir, name);
    TableExact(BARE, w, xs, [dir], name, r);
    assert !Listed(BARE, dir, name);
    assert r == 0 by { OnlyPlace(w, xs, dir, name, r); }
  }

  lemma {:induction false} OnlyPlace(w: World, xs: seq<bv8>, dir: string, name: string, r: nat)
    requires |xs| == HSHSIZ / 8 && Fast(w, xs, [dir], name, r)
    ensures r <= 1
  {
  }

  /** The whole of it: a table made for the path, and a search some time later. */
  method Lookup(made: World, now: World, path: seq<string>, name: string) returns (r: nat)
    ensures var slow := Find(now, Searched(path, name), name, 0);
            r == slow <==> slow == 0 || Allowed(made, path, name, slow - 1)
    ensures AllRead(made, path) && NothingNew(made, now, path) && Consistent(now) ==>
              r == Find(now, Searched(path, name), name, 0) && FirstPlace(now, path, name, r)
  {
    hide Allowed, AllRead, NothingNew, Consistent, Fast, Noted, Bit;
    var xhash := Dohash(made, path);
    r := Iscommand(now, path, name, true, xhash);
    TableExact(made, now, xhash[..], path, name, r);
    if AllRead(made, path) && NothingNew(made, now, path) && Consistent(now) {
      TableIsSafe(made, now, path, name);
      FindFirst(now, path, name);
    }
  }
}
