/**
 The parser as it runs: at each level a loop with a nesting counter, and for a
 simple command one pass that counts words and one that stores them.
 */
module Parser {
  import opened Grammar
  import opened Options

  /** What the first pass of `syn3` counts from a word on, at depth `l`. */
  function Count(ts: seq<string>, l: int, specp: bool): (n: int)
    ensures n >= 0
  {
    if ts == [] then 0
    else if Delta(ts[0]) != 0 then (if specp then 1 else 0) + Count(ts[1..], l + Delta(ts[0]), specp)
    else if Redirects(ts[0]) then
      if l != 0 then (if specp then 1 else 0) + Count(ts[1..], l, specp)
      else if |ts| == 1 || Relpar(ts[1]) then Count(ts[1..], l, specp)
      else
        assert Count(ts[1..], l, specp) == 1 + Count(ts[2..], l, specp) by { assert ts[1..][1..] == ts[2..]; }
        Count(ts[1..], l, specp) - 1
    else (if specp || l == 0 then 1 else 0) + Count(ts[1..], l, specp)
  }

  method CountWords(ts: seq<string>, specp: bool) returns (n: int)
    ensures n == Count(ts, 0, specp)
  {
    var l := 0;
    n := 0;
    for p := 0 to |ts|
      invariant n + Count(ts[p..], l, specp) == Count(ts, 0, specp)
    {
      assert ts[p..][1..] == ts[p + 1..];
      if First(ts[p]) == '(' {
        n := if specp then n + 1 else n;
        l := l + 1;
      } else if First(ts[p]) == ')' {
        n := if specp then n + 1 else n;
        l := l - 1;
      } else if Redirects(ts[p]) {
        if l != 0 {
          n := if specp then n + 1 else n;
        } else if p + 1 < |ts| && !Relpar(ts[p + 1]) {
          n := n - 1;
        }
      } else if specp || l == 0 {
        n := n + 1;
      }
    }
  }

  /** What a step of the second pass stores is within what the first pass counted for its words. */
  lemma {:induction false} AbsorbCount(ts: seq<string>, i: nat, l: int, a: Acc, specp: bool, fl: set<Place>)
    requires i < |ts| && Absorb(ts, i, l, a, specp, fl).Next?
    ensures var r := Absorb(ts, i, l, a, specp, fl);
            |r.acc.words| - |a.words| + Count(ts[r.at..], l + Delta(ts[i]), specp) <= Count(ts[i..], l, specp)
  {
    var r := Absorb(ts, i, l, a, specp, fl);
    assert ts[i..][1..] == ts[i + 1..];
    if l == 0 && Redirects(ts[i]) {
      assert !Relpar(ts[i + 1]);
      assert Count(ts[i..], l, specp) == Count(ts[i + 1..], l, specp) - 1;
      PlainCount(ts, i + 1, r.at, specp);
    }
  }

  lemma {:induction false} PlainCount(ts: seq<string>, i: nat, j: nat, specp: bool)
    requires i <= j <= |ts| && forall k :: i <= k < j ==> !Relpar(ts[k])
    ensures Count(ts[i..], 0, specp) == j - i + Count(ts[j..], 0, specp)
    decreases j - i
  {
    if i < j {
      assert ts[i..][1..] == ts[i + 1..];
      PlainCount(ts, i + 1, j, specp);
    }
  }

  method IsKeyworded(ts: seq<string>) returns (specp: bool)
    ensures specp == Keyworded(ts)
  {
    var p := 0;
    while p < |ts| && ts[p] == "else"
      invariant 0 <= p <= |ts| && Keyworded(ts) == Keyworded(ts[p..])
    {
      assert ts[p..][1..] == ts[p + 1..];
      p := p + 1;
    }
    specp := p < |ts| && ts[p] in {"exit", "foreach", "if", "@", "set", "switch", "while"};
  }

  /** An argument vector: `n` words, and null from there on. */
  ghost predicate Vector(av: seq<Option<string>>, n: nat)
  {
    n < |av| && (forall i :: 0 <= i < n ==> av[i].Some?) && (forall i :: n <= i < |av| ==> av[i].None?)
  }

  ghost function Stored(av: seq<Option<string>>, n: nat): seq<string>
    requires Vector(av, n)
  {
    seq(n, i requires 0 <= i < n => av[i].value)
  }

  lemma {:induction false} StoreOne(av: seq<Option<string>>, n: nat, w: string)
    requires Vector(av, n) && n + 1 < |av|
    ensures Vector(av[n := Some(w)], n + 1) && Stored(av[n := Some(w)], n + 1) == Stored(av, n) + [w]
  {
  }

  /** The words of a vector, up to the null that ends it. */
  method Words(av: array<Option<string>>, ghost n: nat) returns (words: seq<string>)
    requires Vector(av[..], n)
    ensures words == Stored(av[..], n)
  {
    words := [];
    var i := 0;
    while av[i].Some?
      invariant 0 <= i <= n && words == Stored(av[..], n)[..i]
      decreases n - i
    {
      words := words + [av[i].value];
      i := i + 1;
    }
  }

  /** What a step does does not depend on the words stored so far; it stores one word at most. */
  lemma {:induction false} AbsorbWords(ts: seq<string>, i: nat, l: int, a: Acc, words: seq<string>, specp: bool, fl: set<Place>)
    requires i < |ts| && a.words == []
    ensures var r, s := Absorb(ts, i, l, a, specp, fl), Absorb(ts, i, l, a.(words := words), specp, fl);
            && (r.Stop? ==> s == r)
            && (r.Next? ==> (r.acc.words == [] || r.acc.words == [ts[i]]) && s == Next(r.acc.(words := words + r.acc.words), r.at))
  {
  }

  lemma {:induction false} EmptyVector(av: seq<Option<string>>)
    requires |av| > 0 && forall i :: 0 <= i < |av| ==> av[i].None?
    ensures Vector(av, 0) && Stored(av, 0) == []
  {
  }

  /**
   The two passes of `syn3`: every store is inside the vector that the first
   pass made room for, and the vector ends in null.
   */
  method Collect(ts: seq<string>, close: bool, specp: bool, fl: set<Place>) returns (r: Step)
    ensures r == Gather(ts, 0, 0, Start(close), specp, fl)
  {
    hide Count, Depth, Closing, Stored, Absorb;
    var room := CountWords(ts, specp);
    var av := new Option<string>[room + 1](_ => None);
    var a, l, p, n := Start(close), 0, 0, 0;
    ghost var words := [];
    EmptyVector(av[..]);
    while p < |ts|
      invariant p <= |ts| && a.words == []
      invariant Vector(av[..], n) && words == Stored(av[..], n) && |words| == n
      invariant n + Count(ts[p..], l, specp) <= room
      invariant Gather(ts, 0, 0, Start(close), specp, fl) == Gather(ts, p, l, a.(words := words), specp, fl)
    {
      ghost var b := a.(words := words);
      var step := Absorb(ts, p, l, a, specp, fl);
      AbsorbWords(ts, p, l, a, words, specp, fl);
      if step.Stop? {
        return step;
      }
      AbsorbCount(ts, p, l, b, specp, fl);
      if step.acc.words != [] {
        StoreOne(av[..], n, ts[p]);
        av[n] := Some(ts[p]);
        n := n + 1;
      }
      ghost var whole := words + step.acc.words;
      assert Gather(ts, p, l, b, specp, fl) == Gather(ts, step.at, l + Delta(ts[p]), step.acc.(words := whole), specp, fl);
      words := whole;
      l := l + Delta(ts[p]);
      p := step.at;
      a := step.acc.(words := []);
    }
    var all := Words(av, n);
    return Next(a.(words := all), p);
  }

  // -------- the levels --------

  /** The loop that looks for a separator, but for a single "&". */
  method Scan(s: Sep, ts: seq<string>) returns (n: nat)
    requires s != AMP
    ensures n == Find(s, ts, 0, false)
  {
    var l := 0;
    n := 0;
    while n < |ts| && !(l == 0 && Splits(s, ts[n]))
      invariant n <= |ts|
      invariant Find(s, ts, 0, false) == n + Find(s, ts[n..], l, false)
    {
      assert ts[n..][1..] == ts[n + 1..];
      if First(ts[n]) == '(' {
        l := l + 1;
      } else if First(ts[n]) == ')' {
        l := l - 1;
      }
      n := n + 1;
    }
  }

  lemma {:induction false} DipsStep(a: seq<string>, w: string, l: int)
    ensures Depth(a + [w]) == Depth(a) + Delta(w)
    ensures Dips(a + [w], l) <==> Dips(a, l) || l + Depth(a) + Delta(w) < 0
  {
    if a == [] {
      assert a + [w] == [w];
    } else {
      assert (a + [w])[1..] == a[1..] + [w];
      DipsStep(a[1..], w, l + Delta(a[0]));
    }
  }

  lemma {:induction false} DipsBelow(a: seq<string>, l: int)
    requires l >= 0 && l + Depth(a) < 0
    ensures Dips(a, l)
  {
    if l + Delta(a[0]) >= 0 {
      DipsBelow(a[1..], l + Delta(a[0]));
    }
  }

  /** The loop of `syn0`: stop at a single "&", and complain of a parenthesis that closes nothing. */
  method ScanAmp(ts: seq<string>) returns (n: nat, l: int, dips: bool)
    ensures n == Find(AMP, ts, 0, false) && l == Depth(ts[..n]) && dips == Dips(ts[..n], 0)
  {
    hide Depth, Dips, Splits;
    l, n, dips := 0, 0, false;
    NoWords(ts);
    while n < |ts| && !(l == 0 && Splits(AMP, ts[n]))
      invariant n <= |ts|
      invariant Find(AMP, ts, 0, false) == n + Find(AMP, ts[n..], l, false)
      invariant l == Depth(ts[..n]) && dips == Dips(ts[..n], 0)
    {
      StepOver(ts, n);
      var taken := Takes(AMP, ts[n]) && n + 1 < |ts| && ts[n + 1] == "&";
      if First(ts[n]) == '(' {
        l := l + 1;
      } else if First(ts[n]) == ')' {
        l := l - 1;
        if l < 0 {
          dips := true;
        }
      } else if taken {
        n := n + 1;
        StepOver(ts, n);
      }
      n := n + 1;
    }
  }

  lemma {:induction false} NoWords(ts: seq<string>)
    ensures ts[0..] == ts && Depth(ts[..0]) == 0 && !Dips(ts[..0], 0)
  {
  }

  lemma {:induction false} StepOver(ts: seq<string>, n: nat)
    requires n < |ts|
    ensures ts[n..][1..] == ts[n + 1..] && ts[n..] != []
    ensures Depth(ts[..n + 1]) == Depth(ts[..n]) + Delta(ts[n])
    ensures Dips(ts[..n + 1], 0) <==> Dips(ts[..n], 0) || Depth(ts[..n]) + Delta(ts[n]) < 0
    ensures Depth(ts[..n]) < 0 ==> Dips(ts[..n], 0)
    ensures n + 1 < |ts| ==> ts[n + 1..][0] == ts[n + 1]
  {
    assert ts[..n + 1] == ts[..n] + [ts[n]];
    DipsStep(ts[..n], ts[n], 0);
    if Depth(ts[..n]) < 0 {
      DipsBelow(ts[..n], 0);
    }
  }

  method ParseSyntax(ts: seq<string>, close: bool, fl: set<Place>) returns (r: Result)
    ensures r == Syntax(ts, close, fl)
    decreases |ts| - Lead(ts), 7
  {
    var p := 0;
    while p < |ts| && Ends(ts[p])
      invariant p <= |ts|
      invariant Syntax(ts, close, fl) == Syntax(ts[p..], close, fl)
      invariant |ts| - Lead(ts) == |ts[p..]| - Lead(ts[p..])
    {
      assert ts[p..][1..] == ts[p + 1..];
      p := p + 1;
    }
    if p == |ts| {
      return Tree(Nil);
    }
    r := Parse0(ts[p..], close, fl);
  }

  method Parse0(ts: seq<string>, close: bool, fl: set<Place>) returns (r: Result)
    ensures r == Syn0(ts, close, fl)
    decreases |ts|, 6
  {
    var n, l, dips := ScanAmp(ts);
    if dips {
      return Bad(TooManyRp);
    }
    if n < |ts| {
      FindSplit(AMP, ts, 0, false);
      r := Parse1(ts[..n], false, fl);
      if r.Tree? {
        var t1 := r.t;
        r := ParseSyntax(ts[n..], close, fl);
        if r.Tree? {
          r := Tree(List(Background(t1), r.t));
        }
      }
      return;
    }
    assert ts[..n] == ts;
    if l != 0 {
      return Bad(TooManyLp);
    }
    r := Parse1(ts, close, fl);
  }

  method Parse1(ts: seq<string>, close: bool, fl: set<Place>) returns (r: Result)
    requires Depth(ts) == 0
    ensures r == Syn1(ts, close, fl)
    decreases |ts|, 5
  {
    SplitDepth(SEMI, ts);
    var n := Scan(SEMI, ts);
    if n < |ts| {
      r := Parse1a(ts[..n], false, fl);
      if r.Tree? {
        var t1 := r.t;
        r := ParseSyntax(ts[n + 1..], close, fl);
        if r.Tree? {
          r := Tree(if r.t.Nil? then List(Nil, t1) else List(t1, r.t));
        }
      }
      return;
    }
    r := Parse1a(ts, close, fl);
  }

  method Parse1a(ts: seq<string>, close: bool, fl: set<Place>) returns (r: Result)
    requires Depth(ts) == 0
    ensures r == Syn1a(ts, close, fl)
    decreases |ts|, 4
  {
    SplitDepth(OR, ts);
    var n := Scan(OR, ts);
    if n < |ts| {
      r := Parse1b(ts[..n], false, fl);
      if r.Tree? {
        var t1 := r.t;
        r := Parse1a(ts[n + 1..], close, fl);
        if r.Tree? {
          r := Tree(Or(t1, r.t));
        }
      }
      return;
    }
    r := Parse1b(ts, close, fl);
  }

  method Parse1b(ts: seq<string>, close: bool, fl: set<Place>) returns (r: Result)
    requires Depth(ts) == 0
    ensures r == Syn1b(ts, close, fl)
    decreases |ts|, 3
  {
    SplitDepth(AND, ts);
    var n := Scan(AND, ts);
    if n < |ts| {
      r := Parse2(ts[..n], false, fl);
      if r.Tree? {
        var t1 := r.t;
        r := Parse1b(ts[n + 1..], close, fl);
        if r.Tree? {
          r := Tree(And(t1, r.t));
        }
      }
      return;
    }
    r := Parse2(ts, close, fl);
  }

  method Parse2(ts: seq<string>, close: bool, fl: set<Place>) returns (r: Result)
    requires Depth(ts) == 0
    ensures r == Syn2(ts, close, fl)
    decreases |ts|, 2
  {
    SplitDepth(PIPE, ts);
    var n := Scan(PIPE, ts);
    if n < |ts| {
      var both := n + 1 < |ts| && First(ts[n + 1]) == '&';
      r := Parse3(ts[..n], false, fl + {POUT} + if both then {PERR} else {});
      if r.Tree? {
        var t1 := r.t;
        var p := if both then n + 2 else n + 1;
        assert both ==> ts[n + 1..][1..] == ts[n + 2..];
        r := Parse2(ts[p..], close, fl + {PIN});
        if r.Tree? {
          r := Tree(Pipe(if both then {Stderr} else {}, t1, r.t));
        }
      }
      return;
    }
    r := Parse3(ts, close, fl);
  }

  method Parse3(ts: seq<string>, close: bool, fl: set<Place>) returns (r: Result)
    requires Depth(ts) == 0
    ensures r == Syn3(ts, close, fl)
    decreases |ts|, 1
  {
    var specp := IsKeyworded(ts);
    var step := Collect(ts, close, specp, fl);
    if step.Stop? {
      return Bad(step.e);
    }
    var a := step.acc;
    if a.lp.Some? && !specp {
      assert ts[0..] == ts;
      if a.words != [] {
        return Bad(BadPlps);
      }
      r := Parse0(ts[a.lp.value..a.rp.value], true, {PHERE});
      if r.Tree? {
        r := Tree(Paren(a.flags, r.t, a.lef, a.rit));
      }
    } else if a.words == [] {
      r := Bad(NullCom);
    } else {
      r := Tree(Simple(a.flags, a.words, a.lef, a.rit));
    }
  }
}
