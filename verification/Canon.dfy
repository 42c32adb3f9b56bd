/**
 Path names (`dcanon` with `ignore_symlinks` set): a path in a buffer is made
 canonical in place, component by component.
 */
module Canon {
  import opened CStrings

  // -------- paths as components --------

  function Slashes(s: string): (n: nat)
    ensures n <= |s| && (n < |s| ==> s[n] != '/') && forall i :: 0 <= i < n ==> s[i] == '/'
  {
    if s != "" && s[0] == '/' then 1 + Slashes(s[1..]) else 0
  }

  /** How long the component is that a string begins with. */
  function Span(s: string): (n: nat)
    ensures n <= |s| && (n < |s| ==> s[n] == '/') && '/' !in s[..n]
  {
    if s == "" || s[0] == '/' then 0
    else
      var n := 1 + Span(s[1..]);
      assert s[..n] == [s[0]] + s[1..][..n - 1];
      n
  }

  /** The components of a path that are not empty. */
  function Components(s: string): seq<string>
    decreases |s|
  {
    var t := s[Slashes(s)..];
    if t == "" then [] else [t[..Span(t)]] + Components(t[Span(t)..])
  }

  function Parent(stack: seq<string>): seq<string>
  {
    if stack == [] then [] else stack[..|stack| - 1]
  }

  /** Where a walk along the components leads from `stack`; the parent of the root is the root. */
  function Walk(stack: seq<string>, cs: seq<string>): seq<string>
    decreases |cs|
  {
    if cs == [] then stack
    else if cs[0] == "." then Walk(stack, cs[1..])
    else if cs[0] == ".." then Walk(Parent(stack), cs[1..])
    else Walk(stack + [cs[0]], cs[1..])
  }

  /** A slash before every component. */
  function PathText(stack: seq<string>): (s: string)
    ensures stack == [] ==> s == ""
    ensures stack != [] ==> s != "" && s[0] == '/'
  {
    if stack == [] then "" else PathText(stack[..|stack| - 1]) + (['/'] + stack[|stack| - 1])
  }

  function Canonical(stack: seq<string>): string
  {
    if stack == [] then "/" else PathText(stack)
  }

  predicate ProperName(c: string)
  {
    c != "" && '/' !in c && '\0' !in c && c != "." && c != ".."
  }

  predicate Proper(stack: seq<string>)
  {
    forall i :: 0 <= i < |stack| ==> ProperName(stack[i])
  }

  predicate LastDot(s: string)
  {
    |s| >= 2 && s[|s| - 2..] == "/."
  }

  /** What becomes of the canonical path `stack` followed by `rest`. */
  function Result(stack: seq<string>, rest: string): string
  {
    if rest == "" then PathText(stack)
    else
      var end := Walk(stack, Components(rest));
      if LastDot(rest) && end == [] then "/." else Canonical(end)
  }

  // -------- one component --------

  /** Some slashes, a component and what follows it. */
  ghost predicate Cut(r: string, k: nat, comp: string, tail: string)
  {
    && k == Slashes(r) > 0 && r == r[..k] + comp + tail
    && '/' !in comp && (tail != "" ==> tail[0] == '/')
  }

  lemma {:induction false} CutFirst(r: string, k: nat, comp: string, tail: string)
    requires Cut(r, k, comp, tail)
    ensures comp == "" ==> tail == "" && Components(r) == []
    ensures comp != "" ==> Components(r) == [comp] + Components(tail)
  {
    assert r[k..] == comp + tail;
    if comp == "" {
      assert r[k..] == tail;
      if tail != "" {
        FirstOf(r, k, tail);
        assert false;
      }
    } else {
      SpanOf(comp, tail);
      assert (comp + tail)[..|comp|] == comp && (comp + tail)[|comp|..] == tail;
    }
  }

  lemma {:induction false} FirstOf(r: string, k: nat, tail: string)
    requires k <= |r| && r[k..] == tail && tail != ""
    ensures k < |r| && r[k] == tail[0]
  {
  }

  lemma {:induction false} SpanOf(comp: string, tail: string)
    requires '/' !in comp && (tail != "" ==> tail[0] == '/')
    ensures Span(comp + tail) == |comp|
  {
    if comp == "" {
      assert comp + tail == tail;
    } else {
      assert (comp + tail)[1..] == comp[1..] + tail;
      SpanOf(comp[1..], tail);
    }
  }

  /** A path ends in "/." just when its last component, with no slash after it, is ".". */
  lemma {:induction false} CutLastDot(r: string, k: nat, comp: string, tail: string)
    requires Cut(r, k, comp, tail)
    ensures tail == "" ==> (LastDot(r) <==> comp == ".")
    ensures tail != "" ==> (LastDot(r) <==> LastDot(tail))
  {
    var n := |r|;
    if tail == "" {
      assert r == r[..k] + comp;
      if |comp| >= 2 {
        assert r[n - 2] == comp[|comp| - 2];
      } else if |comp| == 1 {
        assert r[n - 2] == '/' && r[n - 1] == comp[0];
        assert comp == [comp[0]];
      } else {
        assert r == r[..k] && r[n - 1] == '/';
        assert n >= 2 ==> r[n - 2..][1] == r[n - 1];
      }
    } else if |tail| == 1 {
      assert r[n - 1] == tail[0];
    } else {
      assert r[n - 2..] == tail[|tail| - 2..];
    }
  }

  lemma {:induction false} StepNothing(stack: seq<string>, r: string, k: nat, tail: string)
    requires Cut(r, k, "", tail)
    ensures Result(stack, r) == Canonical(stack)
  {
    CutFirst(r, k, "", tail);
    CutLastDot(r, k, "", tail);
  }

  lemma {:induction false} StepDot(stack: seq<string>, r: string, k: nat, tail: string)
    requires Cut(r, k, ".", tail)
    ensures Result(stack, r) == if tail != "" then Result(stack, tail) else if stack == [] then "/." else PathText(stack)
  {
    CutFirst(r, k, ".", tail);
    CutLastDot(r, k, ".", tail);
    Walked(stack, ".", Components(tail));
  }

  lemma {:induction false} Walked(stack: seq<string>, c: string, cs: seq<string>)
    ensures Walk(stack, [c] + cs) ==
            if c == "." then Walk(stack, cs) else if c == ".." then Walk(Parent(stack), cs) else Walk(stack + [c], cs)
  {
    assert ([c] + cs)[1..] == cs;
  }

  lemma {:induction false} StepUp(stack: seq<string>, r: string, k: nat, tail: string)
    requires Cut(r, k, "..", tail)
    ensures Result(stack, r) == if tail != "" then Result(Parent(stack), tail) else Canonical(Parent(stack))
  {
    CutFirst(r, k, "..", tail);
    CutLastDot(r, k, "..", tail);
    Walked(stack, "..", Components(tail));
  }

  lemma {:induction false} StepName(stack: seq<string>, r: string, k: nat, comp: string, tail: string)
    requires Cut(r, k, comp, tail) && comp != "" && comp != "." && comp != ".."
    ensures Result(stack, r) == Result(stack + [comp], tail)
  {
    CutFirst(r, k, comp, tail);
    CutLastDot(r, k, comp, tail);
    Walked(stack, comp, Components(tail));
  }

  // -------- in place --------

  ghost predicate Stripped(r: string, t: string)
  {
    t == r[Slashes(r)..]
  }

  ghost predicate Spanned(t: string, comp: string, tail: string)
  {
    comp == t[..Span(t)] && tail == t[Span(t)..]
  }

  /** Move the string at `from` down to `to`. */
  method Shift(buf: array<char>, to: nat, from: nat, ghost tail: string)
    requires to < from && from + |tail| < buf.Length && '\0' !in tail
    requires buf[from..from + |tail|] == tail && buf[from + |tail|] == '\0'
    modifies buf
    ensures buf[..to] == old(buf[..to]) && buf[to..to + |tail|] == tail && buf[to + |tail|] == '\0'
    ensures buf[from + |tail|] == '\0'
  {
    forall i | 0 <= i < |tail| ensures buf[from + i] == tail[i] {
      assert buf[from..from + |tail|][i] == buf[from + i];
    }
    assert forall i :: 0 <= i < |tail| ==> tail[i] != '\0';
    var i := 0;
    while buf[from + i] != '\0'
      invariant 0 <= i <= |tail| && buf[..to] == old(buf[..to])
      invariant forall j :: to <= j < to + i ==> buf[j] == tail[j - to]
      invariant forall j :: from + i <= j < from + |tail| ==> buf[j] == tail[j - from]
      invariant buf[from + |tail|] == '\0'
      decreases |tail| - i
    {
      buf[to + i] := buf[from + i];
      i := i + 1;
    }
    buf[to + i] := '\0';
  }

  method PastSlashes(buf: array<char>, p: nat, ghost r: string) returns (q: nat)
    requires p + |r| < buf.Length && buf[p..p + |r|] == r && buf[p + |r|] == '\0' && r != "" && r[0] == '/'
    ensures q == p + Slashes(r)
  {
    forall i | p <= i < p + |r| ensures buf[i] == r[i - p] {
      assert buf[i] == buf[p..p + |r|][i - p];
    }
    q := p + 1;
    while buf[q] == '/'
      invariant p < q <= p + Slashes(r)
      decreases p + Slashes(r) - q
    {
      q := q + 1;
    }
  }

  /** Past extra slashes, which are closed up. */
  method Squeeze(buf: array<char>, p: nat, ghost pre: string, ghost r: string) returns (ghost t: string)
    requires Holds(buf[..], pre + r) && p == |pre| && '\0' !in r && r != "" && r[0] == '/'
    modifies buf
    ensures Stripped(r, t) && Holds(buf[..], pre + (['/'] + t))
  {
    hide Slashes, Holds;
    Suffixed(buf[..], pre, r);
    var q := PastSlashes(buf, p, r);
    ghost var k := Slashes(r);
    t := r[k..];
    assert k > 0 && buf[..p + 1] == pre + ['/'] by { FirstSlash(buf[..], pre, r); }
    TailOf(buf[..], p, k, r);
    if q != p + 1 {
      Shift(buf, p + 1, q, t);
    }
    Assemble(buf[..], pre, t);
  }

  lemma {:induction false} FirstSlash(buf: seq<char>, pre: string, r: string)
    requires |pre| + |r| < |buf| && buf[..|pre|] == pre && buf[|pre|..|pre| + |r|] == r && r != "" && r[0] == '/'
    ensures Slashes(r) > 0 && buf[..|pre| + 1] == pre + ['/']
  {
    assert buf[|pre|] == buf[|pre|..|pre| + |r|][0];
    assert buf[..|pre| + 1] == buf[..|pre|] + [buf[|pre|]];
  }

  lemma {:induction false} TailOf(buf: seq<char>, p: nat, k: nat, r: string)
    requires p + |r| < |buf| && buf[p..p + |r|] == r && k <= |r|
    ensures buf[p + k..p + k + |r[k..]|] == r[k..]
  {
    assert buf[p + k..p + |r|] == buf[p..p + |r|][k..];
  }

  lemma {:induction false} Assemble(buf: seq<char>, pre: string, t: string)
    requires |pre| + 1 + |t| < |buf| && buf[..|pre| + 1] == pre + ['/'] && buf[|pre| + 1..|pre| + 1 + |t|] == t
    requires buf[|pre| + 1 + |t|] == '\0'
    ensures Holds(buf, pre + (['/'] + t))
  {
    assert buf[..|pre| + 1 + |t|] == buf[..|pre| + 1] + buf[|pre| + 1..|pre| + 1 + |t|];
    assert pre + ['/'] + t == pre + (['/'] + t);
  }

  lemma {:induction false} Suffixed(buf: seq<char>, pre: string, r: string)
    requires Holds(buf, pre + r)
    ensures buf[..|pre|] == pre && buf[|pre|..|pre| + |r|] == r && buf[|pre| + |r|] == '\0' && |pre| + |r| < |buf|
    ensures forall i :: |pre| <= i < |pre| + |r| ==> buf[i] == r[i - |pre|]
  {
    assert buf[..|pre|] == buf[..|pre + r|][..|pre|];
    assert buf[|pre|..|pre| + |r|] == buf[..|pre + r|][|pre|..];
  }

  /** A component with a null in place of the slash after it, and the rest of the path beyond. */
  ghost predicate Layout(buf: seq<char>, pre: string, comp: string, tail: string)
  {
    var e := |pre| + 1 + |comp|;
    && e + |tail| < |buf| && buf[..|pre| + 1] == pre + ['/'] && buf[|pre| + 1..e] == comp && buf[e] == '\0'
    && (tail != "" ==> tail[0] == '/' && buf[e + 1..e + |tail|] == tail[1..] && buf[e + |tail|] == '\0')
  }

  /** Find the end of the component that begins after the slash at the end of `pre`, and end it there. */
  method Delimit(buf: array<char>, sp: nat, ghost pre: string, ghost t: string) returns (p: nat, slash: bool, ghost comp: string, ghost tail: string)
    requires Holds(buf[..], pre + (['/'] + t)) && sp == |pre| + 1 && '\0' !in t && (t != "" ==> t[0] != '/')
    modifies buf
    ensures Spanned(t, comp, tail) && p == sp + |comp| < buf.Length && slash == (tail != "")
    ensures Layout(buf[..], pre, comp, tail)
  {
    hide Span;
    Disassemble(buf[..], pre, t);
    p, slash := Scan(buf, sp, t);
    comp, tail := t[..Span(t)], t[Span(t)..];
    LaidOut(buf[..], pre, t, Span(t));
    if slash {
      buf[p] := '\0';
    }
  }

  method Scan(buf: array<char>, sp: nat, ghost t: string) returns (p: nat, slash: bool)
    requires sp + |t| < buf.Length && buf[sp + |t|] == '\0' && '\0' !in t && (t != "" ==> t[0] != '/')
    requires forall i :: sp <= i < sp + |t| ==> buf[i] == t[i - sp]
    ensures p == sp + Span(t) && slash == (Span(t) < |t|)
  {
    hide Span;
    p, slash := sp, false;
    SpanFacts(t);
    assert forall i :: 0 <= i < |t| ==> t[i] != '\0';
    while buf[p] != '\0'
      invariant sp <= p <= sp + Span(t) && !slash
      invariant p == sp + Span(t) ==> Span(t) == |t|
      decreases sp + Span(t) - p
    {
      p := p + 1;
      if buf[p] == '/' {
        slash := true;
        break;
      }
    }
  }

  lemma {:induction false} SpanFacts(t: string)
    ensures forall i :: 0 <= i < Span(t) ==> t[i] != '/'
    ensures t != "" && t[0] != '/' ==> Span(t) > 0
  {
    forall i | 0 <= i < Span(t) ensures t[i] != '/' {
      assert t[..Span(t)][i] == t[i];
    }
  }

  lemma {:induction false} Disassemble(buf: seq<char>, pre: string, t: string)
    requires Holds(buf, pre + (['/'] + t))
    ensures |pre| + 1 + |t| < |buf| && buf[..|pre| + 1] == pre + ['/'] && buf[|pre| + 1..|pre| + 1 + |t|] == t
    ensures buf[|pre| + 1 + |t|] == '\0'
    ensures forall i :: |pre| + 1 <= i < |pre| + 1 + |t| ==> buf[i] == t[i - |pre| - 1]
  {
    assert pre + ['/'] + t == pre + (['/'] + t);
    Suffixed(buf, pre + ['/'], t);
  }

  lemma {:induction false} LaidOut(buf: seq<char>, pre: string, t: string, n: nat)
    requires |pre| + 1 + |t| < |buf| && buf[..|pre| + 1] == pre + ['/'] && buf[|pre| + 1..|pre| + 1 + |t|] == t
    requires buf[|pre| + 1 + |t|] == '\0' && n <= |t| && (n < |t| ==> t[n] == '/')
    ensures Layout(if n < |t| then buf[|pre| + 1 + n := '\0'] else buf, pre, t[..n], t[n..])
  {
    var sp := |pre| + 1;
    var b := if n < |t| then buf[sp + n := '\0'] else buf;
    assert b[..sp] == buf[..sp];
    assert b[sp..sp + n] == buf[sp..sp + |t|][..n];
    if n < |t| {
      assert b[sp + n + 1..sp + |t|] == buf[sp..sp + |t|][n + 1..];
      assert t[n..][1..] == t[n + 1..];
    }
  }

  /** Put the rest of the path after the shorter path `pre`. */
  method Rejoin(buf: array<char>, to: nat, e: nat, ghost pre: string, ghost tail: string)
    requires to == |pre| + 1 <= e && e + |tail| < buf.Length && buf[..to] == pre + ['/'] && '\0' !in tail
    requires tail != "" && tail[0] == '/' && buf[e + 1..e + |tail|] == tail[1..] && buf[e + |tail|] == '\0'
    modifies buf
    ensures Holds(buf[..], pre + tail)
  {
    Shift(buf, to, e + 1, tail[1..]);
    Assemble(buf[..], pre, tail[1..]);
    assert ['/'] + tail[1..] == tail;
  }

  /** Back to the slash before the last component of `stack`. */
  method Back(buf: array<char>, at: nat, ghost stack: seq<string>) returns (sp: nat)
    requires Proper(stack) && at == |PathText(stack)| < buf.Length && buf[..at + 1] == PathText(stack) + ['/']
    ensures sp == |PathText(Parent(stack))| <= at && buf[..sp + 1] == PathText(Parent(stack)) + ['/']
  {
    sp := at;
    if sp == 0 {
      return;
    }
    ghost var last, pre := stack[|stack| - 1], PathText(Parent(stack));
    assert buf[..at + 1] == pre + ['/'] + last + ['/'];
    assert forall i :: 0 <= i <= at ==> buf[i] == buf[..at + 1][i];
    assert forall i :: |pre| < i < at ==> buf[i] == last[i - |pre| - 1] && last[i - |pre| - 1] in last;
    sp := sp - 1;
    while buf[sp] != '/'
      invariant |pre| <= sp < at
      decreases sp
    {
      sp := sp - 1;
    }
    assert buf[..sp + 1] == buf[..at + 1][..sp + 1];
  }

  // -------- the loop --------

  /** Before a component: the canonical part, and what is still to be read. */
  ghost predicate Ready(buf: seq<char>, p: nat, stack: seq<string>, r: string)
  {
    && Proper(stack) && p == |PathText(stack)| && Holds(buf, PathText(stack) + r)
    && '\0' !in r && (r != "" ==> r[0] == '/')
  }

  /** What the tests on characters tell of the component at `sp`. */
  ghost predicate Telling(buf: seq<char>, sp: nat, comp: string)
  {
    && sp + |comp| < |buf| && (buf[sp] == '\0' <==> comp == "")
    && (comp != "" ==> (buf[sp] == '.' && buf[sp + 1] == '\0' <==> comp == "."))
    && (|comp| > 1 ==> (buf[sp] == '.' && buf[sp + 1] == '.' && buf[sp + 2] == '\0' <==> comp == ".."))
    && (|comp| == 1 ==> buf[sp + 1] == '\0')
  }

  lemma {:induction false} Tests(buf: seq<char>, pre: string, comp: string, tail: string)
    requires Layout(buf, pre, comp, tail) && '\0' !in comp
    ensures Telling(buf, |pre| + 1, comp)
  {
    var sp := |pre| + 1;
    assert forall i :: sp <= i < sp + |comp| ==> buf[i] == buf[sp..sp + |comp|][i - sp];
    assert forall i :: 0 <= i < |comp| ==> comp[i] in comp;
  }

  lemma {:induction false} StrippedFacts(r: string, t: string)
    requires Stripped(r, t) && '\0' !in r
    ensures '\0' !in t && (t != "" ==> t[0] != '/')
  {
  }

  lemma {:induction false} CutOf(r: string, t: string, comp: string, tail: string)
    requires r != "" && r[0] == '/' && Stripped(r, t) && Spanned(t, comp, tail) && '\0' !in r
    ensures Cut(r, Slashes(r), comp, tail)
    ensures '\0' !in comp && '\0' !in tail && |tail| < |r| && '/' !in comp
  {
    hide Span;
    var k := Slashes(r);
    assert r == r[..k] + t && t == comp + tail;
    assert r == r[..k] + comp + tail;
  }

  /** Nothing after the last slash: drop the slash, unless it is the whole path. */
  method Nothing(buf: array<char>, at: nat, ghost stack: seq<string>) returns (stop: bool)
    requires at == |PathText(stack)| && at + 1 < buf.Length && buf[..at + 1] == PathText(stack) + ['/'] && buf[at + 1] == '\0'
    modifies buf
    ensures Holds(buf[..], Canonical(stack)) && buf[at + 1] == '\0'
  {
    stop := at == 0;
    assert buf[..at] == buf[..at + 1][..at];
    if !stop {
      buf[at] := '\0';
    }
  }

  /** A last "." goes with the slash before it, unless that slash is the root. */
  method LastIsDot(buf: array<char>, at: nat, ghost stack: seq<string>)
    requires at == |PathText(stack)| && at + 2 < buf.Length && buf[..at + 1] == PathText(stack) + ['/']
    requires buf[at + 1] == '.' && buf[at + 2] == '\0'
    modifies buf
    ensures Holds(buf[..], if stack == [] then "/." else PathText(stack)) && buf[at + 2] == '\0'
  {
    assert buf[..at] == buf[..at + 1][..at];
    if at != 0 {
      buf[at] := '\0';
    } else {
      assert buf[..2] == buf[..1] + [buf[1]];
    }
  }

  method LastIsUp(buf: array<char>, up: nat, p: nat, ghost stack: seq<string>)
    requires up == |PathText(stack)| && up + 1 < p < buf.Length && buf[..up + 1] == PathText(stack) + ['/'] && buf[p] == '\0'
    modifies buf
    ensures Holds(buf[..], Canonical(stack)) && buf[p] == '\0'
  {
    assert buf[..up] == buf[..up + 1][..up];
    if up == 0 {
      buf[up + 1] := '\0';
    } else {
      buf[up] := '\0';
    }
  }

  /** A name becomes part of the canonical path. */
  lemma {:induction false} Named(buf: seq<char>, stack: seq<string>, comp: string, tail: string)
    requires var e := |PathText(stack)| + 1 + |comp|;
             && e + |tail| < |buf| && buf[..|PathText(stack)| + 1] == PathText(stack) + ['/']
             && buf[|PathText(stack)| + 1..e] == comp && buf[e + |tail|] == '\0'
             && (tail != "" ==> tail[0] == '/' == buf[e] && buf[e + 1..e + |tail|] == tail[1..])
    requires Proper(stack) && ProperName(comp)
    ensures Proper(stack + [comp]) && |PathText(stack + [comp])| == |PathText(stack)| + 1 + |comp|
    ensures Holds(buf, PathText(stack + [comp]) + tail)
  {
    hide PathText, ProperName;
    var pre := PathText(stack);
    var e := |pre| + 1 + |comp|;
    Extended(stack, comp);
    assert buf[..e] == buf[..|pre| + 1] + buf[|pre| + 1..e];
    WithTail(buf, e, tail);
  }

  lemma {:induction false} Extended(stack: seq<string>, comp: string)
    ensures PathText(stack + [comp]) == PathText(stack) + ['/'] + comp
  {
    assert (stack + [comp])[..|stack|] == stack;
  }

  lemma {:induction false} WithTail(buf: seq<char>, e: nat, tail: string)
    requires e + |tail| < |buf| && buf[e + |tail|] == '\0'
    requires tail != "" ==> tail[0] == buf[e] && buf[e + 1..e + |tail|] == tail[1..]
    ensures Holds(buf, buf[..e] + tail)
  {
    if tail != "" {
      assert buf[e..e + |tail|] == [buf[e]] + buf[e + 1..e + |tail|];
      assert tail == [tail[0]] + tail[1..];
    }
    assert buf[..e + |tail|] == buf[..e] + buf[e..e + |tail|];
  }

  /** Where the component just read is, and what the path should become. */
  ghost predicate Reading(buf: seq<char>, at: nat, stack: seq<string>, r: string, comp: string, tail: string)
  {
    && Proper(stack) && at == |PathText(stack)| && Layout(buf, PathText(stack), comp, tail)
    && Cut(r, Slashes(r), comp, tail) && '\0' !in comp && '\0' !in tail && |tail| < |r|
  }

  method ReadDot(buf: array<char>, at: nat, e: nat, slash: bool, ghost stack: seq<string>, ghost r: string, ghost tail: string)
    returns (p: nat, ghost done: bool)
    requires Reading(buf[..], at, stack, r, ".", tail) && e == at + 2 && slash == (tail != "")
    modifies buf
    ensures p < buf.Length
    ensures !done ==> Ready(buf[..], p, stack, tail) && Result(stack, tail) == Result(stack, r)
    ensures done ==> Holds(buf[..], Result(stack, r)) && buf[p] == '\0'
  {
    hide Result, Cut, Slashes, Span, PathText;
    StepDot(stack, r, Slashes(r), tail);
    if slash {
      Rejoin(buf, at + 1, e, PathText(stack), tail);
      p, done := at, false;
    } else {
      assert buf[at + 1] == buf[at + 1..e][0];
      LastIsDot(buf, at, stack);
      p, done := e, true;
    }
  }

  method ReadUp(buf: array<char>, at: nat, e: nat, slash: bool, ghost stack: seq<string>, ghost r: string, ghost tail: string)
    returns (p: nat, ghost done: bool)
    requires Reading(buf[..], at, stack, r, "..", tail) && e == at + 3 && slash == (tail != "")
    modifies buf
    ensures p < buf.Length
    ensures !done ==> Ready(buf[..], p, Parent(stack), tail) && Result(Parent(stack), tail) == Result(stack, r)
    ensures done ==> Holds(buf[..], Result(stack, r)) && buf[p] == '\0'
  {
    hide Result, Cut, Slashes, Span, PathText;
    StepUp(stack, r, Slashes(r), tail);
    var up := Back(buf, at, stack);
    if slash {
      Rejoin(buf, up + 1, e, PathText(Parent(stack)), tail);
      p, done := up, false;
    } else {
      LastIsUp(buf, up, e, Parent(stack));
      p, done := e, true;
    }
  }

  method ReadName(buf: array<char>, at: nat, e: nat, slash: bool, ghost stack: seq<string>, ghost r: string, ghost comp: string, ghost tail: string)
    requires Reading(buf[..], at, stack, r, comp, tail) && e == at + 1 + |comp| && slash == (tail != "") && ProperName(comp)
    modifies buf
    ensures e < buf.Length
    ensures Ready(buf[..], e, stack + [comp], tail) && Result(stack + [comp], tail) == Result(stack, r)
  {
    hide Result, Cut, Slashes, Span, PathText, Proper;
    StepName(stack, r, Slashes(r), comp, tail);
    if slash {
      buf[e] := '/';
    }
    assert buf[..at + 1] == PathText(stack) + ['/'] && buf[at + 1..e] == comp;
    Named(buf[..], stack, comp, tail);
  }

  method ReadNothing(buf: array<char>, at: nat, ghost stack: seq<string>, ghost r: string, ghost tail: string) returns (stop: bool)
    requires Reading(buf[..], at, stack, r, "", tail)
    modifies buf
    ensures at + 1 < buf.Length && Holds(buf[..], Result(stack, r)) && buf[at + 1] == '\0'
  {
    hide Result, Cut, Slashes, Span, PathText;
    StepNothing(stack, r, Slashes(r), tail);
    stop := Nothing(buf, at, stack);
  }

  /** One component read; `done` when it was the last and the buffer has been cut. */
  method Component(buf: array<char>, at: nat, ghost stack: seq<string>, ghost r: string)
    returns (p: nat, stop: bool, ghost done: bool, ghost stack': seq<string>, ghost r': string)
    requires Ready(buf[..], at, stack, r) && r != ""
    modifies buf
    ensures p < buf.Length
    ensures !done ==> !stop && Ready(buf[..], p, stack', r') && |r'| < |r| && Result(stack', r') == Result(stack, r)
    ensures done ==> Holds(buf[..], Result(stack, r)) && (stop || buf[p] == '\0')
  {
    hide Result, Ready, Reading, Proper, PathText, Holds;
    var sp := at + 1;
    var slash;
    ghost var comp, tail;
    p, slash, comp, tail := Next(buf, at, stack, r);
    stop, done, stack', r' := false, false, stack, tail;
    if buf[sp] == '\0' {
      stop := ReadNothing(buf, at, stack, r, tail);
      done := true;
    } else if buf[sp] == '.' && buf[sp + 1] == '\0' {
      p, done := ReadDot(buf, at, p, slash, stack, r, tail);
    } else if buf[sp] == '.' && buf[sp + 1] == '.' && buf[sp + 2] == '\0' {
      p, done := ReadUp(buf, at, p, slash, stack, r, tail);
      stack' := Parent(stack);
    } else {
      ReadName(buf, at, p, slash, stack, r, comp, tail);
      stack' := stack + [comp];
    }
  }

  /** Up to the end of the next component. */
  method Next(buf: array<char>, at: nat, ghost stack: seq<string>, ghost r: string)
    returns (e: nat, slash: bool, ghost comp: string, ghost tail: string)
    requires Ready(buf[..], at, stack, r) && r != ""
    modifies buf
    ensures Reading(buf[..], at, stack, r, comp, tail) && e == at + 1 + |comp| < buf.Length
    ensures slash == (tail != "") && |tail| < |r|
    ensures comp != "" && comp != "." && comp != ".." ==> ProperName(comp)
    ensures Telling(buf[..], at + 1, comp)
  {
    hide Result, Cut, Slashes, Span, PathText, Proper, Holds, Layout, Telling, Stripped, Spanned;
    ghost var t := Squeeze(buf, at, PathText(stack), r);
    StrippedFacts(r, t);
    e, slash, comp, tail := Delimit(buf, at + 1, PathText(stack), t);
    CutOf(r, t, comp, tail);
    Tests(buf[..], PathText(stack), comp, tail);
  }

  /**
   `dcanon` from a place after which a canonical path goes on: the loop ends, never leaves the
   buffer, and the path becomes what `Result` says. That is the canonical path of where the walk
   leads exactly if it is not the case that the last component is "." and the walk ends at the root.
   */
  method Dcanon(buf: array<char>, start: nat, ghost stack: seq<string>, ghost rest: string)
    requires Ready(buf[..], start, stack, rest)
    modifies buf
    ensures Holds(buf[..], Result(stack, rest))
    ensures var end := Walk(stack, Components(rest));
            rest != "" ==> (Holds(buf[..], Canonical(end)) <==> !(LastDot(rest) && end == []))
  {
    hide Result, PathText, Proper;
    Rounds(buf, start, stack, rest);
    if rest != "" {
      ResultCanonical(buf[..], stack, rest);
    }
  }

  /** The loop itself. */
  method Rounds(buf: array<char>, start: nat, ghost stack: seq<string>, ghost rest: string)
    requires Ready(buf[..], start, stack, rest)
    modifies buf
    ensures Holds(buf[..], Result(stack, rest))
  {
    hide Result, PathText, Proper;
    var p: nat := start;
    ghost var done, now, r := false, stack, rest;
    NothingLeft(stack);
    ReadyEnd(buf[..], p, now, r);
    while buf[p] != '\0'
      invariant p < buf.Length
      invariant !done ==> Ready(buf[..], p, now, r) && Result(now, r) == Result(stack, rest) && (buf[p] == '\0' <==> r == "")
      invariant done ==> buf[p] == '\0' && Holds(buf[..], Result(stack, rest))
      decreases if done then 0 else |r| + 1
    {
      var stop;
      p, stop, done, now, r := Component(buf, p, now, r);
      if stop {
        return;
      }
      if !done {
        ReadyEnd(buf[..], p, now, r);
      }
    }
    NothingLeft(now);
  }

  lemma {:induction false} ResultCanonical(buf: seq<char>, stack: seq<string>, rest: string)
    requires rest != "" && Holds(buf, Result(stack, rest))
    ensures var end := Walk(stack, Components(rest));
            Holds(buf, Canonical(end)) <==> !(LastDot(rest) && end == [])
  {
    hide Walk, Components;
    var end := Walk(stack, Components(rest));
    if LastDot(rest) && end == [] {
      assert buf[1] == "/."[1];
    }
  }

  lemma {:induction false} NothingLeft(stack: seq<string>)
    ensures Result(stack, "") == PathText(stack) + ""
  {
  }

  lemma {:induction false} ReadyEnd(buf: seq<char>, p: nat, stack: seq<string>, r: string)
    requires Ready(buf, p, stack, r)
    ensures p < |buf| && (buf[p] == '\0' <==> r == "")
  {
    Suffixed(buf, PathText(stack), r);
  }

  // -------- what a canonical path is --------

  lemma {:induction false} NamedFirst(name: string, rest: string)
    requires ProperName(name) && (rest != "" ==> rest[0] == '/')
    ensures Components(['/'] + name + rest) == [name] + Components(rest)
  {
    var r := ['/'] + name + rest;
    assert r[1..] == name + rest && Slashes(r[1..]) == 0;
    assert Slashes(r) == 1;
    assert r == r[..1] + name + rest;
    CutFirst(r, 1, name, rest);
  }

  /** A canonical path goes on in `rest`: its names come first. */
  lemma {:induction false} ComponentsOf(stack: seq<string>, rest: string)
    requires Proper(stack) && (rest != "" ==> rest[0] == '/')
    ensures Components(PathText(stack) + rest) == stack + Components(rest)
    decreases |stack|
  {
    hide Components, ProperName, PathText;
    if stack == [] {
      assert PathText(stack) + rest == rest;
    } else {
      var front, last := stack[..|stack| - 1], stack[|stack| - 1];
      ComponentsOf(front, ['/'] + last + rest);
      NamedFirst(last, rest);
      PathOn(stack, rest);
      Snoc(stack, Components(rest));
    }
  }

  lemma {:induction false} PathOn(stack: seq<string>, rest: string)
    requires stack != []
    ensures PathText(stack) + rest == PathText(stack[..|stack| - 1]) + (['/'] + stack[|stack| - 1] + rest)
  {
  }

  lemma {:induction false} Snoc(stack: seq<string>, cs: seq<string>)
    requires stack != []
    ensures stack[..|stack| - 1] + ([stack[|stack| - 1]] + cs) == stack + cs
  {
  }

  lemma {:induction false} WalkNames(stack: seq<string>, names: seq<string>, cs: seq<string>)
    requires Proper(names)
    ensures Walk(stack, names + cs) == Walk(stack + names, cs)
    decreases |names|
  {
    if names == [] {
      assert names + cs == cs && stack + names == stack;
    } else {
      assert ProperName(names[0]);
      assert (names + cs)[1..] == names[1..] + cs;
      WalkNames(stack + [names[0]], names[1..], cs);
      assert stack + [names[0]] + names[1..] == stack + names;
    }
  }

  lemma {:induction false} WalkProper(stack: seq<string>, cs: seq<string>)
    requires Proper(stack) && forall i :: 0 <= i < |cs| ==> cs[i] != "" && '/' !in cs[i] && '\0' !in cs[i]
    ensures Proper(Walk(stack, cs))
    decreases |cs|
  {
    if cs != [] {
      WalkProper(if cs[0] == "." then stack else if cs[0] == ".." then Parent(stack) else stack + [cs[0]], cs[1..]);
    }
  }

  lemma {:induction false} ComponentsPlain(s: string)
    requires '\0' !in s
    ensures forall i :: 0 <= i < |Components(s)| ==> Components(s)[i] != "" && '/' !in Components(s)[i] && '\0' !in Components(s)[i]
    decreases |s|
  {
    var t := s[Slashes(s)..];
    if t != "" {
      ComponentsPlain(t[Span(t)..]);
    }
  }

  /** Starting after a canonical path is the same as starting at its beginning. */
  lemma {:induction false} StartAnywhere(stack: seq<string>, rest: string)
    requires Proper(stack) && rest != "" && rest[0] == '/'
    ensures Result(stack, rest) == Result([], PathText(stack) + rest)
  {
    hide Components, Walk, PathText;
    ComponentsOf(stack, rest);
    WalkNames([], stack, Components(rest));
    assert [] + stack == stack;
    LastDotOn(PathText(stack), rest);
  }

  lemma {:induction false} LastDotOn(pre: string, rest: string)
    requires rest != "" && rest[0] == '/'
    ensures LastDot(pre + rest) <==> LastDot(rest)
  {
    var s := pre + rest;
    if |rest| >= 2 {
      assert s[|s| - 2..] == rest[|rest| - 2..];
    } else {
      assert s[|s| - 1] == rest[0];
      assert |s| >= 2 ==> s[|s| - 2..][1] == s[|s| - 1];
    }
  }

  lemma {:induction false} CanonicalFixed(stack: seq<string>)
    requires Proper(stack)
    ensures Canonical(stack) != "" && Canonical(stack)[0] == '/' && Result([], Canonical(stack)) == Canonical(stack)
  {
    if stack == [] {
      assert "/"[1..] == "" && Slashes("/") == 1;
    } else {
      var p := PathText(stack);
      assert p + "" == p;
      ComponentsOf(stack, "");
      WalkNames([], stack, []);
      assert [] + stack == stack && stack + [] == stack;
      NoLastDot(stack);
    }
  }

  lemma {:induction false} NoLastDot(stack: seq<string>)
    requires Proper(stack) && stack != []
    ensures !LastDot(PathText(stack))
  {
    var front, last := PathText(stack[..|stack| - 1]), stack[|stack| - 1];
    assert ProperName(last);
    var p := front + (['/'] + last);
    if |last| >= 2 {
      assert p[|p| - 2..] == last[|last| - 2..];
      assert last[|last| - 2] in last;
    } else {
      assert last == [last[0]] && p[|p| - 2..] == ['/', last[0]];
    }
  }

  /** Doing it again changes nothing. */
  lemma {:induction false} Idempotent(s: string)
    requires s != "" && s[0] == '/' && '\0' !in s
    ensures Result([], s) != "" && Result([], s)[0] == '/' && Result([], Result([], s)) == Result([], s)
  {
    hide Components, Walk, PathText;
    var end := Walk([], Components(s));
    ComponentsPlain(s);
    WalkProper([], Components(s));
    CanonicalFixed(end);
    RootDot();
  }

  lemma {:induction false} RootDot()
    ensures Result([], "/.") == "/."
  {
    var s := "/.";
    assert s[1..] == "." && Slashes(s) == 1;
    assert s == s[..1] + "." + "";
    CutFirst(s, 1, ".", "");
    Walked([], ".", []);
    assert Components("") == [];
    assert s[|s| - 2..] == s;
  }
}
