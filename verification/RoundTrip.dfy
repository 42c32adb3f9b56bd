/**
 Parsing undoes writing: for every line of the grammar, however nested, the
 parser applied to its words gives its tree, or the error that the line holds.
 */
module RoundTrip {
  import opened Grammar
  import opened Options
  import opened Written

  // -------- words that are passed over --------

  /** Looking for `s`, all of `a` is passed over, from depth `l` to depth `m`, without a dip. */
  predicate Over(s: Sep, a: seq<string>, l: int, held: bool, m: int)
  {
    l >= 0 &&
    if a == [] then l == m && !held
    else if held && a[0] == "&" then Over(s, a[1..], l, false, m)
    else !(l == 0 && Splits(s, a[0])) && Over(s, a[1..], l + Delta(a[0]), Takes(s, a[0]), m)
  }

  lemma {:induction false} OverFind(s: Sep, a: seq<string>, b: seq<string>, l: int, held: bool, m: int)
    requires Over(s, a, l, held, m)
    ensures Find(s, a + b, l, held) == |a| + Find(s, b, m, false)
  {
    if a == [] {
      assert a + b == b;
    } else {
      assert (a + b)[1..] == a[1..] + b;
      if held && a[0] == "&" {
        OverFind(s, a[1..], b, l, false, m);
      } else {
        OverFind(s, a[1..], b, l + Delta(a[0]), Takes(s, a[0]), m);
      }
    }
  }

  lemma {:induction false} OverConcat(s: Sep, a: seq<string>, b: seq<string>, l: int, held: bool, k: int, m: int)
    requires Over(s, a, l, held, k) && Over(s, b, k, false, m)
    ensures Over(s, a + b, l, held, m)
  {
    if a == [] {
      assert a + b == b;
    } else {
      assert (a + b)[1..] == a[1..] + b;
      if held && a[0] == "&" {
        OverConcat(s, a[1..], b, l, false, k, m);
      } else {
        OverConcat(s, a[1..], b, l + Delta(a[0]), Takes(s, a[0]), k, m);
      }
    }
  }

  lemma {:induction false} OverDepth(s: Sep, a: seq<string>, l: int, held: bool, m: int)
    requires Over(s, a, l, held, m)
    ensures l + Depth(a) == m && !Dips(a, l)
  {
    if a != [] {
      if held && a[0] == "&" {
        OverDepth(s, a[1..], l, false, m);
      } else {
        OverDepth(s, a[1..], l + Delta(a[0]), Takes(s, a[0]), m);
      }
    }
  }

  /** One word that neither splits nor takes another. */
  lemma {:induction false} OverWord(s: Sep, w: string, l: int)
    requires l >= 0 && Delta(w) == 0 && !Takes(s, w) && (l == 0 ==> !Splits(s, w))
    ensures Over(s, [w], l, false, l)
  {
    assert [w][1..] == [];
  }

  lemma {:induction false} OverInside(s: Sep, a: seq<string>, l: int, held: bool)
    requires l >= 1 && !Dips(a, l - 1)
    ensures Over(s, a + [")"], l, held, l + Depth(a) - 1)
  {
    if a == [] {
      assert a + [")"] == [")"] && [")"][1..] == [];
    } else {
      assert (a + [")"])[1..] == a[1..] + [")"];
      if held && a[0] == "&" {
        OverInside(s, a[1..], l, false);
      } else {
        OverInside(s, a[1..], l + Delta(a[0]), Takes(s, a[0]));
      }
    }
  }

  // -------- the parts of a line --------

  lemma {:induction false} OverRedirection(s: Sep, r: Redirection, l: int)
    requires RedirectionOk(r) && l >= 0
    ensures Over(s, RedirectionWords(r), l, false, l)
  {
    if r.In? {
      OverTwo(s, if r.here then "<<" else "<", r.name, l);
    } else {
      OverWord(s, r.name, l);
      var tail := (if r.force then ["!"] else []) + [r.name];
      if r.force {
        OverTwo(s, "!", r.name, l);
        assert tail == ["!", r.name];
      } else {
        assert tail == [r.name];
      }
      var open := if r.append then ">>" else ">";
      assert RedirectionWords(r) == if r.both then [open] + (["&"] + tail) else [open] + tail;
      OverOutput(s, open, r.both, tail, l);
    }
  }

  lemma {:induction false} OverTwo(s: Sep, v: string, w: string, l: int)
    requires l >= 0 && Delta(v) == 0 && !Takes(s, v) && !Splits(s, v) && Delta(w) == 0 && !Takes(s, w) && !Splits(s, w)
    ensures Over(s, [v, w], l, false, l)
  {
    OverWord(s, v, l);
    OverWord(s, w, l);
    OverConcat(s, [v], [w], l, false, l, l);
    assert [v] + [w] == [v, w];
  }

  lemma {:induction false} OverOutput(s: Sep, open: string, both: bool, tail: seq<string>, l: int)
    requires First(open) == '>' && l >= 0 && Over(s, tail, l, false, l) && tail != [] && tail[0] != "&"
    ensures Over(s, if both then [open] + (["&"] + tail) else [open] + tail, l, false, l)
  {
    if both {
      assert ([open] + (["&"] + tail))[1..] == ["&"] + tail && (["&"] + tail)[1..] == tail;
    } else {
      assert ([open] + tail)[1..] == tail;
      OverHeld(s, tail, l, l);
    }
  }

  /** A word that takes an "&" makes no difference if none follows. */
  lemma {:induction false} OverHeld(s: Sep, a: seq<string>, l: int, m: int)
    requires Over(s, a, l, false, m) && a != [] && a[0] != "&"
    ensures Over(s, a, l, true, m)
  {
  }

  lemma {:induction false} OverRedirections(s: Sep, rs: seq<Redirection>, l: int)
    requires RedirectionsOk(rs) && l >= 0
    ensures Over(s, RedirectionsWords(rs), l, false, l)
  {
    if rs != [] {
      OverRedirection(s, rs[0], l);
      OverRedirections(s, rs[1..], l);
      OverConcat(s, RedirectionWords(rs[0]), RedirectionsWords(rs[1..]), l, false, l, l);
    }
  }

  lemma {:induction false} OverElement(s: Sep, e: Element, specp: bool, l: int)
    requires ElementOk(e, specp) && l >= 0
    ensures Over(s, ElementWords(e), l, false, l)
  {
    match e {
      case Word(w) =>
        OverWord(s, w, l);
      case Redirect(r) =>
        OverRedirection(s, r, l);
      case Parens(inner) =>
        DipsHigher(inner, 0, l);
        OverParens(s, inner, l);
    }
  }

  lemma {:induction false} DipsHigher(a: seq<string>, l: int, m: int)
    requires !Dips(a, l) && l <= m
    ensures !Dips(a, m)
  {
    if a != [] {
      DipsHigher(a[1..], l + Delta(a[0]), m + Delta(a[0]));
    }
  }

  lemma {:induction false} OverParens(s: Sep, inner: seq<string>, l: int)
    requires l >= 0 && !Dips(inner, l) && Depth(inner) == 0
    ensures Over(s, ["("] + (inner + [")"]), l, false, l)
  {
    OverInside(s, inner, l + 1, false);
    assert (["("] + (inner + [")"]))[1..] == inner + [")"];
  }

  lemma {:induction false} OverElements(s: Sep, es: seq<Element>, specp: bool, l: int)
    requires ElementsOk(es, specp) && l >= 0
    ensures Over(s, ElementsWords(es), l, false, l)
  {
    if es != [] {
      OverElement(s, es[0], specp, l);
      OverElements(s, es[1..], specp, l);
      OverConcat(s, ElementWords(es[0]), ElementsWords(es[1..]), l, false, l, l);
    }
  }

  /** How tightly a separator binds. */
  function Rank(s: Sep): nat
  {
    match s
    case AMP => 0
    case SEMI => 1
    case OR => 2
    case AND => 3
    case PIPE => 4
  }

  lemma {:induction false} OverStage(s: Sep, x: Stage, l: int)
    requires StageOk(x) && l >= 0
    ensures Over(s, StageWords(x), l, false, l)
    decreases x, 0
  {
    match x {
      case Plain(es) =>
        OverElements(s, es, Keyworded(ElementsWords(es)), l);
      case Group(before, body, after) =>
        OverRedirections(s, before, l);
        OverRedirections(s, after, l);
        OverLine(s, body, l + 1);
        GroupWords(s, before, LineWords(body), after, l);
    }
  }

  lemma {:induction false} GroupWords(s: Sep, before: seq<Redirection>, inner: seq<string>, after: seq<Redirection>, l: int)
    requires l >= 0 && Over(s, inner, l + 1, false, l + 1)
    requires Over(s, RedirectionsWords(before), l, false, l) && Over(s, RedirectionsWords(after), l, false, l)
    ensures Over(s, RedirectionsWords(before) + (["("] + (inner + ([")"] + RedirectionsWords(after)))), l, false, l)
  {
    var tail := [")"] + RedirectionsWords(after);
    assert tail[1..] == RedirectionsWords(after);
    assert Over(s, tail, l + 1, false, l);
    OverConcat(s, inner, tail, l + 1, false, l + 1, l);
    assert (["("] + (inner + tail))[1..] == inner + tail;
    assert Over(s, ["("] + (inner + tail), l, false, l);
    OverConcat(s, RedirectionsWords(before), ["("] + (inner + tail), l, false, l, l);
  }

  /** No part of a line begins with a separator. */
  lemma {:induction false} FirstStage(x: Stage)
    requires StageOk(x)
    ensures StageWords(x) != [] && !Ends(StageWords(x)[0]) && First(StageWords(x)[0]) != '|'
  {
    match x {
      case Plain(es) =>
        assert ElementOk(es[0], Keyworded(ElementsWords(es)));
      case Group(before, _, _) =>
        assert before != [] ==> RedirectionsWords(before)[0] == RedirectionWords(before[0])[0];
    }
  }

  lemma {:induction false} FirstLine(x: Line)
    requires LineOk(x)
    ensures LineWords(x) != [] && !Ends(LineWords(x)[0])
  {
    FirstSequence(x.s);
  }

  lemma {:induction false} FirstSequence(x: Sequence)
    requires SequenceOk(x)
    ensures SequenceWords(x) != [] && !Ends(SequenceWords(x)[0])
  {
    FirstDisjunction(x.d);
  }

  lemma {:induction false} FirstDisjunction(x: Disjunction)
    requires DisjunctionOk(x)
    ensures DisjunctionWords(x) != [] && !Ends(DisjunctionWords(x)[0])
  {
    FirstConjunction(x.c);
  }

  lemma {:induction false} FirstConjunction(x: Conjunction)
    requires ConjunctionOk(x)
    ensures ConjunctionWords(x) != [] && !Ends(ConjunctionWords(x)[0])
  {
    FirstPipeline(x.p);
  }

  lemma {:induction false} FirstPipeline(x: Pipeline)
    requires PipelineOk(x)
    ensures PipelineWords(x) != [] && !Ends(PipelineWords(x)[0])
  {
    FirstStage(x.s);
  }

  lemma {:induction false} OverPipeline(s: Sep, x: Pipeline, l: int)
    requires PipelineOk(x) && l >= 0 && (l > 0 || Rank(s) < 4)
    ensures Over(s, PipelineWords(x), l, false, l)
    decreases x, 1
  {
    OverStage(s, x.s, l);
    if x.Into? {
      OverPipeline(s, x.more, l);
      FirstPipeline(x.more);
      OverBar(s, x.both, PipelineWords(x.more), l);
      OverConcat(s, StageWords(x.s), (if x.both then ["|", "&"] else ["|"]) + PipelineWords(x.more), l, false, l, l);
    }
  }

  lemma {:induction false} OverBar(s: Sep, both: bool, more: seq<string>, l: int)
    requires l >= 0 && (l > 0 || Rank(s) < 4) && Over(s, more, l, false, l) && more != [] && !Ends(more[0])
    ensures Over(s, (if both then ["|", "&"] else ["|"]) + more, l, false, l)
  {
    OverHeld(s, more, l, l);
    if both {
      assert (["|", "&"] + more)[1..] == ["&"] + more && (["&"] + more)[1..] == more;
    } else {
      assert (["|"] + more)[1..] == more;
    }
  }

  lemma {:induction false} OverConjunction(s: Sep, x: Conjunction, l: int)
    requires ConjunctionOk(x) && l >= 0 && (l > 0 || Rank(s) < 3)
    ensures Over(s, ConjunctionWords(x), l, false, l)
    decreases x, 1
  {
    OverPipeline(s, x.p, l);
    if x.AndAlso? {
      OverConjunction(s, x.more, l);
      OverWord(s, "&&", l);
      OverConcat(s, ["&&"], ConjunctionWords(x.more), l, false, l, l);
      OverConcat(s, PipelineWords(x.p), ["&&"] + ConjunctionWords(x.more), l, false, l, l);
    }
  }

  lemma {:induction false} OverDisjunction(s: Sep, x: Disjunction, l: int)
    requires DisjunctionOk(x) && l >= 0 && (l > 0 || Rank(s) < 2)
    ensures Over(s, DisjunctionWords(x), l, false, l)
    decreases x, 1
  {
    OverConjunction(s, x.c, l);
    if x.OrElse? {
      OverDisjunction(s, x.more, l);
      OverWord(s, "||", l);
      OverConcat(s, ["||"], DisjunctionWords(x.more), l, false, l, l);
      OverConcat(s, ConjunctionWords(x.c), ["||"] + DisjunctionWords(x.more), l, false, l, l);
    }
  }

  lemma {:induction false} OverSequence(s: Sep, x: Sequence, l: int)
    requires SequenceOk(x) && l >= 0 && (l > 0 || s == AMP)
    ensures Over(s, SequenceWords(x), l, false, l)
    decreases x, 1
  {
    OverDisjunction(s, x.d, l);
    OverWord(s, ";", l);
    if x.Ended? {
      OverConcat(s, DisjunctionWords(x.d), [";"], l, false, l, l);
    } else if x.Then? {
      OverSequence(s, x.more, l);
      OverConcat(s, [";"], SequenceWords(x.more), l, false, l, l);
      OverConcat(s, DisjunctionWords(x.d), [";"] + SequenceWords(x.more), l, false, l, l);
    }
  }

  lemma {:induction false} OverLine(s: Sep, x: Line, l: int)
    requires LineOk(x) && l > 0
    ensures Over(s, LineWords(x), l, false, l)
    decreases x, 1
  {
    OverSequence(s, x.s, l);
    OverWord(s, "&", l);
    if x.Background? {
      OverConcat(s, SequenceWords(x.s), ["&"], l, false, l, l);
    } else if x.Amp? {
      OverLine(s, x.more, l);
      OverConcat(s, ["&"], LineWords(x.more), l, false, l, l);
      OverConcat(s, SequenceWords(x.s), ["&"] + LineWords(x.more), l, false, l, l);
    }
  }

  // -------- simple commands --------

  lemma {:induction false} GatherStep(ts: seq<string>, i: nat, l: int, a: Acc, specp: bool, fl: set<Place>)
    requires i < |ts|
    ensures var s := Absorb(ts, i, l, a, specp, fl);
            Gather(ts, i, l, a, specp, fl) ==
            if s.Stop? then Stop(s.e) else Gather(ts, s.at, l + Delta(ts[i]), s.acc, specp, fl)
  {
    hide Absorb, Closing;
  }

  function Inside(a: Acc, xs: seq<string>, specp: bool): Acc
  {
    if specp then a.(words := a.words + xs) else a
  }

  /** Inside parentheses words are kept or dropped, and nothing else happens. */
  lemma {:induction false} GatherInside(ts: seq<string>, i: nat, j: nat, l: int, a: Acc, specp: bool, fl: set<Place>)
    requires i <= j <= |ts| && l >= 1 && !Dips(ts[i..j], l - 1)
    ensures Gather(ts, i, l, a, specp, fl) == Gather(ts, j, l + Depth(ts[i..j]), Inside(a, ts[i..j], specp), specp, fl)
    decreases j - i
  {
    hide Gather;
    if i == j {
      assert a.words + [] == a.words;
    } else {
      assert ts[i..j][1..] == ts[i + 1..j];
      var b := Keep(a, ts[i], specp);
      GatherStep(ts, i, l, a, specp, fl);
      assert Absorb(ts, i, l, a, specp, fl) == Next(b, i + 1);
      GatherInside(ts, i + 1, j, l + Delta(ts[i]), b, specp, fl);
      assert a.words + [ts[i]] + ts[i + 1..j] == a.words + ts[i..j];
    }
  }

  /** A parenthesised run: the parentheses are noted where they stand. */
  lemma {:induction false} GatherParens(ts: seq<string>, i: nat, inner: seq<string>, a: Acc, specp: bool, fl: set<Place>)
    requires i + |inner| + 2 <= |ts| && ts[i..i + |inner| + 2] == ["("] + (inner + [")"])
    requires Depth(inner) == 0 && !Dips(inner, 0) && (specp || a.lp.None?)
    ensures Gather(ts, i, 0, a, specp, fl) ==
            Gather(ts, i + |inner| + 2, 0,
                   Inside(a, ["("] + (inner + [")"]), specp).(lp := Some(i + 1), rp := Some(i + |inner| + 1)), specp, fl)
  {
    hide Gather, Depth, Dips;
    var run, j := ["("] + (inner + [")"]), i + |inner| + 1;
    ParensAt(ts, i, inner);
    var b := Keep(a.(lp := Some(i + 1)), "(", specp);
    GatherStep(ts, i, 0, a, specp, fl);
    assert Absorb(ts, i, 0, a, specp, fl) == Next(b, i + 1);
    GatherInside(ts, i + 1, j, 1, b, specp, fl);
    var c := Inside(b, inner, specp);
    var d := Keep(c.(rp := Some(j)), ")", specp);
    GatherStep(ts, j, 1, c, specp, fl);
    assert Absorb(ts, j, 1, c, specp, fl) == Next(d, j + 1);
    assert a.words + ["("] + inner + [")"] == a.words + run;
  }

  lemma {:induction false} ParensAt(ts: seq<string>, i: nat, inner: seq<string>)
    requires i + |inner| + 2 <= |ts| && ts[i..i + |inner| + 2] == ["("] + (inner + [")"])
    ensures ts[i] == "(" && ts[i + 1..i + |inner| + 1] == inner && ts[i + |inner| + 1] == ")"
  {
    SplitAt(ts, i, ["("], inner + [")"]);
    SplitAt(ts, i + 1, inner, [")"]);
    assert ts[i] == ts[i..i + 1][0];
    var j := i + |inner| + 1;
    assert ts[j] == ts[j..j + 1][0];
  }

  /** A redirection in words does what the redirection does. */
  lemma {:induction false} AbsorbRedirection(ts: seq<string>, i: nat, r: Redirection, a: Acc, specp: bool, fl: set<Place>)
    requires RedirectionOk(r) && i + |RedirectionWords(r)| <= |ts|
    requires ts[i..i + |RedirectionWords(r)|] == RedirectionWords(r)
    ensures var n, s := |RedirectionWords(r)|, Apply(r, a, fl);
            Absorb(ts, i, 0, a, specp, fl) == if s.Stop? then Stop(s.e) else Next(s.acc, i + n)
  {
    var ws := RedirectionWords(r);
    assert ts[i] == ts[i..i + |ws|][0] && ts[i + 1] == ts[i..i + |ws|][1];
    if r.In? {
    } else {
      AbsorbOutput(ts, i, r, a, fl);
    }
  }

  lemma {:induction false} AbsorbOutput(ts: seq<string>, i: nat, r: Redirection, a: Acc, fl: set<Place>)
    requires r.Out? && RedirectionOk(r) && i + |RedirectionWords(r)| <= |ts|
    requires ts[i..i + |RedirectionWords(r)|] == RedirectionWords(r)
    ensures var n, s := |RedirectionWords(r)|, Apply(r, a, fl);
            Output(ts, i, a, fl) == if s.Stop? then Stop(s.e) else Next(s.acc, i + n)
  {
    var ws := RedirectionWords(r);
    var us := ts[i..i + |ws|];
    assert ts[i] == us[0] && ts[i + 1] == us[1];
    if r.both && r.force {
      assert ws == [ws[0], "&", "!", r.name];
    } else if r.both {
      assert ws == [ws[0], "&", r.name];
    } else if r.force {
      assert ws == [ws[0], "!", r.name];
    } else {
      assert ws == [ws[0], r.name];
    }
    if |ws| > 2 {
      assert ts[i + 2] == us[2];
    }
    if |ws| > 3 {
      assert ts[i + 3] == us[3];
    }
  }

  lemma {:induction false} SplitAt(ts: seq<string>, i: nat, a: seq<string>, b: seq<string>)
    requires i + |a| + |b| <= |ts| && ts[i..i + |a| + |b|] == a + b
    ensures ts[i..i + |a|] == a && ts[i + |a|..i + |a| + |b|] == b
  {
    assert ts[i..i + |a|] == ts[i..i + |a| + |b|][..|a|];
    assert ts[i + |a|..i + |a| + |b|] == ts[i..i + |a| + |b|][|a|..];
  }

  lemma {:induction false} GatherRedirections(ts: seq<string>, i: nat, rs: seq<Redirection>, a: Acc, specp: bool, fl: set<Place>)
    requires RedirectionsOk(rs) && i + |RedirectionsWords(rs)| <= |ts|
    requires ts[i..i + |RedirectionsWords(rs)|] == RedirectionsWords(rs)
    ensures var n, s := |RedirectionsWords(rs)|, ApplyAll(rs, a, fl);
            Gather(ts, i, 0, a, specp, fl) == if s.Stop? then Stop(s.e) else Gather(ts, i + n, 0, s.acc, specp, fl)
    decreases rs
  {
    hide Gather, Absorb, Apply, RedirectionWords, RedirectionOk;
    if rs != [] {
      var w, ws := RedirectionWords(rs[0]), RedirectionsWords(rs[1..]);
      SplitAt(ts, i, w, ws);
      assert ts[i] == ts[i..i + |w|][0];
      FirstRedirects(rs[0]);
      GatherStep(ts, i, 0, a, specp, fl);
      AbsorbRedirection(ts, i, rs[0], a, specp, fl);
      var s := Apply(rs[0], a, fl);
      if s.Next? {
        GatherRedirections(ts, i + |w|, rs[1..], s.acc, specp, fl);
      }
    }
  }

  function Bare(a: Acc): Acc
  {
    a.(lp := None, rp := None)
  }

  /** What a word or a parenthesised run at `i` adds. */
  function Added(e: Element, i: nat, a: Acc): Acc
  {
    var b := a.(words := a.words + ElementWords(e));
    if e.Parens? then b.(lp := Some(i + 1), rp := Some(i + |e.inner| + 1)) else b
  }

  lemma {:induction false} GatherElement(ts: seq<string>, i: nat, e: Element, a: Acc, specp: bool, fl: set<Place>)
    requires ElementOk(e, specp) && i + |ElementWords(e)| <= |ts| && ts[i..i + |ElementWords(e)|] == ElementWords(e)
    requires specp || a.lp.None?
    ensures var g, n := Gather(ts, i, 0, a, specp, fl), |ElementWords(e)|;
            if e.Redirect? then
              var s := Apply(e.r, a, fl);
              g == if s.Stop? then Stop(s.e) else Gather(ts, i + n, 0, s.acc, specp, fl)
            else g == Gather(ts, i + n, 0, Added(e, i, a), specp, fl)
  {
    hide Gather, Absorb, Apply, RedirectionWords, RedirectionOk, OrdinaryWord, Depth, Dips;
    assert ts[i] == ts[i..i + |ElementWords(e)|][0];
    match e {
      case Word(_) =>
        GatherStep(ts, i, 0, a, specp, fl);
        AbsorbWord(ts, i, a, specp, fl);
      case Parens(inner) =>
        GatherParens(ts, i, inner, a, specp, fl);
      case Redirect(r) =>
        GatherStep(ts, i, 0, a, specp, fl);
        AbsorbRedirection(ts, i, r, a, specp, fl);
        FirstRedirects(r);
    }
  }

  lemma {:induction false} GatherElements(ts: seq<string>, i: nat, es: seq<Element>, a: Acc, c: Acc, specp: bool, fl: set<Place>)
    requires ElementsOk(es, specp) && i <= |ts| && ts[i..] == ElementsWords(es) && Bare(a) == Bare(c) && (specp || a.lp.None?)
    ensures var g, s := Gather(ts, i, 0, a, specp, fl), Gathered(es, c, fl);
            && (s.Stop? ==> g == Stop(s.e))
            && (s.Next? ==> g.Next? && Bare(g.acc) == Bare(s.acc) && (specp || g.acc.lp.None?))
    decreases es
  {
    hide Gather, Apply, ElementWords, RedirectionOk, OrdinaryWord, Depth, Dips;
    if es == [] {
      GatherEnd(ts, i, a, specp, fl);
    } else {
      var e, w := es[0], ElementWords(es[0]);
      ElementFirst(ts, i, es);
      assert ElementOk(e, specp);
      GatherElement(ts, i, e, a, specp, fl);
      if e.Redirect? {
        ApplyBare(e.r, a, c, fl);
        var s, t := Apply(e.r, a, fl), Apply(e.r, c, fl);
        if s.Next? {
          GatherElements(ts, i + |w|, es[1..], s.acc, t.acc, specp, fl);
        }
      } else {
        WordElement(e);
        GatherElements(ts, i + |w|, es[1..], Added(e, i, a), c.(words := c.words + w), specp, fl);
      }
    }
  }

  lemma {:induction false} WordElement(e: Element)
    ensures e.Word? ==> ElementWords(e) == [e.word]
  {
  }

  lemma {:induction false} ElementFirst(ts: seq<string>, i: nat, es: seq<Element>)
    requires i <= |ts| && es != [] && ts[i..] == ElementsWords(es)
    ensures var w := ElementWords(es[0]);
            i + |w| <= |ts| && ts[i..i + |w|] == w && ts[i + |w|..] == ElementsWords(es[1..])
  {
    hide ElementWords;
    var w, ws := ElementWords(es[0]), ElementsWords(es[1..]);
    assert ts[i..i + |w| + |ws|] == ts[i..];
    SplitAt(ts, i, w, ws);
    assert ts[i + |w|..i + |w| + |ws|] == ts[i + |w|..];
  }

  lemma {:induction false} GatherEnd(ts: seq<string>, i: nat, a: Acc, specp: bool, fl: set<Place>)
    requires i == |ts|
    ensures Gather(ts, i, 0, a, specp, fl) == Next(a, i)
  {
  }

  lemma {:induction false} FirstRedirects(r: Redirection)
    ensures Delta(RedirectionWords(r)[0]) == 0
  {
  }

  lemma {:induction false} AbsorbWord(ts: seq<string>, i: nat, a: Acc, specp: bool, fl: set<Place>)
    requires i < |ts| && OrdinaryWord(ts[i])
    ensures Absorb(ts, i, 0, a, specp, fl) == Next(a.(words := a.words + [ts[i]]), i + 1) && Delta(ts[i]) == 0
  {
  }

  lemma {:induction false} ApplyBare(r: Redirection, a: Acc, c: Acc, fl: set<Place>)
    requires Bare(a) == Bare(c)
    ensures var s, t := Apply(r, a, fl), Apply(r, c, fl);
            && s.Next? == t.Next? && (s.Stop? ==> s == t)
            && (s.Next? ==> Bare(s.acc) == Bare(t.acc) && s.acc.lp == a.lp && s.acc.rp == a.rp && s.acc.words == a.words)
  {
  }

  // -------- parsing undoes writing --------

  /** With no separator outside parentheses, the whole is one part. */
  lemma {:induction false} FindNone(s: Sep, a: seq<string>)
    requires Over(s, a, 0, false, 0)
    ensures Find(s, a, 0, false) == |a| && Depth(a) == 0 && !Dips(a, 0)
  {
    OverFind(s, a, [], 0, false, 0);
    OverDepth(s, a, 0, false, 0);
    assert a + [] == a;
  }

  /** Otherwise the first separator is the one between the first part and the rest. */
  lemma {:induction false} FindFirst(s: Sep, a: seq<string>, sep: seq<string>, b: seq<string>)
    requires Over(s, a, 0, false, 0) && sep != [] && Splits(s, sep[0])
    ensures var ts := a + (sep + b);
            && Find(s, ts, 0, false) == |a| && ts[..|a|] == a && ts[|a|..] == sep + b
            && ts[|a| + |sep|..] == b && ts[|a|] == sep[0] && |ts| > |a|
    ensures Depth(a) == 0 && !Dips(a, 0)
    ensures Depth(sep) == 0 && Depth(b) == 0 ==> Depth(a + (sep + b)) == 0
  {
    OverFind(s, a, sep + b, 0, false, 0);
    OverDepth(s, a, 0, false, 0);
    DepthConcat(a, sep + b);
    DepthConcat(sep, b);
  }

  lemma {:induction false} ReadsStage(x: Stage, close: bool, fl: set<Place>)
    requires StageOk(x)
    ensures Depth(StageWords(x)) == 0
    ensures Syn3(StageWords(x), close, fl) == StageTree(x, close, fl)
    decreases x, 0
  {
    hide Gather, Gathered, Apply, Syn0, Keyworded;
    OverStage(AMP, x, 0);
    OverDepth(AMP, StageWords(x), 0, false, 0);
    FreshStart(close);
    match x {
      case Plain(es) =>
        var ts := ElementsWords(es);
        var specp := Keyworded(ts);
        assert ts[0..] == ts;
        GatherElements(ts, 0, es, Start(close), Start(close), specp, fl);
      case Group(before, body, after) =>
        ReadsLine(body, true, {PHERE});
        LineBalanced(body);
        ReadsGroup(before, LineWords(body), after, close, fl);
    }
  }

  lemma {:induction false} ReadsGroup(before: seq<Redirection>, inner: seq<string>, after: seq<Redirection>, close: bool, fl: set<Place>)
    requires RedirectionsOk(before) && RedirectionsOk(after) && Depth(inner) == 0 && !Dips(inner, 0)
    ensures var ts := RedirectionsWords(before) + (["("] + (inner + ([")"] + RedirectionsWords(after))));
            var g, s := Gather(ts, 0, 0, Start(close), false, fl), ApplyAll(before, Start(close), fl);
            && !Keyworded(ts)
            && (s.Stop? ==> g == Stop(s.e))
            && (s.Next? ==>
                  var t := ApplyAll(after, s.acc, fl);
                  && (t.Stop? ==> g == Stop(t.e))
                  && (t.Next? ==>
                        && g.Next? && g.acc.lp.Some? && g.acc.rp.Some? && g.acc.lp.value <= g.acc.rp.value <= |ts|
                        && ts[g.acc.lp.value..g.acc.rp.value] == inner && g.acc.words == []
                        && g.acc.flags == t.acc.flags && g.acc.lef == t.acc.lef && g.acc.rit == t.acc.rit))
  {
    hide Gather, Keyworded, ApplyAll, RedirectionsWords, RedirectionsOk, Depth, Dips;
    var bs, run, as_ := RedirectionsWords(before), ["("] + (inner + [")"]), RedirectionsWords(after);
    var ts := bs + (["("] + (inner + ([")"] + as_)));
    var i, j := |bs|, |bs| + |run|;
    GroupSlices(bs, inner, as_);
    GroupFirst(before, inner, after);
    GatherRedirections(ts, 0, before, Start(close), false, fl);
    var s := ApplyAll(before, Start(close), fl);
    ApplyAllKeeps(before, Start(close), Start(close), fl);
    if s.Next? {
      GatherParens(ts, i, inner, s.acc, false, fl);
      ParensAt(ts, i, inner);
      var b := s.acc.(lp := Some(i + 1), rp := Some(i + |inner| + 1));
      GatherRedirections(ts, j, after, b, false, fl);
      ApplyAllKeeps(after, b, s.acc, fl);
      var t := ApplyAll(after, b, fl);
      if t.Next? {
        GatherEnd(ts, |ts|, t.acc, false, fl);
      }
    }
  }

  lemma {:induction false} GroupSlices(bs: seq<string>, inner: seq<string>, after: seq<string>)
    ensures var ts, n := bs + (["("] + (inner + ([")"] + after))), |bs| + |inner| + 2;
            && ts[0..|bs|] == bs && |ts| == n + |after| && ts[n..|ts|] == after
            && ts[|bs|..n] == ["("] + (inner + [")"])
  {
  }

  lemma {:induction false} GroupFirst(before: seq<Redirection>, inner: seq<string>, after: seq<Redirection>)
    ensures !Keyworded(RedirectionsWords(before) + (["("] + (inner + ([")"] + RedirectionsWords(after)))))
  {
    if before != [] {
      assert Redirects(RedirectionsWords(before)[0]);
    }
  }

  /** Redirections leave words and parentheses alone, and do not look at them. */
  lemma {:induction false} ApplyAllKeeps(rs: seq<Redirection>, a: Acc, c: Acc, fl: set<Place>)
    requires Bare(a) == Bare(c)
    ensures var s, t := ApplyAll(rs, a, fl), ApplyAll(rs, c, fl);
            && s.Next? == t.Next? && (s.Stop? ==> s == t)
            && (s.Next? ==> Bare(s.acc) == Bare(t.acc) && s.acc.lp == a.lp && s.acc.rp == a.rp && s.acc.words == a.words)
  {
    if rs != [] {
      ApplyBare(rs[0], a, c, fl);
      var s, t := Apply(rs[0], a, fl), Apply(rs[0], c, fl);
      if s.Next? {
        ApplyAllKeeps(rs[1..], s.acc, t.acc, fl);
      }
    }
  }

  lemma {:induction false} DipsConcat(a: seq<string>, b: seq<string>, l: int)
    ensures Dips(a + b, l) <==> Dips(a, l) || Dips(b, l + Depth(a))
  {
    if a == [] {
      assert a + b == b;
    } else {
      assert (a + b)[1..] == a[1..] + b;
      DipsConcat(a[1..], b, l + Delta(a[0]));
    }
  }

  lemma {:induction false} LineBalanced(x: Line)
    requires LineOk(x)
    ensures Depth(LineWords(x)) == 0 && !Dips(LineWords(x), 0)
  {
    hide SequenceWords, SequenceOk, Depth, Dips;
    OverSequence(AMP, x.s, 0);
    OverDepth(AMP, SequenceWords(x.s), 0, false, 0);
    var tail := if x.Foreground? then [] else if x.Background? then ["&"] + [] else ["&"] + LineWords(x.more);
    if x.Amp? {
      LineBalanced(x.more);
      AmpLevel(LineWords(x.more));
    } else {
      AmpLevel([]);
    }
    DepthConcat(SequenceWords(x.s), tail);
    DipsConcat(SequenceWords(x.s), tail, 0);
    assert ["&"] + [] == ["&"];
    assert LineWords(x) == SequenceWords(x.s) + tail;
  }

  lemma {:induction false} AmpLevel(ts: seq<string>)
    ensures Depth(["&"] + ts) == Depth(ts) && (Dips(["&"] + ts, 0) <==> Dips(ts, 0))
    ensures Depth([]) == 0 && !Dips([], 0)
  {
    assert (["&"] + ts)[1..] == ts;
  }

  lemma {:induction false} ReadsPipeline(x: Pipeline, close: bool, fl: set<Place>)
    requires PipelineOk(x)
    ensures Depth(PipelineWords(x)) == 0
    ensures Syn2(PipelineWords(x), close, fl) == PipelineTree(x, close, fl)
    decreases x, 1
  {
    hide Find, Syn3, StageTree, Depth, Dips, Splits, StageWords, StageOk;
    OverStage(PIPE, x.s, 0);
    match x {
      case Stage(s) =>
        ReadsStage(s, close, fl);
        FindNone(PIPE, StageWords(s));
      case Into(s, both, more) =>
        ReadsStage(s, false, fl + {POUT} + if both then {PERR} else {});
        ReadsPipeline(more, close, fl + {PIN});
        FirstPipeline(more);
        Piped(StageWords(s), both, PipelineWords(more), close, fl);
    }
  }

  lemma {:induction false} Piped(a: seq<string>, both: bool, b: seq<string>, close: bool, fl: set<Place>)
    requires Over(PIPE, a, 0, false, 0) && Depth(a) == 0 && Depth(b) == 0 && b != [] && !Ends(b[0])
    ensures var ts := a + ((if both then ["|", "&"] else ["|"]) + b);
            var p, q := Syn3(a, false, fl + {POUT} + if both then {PERR} else {}), Syn2(b, close, fl + {PIN});
            && Depth(ts) == 0
            && Syn2(ts, close, fl) ==
               if p.Bad? then p else if q.Bad? then q else Tree(Pipe(if both then {Stderr} else {}, p.t, q.t))
  {
    hide Find, Syn3, Depth, Dips, Splits, Over;
    PipeSplits(both);
    var sep := if both then ["|", "&"] else ["|"];
    FindFirst(PIPE, a, sep, b);
    var ts := a + (sep + b);
    assert ts[|a| + 1] == (sep + b)[1];
    if both {
      assert First(ts[|a| + 1]) == '&';
      assert ts[|a| + 2..] == b;
    } else {
      assert First(ts[|a| + 1]) != '&';
      assert ts[|a| + 1..] == b;
    }
  }

  lemma {:induction false} PipeSplits(both: bool)
    ensures Splits(PIPE, "|") && Depth(if both then ["|", "&"] else ["|"]) == 0
    ensures Splits(OR, "||") && Depth(["||"]) == 0
    ensures Splits(AND, "&&") && Depth(["&&"]) == 0
    ensures Splits(SEMI, ";") && Depth([";"]) == 0
    ensures Splits(AMP, "&") && Depth(["&"]) == 0
  {
    assert ["|", "&"][1..] == ["&"];
  }

  lemma {:induction false} ReadsConjunction(x: Conjunction, close: bool, fl: set<Place>)
    requires ConjunctionOk(x)
    ensures Depth(ConjunctionWords(x)) == 0
    ensures Syn1b(ConjunctionWords(x), close, fl) == ConjunctionTree(x, close, fl)
    decreases x, 1
  {
    hide Find, Syn2, PipelineTree, Depth, Dips, Splits, PipelineWords, PipelineOk;
    OverPipeline(AND, x.p, 0);
    match x {
      case Pipeline(p) =>
        ReadsPipeline(p, close, fl);
        FindNone(AND, PipelineWords(p));
      case AndAlso(p, more) =>
        ReadsPipeline(p, false, fl);
        ReadsConjunction(more, close, fl);
        PipeSplits(true);
        FindFirst(AND, PipelineWords(p), ["&&"], ConjunctionWords(more));
    }
  }

  lemma {:induction false} ReadsDisjunction(x: Disjunction, close: bool, fl: set<Place>)
    requires DisjunctionOk(x)
    ensures Depth(DisjunctionWords(x)) == 0
    ensures Syn1a(DisjunctionWords(x), close, fl) == DisjunctionTree(x, close, fl)
    decreases x, 1
  {
    hide Find, Syn1b, ConjunctionTree, Depth, Dips, Splits, ConjunctionWords, ConjunctionOk;
    OverConjunction(OR, x.c, 0);
    match x {
      case Conjunction(c) =>
        ReadsConjunction(c, close, fl);
        FindNone(OR, ConjunctionWords(c));
      case OrElse(c, more) =>
        ReadsConjunction(c, false, fl);
        ReadsDisjunction(more, close, fl);
        PipeSplits(true);
        FindFirst(OR, ConjunctionWords(c), ["||"], DisjunctionWords(more));
    }
  }

  /** A sequence, which no single "&" splits, through `syntax`, `syn0` and `syn1`. */
  lemma {:induction false} ReadsSequence(x: Sequence, close: bool, fl: set<Place>)
    requires SequenceOk(x)
    ensures Depth(SequenceWords(x)) == 0
    ensures Syn1(SequenceWords(x), close, fl) == SequenceTree(x, close, fl)
    ensures Syntax(SequenceWords(x), close, fl) == SequenceTree(x, close, fl)
    ensures SequenceTree(x, close, fl) != Tree(Nil)
    decreases x, 1
  {
    hide Find, Syn1a, DisjunctionTree, Depth, Dips, Splits, DisjunctionWords, DisjunctionOk, Ends;
    OverDisjunction(SEMI, x.d, 0);
    PipeSplits(true);
    match x {
      case Disjunction(d) =>
        ReadsDisjunction(d, close, fl);
        DisjunctionTreed(d, close, fl);
        FindNone(SEMI, DisjunctionWords(d));
      case Ended(d) =>
        ReadsDisjunction(d, false, fl);
        assert [";"] + [] == [";"];
        FindFirst(SEMI, DisjunctionWords(d), [";"], []);
        assert Depth([]) == 0 by { NoDepth(); }
      case Then(d, more) =>
        ReadsDisjunction(d, false, fl);
        ReadsSequence(more, close, fl);
        FindFirst(SEMI, DisjunctionWords(d), [";"], SequenceWords(more));
    }
    ThroughSyntax(x, close, fl);
  }

  lemma {:induction false} NoDepth()
    ensures Depth([]) == 0
  {
  }

  /** With no single "&" outside parentheses, `syntax` and `syn0` hand the words on. */
  lemma {:induction false} ThroughSyntax(x: Sequence, close: bool, fl: set<Place>)
    requires SequenceOk(x) && Depth(SequenceWords(x)) == 0
    ensures Syntax(SequenceWords(x), close, fl) == Syn1(SequenceWords(x), close, fl)
  {
    hide Find, Syn1, Depth, Dips, SequenceWords, Ends;
    OverSequence(AMP, x, 0);
    FirstSequence(x);
    FindNone(AMP, SequenceWords(x));
    var ts := SequenceWords(x);
    assert ts[..|ts|] == ts;
  }

  lemma {:induction false} DisjunctionTreed(x: Disjunction, close: bool, fl: set<Place>)
    ensures DisjunctionTree(x, close, fl) != Tree(Nil)
  {
    hide Gathered, ApplyAll, LineTree;
    var c := x.c;
    assert StageTree(c.p.s, close, fl) != Tree(Nil);
    assert PipelineTree(c.p, close, fl) != Tree(Nil);
    assert ConjunctionTree(c, close, fl) != Tree(Nil);
  }


  /** The whole grammar: the words of a line are parsed into its tree. */
  lemma {:induction false} ReadsLine(x: Line, close: bool, fl: set<Place>)
    requires LineOk(x)
    ensures Syn0(LineWords(x), close, fl) == LineTree(x, close, fl)
    ensures Syntax(LineWords(x), close, fl) == LineTree(x, close, fl)
    decreases x, 1
  {
    hide Find, Syn1, SequenceTree, Depth, Dips, Splits, SequenceWords, SequenceOk, Ends;
    OverSequence(AMP, x.s, 0);
    FirstLine(x);
    PipeSplits(true);
    match x {
      case Foreground(s) =>
        ReadsSequence(s, close, fl);
        FindNone(AMP, SequenceWords(s));
        var ts := SequenceWords(s);
        assert ts[..|ts|] == ts;
      case Background(s) =>
        ReadsSequence(s, false, fl);
        Backgrounded(s, fl);
        FindFirst(AMP, SequenceWords(s), ["&"], []);
        assert ["&"] + [] == ["&"];
        AmpEnds([], close, fl);
      case Amp(s, more) =>
        ReadsSequence(s, false, fl);
        Backgrounded(s, fl);
        ReadsLine(more, close, fl);
        FindFirst(AMP, SequenceWords(s), ["&"], LineWords(more));
        AmpEnds(LineWords(more), close, fl);
    }
  }

  lemma {:induction false} FreshStart(close: bool)
    ensures Start(close) == Fresh(close)
  {
  }

  /** One node for every kind of written command. */
  lemma {:induction false} Backgrounded(x: Sequence, fl: set<Place>)
    ensures var r := SequenceTree(x, false, fl); r.Tree? ==> Grammar.Background(r.t) == Behind(x, r.t)
  {
    hide Gathered, ApplyAll, StageTree;
    var d := x.d;
    var c := d.c;
    StageNode(c.p.s, false, fl);
    var p := PipelineTree(c.p, false, fl);
    assert p.Tree? ==> p.t.Simple? || p.t.Paren? || p.t.Pipe?;
    var q := ConjunctionTree(c, false, fl);
    assert q.Tree? ==> if c.Pipeline? then q == p else q.t.And?;
    var r := DisjunctionTree(d, false, fl);
    assert r.Tree? ==> if d.Conjunction? then r == q else r.t.Or?;
  }

  lemma {:induction false} StageNode(x: Stage, close: bool, fl: set<Place>)
    ensures var r := StageTree(x, close, fl); r.Tree? ==> r.t.Simple? || r.t.Paren?
  {
    hide Gathered, ApplyAll, LineTree;
  }

  lemma {:induction false} AmpEnds(ts: seq<string>, close: bool, fl: set<Place>)
    ensures Syntax(["&"] + ts, close, fl) == Syntax(ts, close, fl)
    ensures Syntax([], close, fl) == Tree(Nil)
  {
    assert (["&"] + ts)[1..] == ts;
  }
}
