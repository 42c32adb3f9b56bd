/**
 What parsing says of a command apart from its shape: whether it runs in the
 background, whether it may do without a fork, and which keep their parentheses.
 */
module Parsed {
  import opened Grammar
  import opened Options
  import opened RoundTrip
  import opened Written

  const BEHIND: set<Flag> := {Ampersand, NoInterrupt}

  // -------- in the background --------

  /** The same command, but for its flags. */
  predicate SameParts(t: Command, u: Command)
  {
    match (t, u)
    case (Simple(_, v, i, o), Simple(_, w, j, p)) => v == w && i == j && o == p
    case (Paren(_, b, i, o), Paren(_, c, j, p)) => b == c && i == j && o == p
    case (Pipe(_, a, b), Pipe(_, c, d)) => a == c && b == d
    case _ => false
  }

  /**
   The words of any sequence and then "&": what the sequence is by itself, a pipeline with two flags added and
   anything else inside parentheses that have just those flags, and nothing after it.
   */
  lemma {:induction false} RunsBehind(s: Sequence, fl: set<Place>, close: bool)
    requires SequenceOk(s) && Syntax(SequenceWords(s), false, fl).Tree?
    ensures var t, r := Syntax(SequenceWords(s), false, fl).t, Syn0(SequenceWords(s) + ["&"], close, fl);
            && r.Tree? && r.t.List? && r.t.cdr == Nil
            && if t.List? || t.Or? || t.And? then r.t.car == Paren(BEHIND, t, None, None)
               else SameParts(t, r.t.car) && r.t.car.flags == t.flags + BEHIND
  {
    hide Syn0, Syntax, SequenceTree, SequenceWords, SequenceOk;
    ReadsSequence(s, false, fl);
    ReadsLine(Line.Background(s), close, fl);
    SequenceNode(s, fl);
  }

  lemma {:induction false} SequenceNode(x: Sequence, fl: set<Place>)
    ensures var r := SequenceTree(x, false, fl);
            r.Tree? ==> if Lone(x) then r.t.Simple? || r.t.Paren? || r.t.Pipe? else r.t.List? || r.t.Or? || r.t.And?
  {
    hide Gathered, ApplyAll, StageTree;
    var d := x.d;
    var c := d.c;
    StageNode(c.p.s, false, fl);
    var p := PipelineTree(c.p, false, fl);
    assert p.Tree? ==> p.t.Simple? || p.t.Paren? || p.t.Pipe?;
    var q := ConjunctionTree(c, false, fl);
    assert q.Tree? ==> if c.Pipeline? then q == p else q.t.And?;
    var r := DisjunctionTree(d, false, fl);
    assert r.Tree? ==> if d.Conjunction? then r == q else r.t.Or?;
  }

  // -------- without a fork --------

  /** The commands of a tree in order, with those in parentheses as one. */
  function Leaves(t: Command): seq<Command>
  {
    match t
    case Nil => []
    case Simple(_, _, _, _) => [t]
    case Paren(_, _, _, _) => [t]
    case List(a, b) => Leaves(a) + Leaves(b)
    case Or(a, b) => Leaves(a) + Leaves(b)
    case And(a, b) => Leaves(a) + Leaves(b)
    case Pipe(_, a, b) => Leaves(a) + Leaves(b)
  }

  predicate Forkless(t: Command)
  {
    (t.Simple? || t.Paren?) && NoFork in t.flags
  }

  /** Exactly the last of these commands has the flag, or none has if not `last`. */
  ghost predicate OnlyLast(ts: seq<Command>, last: bool)
  {
    ts != [] && forall i :: 0 <= i < |ts| ==> (Forkless(ts[i]) <==> last && i == |ts| - 1)
  }

  lemma {:induction false} LastJoined(a: seq<Command>, b: seq<Command>, last: bool)
    requires OnlyLast(a, false) && OnlyLast(b, last)
    ensures OnlyLast(a + b, last)
  {
  }

  /** A sequence whose last word is not a separator. */
  predicate Open(s: Sequence)
  {
    s.Disjunction? || (s.Then? && Open(s.more))
  }

  /** In front of a closing parenthesis the last command need not fork, every other one does. */
  lemma {:induction false} NoForkLast(s: Sequence, close: bool, fl: set<Place>)
    requires SequenceOk(s) && Syntax(SequenceWords(s), close, fl).Tree?
    ensures OnlyLast(Leaves(Syntax(SequenceWords(s), close, fl).t), close && Open(s))
  {
    hide Syntax, SequenceTree, SequenceWords, SequenceOk, OnlyLast, Leaves;
    ReadsSequence(s, close, fl);
    SequenceLast(s, close, fl);
  }

  lemma {:induction false} SequenceLast(s: Sequence, close: bool, fl: set<Place>)
    ensures var r := SequenceTree(s, close, fl); r.Tree? ==> OnlyLast(Leaves(r.t), close && Open(s))
  {
    hide DisjunctionTree, OnlyLast;
    match s {
      case Disjunction(d) =>
        DisjunctionLast(d, close, fl);
      case Ended(d) =>
        DisjunctionLast(d, false, fl);
        var r := DisjunctionTree(d, false, fl);
        assert r.Tree? ==> [] + Leaves(r.t) == Leaves(r.t);
      case Then(d, more) =>
        DisjunctionLast(d, false, fl);
        SequenceLast(more, close, fl);
        JoinLast(DisjunctionTree(d, false, fl), SequenceTree(more, close, fl), close && Open(more));
    }
  }

  lemma {:induction false} JoinLast(a: Result, b: Result, last: bool)
    requires a.Tree? ==> OnlyLast(Leaves(a.t), false)
    requires b.Tree? ==> OnlyLast(Leaves(b.t), last)
    ensures a.Tree? && b.Tree? ==> OnlyLast(Leaves(a.t) + Leaves(b.t), last)
  {
    hide OnlyLast, Leaves;
    if a.Tree? && b.Tree? {
      LastJoined(Leaves(a.t), Leaves(b.t), last);
    }
  }

  lemma {:induction false} DisjunctionLast(d: Disjunction, close: bool, fl: set<Place>)
    ensures var r := DisjunctionTree(d, close, fl); r.Tree? ==> OnlyLast(Leaves(r.t), close)
  {
    hide ConjunctionTree, OnlyLast;
    if d.OrElse? {
      ConjunctionLast(d.c, false, fl);
      DisjunctionLast(d.more, close, fl);
      JoinLast(ConjunctionTree(d.c, false, fl), DisjunctionTree(d.more, close, fl), close);
    } else {
      ConjunctionLast(d.c, close, fl);
    }
  }

  lemma {:induction false} ConjunctionLast(c: Conjunction, close: bool, fl: set<Place>)
    ensures var r := ConjunctionTree(c, close, fl); r.Tree? ==> OnlyLast(Leaves(r.t), close)
  {
    hide PipelineTree, OnlyLast;
    if c.AndAlso? {
      PipelineLast(c.p, false, fl);
      ConjunctionLast(c.more, close, fl);
      JoinLast(PipelineTree(c.p, false, fl), ConjunctionTree(c.more, close, fl), close);
    } else {
      PipelineLast(c.p, close, fl);
    }
  }

  lemma {:induction false} PipelineLast(p: Pipeline, close: bool, fl: set<Place>)
    ensures var r := PipelineTree(p, close, fl); r.Tree? ==> OnlyLast(Leaves(r.t), close)
  {
    hide StageTree, OnlyLast;
    match p {
      case Stage(s) =>
        StageLast(s, close, fl);
      case Into(s, both, more) =>
        var f := fl + {POUT} + if both then {PERR} else {};
        StageLast(s, false, f);
        PipelineLast(more, close, fl + {PIN});
        JoinLast(StageTree(s, false, f), PipelineTree(more, close, fl + {PIN}), close);
    }
  }

  lemma {:induction false} StageLast(s: Stage, close: bool, fl: set<Place>)
    ensures var r := StageTree(s, close, fl); r.Tree? ==> OnlyLast(Leaves(r.t), close)
  {
    hide LineTree, ApplyAll, Gathered;
    match s {
      case Plain(es) =>
        GatheredFork(es, Fresh(close), fl);
      case Group(before, body, after) =>
        AppliedFork(before, Fresh(close), fl);
        var a := ApplyAll(before, Fresh(close), fl);
        if a.Next? {
          AppliedFork(after, a.acc, fl);
        }
    }
  }

  lemma {:induction false} GatheredFork(es: seq<Element>, a: Acc, fl: set<Place>)
    ensures var r := Gathered(es, a, fl); r.Next? ==> (NoFork in r.acc.flags <==> NoFork in a.flags)
  {
    if es != [] {
      match es[0] {
        case Word(w) =>
          GatheredFork(es[1..], a.(words := a.words + [w]), fl);
        case Parens(_) =>
          GatheredFork(es[1..], a.(words := a.words + ElementWords(es[0])), fl);
        case Redirect(r) =>
          var b := Apply(r, a, fl);
          if b.Next? {
            GatheredFork(es[1..], b.acc, fl);
          }
      }
    }
  }

  lemma {:induction false} AppliedFork(rs: seq<Redirection>, a: Acc, fl: set<Place>)
    ensures var r := ApplyAll(rs, a, fl); r.Next? ==> (NoFork in r.acc.flags <==> NoFork in a.flags)
  {
    if rs != [] {
      var b := Apply(rs[0], a, fl);
      if b.Next? {
        AppliedFork(rs[1..], b.acc, fl);
      }
    }
  }

  // -------- keywords --------

  /** After these words a command keeps its parentheses, whatever balanced words are in them. */
  lemma {:induction false} KeywordsKeep(key: string, inner: seq<string>, fl: set<Place>)
    requires key == "exit" || key == "foreach" || key == "if" || key == "@" || key == "set" || key == "switch" || key == "while"
    requires Depth(inner) == 0 && !Dips(inner, 0)
    ensures var ts := [key] + (["("] + (inner + [")"])); Depth(ts) == 0 && Syn3(ts, false, fl) == Tree(Simple({}, ts, None, None))
  {
    hide Depth, Dips, Syn3;
    var es := [Element.Word(key), Parens(inner)];
    KeyStage(key, inner);
    KeyTree(key, inner, fl);
    ReadsStage(Plain(es), false, fl);
  }

  lemma {:induction false} KeyStage(key: string, inner: seq<string>)
    requires key == "exit" || key == "foreach" || key == "if" || key == "@" || key == "set" || key == "switch" || key == "while"
    requires Depth(inner) == 0 && !Dips(inner, 0)
    ensures var es := [Element.Word(key), Parens(inner)];
            StageOk(Plain(es)) && StageWords(Plain(es)) == [key] + (["("] + (inner + [")"]))
  {
    hide Depth, Dips;
    var es := [Element.Word(key), Parens(inner)];
    assert es[1..] == [Parens(inner)] && es[1..][1..] == [];
    assert ElementsWords(es[1..]) == ["("] + (inner + [")"]);
  }

  lemma {:induction false} KeyTree(key: string, inner: seq<string>, fl: set<Place>)
    ensures StageTree(Plain([Element.Word(key), Parens(inner)]), false, fl) ==
            Tree(Simple({}, [key] + (["("] + (inner + [")"])), None, None))
  {
    var es := [Element.Word(key), Parens(inner)];
    assert es[1..] == [Parens(inner)] && es[1..][1..] == [];
    var a := Fresh(false);
    var b := a.(words := a.words + [key]);
    assert a.words + [key] == [key];
    assert Gathered(es[1..], b, fl) == Next(b.(words := b.words + ElementWords(es[1])), 0);
  }

  /** After any other word, but "else", parentheses are an error. */
  lemma {:induction false} OthersRefuse(w: string, inner: seq<string>, close: bool, fl: set<Place>)
    requires OrdinaryWord(w) && w != "else"
    requires w != "exit" && w != "foreach" && w != "if" && w != "@" && w != "set" && w != "switch" && w != "while"
    requires Depth(inner) == 0 && !Dips(inner, 0)
    ensures var ts := [w] + (["("] + (inner + [")"])); Depth(ts) == 0 && Syn3(ts, close, fl) == Bad(BadPlps)
  {
    hide Gather, Depth, Dips, Absorb, Syn0;
    var ts := [w] + (["("] + (inner + [")"]));
    var a := Start(close);
    var b := a.(words := a.words + [w]);
    WordLevel(w, inner);
    AbsorbWord(ts, 0, a, false, fl);
    GatherStep(ts, 0, 0, a, false, fl);
    assert ts[1..1 + |inner| + 2] == ["("] + (inner + [")"]);
    GatherParens(ts, 1, inner, b, false, fl);
    var c := Inside(b, ["("] + (inner + [")"]), false).(lp := Some(2), rp := Some(|inner| + 2));
    GatherEnd(ts, |ts|, c, false, fl);
    assert c.words != [];
  }

  lemma {:induction false} WordLevel(w: string, inner: seq<string>)
    requires OrdinaryWord(w) && Depth(inner) == 0
    ensures Depth([w] + (["("] + (inner + [")"]))) == 0
  {
    DepthConcat([w], ["("] + (inner + [")"]));
    DepthConcat(["("], inner + [")"]);
    DepthConcat(inner, [")"]);
    assert Depth([w]) == 0 && Depth(["("]) == 1 && Depth([")"]) == -1;
  }

  /** "else" in front changes neither. */
  lemma {:induction false} ElseKeeps(ts: seq<string>)
    ensures Keyworded(["else"] + ts) <==> Keyworded(ts)
  {
    assert (["else"] + ts)[1..] == ts;
  }

  // -------- redirections and groups that are refused --------

  /** A redirection with no name after it, or with a word that can be none. */
  lemma {:induction false} NameMissing(w: string, op: string, rest: seq<string>, close: bool, fl: set<Place>)
    requires OrdinaryWord(w) && (op == "<" || op == "<<" || op == ">" || op == ">>")
    requires rest == [] || First(rest[0]) in {'<', '>', '(', ')'}
    requires Depth([w, op] + rest) == 0
    ensures Syn3([w, op] + rest, close, fl) == Bad(MisRed)
  {
    hide Gather, Depth, Absorb, Keyworded;
    var ts := [w, op] + rest;
    var specp := Keyworded(ts);
    var a := Start(close);
    var b := a.(words := a.words + [w]);
    AbsorbWord(ts, 0, a, specp, fl);
    GatherStep(ts, 0, 0, a, specp, fl);
    assert ts[1] == op && (rest != [] ==> ts[2] == rest[0]);
    AbsorbBare(ts, b, specp, fl);
    GatherStep(ts, 1, 0, b, specp, fl);
  }

  lemma {:induction false} AbsorbBare(ts: seq<string>, a: Acc, specp: bool, fl: set<Place>)
    requires |ts| > 1 && (ts[1] == "<" || ts[1] == "<<" || ts[1] == ">" || ts[1] == ">>")
    requires |ts| == 2 || First(ts[2]) in {'<', '>', '(', ')'}
    ensures Absorb(ts, 1, 0, a, specp, fl) == Stop(MisRed)
  {
  }

  /** One group after another. */
  lemma {:induction false} TwoGroups(one: seq<string>, two: seq<string>, close: bool, fl: set<Place>)
    requires Depth(one) == 0 && !Dips(one, 0)
    requires Depth(["("] + (one + [")"]) + (["("] + two)) == 0
    ensures Syn3(["("] + (one + [")"]) + (["("] + two), close, fl) == Bad(BadPlp)
  {
    hide Gather, Depth, Dips, Absorb;
    var run := ["("] + (one + [")"]);
    var ts := run + (["("] + two);
    var a := Start(close);
    assert ts[0..0 + |one| + 2] == run;
    assert ts[0] == "(" && ts[|run|] == "(";
    GatherParens(ts, 0, one, a, false, fl);
    var b := Inside(a, run, false).(lp := Some(1), rp := Some(|one| + 1));
    AbsorbSecond(ts, |run|, b, fl);
    GatherStep(ts, |run|, 0, b, false, fl);
    NotKeyworded(ts);
  }

  lemma {:induction false} AbsorbSecond(ts: seq<string>, i: nat, a: Acc, fl: set<Place>)
    requires i < |ts| && ts[i] == "(" && a.lp.Some?
    ensures Absorb(ts, i, 0, a, false, fl) == Stop(BadPlp)
  {
  }

  lemma {:induction false} NotKeyworded(ts: seq<string>)
    requires ts != [] && ts[0] == "("
    ensures !Keyworded(ts)
  {
  }
}
