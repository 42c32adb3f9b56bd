/**
 Commands written out as words, and the trees that parsing is to get back from them.
 */
module Written {
  import opened Grammar
  import opened Options

  datatype Redirection =
    | In(here: bool, name: string)
    | Out(append: bool, both: bool, force: bool, name: string)

  /** A word, a redirection, or a parenthesised run of words that a keyword keeps as they are. */
  datatype Element = Word(word: string) | Redirect(r: Redirection) | Parens(inner: seq<string>)

  datatype Stage =
    | Plain(elements: seq<Element>)
    | Group(before: seq<Redirection>, body: Line, after: seq<Redirection>)

  datatype Pipeline = Stage(s: Stage) | Into(s: Stage, both: bool, more: Pipeline)

  datatype Conjunction = Pipeline(p: Pipeline) | AndAlso(p: Pipeline, more: Conjunction)

  datatype Disjunction = Conjunction(c: Conjunction) | OrElse(c: Conjunction, more: Disjunction)

  /** Commands to run one after the other; `Ended` has a separator with nothing after it. */
  datatype Sequence = Disjunction(d: Disjunction) | Ended(d: Disjunction) | Then(d: Disjunction, more: Sequence)

  /** A sequence in the foreground, or in the background with or without more after it. */
  datatype Line = Foreground(s: Sequence) | Background(s: Sequence) | Amp(s: Sequence, more: Line)

  // -------- the words --------

  function RedirectionWords(r: Redirection): (ts: seq<string>)
    ensures |ts| > 1 && Redirects(ts[0])
  {
    match r
    case In(here, name) => [if here then "<<" else "<", name]
    case Out(append, both, force, name) =>
      [if append then ">>" else ">"] + (if both then ["&"] else []) + (if force then ["!"] else []) + [name]
  }

  function RedirectionsWords(rs: seq<Redirection>): seq<string>
  {
    if rs == [] then [] else RedirectionWords(rs[0]) + RedirectionsWords(rs[1..])
  }

  function ElementWords(e: Element): (ts: seq<string>)
    ensures ts != []
  {
    match e
    case Word(w) => [w]
    case Redirect(r) => RedirectionWords(r)
    case Parens(inner) => ["("] + (inner + [")"])
  }

  function ElementsWords(es: seq<Element>): seq<string>
  {
    if es == [] then [] else ElementWords(es[0]) + ElementsWords(es[1..])
  }

  function StageWords(s: Stage): seq<string>
  {
    match s
    case Plain(es) => ElementsWords(es)
    case Group(before, body, after) =>
      RedirectionsWords(before) + (["("] + (LineWords(body) + ([")"] + RedirectionsWords(after))))
  }

  function PipelineWords(p: Pipeline): seq<string>
  {
    match p
    case Stage(s) => StageWords(s)
    case Into(s, both, more) => StageWords(s) + ((if both then ["|", "&"] else ["|"]) + PipelineWords(more))
  }

  function ConjunctionWords(c: Conjunction): seq<string>
  {
    match c
    case Pipeline(p) => PipelineWords(p)
    case AndAlso(p, more) => PipelineWords(p) + (["&&"] + ConjunctionWords(more))
  }

  function DisjunctionWords(d: Disjunction): seq<string>
  {
    match d
    case Conjunction(c) => ConjunctionWords(c)
    case OrElse(c, more) => ConjunctionWords(c) + (["||"] + DisjunctionWords(more))
  }

  function SequenceWords(s: Sequence): seq<string>
  {
    match s
    case Disjunction(d) => DisjunctionWords(d)
    case Ended(d) => DisjunctionWords(d) + [";"]
    case Then(d, more) => DisjunctionWords(d) + ([";"] + SequenceWords(more))
  }

  function LineWords(l: Line): seq<string>
  {
    match l
    case Foreground(s) => SequenceWords(s)
    case Background(s) => SequenceWords(s) + ["&"]
    case Amp(s, more) => SequenceWords(s) + (["&"] + LineWords(more))
  }

  // -------- which can be told apart --------

  predicate OrdinaryWord(w: string)
  {
    First(w) !in {'(', ')', '|', '&', ';', '\n', '<', '>'}
  }

  predicate RedirectionOk(r: Redirection)
  {
    OrdinaryWord(r.name) && (r.Out? && !r.force ==> r.name != "!")
  }

  predicate RedirectionsOk(rs: seq<Redirection>)
  {
    forall i :: 0 <= i < |rs| ==> RedirectionOk(rs[i])
  }

  predicate ElementOk(e: Element, specp: bool)
  {
    match e
    case Word(w) => OrdinaryWord(w)
    case Redirect(r) => RedirectionOk(r)
    case Parens(inner) => specp && Depth(inner) == 0 && !Dips(inner, 0)
  }

  predicate ElementsOk(es: seq<Element>, specp: bool)
  {
    forall i :: 0 <= i < |es| ==> ElementOk(es[i], specp)
  }

  /** Parentheses are kept only after a keyword. */
  predicate StageOk(s: Stage)
  {
    match s
    case Plain(es) => es != [] && ElementsOk(es, Keyworded(ElementsWords(es)))
    case Group(before, body, after) => RedirectionsOk(before) && LineOk(body) && RedirectionsOk(after)
  }

  predicate PipelineOk(p: Pipeline)
  {
    StageOk(p.s) && (p.Into? ==> PipelineOk(p.more))
  }

  predicate ConjunctionOk(c: Conjunction)
  {
    PipelineOk(c.p) && (c.AndAlso? ==> ConjunctionOk(c.more))
  }

  predicate DisjunctionOk(d: Disjunction)
  {
    ConjunctionOk(d.c) && (d.OrElse? ==> DisjunctionOk(d.more))
  }

  predicate SequenceOk(s: Sequence)
  {
    DisjunctionOk(s.d) && (s.Then? ==> SequenceOk(s.more))
  }

  predicate LineOk(l: Line)
  {
    SequenceOk(l.s) && (l.Amp? ==> LineOk(l.more))
  }

  // -------- the trees --------

  /** A redirection added to a command, or the reason why it cannot be. */
  function Apply(r: Redirection, a: Acc, fl: set<Place>): Step
  {
    match r
    case In(here, name) =>
      var flags := if here then a.flags + {Read} else a.flags;
      if PHERE in fl && Read in flags then Stop(RedPar)
      else if PIN in fl || a.lef.Some? then Stop(InRed)
      else Next(a.(flags := flags, lef := Some(name)), 0)
    case Out(append, both, force, name) =>
      if both && (POUT in fl || PERR in fl) then Stop(OutRed)
      else if POUT in fl && (PERR !in fl || a.rit.Some?) then Stop(OutRed)
      else
        var flags := a.flags + (if append then {Append} else {}) + (if both then {Stderr} else {}) + if force then {Overwrite} else {};
        Next(a.(flags := flags, rit := Some(name)), 0)
  }

  function ApplyAll(rs: seq<Redirection>, a: Acc, fl: set<Place>): Step
  {
    if rs == [] then Next(a, 0)
    else
      match Apply(rs[0], a, fl)
      case Stop(e) => Stop(e)
      case Next(b, _) => ApplyAll(rs[1..], b, fl)
  }

  function Gathered(es: seq<Element>, a: Acc, fl: set<Place>): Step
  {
    if es == [] then Next(a, 0)
    else
      match es[0]
      case Word(w) => Gathered(es[1..], a.(words := a.words + [w]), fl)
      case Parens(inner) => Gathered(es[1..], a.(words := a.words + ElementWords(es[0])), fl)
      case Redirect(r) =>
        match Apply(r, a, fl)
        case Stop(e) => Stop(e)
        case Next(b, _) => Gathered(es[1..], b, fl)
  }

  /** A command just begun; the last one in parentheses need not fork. */
  function Fresh(last: bool): Acc
  {
    Acc([], if last then {NoFork} else {}, None, None, None, None)
  }

  function StageTree(s: Stage, close: bool, fl: set<Place>): Result
    decreases s, 0
  {
    match s
    case Plain(es) =>
      (match Gathered(es, Fresh(close), fl)
       case Stop(e) => Bad(e)
       case Next(a, _) => if a.words == [] then Bad(NullCom) else Tree(Simple(a.flags, a.words, a.lef, a.rit)))
    case Group(before, body, after) =>
      match ApplyAll(before, Fresh(close), fl)
      case Stop(e) => Bad(e)
      case Next(a, _) =>
        match ApplyAll(after, a, fl)
        case Stop(e) => Bad(e)
        case Next(b, _) =>
          match LineTree(body, true, {PHERE})
          case Bad(e) => Bad(e)
          case Tree(t) => Tree(Paren(b.flags, t, b.lef, b.rit))
  }

  function Both(a: Result, b: Result, join: (Command, Command) -> Command): Result
  {
    match a
    case Bad(e) => Bad(e)
    case Tree(t) =>
      match b
      case Bad(e) => Bad(e)
      case Tree(u) => Tree(join(t, u))
  }

  function PipelineTree(p: Pipeline, close: bool, fl: set<Place>): Result
  {
    match p
    case Stage(s) => StageTree(s, close, fl)
    case Into(s, both, more) =>
      Both(StageTree(s, false, fl + {POUT} + if both then {PERR} else {}), PipelineTree(more, close, fl + {PIN}),
           (t, u) => Pipe(if both then {Stderr} else {}, t, u))
  }

  function ConjunctionTree(c: Conjunction, close: bool, fl: set<Place>): Result
  {
    match c
    case Pipeline(p) => PipelineTree(p, close, fl)
    case AndAlso(p, more) => Both(PipelineTree(p, false, fl), ConjunctionTree(more, close, fl), (t, u) => And(t, u))
  }

  function DisjunctionTree(d: Disjunction, close: bool, fl: set<Place>): Result
  {
    match d
    case Conjunction(c) => ConjunctionTree(c, close, fl)
    case OrElse(c, more) => Both(ConjunctionTree(c, false, fl), DisjunctionTree(more, close, fl), (t, u) => Or(t, u))
  }

  /** A lone command that ends in a separator is put in the second place of its list. */
  function SequenceTree(s: Sequence, close: bool, fl: set<Place>): Result
  {
    match s
    case Disjunction(d) => DisjunctionTree(d, close, fl)
    case Ended(d) => Both(DisjunctionTree(d, false, fl), Tree(Nil), (t, u) => List(Nil, t))
    case Then(d, more) => Both(DisjunctionTree(d, false, fl), SequenceTree(more, close, fl), (t, u) => List(t, u))
  }

  /** A pipeline by itself. */
  predicate Lone(s: Sequence)
  {
    s.Disjunction? && s.d.Conjunction? && s.d.c.Pipeline?
  }

  /** What goes to the background: a pipeline as it is, with two flags more, and anything else in parentheses that have them. */
  function Behind(s: Sequence, t: Command): Command
  {
    if Lone(s) && (t.Simple? || t.Paren? || t.Pipe?) then t.(flags := t.flags + {Ampersand, NoInterrupt})
    else Paren({Ampersand, NoInterrupt}, t, None, None)
  }

  function LineTree(l: Line, close: bool, fl: set<Place>): Result
  {
    match l
    case Foreground(s) => SequenceTree(s, close, fl)
    case Background(s) => Both(SequenceTree(s, false, fl), Tree(Nil), (t, u) => List(Behind(s, t), u))
    case Amp(s, more) =>
      Both(SequenceTree(s, false, fl), LineTree(more, close, fl), (t, u) => List(Behind(s, t), u))
  }
}
