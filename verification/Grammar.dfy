/**
 The command grammar (`parse.c`): what `syntax` makes of a list of words. Each
 level looks for its first separator outside parentheses and splits there.
 */
module Grammar {
  import opened Options

  datatype Flag = Ampersand | NoInterrupt | NoFork | Append | Stderr | Overwrite | Read

  datatype Command =
    | Nil
    | Simple(flags: set<Flag>, words: seq<string>, lef: Option<string>, rit: Option<string>)
    | Paren(flags: set<Flag>, body: Command, lef: Option<string>, rit: Option<string>)
    | List(car: Command, cdr: Command)
    | Or(car: Command, cdr: Command)
    | And(car: Command, cdr: Command)
    | Pipe(flags: set<Flag>, car: Command, cdr: Command)

  datatype Error = TooManyLp | TooManyRp | BadPlp | BadPlps | NullCom | OutRed | InRed | MisRed | RedPar

  datatype Result = Tree(t: Command) | Bad(e: Error)

  /** Where a command stands: in parentheses, after a pipe, before a pipe, before one that takes errors too. */
  datatype Place = PHERE | PIN | POUT | PERR

  // -------- words --------

  function First(w: string): char
  {
    if w == "" then '\0' else w[0]
  }

  function Second(w: string): char
  {
    if |w| < 2 then '\0' else w[1]
  }

  predicate Redirects(w: string)
  {
    First(w) == '<' || First(w) == '>'
  }

  /** A word that cannot be the name of a file to redirect to. */
  predicate Relpar(w: string)
  {
    Redirects(w) || First(w) == '(' || First(w) == ')'
  }

  predicate Ends(w: string)
  {
    First(w) == ';' || First(w) == '&' || First(w) == '\n'
  }

  function Delta(w: string): int
  {
    if First(w) == '(' then 1 else if First(w) == ')' then -1 else 0
  }

  function Depth(ts: seq<string>): int
  {
    if ts == [] then 0 else Delta(ts[0]) + Depth(ts[1..])
  }

  /** Some `)` comes before the `(` it would close. */
  predicate Dips(ts: seq<string>, l: int)
  {
    ts != [] && (l + Delta(ts[0]) < 0 || Dips(ts[1..], l + Delta(ts[0])))
  }

  lemma {:induction false} DepthConcat(a: seq<string>, b: seq<string>)
    ensures Depth(a + b) == Depth(a) + Depth(b)
  {
    if a == [] {
      assert a + b == b;
    } else {
      DepthConcat(a[1..], b);
      assert (a + b)[1..] == a[1..] + b;
    }
  }

  // -------- separators --------

  datatype Sep = AMP | SEMI | OR | AND | PIPE

  predicate Splits(s: Sep, w: string)
  {
    match s
    case AMP => First(w) == '&' && Second(w) != '&'
    case SEMI => First(w) == ';' || First(w) == '\n'
    case OR => First(w) == '|' && Second(w) == '|'
    case AND => First(w) == '&' && Second(w) == '&'
    case PIPE => First(w) == '|'
  }

  /** A word "&" after this one belongs to it: `>&` and `|&`. */
  predicate Takes(s: Sep, w: string)
  {
    s == AMP && (First(w) == '>' || (First(w) == '|' && Second(w) != '|'))
  }

  /** How many words come before the first separator outside parentheses; `held` if the word before takes an "&". */
  function Find(s: Sep, ts: seq<string>, l: int, held: bool): (n: nat)
    ensures n <= |ts|
  {
    if ts == [] then 0
    else if held && ts[0] == "&" then 1 + Find(s, ts[1..], l, false)
    else if Splits(s, ts[0]) && l == 0 then 0
    else 1 + Find(s, ts[1..], l + Delta(ts[0]), Takes(s, ts[0]))
  }

  lemma {:induction false} FindSplit(s: Sep, ts: seq<string>, l: int, held: bool)
    requires Find(s, ts, l, held) < |ts|
    ensures Splits(s, ts[Find(s, ts, l, held)]) && l + Depth(ts[..Find(s, ts, l, held)]) == 0
  {
    var n := Find(s, ts, l, held);
    if n > 0 {
      assert ts[..n] == [ts[0]] + ts[1..][..n - 1];
      if held && ts[0] == "&" {
        FindSplit(s, ts[1..], l, false);
      } else {
        FindSplit(s, ts[1..], l + Delta(ts[0]), Takes(s, ts[0]));
      }
    }
  }

  lemma {:induction false} SplitDepth(s: Sep, ts: seq<string>)
    requires Depth(ts) == 0
    ensures var n := Find(s, ts, 0, false);
            n < |ts| ==> Splits(s, ts[n]) && Depth(ts[..n]) == 0 && Depth(ts[n + 1..]) == 0
  {
    var n := Find(s, ts, 0, false);
    if n < |ts| {
      FindSplit(s, ts, 0, false);
      assert ts == ts[..n] + ([ts[n]] + ts[n + 1..]);
      DepthConcat(ts[..n], [ts[n]] + ts[n + 1..]);
      DepthConcat([ts[n]], ts[n + 1..]);
      assert Depth([ts[n]]) == 0;
    }
  }

  // -------- simple commands --------

  /** After any number of "else", a keyword whose command keeps its parentheses as words. */
  predicate Keyworded(ts: seq<string>)
  {
    ts != [] && (ts[0] in {"exit", "foreach", "if", "@", "set", "switch", "while"} ||
                 (ts[0] == "else" && Keyworded(ts[1..])))
  }

  /** A command in the making: its words so far, its redirections, and the places of its parentheses. */
  datatype Acc = Acc(
    words: seq<string>, flags: set<Flag>, lef: Option<string>, rit: Option<string>,
    lp: Option<nat>, rp: Option<nat>)

  datatype Step = Next(acc: Acc, at: nat) | Stop(e: Error)

  function Output(ts: seq<string>, i: nat, a: Acc, fl: set<Place>): (r: Step)
    requires i < |ts|
    ensures r.Next? ==> i < r.at <= |ts|
  {
    var flags := if Second(ts[i]) == '>' then a.flags + {Append} else a.flags;
    var both := i + 1 < |ts| && ts[i + 1] == "&";
    if both && (POUT in fl || PERR in fl) then Stop(OutRed)
    else
      var flags2 := if both then flags + {Stderr} else flags;
      var j := if both then i + 2 else i + 1;
      var force := j < |ts| && ts[j] == "!";
      var flags3 := if force then flags2 + {Overwrite} else flags2;
      var k := if force then j + 1 else j;
      if k >= |ts| || Relpar(ts[k]) then Stop(MisRed)
      else if POUT in fl && (PERR !in fl || a.rit.Some?) then Stop(OutRed)
      else Next(a.(flags := flags3, rit := Some(ts[k])), k + 1)
  }

  function Input(ts: seq<string>, i: nat, a: Acc, fl: set<Place>): (r: Step)
    requires i < |ts|
    ensures r.Next? ==> i < r.at <= |ts|
  {
    var flags := if Second(ts[i]) == '<' then a.flags + {Read} else a.flags;
    if i + 1 >= |ts| || Relpar(ts[i + 1]) then Stop(MisRed)
    else if PHERE in fl && Read in flags then Stop(RedPar)
    else if PIN in fl || a.lef.Some? then Stop(InRed)
    else Next(a.(flags := flags, lef := Some(ts[i + 1])), i + 2)
  }

  function Keep(a: Acc, w: string, keep: bool): Acc
  {
    if keep then a.(words := a.words + [w]) else a
  }

  /** What one word, and the words it takes, add to a command at depth `l`. */
  function Absorb(ts: seq<string>, i: nat, l: int, a: Acc, specp: bool, fl: set<Place>): (r: Step)
    requires i < |ts|
    ensures r.Next? ==> i < r.at <= |ts|
  {
    var w := ts[i];
    if First(w) == '(' then
      if l == 0 && a.lp.Some? && !specp then Stop(BadPlp)
      else Next(Keep(if l == 0 then a.(lp := Some(i + 1)) else a, w, specp), i + 1)
    else if First(w) == ')' then
      Next(Keep(if l == 1 then a.(rp := Some(i)) else a, w, specp), i + 1)
    else if l == 0 && First(w) == '>' then Output(ts, i, a, fl)
    else if l == 0 && First(w) == '<' then Input(ts, i, a, fl)
    else Next(Keep(a, w, l == 0 || specp), i + 1)
  }

  /** The rest of a command from word `i` on. */
  function Gather(ts: seq<string>, i: nat, l: int, a: Acc, specp: bool, fl: set<Place>): (r: Step)
    requires i <= |ts|
    ensures r.Next? && Closing(a, i, l) ==> Closing(r.acc, |ts|, l + Depth(ts[i..]))
    decreases |ts| - i
  {
    if i == |ts| then Next(a, i)
    else
      match Absorb(ts, i, l, a, specp, fl)
      case Stop(e) => Stop(e)
      case Next(b, j) =>
        AbsorbDepth(ts, i, l, a, specp, fl);
        Gather(ts, j, l + Delta(ts[i]), b, specp, fl)
  }

  /** An opened parenthesis has been closed, or is still to be. */
  predicate Closing(a: Acc, i: nat, l: int)
  {
    a.lp.Some? ==> a.lp.value <= i && (l >= 1 || (a.rp.Some? && a.lp.value <= a.rp.value < i))
  }

  lemma {:induction false} AbsorbDepth(ts: seq<string>, i: nat, l: int, a: Acc, specp: bool, fl: set<Place>)
    requires i < |ts|
    ensures var r := Absorb(ts, i, l, a, specp, fl);
            r.Next? ==> Depth(ts[i..]) == Delta(ts[i]) + Depth(ts[r.at..]) && (Closing(a, i, l) ==> Closing(r.acc, r.at, l + Delta(ts[i])))
  {
    var r := Absorb(ts, i, l, a, specp, fl);
    if r.Next? {
      assert ts[i..] == [ts[i]] + ts[i + 1..];
      if r.at > i + 1 {
        PlainRun(ts, i + 1, r.at);
      }
    }
  }

  lemma {:induction false} PlainRun(ts: seq<string>, i: nat, j: nat)
    requires i <= j <= |ts| && forall k :: i <= k < j ==> Delta(ts[k]) == 0
    ensures Depth(ts[i..]) == Depth(ts[j..])
    decreases j - i
  {
    if i < j {
      assert ts[i..][1..] == ts[i + 1..];
      PlainRun(ts, i + 1, j);
    }
  }

  // -------- the levels --------

  /** Leading separators, which `syntax` passes over. */
  function Lead(ts: seq<string>): (n: nat)
    ensures n <= |ts|
  {
    if ts != [] && Ends(ts[0]) then 1 + Lead(ts[1..]) else 0
  }

  function Background(t: Command): Command
  {
    match t
    case List(_, _) | Or(_, _) | And(_, _) => Paren({Ampersand, NoInterrupt}, t, None, None)
    case Pipe(f, a, b) => Pipe(f + {Ampersand, NoInterrupt}, a, b)
    case Simple(f, w, i, o) => Simple(f + {Ampersand, NoInterrupt}, w, i, o)
    case Paren(f, b, i, o) => Paren(f + {Ampersand, NoInterrupt}, b, i, o)
    case Nil => Nil
  }

  /** `close` if the word after these is a closing parenthesis. */
  function Syntax(ts: seq<string>, close: bool, fl: set<Place>): Result
    decreases |ts| - Lead(ts), 7, |ts|
  {
    if ts == [] then Tree(Nil)
    else if Ends(ts[0]) then Syntax(ts[1..], close, fl)
    else Syn0(ts, close, fl)
  }

  /** Everything up to a single "&" goes to the background together. */
  function Syn0(ts: seq<string>, close: bool, fl: set<Place>): Result
    decreases |ts|, 6, 0
  {
    var n := Find(AMP, ts, 0, false);
    if Dips(ts[..n], 0) then Bad(TooManyRp)
    else if n < |ts| then
      FindSplit(AMP, ts, 0, false);
      match Syn1(ts[..n], false, fl)
      case Bad(e) => Bad(e)
      case Tree(t1) =>
        match Syntax(ts[n..], close, fl)
        case Bad(e) => Bad(e)
        case Tree(t2) => Tree(List(Background(t1), t2))
    else if Depth(ts) != 0 then Bad(TooManyLp)
    else Syn1(ts, close, fl)
  }

  function Syn1(ts: seq<string>, close: bool, fl: set<Place>): Result
    requires Depth(ts) == 0
    decreases |ts|, 5, 0
  {
    SplitDepth(SEMI, ts);
    var n := Find(SEMI, ts, 0, false);
    if n < |ts| then
      match Syn1a(ts[..n], false, fl)
      case Bad(e) => Bad(e)
      case Tree(t1) =>
        match Syntax(ts[n + 1..], close, fl)
        case Bad(e) => Bad(e)
        case Tree(t2) => Tree(if t2.Nil? then List(Nil, t1) else List(t1, t2))
    else Syn1a(ts, close, fl)
  }

  function Syn1a(ts: seq<string>, close: bool, fl: set<Place>): Result
    requires Depth(ts) == 0
    decreases |ts|, 4, 0
  {
    SplitDepth(OR, ts);
    var n := Find(OR, ts, 0, false);
    if n < |ts| then
      match Syn1b(ts[..n], false, fl)
      case Bad(e) => Bad(e)
      case Tree(t1) =>
        match Syn1a(ts[n + 1..], close, fl)
        case Bad(e) => Bad(e)
        case Tree(t2) => Tree(Or(t1, t2))
    else Syn1b(ts, close, fl)
  }

  function Syn1b(ts: seq<string>, close: bool, fl: set<Place>): Result
    requires Depth(ts) == 0
    decreases |ts|, 3, 0
  {
    SplitDepth(AND, ts);
    var n := Find(AND, ts, 0, false);
    if n < |ts| then
      match Syn2(ts[..n], false, fl)
      case Bad(e) => Bad(e)
      case Tree(t1) =>
        match Syn1b(ts[n + 1..], close, fl)
        case Bad(e) => Bad(e)
        case Tree(t2) => Tree(And(t1, t2))
    else Syn2(ts, close, fl)
  }

  function Syn2(ts: seq<string>, close: bool, fl: set<Place>): Result
    requires Depth(ts) == 0
    decreases |ts|, 2, 0
  {
    SplitDepth(PIPE, ts);
    var n := Find(PIPE, ts, 0, false);
    if n < |ts| then
      var both := n + 1 < |ts| && First(ts[n + 1]) == '&';
      match Syn3(ts[..n], false, fl + {POUT} + if both then {PERR} else {})
      case Bad(e) => Bad(e)
      case Tree(t1) =>
        if both then
          assert ts[n + 1..][1..] == ts[n + 2..];
          match Syn2(ts[n + 2..], close, fl + {PIN})
          case Bad(e) => Bad(e)
          case Tree(t2) => Tree(Pipe({Stderr}, t1, t2))
        else
          match Syn2(ts[n + 1..], close, fl + {PIN})
          case Bad(e) => Bad(e)
          case Tree(t2) => Tree(Pipe({}, t1, t2))
    else Syn3(ts, close, fl)
  }

  function Start(close: bool): Acc
  {
    Acc([], if close then {NoFork} else {}, None, None, None, None)
  }

  function Syn3(ts: seq<string>, close: bool, fl: set<Place>): Result
    requires Depth(ts) == 0
    decreases |ts|, 1, 0
  {
    var specp := Keyworded(ts);
    match Gather(ts, 0, 0, Start(close), specp, fl)
    case Stop(e) => Bad(e)
    case Next(a, _) =>
      if a.lp.Some? && !specp then
        assert ts[0..] == ts;
        if a.words != [] then Bad(BadPlps)
        else
          match Syn0(ts[a.lp.value..a.rp.value], true, {PHERE})
          case Bad(e) => Bad(e)
          case Tree(t) => Tree(Paren(a.flags, t, a.lef, a.rit))
      else if a.words == [] then Bad(NullCom)
      else Tree(Simple(a.flags, a.words, a.lef, a.rit))
  }
}
