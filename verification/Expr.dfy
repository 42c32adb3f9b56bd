/**
 Expressions (`exp.c`): ten levels of right-recursive grammar over a vector of
 words. The cursor into the vector is the suffix not yet read. Numbers go from
 level to level as strings. In ignore mode the words are read but, mostly, not
 evaluated.
 */
module Expr {
  import opened Naturals
  import opened Numbers
  import opened Options

  /** What an expression can ask of the world; none of it is modelled further. */
  datatype World = World(
    glob: string -> Option<string>,
    gmatch: (string, string) -> bool,
    inquire: (char, string) -> bool,
    present: string -> bool,
    succeeds: seq<string> -> bool)

  /** `Undefined` is a shift that C gives no meaning to. */
  datatype Error = Syntax | NotNumber | Div0 | Mod0 | FileInq | FileName | MissingBrace | NoMatch | Undefined

  datatype Out<T> = Val(v: T) | Err(e: Error)

  datatype Res<T> = Got(v: T, rest: seq<string>) | Fail(e: Error)

  datatype Mode = Mode(ignore: bool, noglob: bool)

  const EVALUATE := Mode(false, false)
  const SKIP := Mode(true, false)

  /** The cursor only moves forward, and not past the end. */
  ghost predicate Within<T>(v: seq<string>, r: Res<T>)
  {
    r.Got? ==> Suffix(r.rest, v)
  }

  ghost predicate Suffix(u: seq<string>, v: seq<string>)
  {
    u == v || (v != [] && Suffix(u, v[1..]))
  }

  lemma {:induction false} SuffixLength(u: seq<string>, v: seq<string>)
    requires Suffix(u, v)
    ensures |u| <= |v| && u == v[|v| - |u|..]
  {
    if u != v {
      SuffixLength(u, v[1..]);
    }
  }

  lemma {:induction false} SuffixAgain(t: seq<string>, u: seq<string>, v: seq<string>)
    requires Suffix(t, u) && Suffix(u, v)
    ensures Suffix(t, v)
  {
    if u != v {
      SuffixAgain(t, u, v[1..]);
    }
  }

  lemma {:induction false} SuffixFrom(v: seq<string>, n: nat)
    requires n <= |v|
    ensures Suffix(v[n..], v)
  {
    if n > 0 {
      SuffixFrom(v[1..], n - 1);
      assert v[1..][n - 1..] == v[n..];
    }
  }

  /** Past the `n` words of an operator. */
  lemma {:induction false} SuffixStep(v: seq<string>, u: seq<string>, n: nat)
    requires Suffix(u, v) && 0 < n <= |u|
    ensures Suffix(u[n..], v) && |u[n..]| < |v|
  {
    SuffixLength(u, v);
    SuffixFrom(u, n);
    SuffixAgain(u[n..], u, v);
  }

  lemma {:induction false} SuffixOn<T>(v: seq<string>, u: seq<string>, r: Res<T>)
    requires Suffix(u, v) && Within(u, r)
    ensures Within(v, r)
  {
    if r.Got? {
      SuffixAgain(r.rest, u, v);
    }
  }

  // -------- words --------

  predicate IsAdd(s: string)
  {
    s == "+" || s == "-"
  }

  predicate IsMul(s: string)
  {
    s == "*" || s == "/" || s == "%"
  }

  function EqOp(s: string): Option<Op>
  {
    if s == "==" then Some(Eq)
    else if s == "=~" then Some(Matches)
    else if s == "!=" then Some(Ne)
    else if s == "!~" then Some(Differs)
    else None
  }

  predicate IsRel(s: string)
  {
    s != "" && (s[0] == '<' || s[0] == '>')
  }

  predicate IsShift(s: string)
  {
    |s| > 1 && (s[0] == '<' || s[0] == '>') && s[0] == s[1]
  }

  predicate IsRest(s: string)
  {
    s in {"(", ")", "!", "~", "^", "\"", "|&", "<<", ">>"}
  }

  /** `isa(s, ANYOP)`. */
  predicate IsAny(s: string)
  {
    IsAdd(s) || IsMul(s) || IsRest(s) || EqOp(s).Some? || IsRel(s)
  }

  predicate IsInquiry(s: string)
  {
    |s| > 1 && s[0] == '-' && s[1] in "erwxfdzopls"
  }

  // -------- arithmetic --------

  function Bool(b: bool): Int
  {
    if b then 1 else 0
  }

  predicate Joins(op: Op, p: bool, q: bool)
  {
    if op == BitOr then p || q else if op == Xor then p != q else p && q
  }

  /** An operator bit by bit, on numbers of a sign and `k` bits in two's complement. */
  function Bitwise(op: Op, x: int, y: int, k: nat): (r: int)
    ensures 0 - Pow2(k) <= r < Pow2(k)
    decreases k
  {
    if k == 0 then (if Joins(op, x < 0, y < 0) then -1 else 0)
    else
      var high := Bitwise(op, x / 2, y / 2, k - 1);
      2 * high + if Joins(op, x % 2 == 1, y % 2 == 1) then 1 else 0
  }

  function Bits(op: Op, x: Int, y: Int): Int
  {
    Pow2Int();
    Bitwise(op, x, y, 31)
  }

  function Shift(left: bool, a: Int, b: Int): Out<Int>
  {
    Pow2Positive(if b < 0 then 0 else b);
    if b < 0 || b > 31 then Err(Undefined)
    else if left then Val(Wrap(a * Pow2(b)))
    else Val(Wrap(a / Pow2(b)))
  }

  /** Division towards zero. */
  function Truncated(x: int, y: int): int
    requires y != 0
  {
    if x >= 0 then x / y else 0 - (0 - x) / y
  }

  /** The one quotient that does not fit is made to wrap. */
  function Quotient(a: Int, b: Int): Int
    requires b != 0
  {
    if a == INT_MIN && b == -1 then INT_MIN else Wrap(Truncated(a, b))
  }

  function Remainder(a: Int, b: Int): Int
    requires b != 0
  {
    if a == INT_MIN && b == -1 then 0 else Wrap(a - Truncated(a, b) * b)
  }

  lemma {:induction false} TruncatedFits(x: int, y: int, q: int, r: int)
    requires y != 0 && q == Truncated(x, y) && r == x - q * y
    ensures if y > 0 then 0 - y < r < y else y < r < 0 - y
    ensures r != 0 ==> (r > 0 <==> x > 0)
    ensures if x >= 0 then 0 - x <= q <= x else x <= q <= 0 - x
    ensures x < 0 && q == 0 - x ==> y == -1
  {
    var p := if x >= 0 then x else 0 - x;
    var d, m := p / y, p % y;
    assert p == d * y + m;
    if x < 0 {
      assert (0 - d) * y == 0 - d * y;
    }
    QuotientBound(p, y, d, m);
  }

  lemma {:induction false} QuotientBound(p: int, y: int, d: int, m: int)
    requires p >= 0 && y != 0 && p == d * y + m && 0 <= m < (if y > 0 then y else 0 - y)
    ensures 0 - p <= d <= p && (p > 0 && d == 0 - p ==> y == -1)
  {
    if y > 0 {
      PositiveBound(p, y, d, m);
    } else {
      assert (0 - d) * (0 - y) == d * y;
      PositiveBound(p, 0 - y, 0 - d, m);
    }
  }

  lemma {:induction false} PositiveBound(p: int, z: int, e: int, m: int)
    requires p >= 0 && z > 0 && p == e * z + m && 0 <= m < z
    ensures 0 <= e <= p && (p > 0 && e == p ==> z == 1)
  {
    if e < 0 {
      Scale(1, 0 - e, z);
      assert false;
    }
    Scale(1, z, e);
    if z > 1 {
      Scale(2, z, e);
    }
  }

  /** As in C: the remainder is short of the divisor and has the sign of the dividend. */
  lemma {:induction false} Truncates(a: Int, b: Int)
    requires b != 0 && !(a == INT_MIN && b == -1)
    ensures a == Quotient(a, b) * b + Remainder(a, b)
    ensures if b > 0 then 0 - b < Remainder(a, b) < b else b < Remainder(a, b) < 0 - b
    ensures Remainder(a, b) != 0 ==> (Remainder(a, b) > 0 <==> a > 0)
  {
    var x: int, y: int := a, b;
    hide Truncated;
    TruncatedFits(x, y, Truncated(x, y), x - Truncated(x, y) * y);
  }

  function Egetn(s: string): Out<Int>
  {
    if s != "" && s[0] != '-' && !IsDigit(s[0]) then Err(Syntax)
    else
      match NumberIn(s)
      case Ok(n) => Val(n)
      case BadNum => Err(NotNumber)
  }

  /** The arithmetic of one operator on two numbers. */
  function Arith(op: Op, x: Int, y: Int): Out<Int>
  {
    match op
    case Lt => Val(Bool(x < y))
    case Le => Val(Bool(x <= y))
    case Gt => Val(Bool(x > y))
    case Ge => Val(Bool(x >= y))
    case Shl => Shift(true, x, y)
    case Shr => Shift(false, x, y)
    case Add => Val(Wrap(x + y))
    case Sub => Val(Wrap(x - y))
    case Mul => Val(Wrap(x * y))
    case Div => if y == 0 then Err(Div0) else Val(Quotient(x, y))
    case Mod => if y == 0 then Err(Mod0) else Val(Remainder(x, y))
    case BitOr | Xor | BitAnd => Val(Bits(op, x, y))
    case OrElse => Val(Bool(x != 0 || y != 0))
    case AndAlso => Val(Bool(x != 0 && y != 0))
    case Eq => Val(Bool(x == y))
    case Ne => Val(Bool(x != y))
    case _ => Val(0)
  }

  /** `op` on the numbers that two strings hold; a divisor is read, and tested for zero, before the dividend. */
  function Compute(op: Op, a: string, b: string): Out<Int>
  {
    if op == Div || op == Mod then
      match Egetn(b)
      case Err(e) => Err(e)
      case Val(y) =>
        if y == 0 then Err(if op == Div then Div0 else Mod0)
        else
          match Egetn(a)
          case Err(e) => Err(e)
          case Val(x) => Arith(op, x, y)
    else
      match Egetn(a)
      case Err(e) => Err(e)
      case Val(x) =>
        match Egetn(b)
        case Err(e) => Err(e)
        case Val(y) => Arith(op, x, y)
  }

  function Wrote(r: Out<Int>): Out<string>
  {
    match r
    case Err(e) => Err(e)
    case Val(n) => Val(Putn(n))
  }

  function At<T>(r: Out<T>, rest: seq<string>): Res<T>
  {
    match r
    case Err(e) => Fail(e)
    case Val(v) => Got(v, rest)
  }

  // -------- operators by level --------

  datatype Op =
    | OrElse | AndAlso | BitOr | Xor | BitAnd
    | Eq | Ne | Matches | Differs
    | Lt | Le | Gt | Ge | Shl | Shr | Add | Sub | Mul | Div | Mod

  function OpLevel(op: Op): (k: nat)
    ensures k <= 9
  {
    match op
    case OrElse => 0
    case AndAlso => 1
    case BitOr => 2
    case Xor => 3
    case BitAnd => 4
    case Eq | Ne | Matches | Differs => 5
    case Lt | Le | Gt | Ge => 6
    case Shl | Shr => 7
    case Add | Sub => 8
    case Mul | Div | Mod => 9
  }

  /** The operator of level `k` that a vector begins with; `<` and `>` take a word "=" that follows. */
  function NextOp(k: nat, u: seq<string>): (r: Option<Op>)
    ensures r.Some? ==> OpLevel(r.value) == k && |u| >= OpSize(r.value)
  {
    if u == [] then None
    else
      match k
      case 0 => if u[0] == "||" then Some(OrElse) else None
      case 1 => if u[0] == "&&" then Some(AndAlso) else None
      case 2 => if u[0] == "|" then Some(BitOr) else None
      case 3 => if u[0] == "^" then Some(Xor) else None
      case 4 => if u[0] == "&" then Some(BitAnd) else None
      case 5 => EqOp(u[0])
      case 6 =>
        if !IsRel(u[0]) then None
        else if |u| > 1 && u[1] == "=" then Some(if u[0][0] == '<' then Le else Ge)
        else Some(if u[0][0] == '<' then Lt else Gt)
      case 7 => if IsShift(u[0]) then Some(if u[0][0] == '<' then Shl else Shr) else None
      case 8 => if IsAdd(u[0]) then Some(if u[0] == "+" then Add else Sub) else None
      case 9 => if IsMul(u[0]) then Some(if u[0] == "*" then Mul else if u[0] == "/" then Div else Mod) else None
      case _ => None
  }

  function OpSize(op: Op): nat
  {
    if op == Le || op == Ge then 2 else 1
  }

  /** The mode in which the right operand is read. */
  function RightMode(op: Op, left: Int, m: Mode): Mode
  {
    match op
    case OrElse => Mode(m.ignore || left != 0, false)
    case AndAlso => Mode(m.ignore || left == 0, false)
    case Matches | Differs => Mode(m.ignore, true)
    case _ => m
  }

  /** Arithmetic on strings; in ignore mode only shifts are worked out, and something else is left for a value. */
  function Result(op: Op, m: Mode, a: string, b: string): Out<Int>
  {
    if m.ignore && OpLevel(op) != 7 then Val(Residue(op)) else Compute(op, a, b)
  }

  /** Equality of strings; in ignore mode, the operator's code. */
  function Equality(w: World, op: Op, m: Mode, a: string, b: string): Int
  {
    if m.ignore then Residue(op)
    else
      match op
      case Eq => Bool(a == b)
      case Ne => Bool(a != b)
      case Matches => Bool(w.gmatch(a, b))
      case _ => Bool(!w.gmatch(a, b))
  }

  function Residue(op: Op): Int
  {
    match op
    case Eq => 1
    case Ne => 6
    case Matches => 7
    case Differs => 8
    case Lt => 4
    case Le => 5
    case Gt => 2
    case Ge => 3
    case _ => 0
  }

  // -------- the levels of the grammar --------

  function Evaluation(w: World, v: seq<string>): (r: Res<Int>)
    ensures Within(v, r)
  {
    Logic(w, 0, v, EVALUATE)
  }

  /** `exp0`, `exp1`, `exp2_`, `exp2a` and `exp2b` are levels 0 to 4: operators on numbers. */
  function Logic(w: World, k: nat, v: seq<string>, m: Mode): (r: Res<Int>)
    requires k <= 5
    ensures Within(v, r)
    decreases |v|, 12 - k
  {
    if k == 5 then Equate(w, v, m)
    else
      match Logic(w, k + 1, v, m)
      case Fail(e) => Fail(e)
      case Got(p1, u) =>
        var next := NextOp(k, u);
        if next.None? then Got(p1, u)
        else
          SuffixStep(v, u, OpSize(next.value));
          var right := Logic(w, k, u[OpSize(next.value)..], RightMode(next.value, p1, m));
          SuffixOn(v, u[OpSize(next.value)..], right);
          match right
          case Fail(e) => Fail(e)
          case Got(p2, t) => At(Arith(next.value, p1, p2), t)
  }

  /** `exp2c`, level 5: comparison of strings. Without one, the string is read as a number. */
  function Equate(w: World, v: seq<string>, m: Mode): (r: Res<Int>)
    ensures Within(v, r)
    decreases |v|, 6
  {
    match Arithmetic(w, 6, v, m)
    case Fail(e) => Fail(e)
    case Got(p1, u) =>
      var next := NextOp(5, u);
      if next.None? then At(Egetn(p1), u)
      else
        SuffixStep(v, u, 1);
        var right := Arithmetic(w, 6, u[1..], RightMode(next.value, 0, m));
        SuffixOn(v, u[1..], right);
        match right
        case Fail(e) => Fail(e)
        case Got(p2, t) => Got(Equality(w, next.value, m, p1, p2), t)
  }

  /** `exp3`, `exp3a`, `exp4` and `exp5` are levels 6 to 9: operators on strings that hold numbers. */
  function Arithmetic(w: World, k: nat, v: seq<string>, m: Mode): (r: Res<string>)
    requires 6 <= k <= 10
    ensures Within(v, r)
    decreases |v|, 11 - k
  {
    if k == 10 then Exp6(w, v, m)
    else
      match Arithmetic(w, k + 1, v, m)
      case Fail(e) => Fail(e)
      case Got(p1, u) =>
        var next := NextOp(k, u);
        if next.None? then Got(p1, u)
        else
          SuffixStep(v, u, OpSize(next.value));
          var right := Arithmetic(w, k, u[OpSize(next.value)..], m);
          SuffixOn(v, u[OpSize(next.value)..], right);
          match right
          case Fail(e) => Fail(e)
          case Got(p2, t) => At(Wrote(Result(next.value, m, p1, p2)), t)
  }

  function Exp6(w: World, v: seq<string>, m: Mode): (r: Res<string>)
    ensures Within(v, r)
    decreases |v|, 0
  {
    if v == [] then Fail(Syntax)
    else if v[0] == "!" || v[0] == "~" then
      match Exp6(w, v[1..], m)
      case Fail(e) => Fail(e)
      case Got(s, u) => At(Wrote(Unary(v[0] == "!", s)), u)
    else if v[0] == "(" then
      match Logic(w, 0, v[1..], m)
      case Fail(e) => Fail(e)
      case Got(n, u) =>
        if u == [] || u[0] == "" || u[0][0] != ')' then Fail(Syntax)
        else
          SuffixStep(v, u, 1);
          Got(Putn(n), u[1..])
    else if v[0] == "{" then
      match Brace(v[1..])
      case None => Fail(MissingBrace)
      case Some(n) =>
        SuffixFrom(v, n + 2);
        Got(if m.ignore then "" else Putn(Bool(w.succeeds(v[1..1 + n]))), v[n + 2..])
    else if IsAny(v[0]) then Got("", v)
    else if IsInquiry(v[0]) then
      if |v[0]| > 2 then Fail(FileInq)
      else if |v| == 1 || (IsAny(v[1]) && !w.present(v[1])) then Fail(FileName)
      else At(Inquiry(w, v[0][1], v[1], m), v[2..])
    else At(Operand(w, v[0], m), v[1..])
  }

  function Unary(not: bool, s: string): Out<Int>
  {
    match Egetn(s)
    case Err(e) => Err(e)
    case Val(n) => Val(if not then Bool(n == 0) else -1 - n)
  }

  /** How many words there are before the closing brace. */
  function Brace(v: seq<string>): (r: Option<nat>)
    ensures r.Some? ==> r.value < |v| && v[r.value] == "}" && "}" !in v[..r.value]
    ensures r.None? ==> "}" !in v
  {
    if v == [] then None
    else if v[0] == "}" then Some(0)
    else
      match Brace(v[1..])
      case None => None
      case Some(n) => assert v[..n + 1] == [v[0]] + v[1..][..n]; Some(n + 1)
  }

  function Inquiry(w: World, op: char, name: string, m: Mode): Out<string>
  {
    if m.ignore then Val("")
    else
      match w.glob(name)
      case None => Err(NoMatch)
      case Some(s) => Val(Putn(Bool(w.inquire(op, s))))
  }

  function Operand(w: World, s: string, m: Mode): Out<string>
  {
    if m.noglob then Val(s)
    else
      match w.glob(s)
      case None => Err(NoMatch)
      case Some(t) => Val(t)
  }

  // -------- expressions as trees --------

  datatype Tree =
    | Word(word: string)
    | File(inquiry: char, name: string)
    | Command(words: seq<string>)
    | Not(operand: Tree)
    | Complement(operand: Tree)
    | Binary(op: Op, left: Tree, right: Tree)

  function OpWords(op: Op): (s: seq<string>)
    ensures |s| == OpSize(op)
  {
    match op
    case OrElse => ["||"]
    case AndAlso => ["&&"]
    case BitOr => ["|"]
    case Xor => ["^"]
    case BitAnd => ["&"]
    case Eq => ["=="]
    case Ne => ["!="]
    case Matches => ["=~"]
    case Differs => ["!~"]
    case Lt => ["<"]
    case Le => ["<", "="]
    case Gt => [">"]
    case Ge => [">", "="]
    case Shl => ["<<"]
    case Shr => [">>"]
    case Add => ["+"]
    case Sub => ["-"]
    case Mul => ["*"]
    case Div => ["/"]
    case Mod => ["%"]
  }

  function Level(e: Tree): (k: nat)
    ensures k <= 10
  {
    match e
    case Binary(op, _, _) => OpLevel(op)
    case _ => 10
  }

  /** All operators group to the right, but equality, which does not group. */
  function RightLevel(op: Op): nat
  {
    if OpLevel(op) == 5 then 6 else OpLevel(op)
  }

  /** The words of a tree where an operand of level `k` is wanted. */
  function Render(e: Tree, k: nat): (s: seq<string>)
    ensures s != []
    decreases e, 1
  {
    if Level(e) < k then ["("] + Body(e) + [")"] else Body(e)
  }

  function Body(e: Tree): (s: seq<string>)
    ensures s != []
    decreases e, 0
  {
    match e
    case Word(s) => [s]
    case File(c, name) => [['-', c], name]
    case Command(ws) => ["{"] + ws + ["}"]
    case Not(t) => ["!"] + Render(t, 10)
    case Complement(t) => ["~"] + Render(t, 10)
    case Binary(op, l, r) => Render(l, OpLevel(op) + 1) + (OpWords(op) + Render(r, RightLevel(op)))
  }

  /** A word that stands for itself. */
  predicate Plain(s: string)
  {
    s != "{" && !IsAny(s) && !IsInquiry(s)
  }

  /** Trees whose words can be told apart from one another. */
  predicate Writable(e: Tree)
  {
    match e
    case Word(s) => Plain(s)
    case File(c, name) => c in "erwxfdzopls" && !IsAny(name)
    case Command(ws) => "}" !in ws
    case Not(t) => Writable(t)
    case Complement(t) => Writable(t)
    case Binary(op, l, r) =>
      Writable(l) && Writable(r) && (op == Lt || op == Gt ==> Render(r, 6)[0] != "=")
  }

  /** No operator of level `k` or of one that binds more tightly comes next. */
  ghost predicate Stops(k: nat, rest: seq<string>)
  {
    forall j :: k <= j <= 9 ==> NextOp(j, rest).None?
  }

  lemma {:induction false} OpStops(op: Op, rest: seq<string>)
    requires op == Lt || op == Gt ==> rest != [] && rest[0] != "="
    ensures Stops(OpLevel(op) + 1, OpWords(op) + rest)
    ensures NextOp(OpLevel(op), OpWords(op) + rest) == Some(op)
  {
    hide NextOp;
    var u := OpWords(op) + rest;
    OpNext(op, rest);
    forall j | OpLevel(op) + 1 <= j <= 9 ensures NextOp(j, u).None? {
      OpLoose(op, rest, j);
    }
  }

  lemma {:induction false} OpNext(op: Op, rest: seq<string>)
    requires op == Lt || op == Gt ==> rest != [] && rest[0] != "="
    ensures NextOp(OpLevel(op), OpWords(op) + rest) == Some(op)
  {
  }

  lemma {:induction false} OpLoose(op: Op, rest: seq<string>, j: nat)
    requires OpLevel(op) < j <= 9
    ensures NextOp(j, OpWords(op) + rest).None?
  {
    var s := (OpWords(op) + rest)[0];
    assert s == OpWords(op)[0];
  }

  // -------- what a tree means --------

  /** The value of a tree as a number, and as a string; between the two, numbers are written and read. */
  function AsInt(w: World, e: Tree, m: Mode): Out<Int>
    decreases e, 2
  {
    if Level(e) > 5 then
      match AsStr(w, e, m)
      case Err(x) => Err(x)
      case Val(s) => Egetn(s)
    else if Level(e) == 5 then
      match AsStr(w, e.left, m)
      case Err(x) => Err(x)
      case Val(a) =>
        match AsStr(w, e.right, RightMode(e.op, 0, m))
        case Err(x) => Err(x)
        case Val(b) => Val(Equality(w, e.op, m, a, b))
    else
      match AsInt(w, e.left, m)
      case Err(x) => Err(x)
      case Val(a) =>
        match AsInt(w, e.right, RightMode(e.op, a, m))
        case Err(x) => Err(x)
        case Val(b) => Arith(e.op, a, b)
  }

  function AsStr(w: World, e: Tree, m: Mode): Out<string>
    decreases e, if Level(e) > 5 then 1 else 3
  {
    if Level(e) <= 5 then Wrote(AsInt(w, e, m))
    else
      match e
      case Word(s) => Operand(w, s, m)
      case File(c, name) => Inquiry(w, c, name, m)
      case Command(ws) => Val(if m.ignore then "" else Putn(Bool(w.succeeds(ws))))
      case Not(t) => UnaryTree(w, true, t, m)
      case Complement(t) => UnaryTree(w, false, t, m)
      case Binary(op, l, r) =>
        match AsStr(w, l, m)
        case Err(x) => Err(x)
        case Val(a) =>
          match AsStr(w, r, m)
          case Err(x) => Err(x)
          case Val(b) => Wrote(Result(op, m, a, b))
  }

  function UnaryTree(w: World, not: bool, t: Tree, m: Mode): Out<string>
    decreases t, 4
  {
    match AsStr(w, t, m)
    case Err(x) => Err(x)
    case Val(s) => Wrote(Unary(not, s))
  }

  // -------- reading back what was written --------

  lemma {:induction false} RenderBinary(e: Tree, rest: seq<string>)
    requires e.Binary?
    ensures Render(e, Level(e)) + rest ==
            Render(e.left, Level(e) + 1) + (OpWords(e.op) + (Render(e.right, RightLevel(e.op)) + rest))
  {
    hide OpWords, OpLevel;
    Concat(Render(e.left, Level(e) + 1), OpWords(e.op), Render(e.right, RightLevel(e.op)), rest);
  }

  lemma {:induction false} RightOperand(e: Tree, rest: seq<string>)
    requires e.Binary? && Writable(e)
    ensures Writable(e.left) && Writable(e.right)
    ensures Stops(Level(e) + 1, OpWords(e.op) + (Render(e.right, RightLevel(e.op)) + rest))
    ensures NextOp(Level(e), OpWords(e.op) + (Render(e.right, RightLevel(e.op)) + rest)) == Some(e.op)
    ensures (OpWords(e.op) + (Render(e.right, RightLevel(e.op)) + rest))[OpSize(e.op)..] == Render(e.right, RightLevel(e.op)) + rest
  {
    hide OpWords, Render, NextOp, Stops, Plain, IsAny;
    var after := Render(e.right, RightLevel(e.op)) + rest;
    assert after[0] == Render(e.right, RightLevel(e.op))[0];
    OpStops(e.op, after);
  }

  lemma {:induction false} Concat(a: seq<string>, b: seq<string>, c: seq<string>, d: seq<string>)
    ensures (a + (b + c)) + d == a + (b + (c + d))
  {
  }

  /** At a level that is not its own, a tree is written as at the next. */
  lemma {:induction false} RenderOther(e: Tree, k: nat)
    requires k != Level(e)
    ensures Render(e, k) == Render(e, k + 1)
  {
  }

  lemma {:induction false} StopsNext(k: nat, rest: seq<string>)
    requires Stops(k, rest) && k <= 9
    ensures NextOp(k, rest).None? && Stops(k + 1, rest)
  {
  }

  /** How far a tree is from the level where its operator, or its first parenthesis, is read. */
  ghost function Rank(e: Tree, k: nat): nat
    requires k <= 10
  {
    if Level(e) < k then 22 - k else 11 - k
  }

  lemma {:induction false} ReadsLogic(w: World, k: nat, e: Tree, rest: seq<string>, m: Mode)
    requires Writable(e) && Stops(k, rest) && k <= 5
    ensures Logic(w, k, Render(e, k) + rest, m) == At(AsInt(w, e, m), rest)
    decreases e, Rank(e, k), 1
  {
    hide Equate, Arithmetic, NextOp, RightMode, Arith, Equality, Writable, Render, Body, OpWords, Stops, Within, Suffix, Egetn;
    if k == 5 {
      ReadsEquate(w, e, rest, m);
    } else if Level(e) == k {
      RenderBinary(e, rest);
      var after := Render(e.right, k) + rest;
      RightOperand(e, rest);
      ReadsLogic(w, k + 1, e.left, OpWords(e.op) + after, m);
      var left := AsInt(w, e.left, m);
      if left.Val? {
        ReadsLogic(w, k, e.right, rest, RightMode(e.op, left.v, m));
      }
    } else {
      RenderOther(e, k);
      StopsNext(k, rest);
      ReadsLogic(w, k + 1, e, rest, m);
    }
  }

  lemma {:induction false} ReadsEquate(w: World, e: Tree, rest: seq<string>, m: Mode)
    requires Writable(e) && Stops(5, rest)
    ensures Equate(w, Render(e, 5) + rest, m) == At(AsInt(w, e, m), rest)
    decreases e, Rank(e, 5), 0
  {
    hide Logic, Arithmetic, NextOp, RightMode, Arith, Equality, Writable, Render, Body, OpWords, Stops, Within, Suffix, Egetn;
    StopsNext(5, rest);
    if Level(e) == 5 {
      RenderBinary(e, rest);
      var after := Render(e.right, 6) + rest;
      RightOperand(e, rest);
      ReadsArithmetic(w, 6, e.left, OpWords(e.op) + after, m);
      if AsStr(w, e.left, m).Val? {
        ReadsArithmetic(w, 6, e.right, rest, RightMode(e.op, 0, m));
      }
    } else {
      RenderOther(e, 5);
      ReadsArithmetic(w, 6, e, rest, m);
      if Level(e) < 5 {
        ReadWrote(AsInt(w, e, m));
      }
    }
  }

  lemma {:induction false} ReadsArithmetic(w: World, k: nat, e: Tree, rest: seq<string>, m: Mode)
    requires Writable(e) && Stops(k, rest) && 6 <= k <= 10
    ensures Arithmetic(w, k, Render(e, k) + rest, m) == At(AsStr(w, e, m), rest)
    decreases e, Rank(e, k), 1
  {
    hide Logic, Equate, NextOp, RightMode, Result, Writable, Render, Body, OpWords, Stops, Within, Suffix, Egetn, Exp6;
    hide Inquiry, Operand, UnaryTree, Wrote, AsInt;
    if k == 10 {
      ReadsExp6(w, e, rest, m);
    } else if Level(e) == k {
      RenderBinary(e, rest);
      var after := Render(e.right, k) + rest;
      RightOperand(e, rest);
      ReadsArithmetic(w, k + 1, e.left, OpWords(e.op) + after, m);
      if AsStr(w, e.left, m).Val? {
        ReadsArithmetic(w, k, e.right, rest, m);
      }
    } else {
      RenderOther(e, k);
      StopsNext(k, rest);
      ReadsArithmetic(w, k + 1, e, rest, m);
    }
  }

  lemma {:induction false} ReadsExp6(w: World, e: Tree, rest: seq<string>, m: Mode)
    requires Writable(e)
    ensures Exp6(w, Render(e, 10) + rest, m) == At(AsStr(w, e, m), rest)
    decreases e, Rank(e, 10), 0
  {
    hide Arithmetic, Equate, Logic, Stops, Within, Suffix, AsInt, AsStr, Egetn, Unary, UnaryTree, Brace, Inquiry, Operand;
    if e.Binary? {
      hide Render, Writable;
      ParenWords(e, rest);
      ParenStops(rest);
      ReadsLogic(w, 0, e, [")"] + rest, m);
      WrittenNumber(w, e, m);
    } else if e.Not? || e.Complement? {
      hide Render, Body;
      UnaryValue(w, e, m);
      UnaryWords(e, rest);
      ReadsExp6(w, e.operand, rest, m);
    } else {
      ReadsLeaf(w, e, rest, m);
    }
  }

  lemma {:induction false} ReadsLeaf(w: World, e: Tree, rest: seq<string>, m: Mode)
    requires Writable(e) && (e.Word? || e.File? || e.Command?)
    ensures Exp6(w, Render(e, 10) + rest, m) == At(AsStr(w, e, m), rest)
  {
    hide Arithmetic, Equate, Logic, Stops, Within, Suffix, AsInt, AsStr, Egetn, Unary, UnaryTree, Brace, Inquiry, Operand;
    LeafValue(w, e, m);
    match e {
      case Word(s) =>
        assert Render(e, 10) + rest == [s] + rest;
        assert ([s] + rest)[1..] == rest;
      case File(c, name) =>
        assert Render(e, 10) + rest == [['-', c], name] + rest;
        assert ([['-', c], name] + rest)[2..] == rest;
      case Command(ws) =>
        CommandWords(ws, rest);
    }
  }

  lemma {:induction false} UnaryWords(e: Tree, rest: seq<string>)
    requires e.Not? || e.Complement?
    ensures var v := Render(e, 10) + rest;
            v[0] == (if e.Not? then "!" else "~") && v[1..] == Render(e.operand, 10) + rest
  {
    assert Render(e, 10) == Body(e);
    hide Render;
  }

  lemma {:induction false} ParenWords(e: Tree, rest: seq<string>)
    requires e.Binary?
    ensures var v := Render(e, 10) + rest;
            v[0] == "(" && v[1..] == Render(e, 0) + ([")"] + rest) && ([")"] + rest)[1..] == rest
  {
    hide Body;
  }

  lemma {:induction false} ParenStops(rest: seq<string>)
    ensures Stops(0, [")"] + rest)
  {
  }

  lemma {:induction false} LeafValue(w: World, e: Tree, m: Mode)
    ensures e.Word? ==> AsStr(w, e, m) == Operand(w, e.word, m)
    ensures e.File? ==> AsStr(w, e, m) == Inquiry(w, e.inquiry, e.name, m)
    ensures e.Command? ==> AsStr(w, e, m) == Val(if m.ignore then "" else Putn(Bool(w.succeeds(e.words))))
  {
  }

  lemma {:induction false} UnaryValue(w: World, e: Tree, m: Mode)
    requires e.Not? || e.Complement?
    ensures var t := AsStr(w, e.operand, m); AsStr(w, e, m) == if t.Err? then Err(t.e) else Wrote(Unary(e.Not?, t.v))
  {
  }

  lemma {:induction false} CommandWords(ws: seq<string>, rest: seq<string>)
    requires "}" !in ws
    ensures var v := Render(Command(ws), 10) + rest;
            && Brace(v[1..]) == Some(|ws|) && |v| >= |ws| + 2
            && v[1..1 + |ws|] == ws && v[|ws| + 2..] == rest
  {
    var v := Render(Command(ws), 10) + rest;
    assert Body(Command(ws)) == ["{"] + ws + ["}"];
    assert v[1..] == ws + (["}"] + rest);
    BraceAt(ws, rest);
  }

  lemma {:induction false} BraceAt(ws: seq<string>, rest: seq<string>)
    requires "}" !in ws
    ensures Brace(ws + (["}"] + rest)) == Some(|ws|)
  {
    if ws != [] {
      BraceAt(ws[1..], rest);
      assert (ws + (["}"] + rest))[1..] == ws[1..] + (["}"] + rest);
    }
  }

  lemma {:induction false} ReadWrote(r: Out<Int>)
    ensures r.Val? ==> Egetn(Putn(r.v)) == r
  {
    if r.Val? {
      ReadBack(r.v);
    }
  }

  /** The value of an operator is a number written down, so reading and writing it again is harmless. */
  lemma {:induction false} WrittenNumber(w: World, e: Tree, m: Mode)
    requires e.Binary?
    ensures Wrote(AsInt(w, e, m)) == AsStr(w, e, m)
  {
    hide Egetn, Result, Arith, Equality;
    if Level(e) > 5 {
      var a, b := AsStr(w, e.left, m), AsStr(w, e.right, m);
      if a.Val? && b.Val? {
        ReadWrote(Result(e.op, m, a.v, b.v));
      }
    }
  }

  // -------- what ignoring changes, on any words --------

  ghost predicate SameRest<T>(a: Res<T>, b: Res<T>)
  {
    a.Got? && b.Got? ==> a.rest == b.rest
  }

  /** Whatever the modes, the same words are read: values never steer the reading. */
  lemma {:induction false} SameWordsLogic(w: World, k: nat, v: seq<string>, m: Mode, n: Mode)
    requires k <= 5
    ensures SameRest(Logic(w, k, v, m), Logic(w, k, v, n))
    decreases |v|, 12 - k
  {
    hide Arithmetic, NextOp, RightMode, Arith, Equality, Egetn, Exp6, Suffix;
    if k == 5 {
      SameWordsArithmetic(w, 6, v, m, n);
      var p, q := Arithmetic(w, 6, v, m), Arithmetic(w, 6, v, n);
      if p.Got? && q.Got? {
        var next := NextOp(5, p.rest);
        if next.Some? {
          SuffixStep(v, p.rest, 1);
          SameWordsArithmetic(w, 6, p.rest[1..], RightMode(next.value, 0, m), RightMode(next.value, 0, n));
        }
      }
    } else {
      SameWordsLogic(w, k + 1, v, m, n);
      var p, q := Logic(w, k + 1, v, m), Logic(w, k + 1, v, n);
      if p.Got? && q.Got? {
        var next := NextOp(k, p.rest);
        if next.Some? {
          SuffixStep(v, p.rest, OpSize(next.value));
          SameWordsLogic(w, k, p.rest[OpSize(next.value)..], RightMode(next.value, p.v, m), RightMode(next.value, q.v, n));
        }
      }
    }
  }

  lemma {:induction false} SameWordsArithmetic(w: World, k: nat, v: seq<string>, m: Mode, n: Mode)
    requires 6 <= k <= 10
    ensures SameRest(Arithmetic(w, k, v, m), Arithmetic(w, k, v, n))
    decreases |v|, 11 - k
  {
    hide Logic, NextOp, Result, Wrote, Suffix, Unary, IsAny, Brace, Inquiry, Operand;
    if k == 10 {
      if v != [] && (v[0] == "!" || v[0] == "~") {
        SameWordsArithmetic(w, 10, v[1..], m, n);
      } else if v != [] && v[0] == "(" {
        SameWordsLogic(w, 0, v[1..], m, n);
      }
    } else {
      SameWordsArithmetic(w, k + 1, v, m, n);
      var p, q := Arithmetic(w, k + 1, v, m), Arithmetic(w, k + 1, v, n);
      if p.Got? && q.Got? {
        var next := NextOp(k, p.rest);
        if next.Some? {
          SuffixStep(v, p.rest, OpSize(next.value));
          SameWordsArithmetic(w, k, p.rest[OpSize(next.value)..], m, n);
        }
      }
    }
  }

  ghost predicate Divides<T>(r: Res<T>)
  {
    r == Fail(Div0) || r == Fail(Mod0)
  }

  lemma {:induction false} NoDivision(w: World, op: Op, m: Mode, a: string, b: string, x: Int, y: Int)
    requires m.ignore
    ensures !Divides(At(Egetn(a), [])) && !Divides(At(Wrote(Unary(true, a)), [])) && !Divides(At(Wrote(Unary(false, a)), []))
    ensures !Divides(At(Wrote(Result(op, m, a, b)), []))
    ensures OpLevel(op) < 5 ==> Arith(op, x, y).Val?
    ensures RightMode(op, x, m).ignore
  {
    hide NumberIn, Bits, Putn;
  }

  lemma {:induction false} NoDivisionLeaf(w: World, m: Mode, c: char, s: string)
    ensures !Divides(At(Inquiry(w, c, s, m), [])) && !Divides(At(Operand(w, s, m), []))
  {
    hide Putn;
  }

  /** Nothing that is ignored divides by zero. */
  lemma {:induction false} IgnoredLogic(w: World, k: nat, v: seq<string>, m: Mode)
    requires k <= 5 && m.ignore
    ensures !Divides(Logic(w, k, v, m))
    decreases |v|, 12 - k
  {
    hide Arithmetic, NextOp, Equality, Exp6, Suffix, Egetn, Arith, RightMode, Result;
    if k == 5 {
      IgnoredArithmetic(w, 6, v, m);
      var p := Arithmetic(w, 6, v, m);
      if p.Got? {
        var next := NextOp(5, p.rest);
        if next.Some? {
          SuffixStep(v, p.rest, 1);
          NoDivision(w, next.value, m, p.v, p.v, 0, 0);
          IgnoredArithmetic(w, 6, p.rest[1..], RightMode(next.value, 0, m));
        } else {
          NoDivision(w, Eq, m, p.v, p.v, 0, 0);
        }
      }
    } else {
      IgnoredLogic(w, k + 1, v, m);
      var p := Logic(w, k + 1, v, m);
      if p.Got? {
        var next := NextOp(k, p.rest);
        if next.Some? {
          SuffixStep(v, p.rest, OpSize(next.value));
          var right := Logic(w, k, p.rest[OpSize(next.value)..], RightMode(next.value, p.v, m));
          NoDivision(w, next.value, m, "", "", p.v, if right.Got? then right.v else 0);
          IgnoredLogic(w, k, p.rest[OpSize(next.value)..], RightMode(next.value, p.v, m));
        }
      }
    }
  }

  lemma {:induction false} IgnoredArithmetic(w: World, k: nat, v: seq<string>, m: Mode)
    requires 6 <= k <= 10 && m.ignore
    ensures !Divides(Arithmetic(w, k, v, m))
    decreases |v|, 11 - k
  {
    hide Logic, NextOp, Suffix, Exp6, Result, Wrote;
    if k == 10 {
      IgnoredExp6(w, v, m);
    } else {
      IgnoredArithmetic(w, k + 1, v, m);
      var p := Arithmetic(w, k + 1, v, m);
      if p.Got? {
        var next := NextOp(k, p.rest);
        if next.Some? {
          SuffixStep(v, p.rest, OpSize(next.value));
          var right := Arithmetic(w, k, p.rest[OpSize(next.value)..], m);
          NoDivision(w, next.value, m, p.v, if right.Got? then right.v else "", 0, 0);
          IgnoredArithmetic(w, k, p.rest[OpSize(next.value)..], m);
        }
      }
    }
  }

  lemma {:induction false} IgnoredExp6(w: World, v: seq<string>, m: Mode)
    requires m.ignore
    ensures !Divides(Exp6(w, v, m))
    decreases |v|, 0
  {
    hide Logic, Arithmetic, Suffix, IsAny, Brace, Wrote, Unary, Inquiry, Operand;
    if v != [] {
      if v[0] == "!" || v[0] == "~" {
        IgnoredExp6(w, v[1..], m);
        var p := Exp6(w, v[1..], m);
        NoDivision(w, Eq, m, if p.Got? then p.v else "", "", 0, 0);
      } else if v[0] == "(" {
        IgnoredLogic(w, 0, v[1..], m);
      } else {
        NoDivisionLeaf(w, m, 'e', v[0]);
        if IsInquiry(v[0]) && |v| > 1 {
          NoDivisionLeaf(w, m, v[0][1], v[1]);
        }
      }
    }
  }

  // -------- integer expressions --------

  /** Trees of numbers, file inquiries and commands: everything but pattern matches. */
  predicate Integral(w: World, e: Tree)
  {
    match e
    case Word(s) => Egetn(s).Val? && s == Putn(Egetn(s).v) && w.glob(s) == Some(s)
    case File(c, name) => c in "erwxfdzopls" && !IsAny(name) && w.glob(name).Some?
    case Command(ws) => "}" !in ws
    case Not(t) => Integral(w, t)
    case Complement(t) => Integral(w, t)
    case Binary(op, l, r) => op != Matches && op != Differs && Integral(w, l) && Integral(w, r)
  }

  /** The left operand alone decides, and the right one is not to be evaluated. */
  predicate Decides(op: Op, left: Int)
  {
    (op == OrElse && left != 0) || (op == AndAlso && left == 0)
  }

  /** The value of an integer expression, with no word, string or mode in it. */
  function Meaning(w: World, e: Tree): Out<Int>
    requires Integral(w, e)
  {
    match e
    case Word(s) => Egetn(s)
    case File(c, name) => Val(Bool(w.inquire(c, w.glob(name).value)))
    case Command(ws) => Val(Bool(w.succeeds(ws)))
    case Not(t) =>
      var n := Meaning(w, t);
      if n.Err? then n else Val(Bool(n.v == 0))
    case Complement(t) =>
      var n := Meaning(w, t);
      if n.Err? then n else Val(-1 - n.v)
    case Binary(op, l, r) =>
      var x := Meaning(w, l);
      if x.Err? then x
      else if Decides(op, x.v) then Val(Bool(x.v != 0))
      else
        var y := Meaning(w, r);
        if y.Err? then y else Arith(op, x.v, y.v)
  }

  /**
    * The number that is left of an expression whose value is not wanted: files and commands are not
    * asked, most operators leave a code of their own, but shifts, bits and truths are still worked out.
    */
  function SkipValue(e: Tree): Int
  {
    match e
    case Word(s) => if Egetn(s).Val? then Egetn(s).v else 0
    case File(_, _) => 0
    case Command(_) => 0
    case Not(t) => Bool(SkipValue(t) == 0)
    case Complement(t) => -1 - SkipValue(t)
    case Binary(op, l, r) =>
      if OpLevel(op) < 5 || (OpLevel(op) == 7 && 0 <= SkipValue(r) < 32) then Arith(op, SkipValue(l), SkipValue(r)).v
      else Residue(op)
  }

  /** Every shift amount left in an expression whose value is not wanted is one that C defines. */
  predicate SkipFits(e: Tree)
  {
    match e
    case Not(t) => SkipFits(t)
    case Complement(t) => SkipFits(t)
    case Binary(op, l, r) => SkipFits(l) && SkipFits(r) && (OpLevel(op) == 7 ==> 0 <= SkipValue(r) < 32)
    case _ => true
  }

  /** No operand that `||` or `&&` leaves out has a shift out of range. */
  predicate Quiet(w: World, e: Tree)
    requires Integral(w, e)
  {
    match e
    case Not(t) => Quiet(w, t)
    case Complement(t) => Quiet(w, t)
    case Binary(op, l, r) =>
      var x := Meaning(w, l);
      Quiet(w, l) && (x.Val? ==> if Decides(op, x.v) then SkipFits(r) else Quiet(w, r))
    case _ => true
  }

  lemma {:induction false} NumberWord(n: Int)
    ensures Plain(Putn(n)) && Putn(n) != "="
  {
    hide Putn, Wrap, Decimal;
    var s := Putn(n);
    ReadBack(n);
    if s[0] == '-' {
      assert IsDigit(s[1..][0]);
    }
    assert s[0] != '(' && s[0] != '{' && s[0] != '<';
    NotOperator(s);
  }

  lemma {:induction false} NotOperator(s: string)
    requires s != [] && (IsDigit(s[0]) || (s[0] == '-' && |s| > 1 && IsDigit(s[1])))
    ensures Plain(s) && s != "="
  {
  }

  /** Integer expressions can always be told apart from the words of their operators. */
  lemma {:induction false} IntegralWritable(w: World, e: Tree)
    requires Integral(w, e)
    ensures Writable(e) && forall k :: Render(e, k)[0] != "="
  {
    hide IsAny, Egetn, Plain, Stops;
    match e {
      case Word(s) =>
        NumberWord(Egetn(s).v);
      case File(_, _) =>
      case Command(_) =>
      case Not(t) =>
        IntegralWritable(w, t);
      case Complement(t) =>
        IntegralWritable(w, t);
      case Binary(op, l, r) =>
        IntegralWritable(w, l);
        IntegralWritable(w, r);
        assert Body(e)[0] == Render(l, OpLevel(op) + 1)[0];
    }
  }

  function SkipRun(e: Tree): Out<Int>
  {
    if SkipFits(e) then Val(SkipValue(e)) else Err(Undefined)
  }

  /** A string that is read as the number `r`, or the same error. */
  ghost predicate Holds(s: Out<string>, r: Out<Int>)
  {
    if r.Val? then s.Val? && Egetn(s.v) == r else s == Err(r.e)
  }

  /** In ignore mode an expression leaves the value, or the undefined shift, that its text alone tells. */
  lemma {:induction false} Skips(w: World, e: Tree)
    requires Integral(w, e)
    ensures AsInt(w, e, SKIP) == SkipRun(e) && Holds(AsStr(w, e, SKIP), SkipRun(e))
  {
    hide AsInt, AsStr, Holds, IsAny;
    match e {
      case Not(t) =>
        Skips(w, t);
        SkipsUnary(w, e);
      case Complement(t) =>
        Skips(w, t);
        SkipsUnary(w, e);
      case Binary(op, l, r) =>
        Skips(w, l);
        Skips(w, r);
        SkipsBinary(w, e);
      case _ =>
        SkipsLeaf(w, e);
    }
  }

  lemma {:induction false} SkipsLeaf(w: World, e: Tree)
    requires Integral(w, e) && (e.Word? || e.File? || e.Command?)
    ensures AsInt(w, e, SKIP) == SkipRun(e) && Holds(AsStr(w, e, SKIP), SkipRun(e))
  {
  }

  lemma {:induction false} SkipsUnary(w: World, e: Tree)
    requires e.Not? || e.Complement?
    requires Holds(AsStr(w, e.operand, SKIP), SkipRun(e.operand))
    ensures AsInt(w, e, SKIP) == SkipRun(e) && Holds(AsStr(w, e, SKIP), SkipRun(e))
  {
    hide Egetn, Putn;
    UnaryValue(w, e, SKIP);
    var s := AsStr(w, e.operand, SKIP);
    if s.Val? {
      ReadWrote(Unary(e.Not?, s.v));
    }
  }

  lemma {:induction false} SkipsBinary(w: World, e: Tree)
    requires e.Binary? && e.op != Matches && e.op != Differs
    requires Holds(AsStr(w, e.left, SKIP), SkipRun(e.left)) && Holds(AsStr(w, e.right, SKIP), SkipRun(e.right))
    requires AsInt(w, e.left, SKIP) == SkipRun(e.left) && AsInt(w, e.right, SKIP) == SkipRun(e.right)
    ensures AsInt(w, e, SKIP) == SkipRun(e) && Holds(AsStr(w, e, SKIP), SkipRun(e))
  {
    hide AsInt, AsStr, Egetn, Putn, SkipValue, SkipFits;
    if OpLevel(e.op) < 5 {
      SkipsLogic(w, e);
    } else {
      SkipsArithmetic(w, e);
    }
    WrittenNumber(w, e, SKIP);
    ReadWrote(AsInt(w, e, SKIP));
  }

  lemma {:induction false} SkipsLogic(w: World, e: Tree)
    requires e.Binary? && OpLevel(e.op) < 5
    requires AsInt(w, e.left, SKIP) == SkipRun(e.left) && AsInt(w, e.right, SKIP) == SkipRun(e.right)
    ensures AsInt(w, e, SKIP) == SkipRun(e)
  {
    hide AsStr, Egetn, Putn, Bits;
    var a, b := AsInt(w, e.left, SKIP), AsInt(w, e.right, SKIP);
    if a.Val? && b.Val? {
      assert RightMode(e.op, a.v, SKIP) == SKIP;
      assert AsInt(w, e, SKIP) == Arith(e.op, a.v, b.v);
    }
  }

  lemma {:induction false} SkipsArithmetic(w: World, e: Tree)
    requires e.Binary? && OpLevel(e.op) >= 5 && e.op != Matches && e.op != Differs
    requires Holds(AsStr(w, e.left, SKIP), SkipRun(e.left)) && Holds(AsStr(w, e.right, SKIP), SkipRun(e.right))
    ensures AsInt(w, e, SKIP) == SkipRun(e)
  {
    hide Egetn, Putn, Bits, Pow2, Wrap, Shift, Quotient, Remainder;
    var a, b := AsStr(w, e.left, SKIP), AsStr(w, e.right, SKIP);
    assert RightMode(e.op, 0, SKIP) == SKIP;
    if a.Val? && b.Val? {
      ShiftDefined(e.op == Shl, SkipValue(e.left), SkipValue(e.right));
      ReadWrote(Result(e.op, SKIP, a.v, b.v));
    }
  }

  lemma {:induction false} ShiftDefined(left: bool, a: Int, b: Int)
    ensures Shift(left, a, b).Val? <==> 0 <= b < 32
    ensures Shift(left, a, b).Err? ==> Shift(left, a, b) == Err(Undefined)
  {
    hide Pow2, Wrap;
  }

  function Run(w: World, e: Tree): Out<Int>
    requires Integral(w, e)
  {
    if Quiet(w, e) then Meaning(w, e) else Err(Undefined)
  }

  /** Evaluation over words and strings agrees with the meaning of the tree. */
  lemma {:induction false} Evaluates(w: World, e: Tree)
    requires Integral(w, e)
    ensures AsInt(w, e, EVALUATE) == Run(w, e)
    ensures AsStr(w, e, EVALUATE) == Wrote(Run(w, e))
  {
    hide AsInt, AsStr, Egetn, Putn, Arith, Equality, Result, IsAny;
    match e {
      case Word(s) =>
        EvaluatesLeaf(w, e);
      case File(_, _) =>
        EvaluatesLeaf(w, e);
      case Command(_) =>
        EvaluatesLeaf(w, e);
      case Not(t) =>
        Evaluates(w, t);
        EvaluatesUnary(w, e);
      case Complement(t) =>
        Evaluates(w, t);
        EvaluatesUnary(w, e);
      case Binary(op, l, r) =>
        Evaluates(w, l);
        Evaluates(w, r);
        Skips(w, r);
        EvaluatesBinary(w, e);
        WrittenNumber(w, e, EVALUATE);
    }
  }

  lemma {:induction false} EvaluatesLeaf(w: World, e: Tree)
    requires Integral(w, e) && (e.Word? || e.File? || e.Command?)
    ensures AsInt(w, e, EVALUATE) == Meaning(w, e)
    ensures AsStr(w, e, EVALUATE) == Wrote(Meaning(w, e))
  {
    hide Egetn, Putn, IsAny;
    ReadWrote(Meaning(w, e));
  }

  lemma {:induction false} EvaluatesUnary(w: World, e: Tree)
    requires Integral(w, e) && (e.Not? || e.Complement?)
    requires AsStr(w, e.operand, EVALUATE) == Wrote(Run(w, e.operand))
    ensures AsInt(w, e, EVALUATE) == Run(w, e)
    ensures AsStr(w, e, EVALUATE) == Wrote(Run(w, e))
  {
    hide Egetn, Putn, Run, AsStr, Integral;
    RunUnary(w, e);
    UnaryValue(w, e, EVALUATE);
    ReadWrote(Run(w, e.operand));
    ReadWrote(Run(w, e));
  }

  lemma {:induction false} RunUnary(w: World, e: Tree)
    requires Integral(w, e) && (e.Not? || e.Complement?)
    ensures Integral(w, e.operand)
    ensures var x := Run(w, e.operand); Run(w, e) == if x.Err? then x else Val(if e.Not? then Bool(x.v == 0) else -1 - x.v)
  {
    hide Egetn, Putn, IsAny, SkipFits, SkipValue, Arith;
  }

  lemma {:induction false} EvaluatesBinary(w: World, e: Tree)
    requires Integral(w, e) && e.Binary?
    requires AsInt(w, e.left, EVALUATE) == Run(w, e.left) && AsInt(w, e.right, EVALUATE) == Run(w, e.right)
    requires AsStr(w, e.left, EVALUATE) == Wrote(Run(w, e.left)) && AsStr(w, e.right, EVALUATE) == Wrote(Run(w, e.right))
    requires AsInt(w, e.right, SKIP) == SkipRun(e.right)
    ensures AsInt(w, e, EVALUATE) == Run(w, e)
  {
    hide AsInt, AsStr, Egetn, Putn, IsAny;
    if OpLevel(e.op) < 5 {
      EvaluatesLogic(w, e);
    } else if OpLevel(e.op) == 5 {
      EvaluatesEquality(w, e);
    } else {
      EvaluatesArithmetic(w, e);
    }
  }

  lemma {:induction false} EvaluatesLogic(w: World, e: Tree)
    requires Integral(w, e) && e.Binary? && OpLevel(e.op) < 5
    requires AsInt(w, e.left, EVALUATE) == Run(w, e.left) && AsInt(w, e.right, EVALUATE) == Run(w, e.right)
    requires AsInt(w, e.right, SKIP) == SkipRun(e.right)
    ensures AsInt(w, e, EVALUATE) == Run(w, e)
  {
    hide AsStr, Egetn, Putn, IsAny, Bits, SkipFits, SkipValue;
    var x := Run(w, e.left);
    if x.Val? {
      assert RightMode(e.op, x.v, EVALUATE) == if Decides(e.op, x.v) then SKIP else EVALUATE;
    }
  }

  /** Every operator but `||` and `&&` needs both its operands. */
  lemma {:induction false} RunStrict(w: World, e: Tree)
    requires Integral(w, e) && e.Binary? && OpLevel(e.op) >= 5
    ensures var x, y := Run(w, e.left), Run(w, e.right);
            Run(w, e) == if x.Err? then x else if y.Err? then y else Arith(e.op, x.v, y.v)
  {
    hide Egetn, Putn, IsAny, SkipFits, SkipValue, Arith;
  }

  lemma {:induction false} EvaluatesEquality(w: World, e: Tree)
    requires Integral(w, e) && e.Binary? && OpLevel(e.op) == 5
    requires AsStr(w, e.left, EVALUATE) == Wrote(Run(w, e.left)) && AsStr(w, e.right, EVALUATE) == Wrote(Run(w, e.right))
    ensures AsInt(w, e, EVALUATE) == Run(w, e)
  {
    hide Egetn, Putn, IsAny, Run;
    RunStrict(w, e);
    var x, y := Run(w, e.left), Run(w, e.right);
    if x.Val? && y.Val? {
      PutnInjective(x.v, y.v);
    }
  }

  lemma {:induction false} EvaluatesArithmetic(w: World, e: Tree)
    requires Integral(w, e) && e.Binary? && OpLevel(e.op) > 5
    requires AsStr(w, e.left, EVALUATE) == Wrote(Run(w, e.left)) && AsStr(w, e.right, EVALUATE) == Wrote(Run(w, e.right))
    ensures AsInt(w, e, EVALUATE) == Run(w, e)
  {
    hide Egetn, Putn, IsAny, Run, Arith, Compute;
    RunStrict(w, e);
    var x, y := Run(w, e.left), Run(w, e.right);
    if x.Val? && y.Val? {
      ComputeNumbers(e.op, x.v, y.v);
      ReadWrote(Arith(e.op, x.v, y.v));
    }
  }

  lemma {:induction false} ComputeNumbers(op: Op, x: Int, y: Int)
    ensures Compute(op, Putn(x), Putn(y)) == Arith(op, x, y)
  {
    hide Egetn, Putn, Shift, Quotient, Remainder, Wrap, Bits;
    ReadWrote(Val(x));
    ReadWrote(Val(y));
  }

  /** An integer expression in words is read up to what follows it, and has the meaning of its tree. */
  lemma {:induction false} ExprMeaning(w: World, e: Tree, rest: seq<string>)
    requires Integral(w, e) && Stops(0, rest)
    ensures Evaluation(w, Render(e, 0) + rest) == At(Run(w, e), rest)
    ensures Evaluation(w, Render(e, 0) + rest) == At(Meaning(w, e), rest) <==> Quiet(w, e) || Meaning(w, e) == Err(Undefined)
  {
    hide Logic, Render, AsInt, Meaning, Quiet, Stops;
    IntegralWritable(w, e);
    ReadsLogic(w, 0, e, rest, EVALUATE);
    Evaluates(w, e);
  }

  // -------- shifts in operands that are not evaluated --------

  predicate HasShift(e: Tree)
  {
    match e
    case Not(t) => HasShift(t)
    case Complement(t) => HasShift(t)
    case Binary(op, l, r) => op == Shl || op == Shr || HasShift(l) || HasShift(r)
    case _ => false
  }

  predicate Tame(e: Tree)
  {
    match e
    case Not(t) => Tame(t)
    case Complement(t) => Tame(t)
    case Binary(op, l, r) => Tame(l) && Tame(r) && (op == OrElse || op == AndAlso ==> !HasShift(r))
    case _ => true
  }

  lemma {:induction false} UnshiftedFits(e: Tree)
    requires !HasShift(e)
    ensures SkipFits(e)
  {
    match e {
      case Not(t) => UnshiftedFits(t);
      case Complement(t) => UnshiftedFits(t);
      case Binary(op, l, r) =>
        UnshiftedFits(l);
        UnshiftedFits(r);
      case _ =>
    }
  }

  /** With no shift to the right of `||` or `&&`, short-circuit evaluation is exact. */
  lemma {:induction false} TameQuiet(w: World, e: Tree)
    requires Integral(w, e) && Tame(e)
    ensures Quiet(w, e)
  {
    hide AsInt, AsStr, Egetn, Putn, Arith, IsAny;
    match e {
      case Not(t) =>
        TameQuiet(w, t);
      case Complement(t) =>
        TameQuiet(w, t);
      case Binary(op, l, r) =>
        TameQuiet(w, l);
        TameQuiet(w, r);
        if op == OrElse || op == AndAlso {
          UnshiftedFits(r);
        }
      case _ =>
    }
  }

  lemma {:induction false} Number(w: World, n: Int)
    requires w.glob(Putn(n)) == Some(Putn(n))
    ensures var e := Word(Putn(n));
            Integral(w, e) && Meaning(w, e) == Val(n) && Quiet(w, e)
  {
    hide Putn, Egetn;
    ReadWrote(Val(n));
  }

  /** `a || a << b` means 1 for any `a` but 0; yet the shift, not wanted, is worked out, whatever `b` is. */
  lemma {:induction false} SkippedShift(w: World, a: Int, b: Int)
    requires w.glob(Putn(a)) == Some(Putn(a)) && w.glob(Putn(b)) == Some(Putn(b)) && a != 0 && !(0 <= b < 32)
    ensures Evaluation(w, [Putn(a), "||", Putn(a), "<<", Putn(b)]) == Fail(Undefined)
  {
    hide Evaluation, Render, Stops, Putn, Egetn, AsInt;
    Number(w, a);
    Number(w, b);
    var shift := Binary(Shl, Word(Putn(a)), Word(Putn(b)));
    var e := Binary(OrElse, Word(Putn(a)), shift);
    BadShift(a, b);
    assert !Quiet(w, e);
    SkippedShiftWords(Putn(a), Putn(b));
    assert Stops(0, []) by { NothingStops(); }
    ExprMeaning(w, e, []);
    assert Render(e, 0) + [] == Render(e, 0);
  }

  lemma {:induction false} BadShift(a: Int, b: Int)
    requires !(0 <= b < 32)
    ensures !SkipFits(Binary(Shl, Word(Putn(a)), Word(Putn(b))))
  {
    hide Putn, Egetn;
    ReadWrote(Val(b));
    assert SkipValue(Word(Putn(b))) == b;
  }

  lemma {:induction false} NothingStops()
    ensures Stops(0, [])
  {
  }

  lemma {:induction false} SkippedShiftWords(a: string, b: string)
    ensures Render(Binary(OrElse, Word(a), Binary(Shl, Word(a), Word(b))), 0) == [a, "||", a, "<<", b]
  {
    var shift := Binary(Shl, Word(a), Word(b));
    assert Render(Word(a), 8) == [a] && Render(Word(b), 7) == [b] && Render(Word(a), 1) == [a];
    assert OpLevel(Shl) == 7 && RightLevel(Shl) == 7;
    assert Body(shift) == Render(Word(a), 8) + (["<<"] + Render(Word(b), 7));
    assert Render(shift, 0) == [a, "<<", b];
    assert Body(Binary(OrElse, Word(a), shift)) == Render(Word(a), 1) + (["||"] + Render(shift, 0));
  }
}
