/**
 What expressions come to, in integers: the value on words of every operator, and
 how operators bind, with no mention of how the evaluator computes them.
 */
module Values {
  import opened Expr
  import opened Naturals
  import opened Numbers
  import opened Options

  const WORD: nat := 0x1_0000_0000

  /** The words of numbers that stand for themselves. */
  ghost predicate Fixed(w: World, n: Int)
  {
    w.glob(Putn(n)) == Some(Putn(n))
  }

  function Truth(b: bool): Int
  {
    if b then 1 else 0
  }

  /** Bit `i` of a number in two's complement. */
  predicate BitOf(n: int, i: nat)
  {
    Pow2Positive(i);
    n / Pow2(i) % 2 == 1
  }

  // -------- two numbers --------

  function Num(n: Int): Tree
  {
    Word(Putn(n))
  }

  function Pair(op: Op, a: Int, b: Int): Tree
  {
    Binary(op, Num(a), Num(b))
  }

  /** Two numbers and an operator are read to the end, and come to what the operator makes of them. */
  lemma {:induction false} OnWords(w: World, op: Op, a: Int, b: Int)
    requires Fixed(w, a) && Fixed(w, b) && op != Matches && op != Differs
    ensures Evaluation(w, [Putn(a)] + (OpWords(op) + [Putn(b)])) == At(Arith(op, a, b), [])
  {
    hide Evaluation, Render, Stops, Putn, Egetn, Arith, OpWords;
    var e := Pair(op, a, b);
    PairRuns(w, op, a, b);
    PairWords(op, Putn(a), Putn(b), 0);
    assert Stops(0, []) by { NothingStops(); }
    ExprMeaning(w, e, []);
    assert Render(e, 0) + [] == Render(e, 0);
  }

  lemma {:induction false} OneWord(s: string, k: nat)
    requires k <= 10
    ensures Render(Word(s), k) == [s]
  {
  }

  lemma {:induction false} Unbracketed(op: Op, l: Tree, r: Tree, k: nat)
    requires k <= OpLevel(op)
    ensures Render(Binary(op, l, r), k) == Render(l, OpLevel(op) + 1) + (OpWords(op) + Render(r, RightLevel(op)))
  {
    hide OpWords;
  }

  lemma {:induction false} PairWords(op: Op, a: string, b: string, k: nat)
    requires k <= OpLevel(op)
    ensures Render(Binary(op, Word(a), Word(b)), k) == [a] + (OpWords(op) + [b])
  {
    hide OpWords, Render;
    OneWord(a, OpLevel(op) + 1);
    OneWord(b, RightLevel(op));
    Unbracketed(op, Word(a), Word(b), k);
  }

  lemma {:induction false} PairRuns(w: World, op: Op, a: Int, b: Int)
    requires Fixed(w, a) && Fixed(w, b) && op != Matches && op != Differs
    ensures Integral(w, Pair(op, a, b)) && Run(w, Pair(op, a, b)) == Arith(op, a, b)
  {
    hide Putn, Egetn, Shift, Quotient, Remainder, Bits, Wrap;
    Number(w, a);
    Number(w, b);
  }

  // -------- the operators --------

  /** Sums, differences and products are those of integers, as far as 32 bits go. */
  lemma {:induction false} SumsOnWords(w: World, a: Int, b: Int)
    requires Fixed(w, a) && Fixed(w, b)
    ensures var r := Evaluation(w, [Putn(a), "+", Putn(b)]);
            r.Got? && r.rest == [] && (a + b - r.v) % WORD == 0 && (INT_MIN <= a + b <= INT_MAX ==> r.v == a + b)
    ensures var r := Evaluation(w, [Putn(a), "-", Putn(b)]);
            r.Got? && r.rest == [] && (a - b - r.v) % WORD == 0 && (INT_MIN <= a - b <= INT_MAX ==> r.v == a - b)
    ensures var r := Evaluation(w, [Putn(a), "*", Putn(b)]);
            r.Got? && r.rest == [] && (a * b - r.v) % WORD == 0 && (INT_MIN <= a * b <= INT_MAX ==> r.v == a * b)
  {
    hide Evaluation, Putn;
    OnWords(w, Add, a, b);
    OnWords(w, Sub, a, b);
    OnWords(w, Mul, a, b);
    Spelled(Putn(a), "+", Putn(b));
    Spelled(Putn(a), "-", Putn(b));
    Spelled(Putn(a), "*", Putn(b));
  }

  lemma {:induction false} Spelled(a: string, op: string, b: string)
    ensures [a] + ([op] + [b]) == [a, op, b]
  {
  }

  lemma {:induction false} SpelledTwo(a: string, op: string, b: string)
    ensures [a] + ([op, "="] + [b]) == [a, op, "=", b]
  {
  }

  /** Comparisons are 1 or 0. */
  lemma {:induction false} ComparesOnWords(w: World, a: Int, b: Int)
    requires Fixed(w, a) && Fixed(w, b)
    ensures Evaluation(w, [Putn(a), "<", Putn(b)]) == Got(Truth(a < b), [])
    ensures Evaluation(w, [Putn(a), "<", "=", Putn(b)]) == Got(Truth(a <= b), [])
    ensures Evaluation(w, [Putn(a), ">", Putn(b)]) == Got(Truth(a > b), [])
    ensures Evaluation(w, [Putn(a), ">", "=", Putn(b)]) == Got(Truth(a >= b), [])
    ensures Evaluation(w, [Putn(a), "==", Putn(b)]) == Got(Truth(a == b), [])
    ensures Evaluation(w, [Putn(a), "!=", Putn(b)]) == Got(Truth(a != b), [])
  {
    hide Evaluation, Putn;
    OnWords(w, Lt, a, b);
    OnWords(w, Le, a, b);
    OnWords(w, Gt, a, b);
    OnWords(w, Ge, a, b);
    OnWords(w, Eq, a, b);
    OnWords(w, Ne, a, b);
    Spelled(Putn(a), "<", Putn(b));
    SpelledTwo(Putn(a), "<", Putn(b));
    Spelled(Putn(a), ">", Putn(b));
    SpelledTwo(Putn(a), ">", Putn(b));
    Spelled(Putn(a), "==", Putn(b));
    Spelled(Putn(a), "!=", Putn(b));
  }

  lemma {:induction false} TruthsOnWords(w: World, a: Int, b: Int)
    requires Fixed(w, a) && Fixed(w, b)
    ensures Evaluation(w, [Putn(a), "||", Putn(b)]) == Got(Truth(a != 0 || b != 0), [])
    ensures Evaluation(w, [Putn(a), "&&", Putn(b)]) == Got(Truth(a != 0 && b != 0), [])
  {
    hide Evaluation, Putn;
    OnWords(w, OrElse, a, b);
    OnWords(w, AndAlso, a, b);
    Spelled(Putn(a), "||", Putn(b));
    Spelled(Putn(a), "&&", Putn(b));
  }

  /** A shift multiplies by a power of two, or divides by it and rounds down; others have no meaning. */
  lemma {:induction false} ShiftsOnWords(w: World, a: Int, b: Int)
    requires Fixed(w, a) && Fixed(w, b)
    ensures var l, r := Evaluation(w, [Putn(a), "<<", Putn(b)]), Evaluation(w, [Putn(a), ">>", Putn(b)]);
            if 0 <= b < 32 then
              && l.Got? && l.rest == [] && (a * Pow2(b) - l.v) % WORD == 0
              && r.Got? && r.rest == [] && r.v * Pow2(b) <= a < (r.v + 1) * Pow2(b)
            else l == Fail(Undefined) && r == Fail(Undefined)
  {
    hide Evaluation, Putn, Pow2;
    OnWords(w, Shl, a, b);
    OnWords(w, Shr, a, b);
    Spelled(Putn(a), "<<", Putn(b));
    Spelled(Putn(a), ">>", Putn(b));
    if 0 <= b < 32 {
      Pow2Positive(b);
      Halved(a, Pow2(b));
    }
  }

  lemma {:induction false} Halved(a: Int, p: nat)
    requires p > 0
    ensures a / p * p <= a < (a / p + 1) * p && INT_MIN <= a / p <= INT_MAX
  {
    var q := a / p;
    assert a == q * p + a % p;
    assert (q + 1) * p == q * p + p && (0 - q - 1) * p == 0 - q * p - p;
    if q > INT_MAX {
      Scale(1, p, q);
      assert false;
    }
    if q < INT_MIN {
      Scale(1, p, 0 - q - 1);
      assert false;
    }
  }

  /** Division is towards zero; the remainder is short of the divisor and has the sign of the dividend. */
  lemma {:induction false} QuotientsOnWords(w: World, a: Int, b: Int)
    requires Fixed(w, a) && Fixed(w, b)
    ensures var q, m := Evaluation(w, [Putn(a), "/", Putn(b)]), Evaluation(w, [Putn(a), "%", Putn(b)]);
            if b == 0 then q == Fail(Div0) && m == Fail(Mod0)
            else if a == INT_MIN && b == -1 then q == Got(INT_MIN, []) && m == Got(0, [])
            else
              && q.Got? && q.rest == [] && m.Got? && m.rest == [] && a == q.v * b + m.v
              && (if b > 0 then 0 - b < m.v < b else b < m.v < 0 - b) && (m.v != 0 ==> (m.v > 0 <==> a > 0))
  {
    hide Evaluation, Putn, Truncated;
    OnWords(w, Div, a, b);
    OnWords(w, Mod, a, b);
    Spelled(Putn(a), "/", Putn(b));
    Spelled(Putn(a), "%", Putn(b));
    if b != 0 && !(a == INT_MIN && b == -1) {
      Truncates(a, b);
    }
  }

  /** Bit by bit. */
  lemma {:induction false} BitsOnWords(w: World, a: Int, b: Int, i: nat)
    requires Fixed(w, a) && Fixed(w, b) && i < 32
    ensures var r := Evaluation(w, [Putn(a), "|", Putn(b)]); r.Got? && r.rest == [] && (BitOf(r.v, i) <==> BitOf(a, i) || BitOf(b, i))
    ensures var r := Evaluation(w, [Putn(a), "^", Putn(b)]); r.Got? && r.rest == [] && (BitOf(r.v, i) <==> BitOf(a, i) != BitOf(b, i))
    ensures var r := Evaluation(w, [Putn(a), "&", Putn(b)]); r.Got? && r.rest == [] && (BitOf(r.v, i) <==> BitOf(a, i) && BitOf(b, i))
  {
    hide Evaluation, Putn, BitOf, Bits;
    OnWords(w, BitOr, a, b);
    OnWords(w, Xor, a, b);
    OnWords(w, BitAnd, a, b);
    Spelled(Putn(a), "|", Putn(b));
    Spelled(Putn(a), "^", Putn(b));
    Spelled(Putn(a), "&", Putn(b));
    WordBits(BitOr, a, b, i);
    WordBits(Xor, a, b, i);
    WordBits(BitAnd, a, b, i);
  }

  lemma {:induction false} WordBits(op: Op, a: Int, b: Int, i: nat)
    requires i < 32
    ensures BitOf(Bits(op, a, b), i) <==> Joins(op, BitOf(a, i), BitOf(b, i))
  {
    hide Bitwise, BitOf, Joins, Pow2;
    Pow2Int();
    BitwiseBits(op, a, b, 31, i);
  }

  lemma {:induction false} BitwiseBits(op: Op, x: int, y: int, k: nat, i: nat)
    requires i <= k && 0 - Pow2(k) <= x < Pow2(k) && 0 - Pow2(k) <= y < Pow2(k)
    ensures BitOf(Bitwise(op, x, y, k), i) <==> Joins(op, BitOf(x, i), BitOf(y, i))
    decreases k
  {
    hide BitOf, Joins, Bitwise;
    var r := Bitwise(op, x, y, k);
    BitwiseStep(op, x, y, k);
    if k == 0 {
      SignBit(x);
      SignBit(y);
      SignBit(r);
    } else if i == 0 {
      LowBit(x);
      LowBit(y);
      LowBit(r);
    } else {
      BitwiseBits(op, x / 2, y / 2, k - 1, i - 1);
      NextBit(x, i);
      NextBit(y, i);
      NextBit(r, i);
    }
  }

  lemma {:induction false} BitwiseStep(op: Op, x: int, y: int, k: nat)
    ensures var r := Bitwise(op, x, y, k);
            if k == 0 then -1 <= r < 1 && (r < 0 <==> Joins(op, x < 0, y < 0))
            else r / 2 == Bitwise(op, x / 2, y / 2, k - 1) && (r % 2 == 1 <==> Joins(op, x % 2 == 1, y % 2 == 1))
  {
    hide Joins;
  }

  lemma {:induction false} SignBit(x: int)
    requires -1 <= x < 1
    ensures BitOf(x, 0) <==> x < 0
  {
  }

  lemma {:induction false} LowBit(x: int)
    ensures BitOf(x, 0) <==> x % 2 == 1
  {
  }

  lemma {:induction false} NextBit(x: int, i: nat)
    requires i > 0
    ensures BitOf(x, i) <==> BitOf(x / 2, i - 1)
  {
    Pow2Positive(i - 1);
    Twice(x, Pow2(i - 1));
  }

  lemma {:induction false} Twice(x: int, p: nat)
    requires p > 0
    ensures x / (2 * p) == x / 2 / p
  {
    var h := x / 2;
    var q := h / p;
    assert x == 2 * h + x % 2 && h == q * p + h % p;
    assert x == q * (2 * p) + (2 * (h % p) + x % 2) by { assert q * (2 * p) == 2 * (q * p); }
    Only(x, 2 * p, q, 2 * (h % p) + x % 2);
  }

  lemma {:induction false} Only(x: int, d: nat, q: int, m: int)
    requires d > 0 && x == q * d + m && 0 <= m < d
    ensures x / d == q
  {
    var e := x / d;
    assert x == e * d + x % d;
    assert (e - q) * d == m - x % d && (q - e) * d == x % d - m;
    if e > q {
      Scale(1, e - q, d);
      assert false;
    }
    if e < q {
      Scale(1, q - e, d);
      assert false;
    }
  }

  // -------- three numbers --------

  /** An operator that binds more tightly comes first on the left. */
  lemma {:induction false} LeftFirst(w: World, op: Op, next: Op, a: Int, b: Int, c: Int)
    requires Fixed(w, a) && Fixed(w, b) && Fixed(w, c) && OpLevel(op) > OpLevel(next)
    requires op != Matches && op != Differs && next != Matches && next != Differs
    ensures Evaluation(w, [Putn(a)] + (OpWords(op) + ([Putn(b)] + (OpWords(next) + [Putn(c)])))) ==
            At(Then(next, Arith(op, a, b), Val(c)), [])
  {
    hide Evaluation, Render, Stops, Putn, Egetn, Arith, OpWords;
    var e := Binary(next, Pair(op, a, b), Num(c));
    PairRuns(w, op, a, b);
    LeftRuns(w, next, Pair(op, a, b), c);
    LeftWords(op, next, Putn(a), Putn(b), Putn(c));
    assert Stops(0, []) by { NothingStops(); }
    ExprMeaning(w, e, []);
    assert Render(e, 0) + [] == Render(e, 0);
  }

  function Then(op: Op, x: Out<Int>, y: Out<Int>): Out<Int>
  {
    if x.Err? then x else if y.Err? then y else Arith(op, x.v, y.v)
  }

  lemma {:induction false} LeftRuns(w: World, op: Op, e: Tree, c: Int)
    requires Integral(w, e) && Fixed(w, c) && op != Matches && op != Differs
    ensures Integral(w, Binary(op, e, Num(c))) && Run(w, Binary(op, e, Num(c))) == Then(op, Run(w, e), Val(c))
  {
    hide Putn, Egetn, Shift, Quotient, Remainder, Bits, Wrap;
    Number(w, c);
  }

  lemma {:induction false} LeftWords(op: Op, next: Op, a: string, b: string, c: string)
    requires OpLevel(op) > OpLevel(next)
    ensures Render(Binary(next, Binary(op, Word(a), Word(b)), Word(c)), 0) == [a] + (OpWords(op) + ([b] + (OpWords(next) + [c])))
  {
    hide OpWords, Render;
    PairWords(op, a, b, OpLevel(next) + 1);
    OneWord(c, RightLevel(next));
    Unbracketed(next, Binary(op, Word(a), Word(b)), Word(c), 0);
    Concat([a], OpWords(op), [b], OpWords(next) + [c]);
  }

  /** On the right, one that binds as tightly, or more so, comes first. */
  lemma {:induction false} RightFirst(w: World, op: Op, next: Op, a: Int, b: Int, c: Int)
    requires Fixed(w, a) && Fixed(w, b) && Fixed(w, c) && OpLevel(op) != 5 && 1 < OpLevel(op) <= OpLevel(next)
    requires next != Matches && next != Differs
    ensures Evaluation(w, [Putn(a)] + (OpWords(op) + ([Putn(b)] + (OpWords(next) + [Putn(c)])))) ==
            At(Then(op, Val(a), Arith(next, b, c)), [])
  {
    hide Evaluation, Render, Stops, Putn, Egetn, Arith, OpWords;
    var e := Binary(op, Num(a), Pair(next, b, c));
    PairRuns(w, next, b, c);
    RightRuns(w, op, a, Pair(next, b, c));
    RightWords(op, next, Putn(a), Putn(b), Putn(c));
    assert Stops(0, []) by { NothingStops(); }
    ExprMeaning(w, e, []);
    assert Render(e, 0) + [] == Render(e, 0);
  }

  lemma {:induction false} RightRuns(w: World, op: Op, a: Int, e: Tree)
    requires Integral(w, e) && Fixed(w, a) && OpLevel(op) != 5 && OpLevel(op) > 1
    ensures Integral(w, Binary(op, Num(a), e)) && Run(w, Binary(op, Num(a), e)) == Then(op, Val(a), Run(w, e))
  {
    hide Putn, Egetn, Shift, Quotient, Remainder, Bits, Wrap;
    Number(w, a);
  }

  lemma {:induction false} RightWords(op: Op, next: Op, a: string, b: string, c: string)
    requires OpLevel(op) != 5 && OpLevel(op) <= OpLevel(next)
    ensures Render(Binary(op, Word(a), Binary(next, Word(b), Word(c))), 0) == [a] + (OpWords(op) + ([b] + (OpWords(next) + [c])))
  {
    hide OpWords, Render;
    PairWords(next, b, c, RightLevel(op));
    OneWord(a, OpLevel(op) + 1);
    Unbracketed(op, Word(a), Binary(next, Word(b), Word(c)), 0);
  }

  lemma {:induction false} SpelledOut(a: string, op: string, b: string, next: string, c: string)
    ensures [a] + ([op] + ([b] + ([next] + [c]))) == [a, op, b, next, c]
  {
  }

  /** Residues add and multiply. */
  lemma {:induction false} Congruent(x: int, x': int, y: int)
    requires (x - x') % WORD == 0
    ensures (x + y - (x' + y)) % WORD == 0 && (y - x - (y - x')) % WORD == 0 && (x * y - x' * y) % WORD == 0
  {
    var q := (x - x') / WORD;
    assert x - x' == q * WORD;
    assert x * y - x' * y == (q * y) * WORD;
    Whole(q * y);
    Whole(0 - q);
    assert y - x - (y - x') == (0 - q) * WORD;
  }

  lemma {:induction false} Whole(q: int)
    ensures q * WORD % WORD == 0
  {
  }

  lemma {:induction false} Chained(x: int, y: int, z: int)
    requires (x - y) % WORD == 0 && (y - z) % WORD == 0
    ensures (x - z) % WORD == 0
  {
    var p, q := (x - y) / WORD, (y - z) / WORD;
    assert x - z == (p + q) * WORD;
    Whole(p + q);
  }

  /** `a * b + c` and `a + b * c`: products come before sums. */
  lemma {:induction false} ProductsBind(w: World, a: Int, b: Int, c: Int)
    requires Fixed(w, a) && Fixed(w, b) && Fixed(w, c)
    ensures var r := Evaluation(w, [Putn(a), "*", Putn(b), "+", Putn(c)]); r.Got? && r.rest == [] && (a * b + c - r.v) % WORD == 0
    ensures var r := Evaluation(w, [Putn(a), "+", Putn(b), "*", Putn(c)]); r.Got? && r.rest == [] && (a + b * c - r.v) % WORD == 0
  {
    hide Evaluation, Putn, Wrap;
    LeftFirst(w, Mul, Add, a, b, c);
    RightFirst(w, Add, Mul, a, b, c);
    SpelledOut(Putn(a), "*", Putn(b), "+", Putn(c));
    SpelledOut(Putn(a), "+", Putn(b), "*", Putn(c));
    Congruent(a * b, Wrap(a * b), c);
    Chained(a * b + c, Wrap(a * b) + c, Wrap(Wrap(a * b) + c));
    Congruent(b * c, Wrap(b * c), a);
    Chained(b * c + a, Wrap(b * c) + a, Wrap(a + Wrap(b * c)));
  }

  /** `a - b - c`: equal operators group to the right. */
  lemma {:induction false} DifferencesGroup(w: World, a: Int, b: Int, c: Int)
    requires Fixed(w, a) && Fixed(w, b) && Fixed(w, c)
    ensures var r := Evaluation(w, [Putn(a), "-", Putn(b), "-", Putn(c)]); r.Got? && r.rest == [] && (a - (b - c) - r.v) % WORD == 0
  {
    hide Evaluation, Putn, Wrap;
    RightFirst(w, Sub, Sub, a, b, c);
    SpelledOut(Putn(a), "-", Putn(b), "-", Putn(c));
    Congruent(b - c, Wrap(b - c), a);
    Chained(a - (b - c), a - Wrap(b - c), Wrap(a - Wrap(b - c)));
  }

  /** `a + b << c`: sums come before shifts. */
  lemma {:induction false} SumsBind(w: World, a: Int, b: Int, c: Int)
    requires Fixed(w, a) && Fixed(w, b) && Fixed(w, c) && 0 <= c < 32
    ensures var r := Evaluation(w, [Putn(a), "+", Putn(b), "<<", Putn(c)]); r.Got? && r.rest == [] && ((a + b) * Pow2(c) - r.v) % WORD == 0
  {
    hide Evaluation, Putn, Wrap, Pow2;
    LeftFirst(w, Add, Shl, a, b, c);
    SpelledOut(Putn(a), "+", Putn(b), "<<", Putn(c));
    Congruent(a + b, Wrap(a + b), Pow2(c));
    Chained((a + b) * Pow2(c), Wrap(a + b) * Pow2(c), Wrap(Wrap(a + b) * Pow2(c)));
  }

  /** `a << b < c` and `a < b == c`: shifts come before comparisons, and those before equality. */
  lemma {:induction false} ShiftsBind(w: World, a: Int, b: Int, c: Int)
    requires Fixed(w, a) && Fixed(w, b) && Fixed(w, c)
    ensures 0 <= b < 32 && INT_MIN <= a * Pow2(b) <= INT_MAX ==>
              Evaluation(w, [Putn(a), "<<", Putn(b), "<", Putn(c)]) == Got(Truth(a * Pow2(b) < c), [])
    ensures Evaluation(w, [Putn(a), "<", Putn(b), "==", Putn(c)]) == Got(Truth(Truth(a < b) == c), [])
  {
    hide Evaluation, Putn, Pow2;
    LeftFirst(w, Shl, Lt, a, b, c);
    LeftFirst(w, Lt, Eq, a, b, c);
    SpelledOut(Putn(a), "<<", Putn(b), "<", Putn(c));
    SpelledOut(Putn(a), "<", Putn(b), "==", Putn(c));
  }

  /** `a == b & c`, `a & b ^ c` and `a ^ b | c`: equality comes before bits, and those in the order and, xor, or. */
  lemma {:induction false} BitsBind(w: World, a: Int, b: Int, c: Int, i: nat)
    requires Fixed(w, a) && Fixed(w, b) && Fixed(w, c) && i < 32
    ensures var r := Evaluation(w, [Putn(a), "==", Putn(b), "&", Putn(c)]);
            r.Got? && r.rest == [] && (BitOf(r.v, i) <==> BitOf(Truth(a == b), i) && BitOf(c, i))
    ensures var r := Evaluation(w, [Putn(a), "&", Putn(b), "^", Putn(c)]);
            r.Got? && r.rest == [] && (BitOf(r.v, i) <==> (BitOf(a, i) && BitOf(b, i)) != BitOf(c, i))
    ensures var r := Evaluation(w, [Putn(a), "^", Putn(b), "|", Putn(c)]);
            r.Got? && r.rest == [] && (BitOf(r.v, i) <==> BitOf(a, i) != BitOf(b, i) || BitOf(c, i))
  {
    hide Evaluation, Putn, BitOf, Bits;
    LeftFirst(w, Eq, BitAnd, a, b, c);
    LeftFirst(w, BitAnd, Xor, a, b, c);
    LeftFirst(w, Xor, BitOr, a, b, c);
    SpelledOut(Putn(a), "==", Putn(b), "&", Putn(c));
    SpelledOut(Putn(a), "&", Putn(b), "^", Putn(c));
    SpelledOut(Putn(a), "^", Putn(b), "|", Putn(c));
    WordBits(BitAnd, Truth(a == b), c, i);
    WordBits(BitAnd, a, b, i);
    WordBits(Xor, Bits(BitAnd, a, b), c, i);
    WordBits(Xor, a, b, i);
    WordBits(BitOr, Bits(Xor, a, b), c, i);
  }

  /** `a | b && c` and `a && b || c`: bits come before truths, and "and" before "or". */
  lemma {:induction false} TruthsBind(w: World, a: Int, b: Int, c: Int)
    requires Fixed(w, a) && Fixed(w, b) && Fixed(w, c)
    ensures Evaluation(w, [Putn(a), "|", Putn(b), "&&", Putn(c)]) == Got(Truth((a != 0 || b != 0) && c != 0), [])
    ensures Evaluation(w, [Putn(a), "&&", Putn(b), "||", Putn(c)]) == Got(Truth((a != 0 && b != 0) || c != 0), [])
  {
    hide Evaluation, Putn, Bitwise;
    LeftFirst(w, BitOr, AndAlso, a, b, c);
    LeftFirst(w, AndAlso, OrElse, a, b, c);
    SpelledOut(Putn(a), "|", Putn(b), "&&", Putn(c));
    SpelledOut(Putn(a), "&&", Putn(b), "||", Putn(c));
    Pow2Int();
    OrZero(a, b, 31);
  }

  lemma {:induction false} OrZero(x: int, y: int, k: nat)
    requires 0 - Pow2(k) <= x < Pow2(k) && 0 - Pow2(k) <= y < Pow2(k)
    ensures Bitwise(BitOr, x, y, k) == 0 <==> x == 0 && y == 0
    decreases k
  {
    if k > 0 {
      OrZero(x / 2, y / 2, k - 1);
    }
  }

  // -------- what ignored operators leave --------

  /** The number `code` is left: `1 || 1 << (left ^ y && 1) << 5` is undefined for any other `y`. */
  function Probe(left: Tree, y: Int): Tree
  {
    Binary(OrElse, Num(1), Binary(Shl, Num(1), Binary(Shl, Binary(AndAlso, Binary(Xor, left, Num(y)), Num(1)), Num(5))))
  }

  lemma {:induction false} ProbeTells(w: World, left: Tree, y: Int)
    requires Integral(w, left) && SkipFits(left) && Fixed(w, 1) && Fixed(w, 5) && Fixed(w, y)
    ensures Evaluation(w, Render(Probe(left, y), 0)) == if SkipValue(left) == y then Got(1, []) else Fail(Undefined)
  {
    hide Evaluation, Render, Stops, Integral, Run, SkipValue;
    var e := Probe(left, y);
    ProbeRuns(w, left, y);
    assert Stops(0, []) by { NothingStops(); }
    ExprMeaning(w, e, []);
    assert Render(e, 0) + [] == Render(e, 0);
  }

  lemma {:induction false} ProbeRuns(w: World, left: Tree, y: Int)
    requires Integral(w, left) && SkipFits(left) && Fixed(w, 1) && Fixed(w, 5) && Fixed(w, y)
    ensures Integral(w, Probe(left, y)) && Run(w, Probe(left, y)) == if SkipValue(left) == y then Val(1) else Err(Undefined)
  {
    hide Putn, Egetn, Num, SkipValue, SkipFits, Arith;
    Number(w, 1);
    Number(w, 5);
    Number(w, y);
    var e := Probe(left, y);
    ProbeSkips(left, y);
    assert Num(1) == Word(Putn(1)) && Num(5) == Word(Putn(5)) && Num(y) == Word(Putn(y)) by { Spelt(y); }
    assert Integral(w, e.right.right.left.left);
    assert Integral(w, e.right.right.left);
    assert Integral(w, e.right.right);
    assert Integral(w, e.right);
  }

  lemma {:induction false} Spelt(y: Int)
    ensures Num(1) == Word(Putn(1)) && Num(5) == Word(Putn(5)) && Num(y) == Word(Putn(y))
  {
  }

  lemma {:induction false} ProbeSkips(left: Tree, y: Int)
    requires SkipFits(left)
    ensures SkipFits(Probe(left, y).right) <==> SkipValue(left) == y
  {
    hide Putn, Egetn, SkipValue;
    var and := Binary(AndAlso, Binary(Xor, left, Num(y)), Num(1));
    ProbeValue(left, y);
    assert SkipFits(Num(1)) && SkipFits(Num(5)) && SkipFits(Num(y));
    assert SkipFits(and.left);
    assert SkipFits(and);
    NumberSkips(5);
    assert SkipFits(Binary(Shl, and, Num(5)));
  }

  lemma {:induction false} ProbeValue(left: Tree, y: Int)
    ensures var and := Binary(AndAlso, Binary(Xor, left, Num(y)), Num(1));
            SkipValue(Binary(Shl, and, Num(5))) == if SkipValue(left) == y then 0 else 32
  {
    hide Putn, Egetn, Pow2, Bits, Num;
    NumberSkips(1);
    NumberSkips(5);
    NumberSkips(y);
    var x := SkipValue(left);
    var xor := Binary(Xor, left, Num(y));
    XorZero(x, y);
    assert SkipValue(xor) == Bits(Xor, x, y);
    assert SkipValue(Binary(AndAlso, xor, Num(1))) == Truth(x != y);
    assert Pow2(5) == 32 by { Thirtytwo(); }
  }

  lemma {:induction false} NumberSkips(n: Int)
    ensures SkipValue(Num(n)) == n
  {
    hide Putn, Egetn;
    ReadWrote(Val(n));
  }

  lemma {:induction false} Thirtytwo()
    ensures Pow2(5) == 32
  {
  }

  lemma {:induction false} XorZero(x: Int, y: Int)
    ensures Bits(Xor, x, y) == 0 <==> x == y
  {
    hide Bitwise;
    Pow2Int();
    XorNothing(x, y, 31);
  }

  lemma {:induction false} XorNothing(x: int, y: int, k: nat)
    requires 0 - Pow2(k) <= x < Pow2(k) && 0 - Pow2(k) <= y < Pow2(k)
    ensures Bitwise(Xor, x, y, k) == 0 <==> x == y
    decreases k
  {
    if k > 0 {
      XorNothing(x / 2, y / 2, k - 1);
    }
  }

  /** Comparisons that are not wanted leave the number of their operator, sums and products leave 0. */
  lemma {:induction false} CodesLeft(w: World, op: Op, a: Int, b: Int, y: Int)
    requires Fixed(w, a) && Fixed(w, b) && Fixed(w, y) && Fixed(w, 1) && Fixed(w, 5)
    requires OpLevel(op) >= 5 && OpLevel(op) != 7 && op != Matches && op != Differs
    ensures var code := if op == Eq then 1 else if op == Gt then 2 else if op == Ge then 3 else if op == Lt then 4
                        else if op == Le then 5 else if op == Ne then 6 else 0;
            Evaluation(w, [Putn(1), "||", Putn(1), "<<", "(", Putn(a)] + OpWords(op) + [Putn(b), "^", Putn(y), "&&", Putn(1), ")", "<<", Putn(5)]) ==
            if y == code then Got(1, []) else Fail(Undefined)
  {
    hide Evaluation, Render, Putn, Egetn, OpWords;
    var e := Pair(op, a, b);
    PairRuns(w, op, a, b);
    ProbeTells(w, e, y);
    ProbeWords(op, Putn(a), Putn(b), Putn(y), Putn(1), Putn(5));
  }

  lemma {:induction false} ProbeWords(op: Op, a: string, b: string, y: string, one: string, five: string)
    requires OpLevel(op) >= 5
    ensures var and := Binary(AndAlso, Binary(Xor, Binary(op, Word(a), Word(b)), Word(y)), Word(one));
            Render(Binary(OrElse, Word(one), Binary(Shl, Word(one), Binary(Shl, and, Word(five)))), 0) ==
            [one, "||", one, "<<", "(", a] + OpWords(op) + [b, "^", y, "&&", one, ")", "<<", five]
  {
    hide Render, OpLevel, RightLevel, OpWords;
    Levels();
    var pair := [a] + (OpWords(op) + [b]);
    var xor := Binary(Xor, Binary(op, Word(a), Word(b)), Word(y));
    var and := Binary(AndAlso, xor, Word(one));
    var inner := Binary(Shl, and, Word(five));
    var outer := Binary(Shl, Word(one), inner);
    OneWord(one, 1);
    OneWord(one, 8);
    OneWord(y, 3);
    OneWord(five, 7);
    PairWords(op, a, b, 4);
    Unbracketed(Xor, Binary(op, Word(a), Word(b)), Word(y), 2);
    Unbracketed(AndAlso, xor, Word(one), 0);
    Bracketed(and, 8);
    Unbracketed(Shl, and, Word(five), 7);
    Unbracketed(Shl, Word(one), inner, 0);
    Unbracketed(OrElse, Word(one), outer, 0);
    Assembled(a, OpWords(op), b, y, one, five);
  }

  lemma {:induction false} Assembled(a: string, op: seq<string>, b: string, y: string, one: string, five: string)
    ensures var pair := [a] + (op + [b]);
            var and := pair + (["^"] + [y]) + (["&&"] + [one]);
            [one] + (["||"] + ([one] + (["<<"] + ((["("] + and + [")"]) + (["<<"] + [five]))))) ==
            [one, "||", one, "<<", "(", a] + op + [b, "^", y, "&&", one, ")", "<<", five]
  {
  }

  lemma {:induction false} Levels()
    ensures OpLevel(OrElse) == 0 && OpLevel(AndAlso) == 1 && OpLevel(Xor) == 3 && OpLevel(Shl) == 7
    ensures RightLevel(OrElse) == 0 && RightLevel(AndAlso) == 1 && RightLevel(Xor) == 3 && RightLevel(Shl) == 7
    ensures OpWords(OrElse) == ["||"] && OpWords(AndAlso) == ["&&"] && OpWords(Xor) == ["^"] && OpWords(Shl) == ["<<"]
  {
  }

  lemma {:induction false} Bracketed(e: Tree, k: nat)
    requires e.Binary? && OpLevel(e.op) < k
    ensures Render(e, k) == ["("] + Render(e, 0) + [")"]
  {
  }

  // -------- what is refused --------

  /** An error in an operand is the error of the whole. */
  lemma {:induction false} FailsUp(w: World, k: nat, v: seq<string>, e: Error)
    requires k <= 10 && Exp6(w, v, EVALUATE) == Fail(e)
    ensures k <= 5 ==> Logic(w, k, v, EVALUATE) == Fail(e)
    ensures k >= 6 ==> Arithmetic(w, k, v, EVALUATE) == Fail(e)
    decreases 10 - k
  {
    hide Exp6, NextOp, Within, Suffix;
    if k < 10 {
      FailsUp(w, k + 1, v, e);
    }
  }

  /** A parenthesis that is not closed. */
  lemma {:induction false} UnclosedRefused(w: World, e: Tree, rest: seq<string>)
    requires Integral(w, e) && Stops(0, rest) && (rest == [] || rest[0] == "" || rest[0][0] != ')')
    ensures Evaluation(w, ["("] + (Render(e, 0) + rest)) == if Run(w, e).Val? then Fail(Syntax) else Fail(Run(w, e).e)
  {
    hide Logic, Render, Stops, Run, Integral, Within, Suffix, Putn;
    var v := ["("] + (Render(e, 0) + rest);
    assert v[1..] == Render(e, 0) + rest;
    ExprMeaning(w, e, rest);
    FailsUp(w, 0, v, if Run(w, e).Val? then Syntax else Run(w, e).e);
  }

  /** A command in braces that are not closed. */
  lemma {:induction false} BraceRefused(w: World, v: seq<string>)
    requires "}" !in v
    ensures Evaluation(w, ["{"] + v) == Fail(MissingBrace)
  {
    hide Logic, Within, Suffix;
    assert (["{"] + v)[1..] == v;
    FailsUp(w, 0, ["{"] + v, MissingBrace);
  }

  /** A file inquiry with letters after its own, or with no file; and words that no file matches. */
  lemma {:induction false} InquiryRefused(w: World, c: char, more: string, name: string)
    requires c in "erwxfdzopls"
    ensures more != "" ==> Evaluation(w, [['-', c] + more, name]) == Fail(FileInq)
    ensures Evaluation(w, [['-', c]]) == Fail(FileName)
    ensures !IsAny(name) && w.glob(name).None? ==> Evaluation(w, [['-', c], name]) == Fail(NoMatch)
  {
    hide Logic, Within, Suffix, IsAny;
    InquiryWord(c, more);
    InquiryWord(c, "");
    assert ['-', c] + "" == ['-', c];
    if more != "" {
      FailsUp(w, 0, [['-', c] + more, name], FileInq);
    }
    FailsUp(w, 0, [['-', c]], FileName);
    if !IsAny(name) && w.glob(name).None? {
      assert [['-', c], name][2..] == [];
      FailsUp(w, 0, [['-', c], name], NoMatch);
    }
  }

  lemma {:induction false} InquiryWord(c: char, more: string)
    requires c in "erwxfdzopls"
    ensures var s := ['-', c] + more;
            && !IsAny(s) && IsInquiry(s) && s[1] == c && |s| == 2 + |more|
            && s != "!" && s != "~" && s != "(" && s != "{"
  {
  }
}
