/**
 Sizes in the operands of `dd` (`get_bsz` in `args.c`): a product of numbers with
 units, worked out in `size_t` with one test after each multiplication.
 */
module DdSizes {

  import opened Options

  const WORD: nat := 0x1_0000_0000_0000_0000

  type Size = n: int | 0 <= n < WORD

  /** The letter that may follow a number. */
  datatype Unit = One | B | K | M | G | W

  /** A number that fits, with its unit; a size is one or more of these with `x` or `*` between them. */
  datatype Factor = Factor(n: Size, unit: Unit)

  function UnitSize(u: Unit): nat
  {
    match u
    case One => 1
    case B => 512
    case K => 1024
    case M => 1024 * 1024
    case G => 1024 * 1024 * 1024
    case W => 4
  }

  /** The product of the factors, with no bound on it. */
  function Product(fs: seq<Factor>): nat
  {
    if fs == [] then 1 else fs[0].n * UnitSize(fs[0].unit) * Product(fs[1..])
  }

  // -------- as it runs --------

  /** One multiplication that wraps around, and the test for a result below the number it began with. */
  function Multiply(t: Size, c: nat): Option<Size>
  {
    var num := t * c % WORD;
    if t > num then None else Some(num)
  }

  /** A step on a size that may be out of range already. */
  function Further(r: Option<Size>, c: nat): Option<Size>
  {
    if r.None? then None else Multiply(r.value, c)
  }

  /** Letters `g`, `m` and `k` fall through from one to the next. */
  function Scaled(f: Factor): Option<Size>
  {
    match f.unit
    case One => Some(f.n)
    case B => Multiply(f.n, 512)
    case K => Multiply(f.n, 1024)
    case M => Further(Multiply(f.n, 1024), 1024)
    case G => Further(Further(Multiply(f.n, 1024), 1024), 1024)
    case W => Multiply(f.n, 4)
  }

  /** `get_bsz`; `None` is the error for a result out of range. */
  function GetBsz(fs: seq<Factor>): Option<Size>
    requires fs != []
  {
    var s := Scaled(fs[0]);
    if s.None? || |fs| == 1 then s
    else
      var rest := GetBsz(fs[1..]);
      if rest.None? then None else Multiply(s.value, rest.value)
  }

  // -------- what the tests let through --------

  predicate Grows(a: nat, b: nat)
  {
    a % WORD <= b % WORD
  }

  /** No power of 1024 that a letter stands for takes a number below what it was. */
  predicate ScaleGrows(n: nat, u: Unit)
  {
    match u
    case One => true
    case B => Grows(n, n * 512)
    case K => Grows(n, n * 1024)
    case M => Grows(n, n * 1024) && Grows(n * 1024, n * 1024 * 1024)
    case G => Grows(n, n * 1024) && Grows(n * 1024, n * 1024 * 1024) && Grows(n * 1024 * 1024, n * 1024 * 1024 * 1024)
    case W => Grows(n, n * 4)
  }

  /** Modulo the word, no factor is above the product from it to the end. */
  predicate AllGrow(fs: seq<Factor>)
  {
    fs != [] ==>
      && ScaleGrows(fs[0].n, fs[0].unit)
      && Grows(fs[0].n * UnitSize(fs[0].unit), Product(fs))
      && AllGrow(fs[1..])
  }

  lemma {:induction false} Residue(a: int, q: int)
    ensures (a + q * WORD) % WORD == a % WORD
  {
    var d, m := a / WORD, a % WORD;
    assert a + q * WORD == (d + q) * WORD + m;
    Unique(a + q * WORD, d + q, m);
  }

  lemma {:induction false} Unique(x: int, q: int, m: int)
    requires x == q * WORD + m && 0 <= m < WORD
    ensures x % WORD == m
  {
  }

  lemma {:induction false} WrapLeft(a: nat, b: nat)
    ensures a % WORD * b % WORD == a * b % WORD
  {
    var d, m := a / WORD, a % WORD;
    assert a == d * WORD + m;
    assert a * b == m * b + d * b * WORD by { Distribute(d, m, b); }
    Residue(m * b, d * b);
  }

  lemma {:induction false} Distribute(d: int, m: int, b: int)
    ensures (d * WORD + m) * b == m * b + d * b * WORD
  {
  }

  lemma {:induction false} WrapBoth(a: nat, b: nat)
    ensures (a % WORD) * (b % WORD) % WORD == a * b % WORD
  {
    WrapLeft(a, b % WORD);
    WrapLeft(b, a);
    assert a * (b % WORD) == b % WORD * a && a * b == b * a;
  }

  lemma {:induction false} MultiplyWraps(a: nat, c: nat)
    ensures Multiply(a % WORD, c) == if Grows(a, a * c) then Some(a * c % WORD) else None
  {
    WrapLeft(a, c);
  }

  lemma {:induction false} ScaledExact(f: Factor)
    ensures Scaled(f) == if ScaleGrows(f.n, f.unit) then Some(f.n * UnitSize(f.unit) % WORD) else None
  {
    hide Multiply, Grows;
    var n: nat := f.n;
    MultiplyWraps(n, 4);
    MultiplyWraps(n, 512);
    MultiplyWraps(n, 1024);
    MultiplyWraps(n * 1024, 1024);
    MultiplyWraps(n * 1024 * 1024, 1024);
  }

  /** The sizes that are let through, and what they come to: the product, wrapped around. */
  lemma {:induction false} GetBszExact(fs: seq<Factor>)
    requires fs != []
    ensures GetBsz(fs) == if AllGrow(fs) then Some(Product(fs) % WORD) else None
  {
    hide Multiply, Grows, Scaled, ScaleGrows;
    var f, rest := fs[0], fs[1..];
    var s := f.n * UnitSize(f.unit);
    ScaledExact(f);
    if |fs| == 1 {
      assert Product(fs) == s && Grows(s, s) by { Itself(s); }
      assert AllGrow(rest);
    } else {
      GetBszExact(rest);
      if ScaleGrows(f.n, f.unit) && AllGrow(rest) {
        LastTest(s, Product(rest));
      }
    }
  }

  lemma {:induction false} Itself(a: nat)
    ensures Grows(a, a)
  {
  }

  lemma {:induction false} LastTest(s: nat, p: nat)
    ensures Multiply(s % WORD, p % WORD) == if Grows(s, s * p) then Some(s * p % WORD) else None
  {
    WrapBoth(s, p);
  }

  // -------- when the result is the product --------

  predicate Positive(fs: seq<Factor>)
  {
    forall i :: 0 <= i < |fs| ==> fs[i].n > 0
  }

  /** Without the zeros at the front. */
  function Unzeroed(fs: seq<Factor>): seq<Factor>
  {
    if fs != [] && fs[0].n == 0 then Unzeroed(fs[1..]) else fs
  }

  lemma {:induction false} NoZero(fs: seq<Factor>)
    requires Product(fs) > 0
    ensures Positive(fs)
  {
    if fs != [] {
      NoZero(fs[1..]);
      assert forall i :: 0 < i < |fs| ==> fs[i] == fs[1..][i - 1];
    }
  }

  lemma {:induction false} ScaleKeeps(n: Size, u: Unit)
    requires n > 0 && ScaleGrows(n, u)
    ensures n * UnitSize(u) % WORD > 0
  {
  }

  /** A number before a zero is above the product, so the test finds it. */
  lemma {:induction false} ZeroStops(fs: seq<Factor>)
    requires AllGrow(fs) && (fs == [] || fs[0].n > 0)
    ensures Positive(fs)
  {
    hide ScaleGrows, UnitSize;
    if fs != [] {
      ScaleKeeps(fs[0].n, fs[0].unit);
      NoZero(fs);
    }
  }

  lemma {:induction false} Bounds(a: nat, b: nat)
    requires a > 0 && b > 0
    ensures 0 < a <= a * b && b <= a * b
  {
  }

  lemma {:induction false} ProductPositive(fs: seq<Factor>)
    requires Positive(fs)
    ensures Product(fs) > 0
  {
    if fs != [] {
      ProductPositive(fs[1..]);
      Bounds(fs[0].n, UnitSize(fs[0].unit));
      Bounds(fs[0].n * UnitSize(fs[0].unit), Product(fs[1..]));
    }
  }

  lemma {:induction false} FitsGrow(fs: seq<Factor>)
    requires Positive(fs) && Product(fs) < WORD
    ensures AllGrow(fs)
  {
    hide UnitSize, ScaleGrows;
    if fs != [] {
      var s, p := fs[0].n * UnitSize(fs[0].unit), Product(fs[1..]);
      assert Positive(fs[1..]);
      ProductPositive(fs[1..]);
      ScaleFits(fs[0].n, fs[0].unit);
      Bounds(s, p);
      FitsGrow(fs[1..]);
    }
  }

  lemma {:induction false} ScaleFits(n: Size, u: Unit)
    requires n > 0
    ensures n * UnitSize(u) > 0
    ensures n * UnitSize(u) < WORD ==> ScaleGrows(n, u)
  {
  }

  /** Zeros at the front do not matter to the tests. */
  lemma {:induction false} ZerosGrow(fs: seq<Factor>)
    ensures AllGrow(fs) <==> AllGrow(Unzeroed(fs)) && Positive(Unzeroed(fs))
  {
    if fs != [] && fs[0].n == 0 {
      ZerosGrow(fs[1..]);
    } else if AllGrow(fs) {
      ZeroStops(fs);
    }
  }

  lemma {:induction false} Shorter(fs: seq<Factor>)
    ensures |Unzeroed(fs)| <= |fs|
  {
    if fs != [] && fs[0].n == 0 {
      Shorter(fs[1..]);
    }
  }

  /**
   No number stands before a zero; and, with no zero at all, the product fits, but after zeros it is enough
   that the rest passes the tests.
   */
  predicate Exact(fs: seq<Factor>)
  {
    var rest := Unzeroed(fs);
    Positive(rest) && if rest == fs then Product(fs) < WORD else AllGrow(rest)
  }

  /** That is exactly when the size is the product. */
  lemma {:induction false} TrueProduct(fs: seq<Factor>)
    requires fs != []
    ensures GetBsz(fs) == Some(Product(fs)) <==> Exact(fs)
  {
    hide GetBsz, ScaleGrows, UnitSize;
    GetBszExact(fs);
    ZerosGrow(fs);
    if fs[0].n == 0 {
      Shorter(fs[1..]);
      assert Product(fs) == 0;
    } else if Positive(fs) && Product(fs) < WORD {
      FitsGrow(fs);
    }
  }

  /** A product that is too large can still pass: here it comes out above the number, and the test sees nothing. */
  lemma {:induction false} OverflowPasses()
    ensures GetBsz([Factor(37154696925806592, B)]) == Some(576460752303423488)
    ensures Product([Factor(37154696925806592, B)]) == 576460752303423488 + WORD
  {
  }

  /** And a product of zero that fits is refused wherever a number stands before the zero. */
  lemma {:induction false} ZeroRefused(n: Size)
    requires n > 0
    ensures GetBsz([Factor(n, One), Factor(0, One)]) == None
    ensures Product([Factor(n, One), Factor(0, One)]) == 0
  {
    var fs := [Factor(n, One), Factor(0, One)];
    assert fs[1..] == [Factor(0, One)] && fs[1..][1..] == [];
    assert Product(fs[1..]) == 0 && GetBsz(fs[1..]) == Some(0);
  }
}
