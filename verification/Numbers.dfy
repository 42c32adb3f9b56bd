/**
 Integers as the shell writes and reads them: `putn` and `getn`. An `int` has
 32 bits and arithmetic on it wraps.
 */
module Numbers {

  const INT_MIN := -0x8000_0000
  const INT_MAX := 0x7fff_ffff

  type Int = n: int | INT_MIN <= n <= INT_MAX

  /** The value that an integer leaves in 32 bits. */
  function Wrap(n: int): (r: Int)
    ensures (n - r) % 0x1_0000_0000 == 0
    ensures INT_MIN <= n <= INT_MAX ==> r == n
  {
    (n + 0x8000_0000) % 0x1_0000_0000 - 0x8000_0000
  }

  lemma {:induction false} WrapShift(n: int, q: int)
    ensures Wrap(n + q * 0x1_0000_0000) == Wrap(n)
  {
  }

  predicate IsDigit(c: char)
  {
    '0' <= c <= '9'
  }

  function DigitOf(k: nat): char
    requires k < 10
  {
    '0' + k as char
  }

  predicate AllDigits(s: string)
  {
    forall i :: 0 <= i < |s| ==> IsDigit(s[i])
  }

  /** The number a string of decimal digits denotes, however long. */
  function Decimal(s: string): nat
    requires AllDigits(s)
  {
    if s == [] then 0 else 10 * Decimal(s[..|s| - 1]) + (s[|s| - 1] - '0') as nat
  }

  // -------- writing --------

  /** `putn1`: most significant digit first. */
  function Putn1(n: nat): (s: string)
    ensures s != [] && AllDigits(s) && Decimal(s) == n
    ensures s[0] == '0' ==> n == 0
  {
    if n > 9 then
      var t := Putn1(n / 10) + [DigitOf(n % 10)];
      assert t[..|t| - 1] == Putn1(n / 10);
      t
    else
      assert [DigitOf(n)][..0] == [];
      [DigitOf(n)]
  }

  /** `putn`: the least int cannot be negated, so its first digit is written apart. */
  function Putn(n: Int): string
  {
    var sign := if n < 0 then "-" else "";
    var m := if n < 0 then Wrap(0 - n) else n;
    if m == INT_MIN then sign + "2" + Putn1(0 - m - 2_000_000_000) else sign + Putn1(m)
  }

  // -------- reading --------

  datatype Parsed = Ok(n: Int) | BadNum

  /** An optional '+', then an optional '-' that needs a digit after it, then digits to the end. */
  function NumberIn(s: string): Parsed
  {
    var u := if |s| > 1 && s[0] == '+' then s[1..] else s;
    if u != [] && u[0] == '-' then
      if |u| > 1 && AllDigits(u[1..]) then Ok(Wrap(0 - Decimal(u[1..]))) else BadNum
    else
      if AllDigits(u) then Ok(Wrap(Decimal(u))) else BadNum
  }

  /** The digits from `from` on, accumulated in an int that may wrap on the way. */
  method ScanDigits(s: string, from: nat) returns (n: Int, cp: nat)
    requires from <= |s|
    ensures from <= cp <= |s| && AllDigits(s[from..cp]) && (cp < |s| ==> !IsDigit(s[cp]))
    ensures n == Wrap(Decimal(s[from..cp]))
  {
    n, cp := 0, from;
    while cp < |s| && IsDigit(s[cp])
      invariant from <= cp <= |s| && AllDigits(s[from..cp])
      invariant n == Wrap(Decimal(s[from..cp]))
    {
      var k := (s[cp] - '0') as nat;
      OneMoreDigit(s, from, cp);
      StepWraps(Decimal(s[from..cp]), k);
      n := Wrap(n * 10 + k);
      cp := cp + 1;
    }
  }

  lemma {:induction false} OneMoreDigit(s: string, from: nat, cp: nat)
    requires from <= cp < |s| && AllDigits(s[from..cp]) && IsDigit(s[cp])
    ensures AllDigits(s[from..cp + 1])
    ensures Decimal(s[from..cp + 1]) == 10 * Decimal(s[from..cp]) + (s[cp] - '0') as nat
  {
    var t := s[from..cp + 1];
    assert t == s[from..cp] + [s[cp]];
    assert t[..|t| - 1] == s[from..cp];
  }

  lemma {:induction false} TailIsRest(s: string, from: nat, to: nat)
    requires from <= to == |s|
    ensures s[from..to] == s[from..]
  {
  }

  /** `getn`. */
  method Getn(s: string) returns (r: Parsed)
    ensures r == NumberIn(s)
  {
    var cp, sign := 0, false;
    if |s| > 1 && s[0] == '+' {
      cp := 1;
    }
    ghost var u := s[cp..];
    if cp < |s| && s[cp] == '-' {
      sign := true;
      cp := cp + 1;
      assert s[cp..] == u[1..];
      if !(cp < |s| && IsDigit(s[cp])) {
        return BadNum;
      }
    }
    var n, end := ScanDigits(s, cp);
    assert end < |s| ==> s[cp..][end - cp] == s[end];
    if end < |s| {
      return BadNum;
    }
    TailIsRest(s, cp, end);
    NegateWraps(Decimal(s[cp..end]));
    var m: int := n;
    return Ok(if sign then Wrap(0 - m) else n);
  }

  lemma {:induction false} StepWraps(v: nat, k: nat)
    ensures Wrap(Wrap(v) * 10 + k) == Wrap(10 * v + k)
  {
    var q := (v - Wrap(v)) / 0x1_0000_0000;
    WrapShift(Wrap(v) * 10 + k, 10 * q);
  }

  lemma {:induction false} NegateWraps(v: nat)
    ensures Wrap(0 - Wrap(v)) == Wrap(0 - v)
  {
    var q := (v - Wrap(v)) / 0x1_0000_0000;
    WrapShift(0 - Wrap(v), 0 - q);
  }

  // -------- reading undoes writing --------

  /** Every int, the least one included, is read back from what was written for it. */
  lemma {:induction false} ReadBack(n: Int)
    ensures NumberIn(Putn(n)) == Ok(n)
    ensures Putn(n) != [] && (Putn(n)[0] == '-' || IsDigit(Putn(n)[0]))
  {
    hide Putn1, Decimal;
    if n == INT_MIN {
      PutnLeast(n);
    } else if n < 0 {
      assert Putn(n)[1..] == Putn1(-n);
    } else {
      assert Putn(n) == Putn1(n);
    }
  }

  function Pow10(k: nat): nat
  {
    if k == 0 then 1 else 10 * Pow10(k - 1)
  }

  lemma {:induction false} DecimalConcat(a: string, b: string)
    requires AllDigits(a) && AllDigits(b)
    ensures AllDigits(a + b) && Decimal(a + b) == Decimal(a) * Pow10(|b|) + Decimal(b)
  {
    if b == [] {
      assert a + b == a;
    } else {
      var b', c := b[..|b| - 1], b[|b| - 1];
      DecimalConcat(a, b');
      assert (a + b)[..|a + b| - 1] == a + b';
      assert Decimal(a) * Pow10(|b|) == 10 * (Decimal(a) * Pow10(|b'|));
    }
  }

  lemma {:induction false} Putn1Length(n: nat, k: nat)
    requires 0 < k && Pow10(k - 1) <= n < Pow10(k)
    ensures |Putn1(n)| == k
  {
    if k > 1 {
      Pow10Positive(k - 2);
      Putn1Length(n / 10, k - 1);
    }
  }

  lemma {:induction false} Pow10Positive(k: nat)
    ensures Pow10(k) >= 1
  {
    if k > 0 {
      Pow10Positive(k - 1);
    }
  }

  /** The least int is written as "2" followed by the nine digits of the rest. */
  lemma {:induction false} PutnLeast(n: Int)
    requires n == INT_MIN
    ensures NumberIn(Putn(n)) == Ok(n)
    ensures Putn(n) != [] && Putn(n)[0] == '-'
  {
    var m := 0 - n - 2_000_000_000;
    assert Pow10(8) == 100_000_000 && Pow10(9) == 1_000_000_000 by {
      assert Pow10(3) == 1000 && Pow10(6) == 1_000_000;
    }
    Putn1Length(m, 9);
    DecimalOne('2');
    DecimalConcat("2", Putn1(m));
    assert Wrap(0 - n) == n;
    assert Putn(n)[1..] == "2" + Putn1(m);
  }

  lemma {:induction false} DecimalOne(c: char)
    requires IsDigit(c)
    ensures Decimal([c]) == (c - '0') as nat
  {
    assert [c][..0] == [];
  }

  /** Numbers are equal exactly when they are written alike. */
  lemma {:induction false} PutnInjective(m: Int, n: Int)
    ensures Putn(m) == Putn(n) <==> m == n
  {
    ReadBack(m);
    ReadBack(n);
  }
}
