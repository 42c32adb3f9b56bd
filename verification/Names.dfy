/**
 Shell strings and the order by which the variable tree is sorted.

 A `Char` is a signed 16-bit code and a string ends at its first NUL, so a name
 is a sequence of nonzero codes.
 */
module Names {

  type Code = c: int | -0x8000 <= c <= 0x7fff && c != 0 witness 1

  type Name = seq<Code>

  /** The code a pointer into the string sees at offset `i`: NUL once past the end. */
  function At(s: Name, i: nat): int
  {
    if i < |s| then s[i] else 0
  }

  // -------- the string order --------

  /** Dictionary order in which the end of a string is below every code, even a negative one. */
  predicate LexBelow(a: Name, b: Name)
  {
    b != [] &&
    (a == [] || a[0] < b[0] || (a[0] == b[0] && LexBelow(a[1..], b[1..])))
  }

  /**
   The order of the tree: the first codes decide as signed numbers, the end of a
   string counting as 0; only then does the dictionary order of the rest matter.
   */
  predicate Below(a: Name, b: Name)
  {
    At(a, 0) < At(b, 0) || (At(a, 0) == At(b, 0) && LexBelow(a, b))
  }

  lemma {:induction false} LexTrichotomy(a: Name, b: Name)
    ensures !(LexBelow(a, b) && LexBelow(b, a))
    ensures a == b <==> !LexBelow(a, b) && !LexBelow(b, a)
  {
    if a != [] && b != [] && a[0] == b[0] {
      LexTrichotomy(a[1..], b[1..]);
      assert a == [a[0]] + a[1..] && b == [b[0]] + b[1..];
    }
  }

  lemma {:induction false} LexTransitive(a: Name, b: Name, c: Name)
    requires LexBelow(a, b) && LexBelow(b, c)
    ensures LexBelow(a, c)
  {
    if a != [] && a[0] == b[0] == c[0] {
      LexTransitive(a[1..], b[1..], c[1..]);
    }
  }

  /** Exactly one of below, equal, above holds of any two names. */
  lemma {:induction false} BelowTrichotomy(a: Name, b: Name)
    ensures !(Below(a, b) && Below(b, a))
    ensures a == b <==> !Below(a, b) && !Below(b, a)
  {
    LexTrichotomy(a, b);
  }

  lemma {:induction false} BelowTransitive(a: Name, b: Name, c: Name)
    requires Below(a, b) && Below(b, c)
    ensures Below(a, c)
  {
    if At(a, 0) == At(b, 0) == At(c, 0) {
      LexTransitive(a, b, c);
    }
  }

  /** The dictionary order seen from any point up to which two strings agree. */
  lemma {:induction false} LexSkip(a: Name, b: Name, i: nat)
    requires i <= |a| && i <= |b| && a[..i] == b[..i]
    ensures LexBelow(a, b) <==> LexBelow(a[i..], b[i..])
    ensures a == b <==> a[i..] == b[i..]
  {
    if i == 0 {
      assert a[0..] == a && b[0..] == b;
    } else {
      assert a[0] == a[..i][0] && b[0] == b[..i][0];
      assert a[1..][..i - 1] == a[..i][1..] && b[1..][..i - 1] == b[..i][1..];
      LexSkip(a[1..], b[1..], i - 1);
      assert a[1..][i - 1..] == a[i..] && b[1..][i - 1..] == b[i..];
      assert a == a[..i] + a[i..] && b == b[..i] + b[i..];
    }
  }

  // -------- the comparisons the shell makes --------

  /** `Strcmp`: two pointers advance while they see the same nonzero code. */
  method Strcmp(a: Name, b: Name) returns (r: int)
    ensures r < 0 <==> LexBelow(a, b)
    ensures r > 0 <==> LexBelow(b, a)
    ensures r == 0 <==> a == b
  {
    var i := 0;
    while At(a, i) != 0 && At(a, i) == At(b, i)
      invariant i <= |a| && i <= |b| && a[..i] == b[..i]
      decreases |a| - i
    {
      i := i + 1;
      assert a[..i] == a[..i - 1] + [a[i - 1]] && b[..i] == b[..i - 1] + [b[i - 1]];
    }
    LexSkip(a, b, i);
    LexSkip(b, a, i);
    if At(a, i) == 0 && At(b, i) == 0 {
      r := 0;
    } else if At(a, i) == 0 {
      r := -1;
    } else if At(b, i) == 0 {
      r := 1;
    } else {
      r := At(a, i) - At(b, i);
    }
  }

  /** The test made at every node: difference of first codes, then `Strcmp`. */
  method Compare(a: Name, b: Name) returns (r: int)
    ensures r < 0 <==> Below(a, b)
    ensures r > 0 <==> Below(b, a)
    ensures r == 0 <==> a == b
  {
    r := At(a, 0) - At(b, 0);
    if r == 0 {
      r := Strcmp(a, b);
    }
  }
}
