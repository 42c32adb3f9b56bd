/** Strings in buffers of characters, ended by a null character. */
module CStrings {

  ghost predicate Holds(buf: seq<char>, s: string)
  {
    |s| < |buf| && buf[..|s|] == s && buf[|s|] == '\0'
  }

  /** What a buffer of `n` characters keeps of a string. */
  function Clip(s: string, n: nat): (r: string)
    requires n > 0
    ensures |r| < n && r <= s && (r == s <==> |s| < n)
  {
    if |s| < n then s else s[..n - 1]
  }

  /** Clipping on the way makes no difference to what is kept in the end. */
  lemma {:induction false} ClipTwice(a: string, b: string, n: nat)
    requires n > 0
    ensures Clip(Clip(a, n) + b, n) == Clip(a + b, n)
  {
    if |a| >= n {
      assert (a[..n - 1] + b)[..n - 1] == a[..n - 1] == (a + b)[..n - 1];
    }
  }
}
