/**
 Brace expansion as far as there is room: `globbrace` builds every alternative in
 a buffer of PATH_MAX characters, which keeps the beginning of a longer one.
 */
module Room {
  import opened Braces
  import opened CStrings

  const PATH_MAX := 1024

  function ClipAll(xs: seq<string>): (ys: seq<string>)
    ensures |ys| == |xs|
  {
    if xs == [] then [] else [Clip(xs[0], PATH_MAX)] + ClipAll(xs[1..])
  }

  /** What `globbrace` makes of a word: its alternatives, as much of each as fits the buffer. */
  function Globbed(s: string): (r: Out)
    requires '{' in s
    ensures r.Words? ==> r.ws != []
  {
    match Split(s)
    case Missing(c) => Missing(c)
    case Words(xs) => Words(ClipAll(xs))
  }

  /** Every alternative of the first group leaves a word that fits the buffer. */
  predicate Fits(s: string)
  {
    Settled(s) || Split(s).Missing? || forall x <- Split(s).ws :: |x| < PATH_MAX
  }

  /** The text before the first group, which is copied into the buffer with no test, fits it. */
  predicate PrefixFits(s: string)
  {
    Settled(s) || IndexOf(s, '{') < PATH_MAX
  }

  // -------- clipping --------

  lemma {:induction false} ClipAllMember(xs: seq<string>, y: string) returns (x: string)
    requires y in ClipAll(xs)
    ensures x in xs && y == Clip(x, PATH_MAX)
  {
    x := xs[0];
    if y != Clip(x, PATH_MAX) {
      x := ClipAllMember(xs[1..], y);
    }
  }

  lemma {:induction false} ClipAllSnoc(xs: seq<string>, x: string)
    ensures ClipAll(xs + [x]) == ClipAll(xs) + [Clip(x, PATH_MAX)]
  {
    if xs == [] {
      assert xs + [x] == [x];
    } else {
      ClipAllSnoc(xs[1..], x);
      assert (xs + [x])[1..] == xs[1..] + [x];
    }
  }

  /** Nothing is lost exactly if every word fits. */
  lemma {:induction false} ClipAllSame(xs: seq<string>)
    ensures ClipAll(xs) == xs <==> forall x :: x in xs ==> |x| < PATH_MAX
  {
    if xs != [] {
      ClipAllSame(xs[1..]);
      assert xs == [xs[0]] + xs[1..];
    }
  }

  /** `globbrace` gives the alternatives of the word exactly if they fit. */
  lemma {:induction false} GlobbedExact(s: string)
    requires !Settled(s)
    ensures Globbed(s) == Split(s) <==> Fits(s)
  {
    if Split(s).Words? {
      ClipAllSame(Split(s).ws);
    }
  }

  lemma {:induction false} CountClip(s: string, n: nat)
    requires n > 0
    ensures Count(Clip(s, n)) <= Count(s)
  {
    if |s| >= n {
      CountConcat(s[..n - 1], s[n - 1..]);
      assert s == s[..n - 1] + s[n - 1..];
    }
  }

  lemma {:induction false} GlobbedSmall(s: string, y: string)
    requires '{' in s && Globbed(s).Words? && y in Globbed(s).ws
    ensures Count(y) < Count(s) && |y| < PATH_MAX && |y| + 2 <= |s| && forall c :: c in y ==> c in s
  {
    var x := ClipAllMember(Split(s).ws, y);
    SplitSmall(s, x);
    CountClip(x, PATH_MAX);
  }

  lemma {:induction false} GlobbedMax(s: string)
    requires '{' in s && Globbed(s).Words?
    ensures MaxCount(Globbed(s).ws) < Count(s)
  {
    CountNone(s);
    forall y | y in Globbed(s).ws ensures Count(y) < Count(s) {
      GlobbedSmall(s, y);
    }
    MaxBelow(Globbed(s).ws, Count(s));
  }

  // -------- expansion --------

  /** What `expbrace` leaves of a word. */
  function Expanded(s: string): Out
    decreases Count(s), 0, 0
  {
    if Settled(s) then Words([s])
    else
      match Globbed(s)
      case Missing(c) => Missing(c)
      case Words(xs) =>
        GlobbedMax(s);
        ExpandedAll(xs)
  }

  function ExpandedAll(xs: seq<string>): Out
    decreases MaxCount(xs), 1, |xs|
  {
    if xs == [] then Words([]) else Append(Expanded(xs[0]), ExpandedAll(xs[1..]))
  }

  /** How many words are looked at on the way. */
  ghost function Work(s: string): nat
    decreases Count(s), 0, 0
  {
    if Settled(s) || Globbed(s).Missing? then 1
    else
      GlobbedMax(s);
      1 + WorkAll(Globbed(s).ws)
  }

  ghost function WorkAll(xs: seq<string>): nat
    decreases MaxCount(xs), 1, |xs|
  {
    if xs == [] then 0 else Work(xs[0]) + WorkAll(xs[1..])
  }

  lemma {:induction false} ExpandedConcat(a: seq<string>, b: seq<string>)
    ensures ExpandedAll(a + b) == Append(ExpandedAll(a), ExpandedAll(b))
    ensures WorkAll(a + b) == WorkAll(a) + WorkAll(b)
  {
    if a == [] {
      assert a + b == b;
      if ExpandedAll(b).Words? {
        assert [] + ExpandedAll(b).ws == ExpandedAll(b).ws;
      }
    } else {
      ExpandedConcat(a[1..], b);
      assert (a + b)[1..] == a[1..] + b;
      AppendAssoc(Expanded(a[0]), ExpandedAll(a[1..]), ExpandedAll(b));
    }
  }

  // -------- where everything fits --------

  /** If the alternatives of the first group fit, so do all that come of them. */
  lemma {:induction false} ShortFits(s: string)
    requires |s| <= PATH_MAX
    ensures Fits(s)
  {
    if !Settled(s) && Split(s).Words? {
      forall x | x in Split(s).ws ensures |x| < PATH_MAX {
        SplitSmall(s, x);
      }
    }
  }

  /** Then the expansion is the one without a limit. */
  lemma {:induction false} FitsExpands(s: string)
    requires Fits(s)
    ensures Expanded(s) == Expand(s)
    decreases Count(s), 0, 0
  {
    if !Settled(s) {
      GlobbedExact(s);
      if Split(s).Words? {
        SplitMax(s);
        ShortExpandAll(Split(s).ws);
      }
    }
  }

  lemma {:induction false} ShortExpandAll(xs: seq<string>)
    requires forall x :: x in xs ==> |x| < PATH_MAX
    ensures ExpandedAll(xs) == ExpandAll(xs)
    decreases MaxCount(xs), 1, |xs|
  {
    if xs != [] {
      ShortFits(xs[0]);
      FitsExpands(xs[0]);
      ShortExpandAll(xs[1..]);
    }
  }

  /** And so for lists of words. */
  lemma {:induction false} FitsExpandAll(xs: seq<string>)
    requires forall x :: x in xs ==> Fits(x)
    ensures ExpandedAll(xs) == ExpandAll(xs)
  {
    if xs != [] {
      FitsExpands(xs[0]);
      FitsExpandAll(xs[1..]);
    }
  }
}
