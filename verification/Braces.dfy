/**
 Brace expansion (`glob.c`): what one group splits a word into, and what a word
 expands to in the end.
 */
module Braces {

  /** A word is left as it is, or something is missing: a closing brace or bracket. */
  datatype Out = Words(ws: seq<string>) | Missing(c: char)

  function IndexOf(s: string, c: char): (n: nat)
    ensures n <= |s| && (n < |s| ==> s[n] == c) && c !in s[..n]
  {
    if s == "" || s[0] == c then 0
    else
      var n := IndexOf(s[1..], c) + 1;
      assert s[..n] == [s[0]] + s[1..][..n - 1];
      n
  }

  datatype Matched = Closed(n: nat) | NoBrace | NoBracket

  function Further(k: nat, m: Matched): Matched
  {
    if m.Closed? then Closed(k + m.n) else m
  }

  /** The brace that closes a group; nothing between brackets counts. */
  function Match(t: string, i: nat): (r: Matched)
    ensures r.Closed? ==> r.n < |t| && t[r.n] == '}'
  {
    if t == "" then NoBrace
    else if t[0] == '[' then
      var k := IndexOf(t[1..], ']');
      if k == |t[1..]| then NoBracket else Further(k + 2, Match(t[k + 2..], i))
    else if t[0] == '}' && i == 0 then Closed(0)
    else Further(1, Match(t[1..], Level(t[0], i)))
  }

  function Level(c: char, i: nat): nat
  {
    if c == '{' then i + 1 else if c == '}' && i > 0 then i - 1 else i
  }

  /** The first comma that is in no inner group and between no brackets. */
  function Comma(t: string, i: nat): (n: nat)
    ensures n <= |t| && (n < |t| ==> t[n] == ',')
  {
    if t == "" then 0
    else if t[0] == '[' then
      var k := IndexOf(t[1..], ']');
      if k == |t[1..]| then |t| else k + 2 + Comma(t[k + 2..], i)
    else if t[0] == ',' && i == 0 then 0
    else 1 + Comma(t[1..], Level(t[0], i))
  }

  function Alternatives(t: string): (as_: seq<string>)
    ensures as_ != []
    decreases |t|
  {
    var n := Comma(t, 0);
    if n == |t| then [t] else [t[..n]] + Alternatives(t[n + 1..])
  }

  /** Every alternative between what stands before the group and what stands after. */
  function Around(pre: string, as_: seq<string>, suf: string): (xs: seq<string>)
    ensures |xs| == |as_|
  {
    if as_ == [] then [] else [pre + as_[0] + suf] + Around(pre, as_[1..], suf)
  }

  /** `globbrace`: the first group of a word replaced by each of its alternatives. */
  function Split(s: string): (r: Out)
    requires '{' in s
    ensures r.Words? ==> r.ws != []
  {
    var b := IndexOf(s, '{');
    var t := s[b + 1..];
    match Match(t, 0)
    case NoBrace => Missing('}')
    case NoBracket => Missing(']')
    case Closed(n) => Words(Around(s[..b], Alternatives(t[..n]), t[n + 1..]))
  }

  // -------- each split removes a brace --------

  function Count(s: string): nat
  {
    if s == "" then 0 else (if s[0] == '{' then 1 else 0) + Count(s[1..])
  }

  lemma {:induction false} CountConcat(a: string, b: string)
    ensures Count(a + b) == Count(a) + Count(b)
  {
    if a == "" {
      assert a + b == b;
    } else {
      assert (a + b)[1..] == a[1..] + b;
      CountConcat(a[1..], b);
    }
  }

  lemma {:induction false} CountOne(c: char)
    ensures Count([c]) == if c == '{' then 1 else 0
  {
    assert [c][1..] == "";
  }

  lemma {:induction false} CountNone(s: string)
    ensures Count(s) == 0 <==> '{' !in s
  {
    if s != "" {
      CountNone(s[1..]);
    }
  }

  lemma {:induction false} AlternativesSmall(t: string, a: string)
    requires a in Alternatives(t)
    ensures |a| <= |t| && Count(a) <= Count(t) && forall c :: c in a ==> c in t
    decreases |t|
  {
    hide Count, Comma;
    var n := Comma(t, 0);
    if n < |t| {
      CountOne(',');
      assert t == t[..n] + ([','] + t[n + 1..]);
      CountConcat(t[..n], [','] + t[n + 1..]);
      CountConcat([','], t[n + 1..]);
      if a != t[..n] {
        AlternativesSmall(t[n + 1..], a);
      }
    }
  }

  lemma {:induction false} AroundMember(pre: string, as_: seq<string>, suf: string, x: string) returns (a: string)
    requires x in Around(pre, as_, suf)
    ensures a in as_ && x == pre + a + suf
  {
    a := as_[0];
    if x != pre + a + suf {
      a := AroundMember(pre, as_[1..], suf, x);
    }
  }

  /** So a word as short as a path gives only words as short as a path. */
  lemma {:induction false} SplitSmall(s: string, x: string)
    requires '{' in s && Split(s).Words? && x in Split(s).ws
    ensures Count(x) < Count(s) && |x| + 2 <= |s| && forall c :: c in x ==> c in s
  {
    hide Count, Match, Alternatives;
    var b := IndexOf(s, '{');
    var t := s[b + 1..];
    var n := Match(t, 0).n;
    var a := AroundMember(s[..b], Alternatives(t[..n]), t[n + 1..], x);
    AlternativesSmall(t[..n], a);
    CountGroup(s[..b], t[..n], t[n + 1..], a);
    Reassemble(s, b);
    Reassemble(t, n);
  }

  lemma {:induction false} Reassemble(s: string, b: nat)
    requires b < |s|
    ensures s == s[..b] + ([s[b]] + s[b + 1..])
  {
  }

  lemma {:induction false} CountGroup(pre: string, inner: string, suf: string, a: string)
    ensures Count(pre + (['{'] + (inner + (['}'] + suf)))) == Count(pre) + 1 + Count(inner) + Count(suf)
    ensures Count(pre + a + suf) == Count(pre) + Count(a) + Count(suf)
  {
    hide Count;
    CountConcat(pre, ['{'] + (inner + (['}'] + suf)));
    CountConcat(['{'], inner + (['}'] + suf));
    CountConcat(inner, ['}'] + suf);
    CountConcat(['}'], suf);
    CountConcat(pre + a, suf);
    CountConcat(pre, a);
    CountOne('{');
    CountOne('}');
  }

  function MaxCount(xs: seq<string>): nat
  {
    if xs == [] then 0
    else if Count(xs[0]) > MaxCount(xs[1..]) then Count(xs[0]) else MaxCount(xs[1..])
  }

  lemma {:induction false} MaxBelow(xs: seq<string>, n: nat)
    requires n > 0 && forall x :: x in xs ==> Count(x) < n
    ensures MaxCount(xs) < n
  {
    if xs != [] {
      MaxBelow(xs[1..], n);
    }
  }

  lemma {:induction false} SplitMax(s: string)
    requires '{' in s && Split(s).Words?
    ensures MaxCount(Split(s).ws) < Count(s)
  {
    CountNone(s);
    forall x | x in Split(s).ws ensures Count(x) < Count(s) {
      SplitSmall(s, x);
    }
    MaxBelow(Split(s).ws, Count(s));
  }

  // -------- expansion --------

  /** Words left as they are for the sake of `find`. */
  predicate Untouched(s: string)
  {
    s == "{" || s == "{}"
  }

  predicate Settled(s: string)
  {
    Untouched(s) || '{' !in s
  }

  function Append(a: Out, b: Out): Out
  {
    if a.Missing? then a else if b.Missing? then b else Words(a.ws + b.ws)
  }

  /** All that a word stands for, the first group varying slowest. */
  function Expand(s: string): Out
    decreases Count(s), 0, 0
  {
    if Settled(s) then Words([s])
    else
      match Split(s)
      case Missing(c) => Missing(c)
      case Words(xs) =>
        SplitMax(s);
        ExpandAll(xs)
  }

  function ExpandAll(xs: seq<string>): Out
    decreases MaxCount(xs), 1, |xs|
  {
    if xs == [] then Words([]) else Append(Expand(xs[0]), ExpandAll(xs[1..]))
  }

  lemma {:induction false} ExpandConcat(a: seq<string>, b: seq<string>)
    ensures ExpandAll(a + b) == Append(ExpandAll(a), ExpandAll(b))
  {
    if a == [] {
      assert a + b == b;
      if ExpandAll(b).Words? {
        assert [] + ExpandAll(b).ws == ExpandAll(b).ws;
      }
    } else {
      ExpandConcat(a[1..], b);
      assert (a + b)[1..] == a[1..] + b;
      AppendAssoc(Expand(a[0]), ExpandAll(a[1..]), ExpandAll(b));
    }
  }

  lemma {:induction false} AppendAssoc(a: Out, b: Out, c: Out)
    ensures Append(Append(a, b), c) == Append(a, Append(b, c))
  {
    if a.Words? && b.Words? && c.Words? {
      assert a.ws + b.ws + c.ws == a.ws + (b.ws + c.ws);
    }
  }
}
