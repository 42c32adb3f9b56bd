/**
 Brace expansion as it runs: `globbrace` builds each alternative in a buffer of
 fixed size and collects them in a growing vector; `expbrace` works through a
 growing vector of words in place, splitting a word where it stands.
 */
module BraceRun {
  import opened Braces
  import opened CStrings
  import opened Options
  import opened Room

  const GLOBSPACE := 100

  // -------- C strings in a buffer --------

  /** Copy to place `at`, as much as there is room for. */
  method Strlcpy(buf: array<char>, at: nat, src: string)
    requires at < buf.Length
    modifies buf
    ensures Holds(buf[..], Clip(old(buf[..at]) + src, buf.Length))
  {
    var n := if at + |src| < buf.Length then |src| else buf.Length - 1 - at;
    for i := 0 to n
      invariant buf[..at] == old(buf[..at]) && buf[at..at + i] == src[..i]
    {
      buf[at + i] := src[i];
      assert buf[at..at + i + 1] == buf[at..at + i] + [src[i]];
    }
    buf[at + n] := '\0';
    assert buf[..at + n] == buf[..at] + buf[at..at + n];
    ClipOf(old(buf[..at]), src, n, buf.Length);
  }

  lemma {:induction false} ClipOf(a: string, b: string, n: nat, size: nat)
    requires |a| < size && n == if |a| + |b| < size then |b| else size - 1 - |a|
    ensures Clip(a + b, size) == a + b[..n]
  {
  }

  method Strlcat(buf: array<char>, src: string, ghost s: string)
    requires Holds(buf[..], s) && '\0' !in s
    modifies buf
    ensures Holds(buf[..], Clip(s + src, buf.Length))
  {
    var n := 0;
    forall k | 0 <= k < |s| ensures buf[k] != '\0' {
      assert buf[..][..|s|][k] == buf[k];
    }
    while buf[n] != '\0'
      invariant n <= |s|
      decreases |s| - n
    {
      n := n + 1;
    }
    assert buf[..n] == s;
    Strlcpy(buf, n, src);
  }

  // -------- one group --------

  lemma {:induction false} IndexShorter(s: string, c: char, n: nat)
    requires IndexOf(s, c) < n <= |s|
    ensures IndexOf(s[..n], c) == IndexOf(s, c)
  {
    var k := IndexOf(s[..n], c);
    assert s[..n][IndexOf(s, c)] == c;
    IndexLeast(s[..n], c, IndexOf(s, c));
    assert s[k] == c;
    IndexLeast(s, c, k);
  }

  lemma {:induction false} IndexLeast(s: string, c: char, k: nat)
    requires k < |s| && s[k] == c
    ensures IndexOf(s, c) <= k
  {
    if s[0] != c {
      IndexLeast(s[1..], c, k - 1);
    }
  }

  method FindBracket(t: string, from: nat) returns (p: nat)
    requires from <= |t|
    ensures p == from + IndexOf(t[from..], ']')
  {
    p := from;
    while p < |t| && t[p] != ']'
      invariant from <= p <= |t| && from + IndexOf(t[from..], ']') == p + IndexOf(t[p..], ']')
    {
      assert t[p..][1..] == t[p + 1..];
      p := p + 1;
    }
  }

  lemma {:induction false} MatchPlain(t: string, p: nat, i: nat)
    requires p < |t| && t[p] != '[' && !(t[p] == '}' && i == 0)
    ensures Match(t[p..], i) == Further(1, Match(t[p + 1..], Level(t[p], i)))
  {
    assert t[p..][1..] == t[p + 1..];
  }

  lemma {:induction false} MatchBracket(t: string, p: nat, q: nat, i: nat)
    requires p < |t| && t[p] == '[' && q == p + 1 + IndexOf(t[p + 1..], ']')
    ensures Match(t[p..], i) == if q == |t| then NoBracket else Further(q + 1 - p, Match(t[q + 1..], i))
  {
    hide IndexOf, Match;
    FromThere(t, p, 1);
    MatchBracketAt(t[p..], q - p - 1, i);
    if q < |t| {
      FromThere(t, p, q - p + 1);
    }
  }

  lemma {:induction false} MatchBracketAt(u: string, k: nat, i: nat)
    requires u != "" && u[0] == '[' && k == IndexOf(u[1..], ']')
    ensures Match(u, i) == if k == |u| - 1 then NoBracket else Further(k + 2, Match(u[k + 2..], i))
  {
    hide IndexOf;
  }

  lemma {:induction false} FromThere(t: string, p: nat, k: nat)
    requires p + k <= |t|
    ensures t[p..][k..] == t[p + k..]
  {
  }

  method FindClose(t: string) returns (m: Matched)
    ensures m == Match(t, 0)
  {
    hide Match, IndexOf;
    var i: nat, pe: nat := 0, 0;
    while pe < |t| && !(t[pe] == '}' && i == 0)
      invariant pe <= |t| && Match(t, 0) == Further(pe, Match(t[pe..], i))
    {
      if t[pe] == '[' {
        var p := FindBracket(t, pe + 1);
        MatchBracket(t, pe, p, i);
        if p == |t| {
          return NoBracket;
        }
        pe := p + 1;
      } else {
        MatchPlain(t, pe, i);
        if t[pe] == '{' {
          i := i + 1;
        } else if t[pe] == '}' {
          i := i - 1;
        }
        pe := pe + 1;
      }
    }
    MatchEnd(t, pe, i);
    m := if pe == |t| then NoBrace else Closed(pe);
  }

  lemma {:induction false} MatchEnd(t: string, p: nat, i: nat)
    requires p <= |t| && (p < |t| ==> t[p] == '}' && i == 0)
    ensures Match(t[p..], i) == if p == |t| then NoBrace else Closed(0)
  {
  }

  /** A vector of words that ends in null. */
  ghost predicate Vector(v: seq<Option<string>>, n: nat)
  {
    n < |v| && v[n].None? && forall i :: 0 <= i < n ==> v[i].Some?
  }

  ghost function Items(v: seq<Option<string>>, n: nat): (xs: seq<string>)
    requires n <= |v| && forall i :: 0 <= i < n ==> v[i].Some?
    ensures |xs| == n
  {
    seq(n, i requires 0 <= i < n => v[i].value)
  }

  /** Store a word after `n` others, and make room if the vector is full. */
  method Push(nv: array<Option<string>>, n: nat, x: string) returns (v: array<Option<string>>)
    requires n < nv.Length && forall i :: 0 <= i < n ==> nv[i].Some?
    modifies nv
    ensures v == nv || fresh(v)
    ensures n + 1 < v.Length && forall i :: 0 <= i < n + 1 ==> v[i].Some?
    ensures Items(v[..], n + 1) == old(Items(nv[..], n)) + [x]
  {
    ghost var was := Items(nv[..], n);
    nv[n] := Some(x);
    v := nv;
    if n + 1 == nv.Length {
      v := new Option<string>[nv.Length + GLOBSPACE];
      forall i | 0 <= i < nv.Length {
        v[i] := nv[i];
      }
    }
    assert Items(v[..], n + 1) == was + [x];
  }

  method Strsave(buf: array<char>, ghost s: string) returns (r: string)
    requires Holds(buf[..], s) && '\0' !in s
    ensures r == s
  {
    forall k | 0 <= k < |s| ensures buf[k] == s[k] {
      assert buf[..][..|s|][k] == buf[k];
    }
    r := "";
    while buf[|r|] != '\0'
      invariant |r| <= |s| && r == s[..|r|]
      decreases |s| - |r|
    {
      assert s[|r|] in s;
      r := r + [buf[|r|]];
    }
  }

  lemma {:induction false} CommaPlain(t: string, p: nat, i: nat)
    requires p < |t| && t[p] != '[' && !(t[p] == ',' && i == 0)
    ensures Comma(t[p..], i) == 1 + Comma(t[p + 1..], Level(t[p], i))
  {
    assert t[p..][1..] == t[p + 1..];
  }

  lemma {:induction false} CommaBracket(t: string, p: nat, q: nat, i: nat)
    requires p < q < |t| && t[p] == '[' && q == p + 1 + IndexOf(t[p + 1..], ']')
    ensures Comma(t[p..], i) == q + 1 - p + Comma(t[q + 1..], i)
  {
    hide IndexOf, Comma;
    FromThere(t, p, 1);
    FromThere(t, p, q - p + 1);
    CommaBracketAt(t[p..], q - p - 1, i);
  }

  lemma {:induction false} CommaBracketAt(u: string, k: nat, i: nat)
    requires u != "" && u[0] == '[' && k == IndexOf(u[1..], ']') < |u| - 1
    ensures Comma(u, i) == k + 2 + Comma(u[k + 2..], i)
  {
    hide IndexOf;
  }

  /** The text between two commas is an alternative. */
  lemma {:induction false} NextAlternative(t: string, l: nat, p: nat)
    requires l <= p <= |t| && Comma(t[l..], 0) == p - l
    ensures Alternatives(t[l..]) == [t[l..p]] + if p == |t| then [] else Alternatives(t[p + 1..])
  {
    hide Comma, Alternatives;
    Slices(t, l, p);
    AlternativesAt(t[l..], p - l);
  }

  lemma {:induction false} AlternativesAt(u: string, n: nat)
    requires n == Comma(u, 0)
    ensures Alternatives(u) == if n == |u| then [u] else [u[..n]] + Alternatives(u[n + 1..])
  {
    hide Comma;
  }

  lemma {:induction false} Slices(t: string, l: nat, p: nat)
    requires l <= p <= |t|
    ensures p < |t| ==> t[l..][..p - l] == t[l..p] && t[l..][p - l + 1..] == t[p + 1..]
    ensures p == |t| ==> t[l..] == t[l..p]
  {
  }

  lemma {:induction false} CommaHere(t: string, p: nat)
    requires p <= |t| && (p < |t| ==> t[p] == ',')
    ensures Comma(t[p..], 0) == 0
  {
  }

  /** At the closing brace no inner group is open; before it, brackets are closed in time. */
  lemma {:induction false} Inner(t: string, n: nat, p: nat, i: nat)
    requires p <= n < |t| && Further(p, Match(t[p..], i)) == Closed(n)
    ensures p == n ==> i == 0
    ensures p < n && t[p] != '[' ==> !(t[p] == '}' && i == 0) && Further(p + 1, Match(t[p + 1..], Level(t[p], i))) == Closed(n)
    ensures p < n && t[p] == '[' ==>
              var q := p + 1 + IndexOf(t[p + 1..], ']');
              q < n && Further(q + 1, Match(t[q + 1..], i)) == Closed(n) && q == p + 1 + IndexOf(t[..n][p + 1..], ']')
  {
    hide Match, IndexOf;
    if t[p] == '[' {
      var q := p + 1 + IndexOf(t[p + 1..], ']');
      MatchBracket(t, p, q, i);
      if p < n {
        IndexShorter(t[p + 1..], ']', n - p - 1);
        assert t[p + 1..][..n - p - 1] == t[..n][p + 1..];
      }
    } else if t[p] == '}' && i == 0 {
      MatchEnd(t, p, i);
    } else {
      MatchPlain(t, p, i);
    }
  }

  lemma {:induction false} AroundSnoc(pre: string, as_: seq<string>, a: string, suf: string)
    ensures Around(pre, as_ + [a], suf) == Around(pre, as_, suf) + [pre + a + suf]
  {
    if as_ == [] {
      assert as_ + [a] == [a];
    } else {
      AroundSnoc(pre, as_[1..], a, suf);
      assert (as_ + [a])[1..] == as_[1..] + [a];
    }
  }

  /** One alternative, written into the buffer between the parts that stay, as far as there is room. */
  method Alternative(gbuf: array<char>, b: nat, alt: string, suf: string, ghost pre: string) returns (x: string)
    requires gbuf.Length == PATH_MAX && b < PATH_MAX && |pre| == b && gbuf[..b] == pre
    requires '\0' !in pre && '\0' !in alt && '\0' !in suf
    modifies gbuf
    ensures x == Clip(pre + alt + suf, PATH_MAX) && gbuf[..b] == pre
  {
    Strlcpy(gbuf, b, alt);
    ghost var s := Clip(pre + alt, PATH_MAX);
    ClipTwice(pre + alt, suf, PATH_MAX);
    Strlcat(gbuf, suf, s);
    ghost var t := Clip(pre + alt + suf, PATH_MAX);
    x := Strsave(gbuf, t);
    KeepsStart(gbuf[..], pre, t, pre + alt + suf);
  }

  lemma {:induction false} KeepsStart(buf: seq<char>, pre: string, t: string, whole: string)
    requires Holds(buf, t) && |pre| < PATH_MAX && t == Clip(whole, PATH_MAX) && pre <= whole
    ensures |pre| <= |buf| && buf[..|pre|] == pre
  {
    assert buf[..|pre|] == buf[..|t|][..|pre|];
  }

  /** `globbrace`, for every word whose text before the first brace fits the buffer. */
  method Globbrace(s: string) returns (r: Out)
    requires '{' in s && '\0' !in s && IndexOf(s, '{') < PATH_MAX
    ensures r == Globbed(s)
  {
    hide Match, Alternatives, Comma, IndexOf;
    var gbuf := new char[PATH_MAX];
    var b := CopyUpToBrace(gbuf, s);
    var t := s[b + 1..];
    var m := FindClose(t);
    if m.NoBracket? {
      return Missing(']');
    } else if m.NoBrace? {
      return Missing('}');
    }
    var n := m.n;
    var xs := Cut(gbuf, b, t, n, s[..b]);
    r := Words(xs);
  }

  method CopyUpToBrace(gbuf: array<char>, s: string) returns (b: nat)
    requires gbuf.Length == PATH_MAX && '{' in s && IndexOf(s, '{') < PATH_MAX
    modifies gbuf
    ensures b == IndexOf(s, '{') && b < |s| && gbuf[..b] == s[..b]
  {
    b := 0;
    while s[b] != '{'
      invariant b < |s| && '{' in s[b..] && IndexOf(s, '{') == b + IndexOf(s[b..], '{')
      invariant gbuf[..b] == s[..b]
      decreases |s| - b
    {
      assert s[b..][1..] == s[b + 1..];
      gbuf[b] := s[b];
      b := b + 1;
      assert gbuf[..b] == gbuf[..b - 1] + [s[b - 1]] && s[..b] == s[..b - 1] + [s[b - 1]];
    }
  }

  /** At `pm`, with `i` inner groups open, `done` has been cut off and the next alternative begins at `pl`. */
  ghost predicate Cutting(t: string, n: nat, pl: nat, pm: nat, i: nat, done: seq<string>)
  {
    && pl <= pm <= n + 1 <= |t|
    && var inner := t[..n];
       if pm <= n then
         && Further(pm, Match(t[pm..], i)) == Closed(n)
         && Comma(inner[pl..], 0) == pm - pl + Comma(inner[pm..], i)
         && Alternatives(inner) == done + Alternatives(inner[pl..])
       else pl == pm && Alternatives(inner) == done
  }

  lemma {:induction false} CutStart(t: string, n: nat)
    requires Match(t, 0) == Closed(n)
    ensures Cutting(t, n, 0, 0, 0, [])
  {
    assert t[0..] == t && t[..n][0..] == t[..n];
  }

  lemma {:induction false} CutBracket(t: string, n: nat, pl: nat, pm: nat, i: nat, done: seq<string>, q: nat)
    requires Cutting(t, n, pl, pm, i, done) && pm < n && t[pm] == '[' && q == pm + 1 + IndexOf(t[pm + 1..], ']')
    ensures Cutting(t, n, pl, q + 1, i, done)
  {
    hide Match, Alternatives, Comma, IndexOf;
    Inner(t, n, pm, i);
    CommaBracket(t[..n], pm, q, i);
  }

  lemma {:induction false} CutPlain(t: string, n: nat, pl: nat, pm: nat, i: nat, done: seq<string>)
    requires Cutting(t, n, pl, pm, i, done) && pm < n && t[pm] != '[' && !(t[pm] == ',' && i == 0)
    ensures Cutting(t, n, pl, pm + 1, Level(t[pm], i), done) && !(t[pm] == '}' && i == 0)
  {
    hide Match, Alternatives, Comma, IndexOf;
    Inner(t, n, pm, i);
    CommaPlain(t[..n], pm, i);
  }

  lemma {:induction false} CutHere(t: string, n: nat, pl: nat, pm: nat, i: nat, done: seq<string>)
    requires Cutting(t, n, pl, pm, i, done) && pm <= n && (pm < n ==> t[pm] == ',' && i == 0)
    ensures Cutting(t, n, pm + 1, pm + 1, 0, done + [t[pl..pm]]) && i == 0
  {
    hide Match, Alternatives, Comma, IndexOf;
    Inner(t, n, pm, i);
    var inner := t[..n];
    CommaHere(inner, pm);
    NextAlternative(inner, pl, pm);
    assert inner[pl..pm] == t[pl..pm];
    var rest := if pm == n then [] else Alternatives(inner[pm + 1..]);
    assert done + ([t[pl..pm]] + rest) == done + [t[pl..pm]] + rest;
  }

  /** The second loop of `globbrace`: cut the group at its commas. */
  method Cut(gbuf: array<char>, b: nat, t: string, n: nat, ghost pre: string) returns (xs: seq<string>)
    requires gbuf.Length == PATH_MAX && b < PATH_MAX && |pre| == b && gbuf[..b] == pre
    requires '\0' !in pre && '\0' !in t && Match(t, 0) == Closed(n)
    modifies gbuf
    ensures xs == ClipAll(Around(pre, Alternatives(t[..n]), t[n + 1..]))
  {
    hide Match, Alternatives, Comma, IndexOf, Around, Cutting, Items, ClipAll;
    var nv := new Option<string>[GLOBSPACE];
    var i: nat, pl: nat, pm: nat, len: nat := 0, 0, 0, 0;
    ghost var done: seq<string> := [];
    CutStart(t, n);
    AroundNone(nv[..], pre, t[n + 1..]);
    while pm <= n
      invariant pl <= pm <= n + 1 && fresh(nv) && gbuf[..b] == pre
      invariant len < nv.Length && (forall k :: 0 <= k < len ==> nv[k].Some?)
      invariant Items(nv[..], len) == ClipAll(Around(pre, done, t[n + 1..]))
      invariant Cutting(t, n, pl, pm, i, done)
    {
      if pm < n && t[pm] == '[' {
        var q := FindBracket(t, pm + 1);
        CutBracket(t, n, pl, pm, i, done, q);
        CutInside(t, n, pl, q + 1, i, done);
        pm := q + 1;
      } else if pm < n && !(t[pm] == ',' && i == 0) {
        CutPlain(t, n, pl, pm, i, done);
        if t[pm] == '{' {
          i := i + 1;
        } else if t[pm] == '}' {
          i := i - 1;
        }
        pm := pm + 1;
      } else {
        CutHere(t, n, pl, pm, i, done);
        NoNull(t, pl, pm, n);
        var x := Alternative(gbuf, b, t[pl..pm], t[n + 1..], pre);
        AroundSnoc(pre, done, t[pl..pm], t[n + 1..]);
        ClipAllSnoc(Around(pre, done, t[n + 1..]), pre + t[pl..pm] + t[n + 1..]);
        nv := Push(nv, len, x);
        len := len + 1;
        done := done + [t[pl..pm]];
        pm := pm + 1;
        pl := pm;
      }
    }
    CutAll(t, n, pl, pm, i, done);
    xs := Collect(nv, len);
  }

  lemma {:induction false} CutInside(t: string, n: nat, pl: nat, pm: nat, i: nat, done: seq<string>)
    requires Cutting(t, n, pl, pm, i, done)
    ensures pl <= pm <= n + 1
  {
  }

  lemma {:induction false} CutAll(t: string, n: nat, pl: nat, pm: nat, i: nat, done: seq<string>)
    requires Cutting(t, n, pl, pm, i, done) && pm > n
    ensures n <= |t| && Alternatives(t[..n]) == done
  {
  }

  lemma {:induction false} NoNull(t: string, l: nat, p: nat, n: nat)
    requires '\0' !in t && l <= p <= n < |t|
    ensures '\0' !in t[l..p] && '\0' !in t[n + 1..]
  {
  }

  lemma {:induction false} AroundNone(v: seq<Option<string>>, pre: string, suf: string)
    ensures Items(v, 0) == ClipAll(Around(pre, [], suf)) == []
  {
  }

  method Collect(nv: array<Option<string>>, n: nat) returns (xs: seq<string>)
    requires n <= nv.Length && forall k :: 0 <= k < n ==> nv[k].Some?
    ensures xs == Items(nv[..], n)
  {
    xs := [];
    for k := 0 to n
      invariant xs == Items(nv[..], n)[..k]
    {
      xs := xs + [nv[k].value];
    }
  }

  // -------- the worklist --------

  /** A string that can be split, if it has a group. */
  predicate Roomy(s: string)
  {
    '\0' !in s && PrefixFits(s)
  }

  /** Put `bl` in the place of the word at `vl`, moving those after it up. */
  method Insert(nv: array<Option<string>>, vl: nat, el: nat, bl: seq<string>) returns (v: array<Option<string>>, e: nat)
    requires Vector(nv[..], el) && vl < el && |bl| > 1
    modifies nv
    ensures v == nv || fresh(v)
    ensures e == el + |bl| - 1 && Vector(v[..], e)
    ensures Items(v[..], e) == old(Items(nv[..], el)[..vl]) + bl + old(Items(nv[..], el)[vl + 1..])
  {
    ghost var was := nv[..];
    v := Grow(nv, el, |bl|);
    v[vl] := Some(bl[0]);
    var len := |bl| - 1;
    ghost var wide := v[..];
    assert forall j :: 0 <= j <= el && j != vl ==> wide[j] == was[..el + 1][j];
    ShiftUp(v, vl, el, len);
    CopyRest(v, vl, bl);
    e := el + len;
    Inserted(was, v[..], vl, el, bl);
  }

  method CopyRest(v: array<Option<string>>, vl: nat, bl: seq<string>)
    requires |bl| > 0 && vl + |bl| <= v.Length && v[vl] == Some(bl[0])
    modifies v
    ensures forall j :: vl <= j < vl + |bl| ==> v[j] == Some(bl[j - vl])
    ensures forall j :: 0 <= j < v.Length && !(vl <= j < vl + |bl|) ==> v[j] == old(v[j])
  {
    for k := 1 to |bl|
      invariant forall j :: vl <= j < vl + k ==> v[j] == Some(bl[j - vl])
      invariant forall j :: 0 <= j < v.Length && !(vl <= j < vl + |bl|) ==> v[j] == old(v[j])
    {
      v[vl + k] := Some(bl[k]);
    }
  }

  lemma {:induction false} Inserted(was: seq<Option<string>>, now: seq<Option<string>>, vl: nat, el: nat, bl: seq<string>)
    requires Vector(was, el) && vl < el && bl != [] && el + |bl| - 1 < |now|
    requires forall j :: 0 <= j < vl ==> now[j] == was[j]
    requires forall j :: vl <= j < vl + |bl| ==> now[j] == Some(bl[j - vl])
    requires forall j :: vl + |bl| - 1 < j <= el + |bl| - 1 ==> now[j] == was[j - (|bl| - 1)]
    ensures Vector(now, el + |bl| - 1)
    ensures Items(now, el + |bl| - 1) == Items(was, el)[..vl] + bl + Items(was, el)[vl + 1..]
  {
  }

  /** Room for `len - 1` more words, by GLOBSPACE or by as much as is needed. */
  method Grow(nv: array<Option<string>>, el: nat, len: nat) returns (v: array<Option<string>>)
    requires el < nv.Length && len > 0
    ensures v == nv || fresh(v)
    ensures el + len - 1 < v.Length && v[..el + 1] == nv[..el + 1]
  {
    v := nv;
    if el + len >= nv.Length {
      var l := el + len - nv.Length;
      v := new Option<string>[nv.Length + if GLOBSPACE > l then GLOBSPACE else l];
      forall i | 0 <= i < nv.Length {
        v[i] := nv[i];
      }
    }
  }

  /** Move what stands after `vl`, and the null that ends it, up by `len`; the last goes first. */
  method ShiftUp(v: array<Option<string>>, vl: nat, el: nat, len: nat)
    requires vl < el && el + len < v.Length && len > 0
    modifies v
    ensures forall j :: 0 <= j <= vl ==> v[j] == old(v[j])
    ensures forall j :: vl + len < j <= el + len ==> v[j] == old(v[..])[j - len]
  {
    var bp := el;
    while bp != vl
      invariant vl <= bp <= el
      invariant forall j :: 0 <= j <= bp ==> v[j] == old(v[j])
      invariant forall j :: bp + len < j <= el + len ==> v[j] == old(v[..])[j - len]
    {
      v[bp + len] := v[bp];
      bp := bp - 1;
    }
  }

  method Contains(s: string, c: char) returns (r: bool)
    ensures r <==> c in s
  {
    for i := 0 to |s|
      invariant c !in s[..i]
    {
      if s[i] == c {
        return true;
      }
      assert s[..i + 1] == s[..i] + [s[i]];
    }
    assert s[..|s|] == s;
    r := false;
  }

  method CountItems(nv: array<Option<string>>, ghost n: nat) returns (el: nat)
    requires Vector(nv[..], n)
    ensures el == n
  {
    el := 0;
    while nv[el].Some?
      invariant el <= n
      decreases n - el
    {
      el := el + 1;
    }
    assert nv[..][el].None?;
  }

  /** What has been worked through, and what is still to be. */
  ghost predicate Progress(all: seq<string>, xs: seq<string>, vl: nat)
  {
    && vl <= |xs| && ExpandedAll(all) == Append(Words(xs[..vl]), ExpandedAll(xs[vl..]))
    && forall x :: x in xs ==> Roomy(x)
  }

  lemma {:induction false} ProgressSettled(all: seq<string>, xs: seq<string>, vl: nat)
    requires Progress(all, xs, vl) && vl < |xs| && Settled(xs[vl])
    ensures Progress(all, xs, vl + 1) && WorkAll(xs[vl + 1..]) < WorkAll(xs[vl..])
  {
    hide Settled, Roomy;
    assert xs[vl..][1..] == xs[vl + 1..];
    assert Expanded(xs[vl]) == Words([xs[vl]]) && Work(xs[vl]) == 1;
    AppendAssoc(Words(xs[..vl]), Words([xs[vl]]), ExpandedAll(xs[vl + 1..]));
    assert xs[..vl + 1] == xs[..vl] + [xs[vl]];
  }

  lemma {:induction false} ProgressSplit(all: seq<string>, xs: seq<string>, vl: nat, bl: seq<string>, ys: seq<string>)
    requires Progress(all, xs, vl) && vl < |xs| && !Settled(xs[vl]) && Globbed(xs[vl]) == Words(bl)
    requires ys == xs[..vl] + bl + xs[vl + 1..]
    ensures Progress(all, ys, vl) && WorkAll(ys[vl..]) < WorkAll(xs[vl..])
  {
    hide Settled, Globbed, Roomy;
    SettledIs(xs[vl]);
    assert xs[vl..][1..] == xs[vl + 1..];
    assert Expanded(xs[vl]) == ExpandedAll(bl) && Work(xs[vl]) == 1 + WorkAll(bl);
    assert ys[vl..] == bl + xs[vl + 1..] && ys[..vl] == xs[..vl];
    ExpandedConcat(bl, xs[vl + 1..]);
    forall x | x in bl ensures Roomy(x) {
      RoomySplit(xs[vl], x);
    }
  }

  lemma {:induction false} RoomySplit(s: string, x: string)
    requires '{' in s && Globbed(s).Words? && x in Globbed(s).ws && Roomy(s)
    ensures Roomy(x)
  {
    GlobbedSmall(s, x);
  }

  lemma {:induction false} ProgressMissing(all: seq<string>, xs: seq<string>, vl: nat, c: char)
    requires Progress(all, xs, vl) && vl < |xs| && !Settled(xs[vl]) && Globbed(xs[vl]) == Missing(c)
    ensures ExpandedAll(all) == Missing(c)
  {
    hide Settled, Globbed, Roomy;
    assert Expanded(xs[vl]) == Missing(c);
  }

  lemma {:induction false} ProgressDone(all: seq<string>, xs: seq<string>)
    requires Progress(all, xs, |xs|)
    ensures ExpandedAll(all) == Words(xs)
  {
    assert xs[|xs|..] == [] && xs[..|xs|] == xs && xs + [] == xs;
  }

  /**
   `expbrace`: every word of the vector expanded where it stands. The first thing
   found missing ends it.
   */
  method Expbrace(nv: array<Option<string>>, ghost n: nat) returns (v: array<Option<string>>, ghost e: nat, err: Option<char>)
    requires Vector(nv[..], n) && forall x :: x in Items(nv[..], n) ==> Roomy(x)
    modifies nv
    ensures err.None? ==> Vector(v[..], e) && ExpandedAll(old(Items(nv[..], n))) == Words(Items(v[..], e))
    ensures err.Some? ==> ExpandedAll(old(Items(nv[..], n))) == Missing(err.value)
  {
    hide Items, Progress, Settled, Globbed, Roomy, ExpandedAll, WorkAll;
    var el := CountItems(nv, n);
    ghost var all := Items(nv[..], n);
    ProgressStart(all);
    v, err := nv, None;
    var vl := 0;
    while v[vl].Some?
      invariant v == nv || fresh(v)
      invariant Vector(v[..], el) && vl <= el
      invariant Progress(all, Items(v[..], el), vl)
      decreases WorkAll(Items(v[..], el)[vl..])
    {
      ghost var xs := Items(v[..], el);
      var s := v[vl].value;
      ItemAt(v[..], el, vl);
      var braces := Contains(s, '{');
      if s == "{" || s == "{}" || !braces {
        ProgressSettled(all, xs, vl) by { SettledIs(s); }
        vl := vl + 1;
        continue;
      }
      SettledIs(s);
      RoomyOf(all, xs, vl);
      var out := Globbrace(s);
      if out.Missing? {
        ProgressMissing(all, xs, vl, out.c);
        e := el;
        return v, e, Some(out.c);
      }
      var bl := out.ws;
      ProgressSplit(all, xs, vl, bl, xs[..vl] + bl + xs[vl + 1..]);
      if |bl| == 1 {
        ItemSet(v[..], el, vl, bl[0]);
        v[vl] := Some(bl[0]);
        assert [bl[0]] == bl;
      } else {
        v, el := Insert(v, vl, el, bl);
      }
    }
    e := el;
    ProgressDone(all, Items(v[..], el));
  }

  lemma {:induction false} ProgressStart(all: seq<string>)
    requires forall x :: x in all ==> Roomy(x)
    ensures Progress(all, all, 0)
  {
    assert all[0..] == all && all[..0] == [];
    if ExpandedAll(all).Words? {
      assert [] + ExpandedAll(all).ws == ExpandedAll(all).ws;
    }
  }

  lemma {:induction false} SettledIs(s: string)
    ensures Settled(s) <==> s == "{" || s == "{}" || '{' !in s
  {
  }

  lemma {:induction false} RoomyOf(all: seq<string>, xs: seq<string>, vl: nat)
    requires Progress(all, xs, vl) && vl < |xs|
    ensures '\0' !in xs[vl] && (Settled(xs[vl]) || IndexOf(xs[vl], '{') < PATH_MAX)
  {
    assert xs[vl] in xs;
  }

  lemma {:induction false} ItemAt(v: seq<Option<string>>, n: nat, k: nat)
    requires Vector(v, n) && k <= n && v[k].Some?
    ensures k < n && v[k].value == Items(v, n)[k]
  {
  }

  lemma {:induction false} ItemSet(v: seq<Option<string>>, n: nat, k: nat, x: string)
    requires Vector(v, n) && k < n
    ensures Vector(v[k := Some(x)], n)
    ensures Items(v[k := Some(x)], n) == Items(v, n)[..k] + [x] + Items(v, n)[k + 1..]
  {
  }
}
