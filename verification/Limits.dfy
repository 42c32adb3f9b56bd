/**
 The limit of brace expansion: exactly when it gives the product of a pattern, with
 a buffer for the words that a group leaves and with empty groups that may stay.
 */
module Limits {
  import opened Braces
  import opened CStrings
  import opened Patterns
  import opened Room

  // -------- how much a list of words is --------

  function Letters(xs: seq<string>): nat
  {
    if xs == [] then 0 else |xs[0]| + Letters(xs[1..])
  }

  function Weight(xs: seq<string>): nat
  {
    |xs| + Letters(xs)
  }

  lemma {:induction false} LettersConcat(a: seq<string>, b: seq<string>)
    ensures Letters(a + b) == Letters(a) + Letters(b)
  {
    if a == [] {
      assert a + b == b;
    } else {
      LettersConcat(a[1..], b);
      assert (a + b)[1..] == a[1..] + b;
    }
  }

  lemma {:induction false} LettersPrefix(s: string, xs: seq<string>)
    ensures Letters(Prefix(s, xs)) == |s| * |xs| + Letters(xs)
  {
    if xs != [] {
      LettersPrefix(s, xs[1..]);
      assert Prefix(s, xs)[1..] == Prefix(s, xs[1..]);
    }
  }

  lemma {:induction false} LettersCross(xs: seq<string>, ys: seq<string>)
    ensures |Cross(xs, ys)| == |xs| * |ys|
    ensures Letters(Cross(xs, ys)) == Letters(xs) * |ys| + |xs| * Letters(ys)
  {
    hide Letters, Prefix;
    if xs == [] {
      NoLetters();
    } else {
      LettersCross(xs[1..], ys);
      LettersPrefix(xs[0], ys);
      LettersConcat(Prefix(xs[0], ys), Cross(xs[1..], ys));
      LettersFirst(xs);
      Distribute(|xs[0]|, Letters(xs[1..]), |ys|, |xs[1..]|, Letters(ys));
    }
  }

  lemma NoLetters()
    ensures Letters([]) == 0 && Letters([""]) == 0
  {
    assert [""][1..] == [];
  }

  lemma LettersFirst(xs: seq<string>)
    requires xs != []
    ensures Letters(xs) == |xs[0]| + Letters(xs[1..])
  {
  }

  lemma Distribute(a: nat, b: nat, m: nat, k: nat, l: nat)
    ensures a * m + l + (b * m + k * l) == (a + b) * m + (k + 1) * l && (k + 1) * m == m + k * m
  {
  }

  /** With more, or longer, words to put after them, words become more, or longer. */
  lemma {:induction false} HeavierCross(xs: seq<string>, ys: seq<string>, zs: seq<string>)
    requires xs != [] && |ys| <= |zs| && Weight(ys) < Weight(zs)
    ensures |Cross(xs, ys)| <= |Cross(xs, zs)| && Weight(Cross(xs, ys)) < Weight(Cross(xs, zs))
  {
    hide Letters, Cross;
    LettersCross(xs, ys);
    LettersCross(xs, zs);
    Times(|ys|, |zs|, |xs|);
    Heavier(Letters(xs), |xs|, |ys|, |zs|, Letters(ys), Letters(zs));
  }

  lemma Heavier(a: nat, k: nat, m: nat, n: nat, l: nat, o: nat)
    requires k > 0 && m <= n && m + l < n + o
    ensures k * m + (a * m + k * l) < k * n + (a * n + k * o)
  {
    Times(m, n, a);
    Times(m + l + 1, n + o, k);
    assert k * (m + l + 1) == k * m + k * l + k && k * (n + o) == k * n + k * o;
  }

  lemma Times(a: nat, b: nat, c: nat)
    requires a <= b
    ensures a * c <= b * c && c * a <= c * b
  {
  }

  lemma {:induction false} ProductSome(p: Pattern)
    ensures Product(p) != []
  {
    match p {
      case End =>
      case Lit(_, rest) =>
        ProductSome(rest);
      case Class(_, rest) =>
        ProductSome(rest);
      case Group(alts, rest) =>
        ProductSome(rest);
        ChoicesSome(alts);
        LettersCross(Choices(alts), Product(rest));
        Times(1, |Choices(alts)|, |Product(rest)|);
    }
  }

  lemma {:induction false} ChoicesSome(a: Alts)
    ensures Choices(a) != []
  {
    ProductSome(a.p);
  }

  /** Empty groups, however nested, and nothing else. */
  predicate Nothing(p: Pattern)
  {
    p.End? || (p.Group? && p.alts.One? && Nothing(p.alts.p) && Nothing(p.rest))
  }

  lemma {:induction false} NothingProduct(p: Pattern)
    requires Nothing(p)
    ensures Product(p) == [""]
  {
    if p.Group? {
      NothingProduct(p.alts.p);
      NothingProduct(p.rest);
      CrossOne([""]);
    }
  }

  /** Any other pattern stands for more than the empty word alone. */
  lemma {:induction false} ProductHeavy(p: Pattern)
    requires !Nothing(p)
    ensures Weight(Product(p)) > 1
  {
    hide Letters, Prefix, Cross;
    match p {
      case Lit(c, rest) =>
        ProductSome(rest);
        LettersPrefix([c], Product(rest));
      case Class(chars, rest) =>
        ProductSome(rest);
        LettersPrefix(['['] + chars + [']'], Product(rest));
        Times(1, |Product(rest)|, |chars| + 2);
      case Group(alts, rest) =>
        ProductSome(rest);
        ChoicesSome(alts);
        if Nothing(rest) {
          ChoicesHeavy(alts);
        } else {
          ProductHeavy(rest);
        }
        LettersCross(Choices(alts), Product(rest));
        CrossHeavy(|Choices(alts)|, |Product(rest)|, Letters(Choices(alts)), Letters(Product(rest)));
    }
  }

  lemma {:induction false} CrossHeavy(k: nat, m: nat, a: nat, b: nat)
    requires k > 0 && m > 0 && (k + a > 1 || m + b > 1)
    ensures k * m + (a * m + k * b) > 1
  {
    Times(1, m, k);
    Times(1, k, m);
    Times(1, m, a);
    Times(1, k, b);
  }

  lemma {:induction false} ChoicesHeavy(a: Alts)
    requires !(a.One? && Nothing(a.p))
    ensures Weight(Choices(a)) > 1
  {
    ProductSome(a.p);
    if a.More? {
      ChoicesSome(a.others);
      LettersConcat(Product(a.p), Choices(a.others));
    } else {
      ProductHeavy(a.p);
    }
  }

  // -------- a pattern cut short --------

  function Plainly(s: string): Pattern
  {
    if s == "" then End else Lit(s[0], Plainly(s[1..]))
  }

  function GroupSize(a: Alts): nat
  {
    |AltsText(a)| + 2
  }

  /** The first `n` characters end inside a group. */
  predicate CutsGroup(p: Pattern, n: nat)
  {
    match p
    case End => false
    case Lit(_, rest) => n > 0 && CutsGroup(rest, n - 1)
    case Class(chars, rest) => n >= |chars| + 2 && CutsGroup(rest, n - |chars| - 2)
    case Group(alts, rest) => if n < GroupSize(alts) then n > 0 else CutsGroup(rest, n - GroupSize(alts))
  }

  /** The pattern of the first `n` characters, if they do not. */
  function Cut(p: Pattern, n: nat): Pattern
  {
    if n == 0 then End
    else
      match p
      case End => End
      case Lit(c, rest) => Lit(c, Cut(rest, n - 1))
      case Class(chars, rest) =>
        if n < |chars| + 2 then Plainly((['['] + chars)[..n])
        else Class(chars, Cut(rest, n - |chars| - 2))
      case Group(alts, rest) => if n < GroupSize(alts) then End else Group(alts, Cut(rest, n - GroupSize(alts)))
  }

  lemma {:induction false} PlainlyIs(s: string)
    ensures Text(Plainly(s)) == s && Product(Plainly(s)) == [s] && !HasEmptyGroup(Plainly(s))
    ensures '{' !in s ==> Proper(Plainly(s), false)
  {
    if s != "" {
      PlainlyIs(s[1..]);
      PrefixOne([s[0]], s[1..]);
      assert [s[0]] + s[1..] == s;
    }
  }

  lemma {:induction false} CutText(p: Pattern, n: nat)
    requires n <= |Text(p)| && !CutsGroup(p, n)
    ensures Text(Cut(p, n)) == Text(p)[..n]
  {
    if n > 0 {
      match p {
        case Lit(c, rest) =>
          CutText(rest, n - 1);
          CutOne(c, Text(rest), n);
        case Class(chars, rest) =>
          if n < |chars| + 2 {
            PlainlyIs((['['] + chars)[..n]);
            CutWithin('[', chars, ']', Text(rest), n);
          } else {
            CutText(rest, n - |chars| - 2);
            CutAfter('[', chars, ']', Text(rest), n);
          }
        case Group(alts, rest) =>
          CutText(rest, n - GroupSize(alts));
          CutAfter('{', AltsText(alts), '}', Text(rest), n);
      }
    }
  }

  lemma {:induction false} CutOne(c: char, b: string, n: nat)
    requires 0 < n <= |b| + 1
    ensures ([c] + b)[..n] == [c] + b[..n - 1]
  {
  }

  lemma {:induction false} CutWithin(o: char, a: string, c: char, b: string, n: nat)
    requires n <= |a| + 1
    ensures ([o] + (a + ([c] + b)))[..n] == ([o] + a)[..n]
  {
  }

  lemma {:induction false} CutAfter(o: char, a: string, c: char, b: string, n: nat)
    requires |a| + 2 <= n <= |a| + |b| + 2
    ensures ([o] + (a + ([c] + b)))[..n] == [o] + (a + ([c] + b[..n - |a| - 2]))
  {
  }

  lemma {:induction false} CutProper(p: Pattern, n: nat)
    requires Proper(p, false)
    ensures Proper(Cut(p, n), false)
  {
    if n > 0 {
      match p {
        case End =>
        case Lit(_, rest) =>
          CutProper(rest, n - 1);
        case Class(chars, rest) =>
          if n < |chars| + 2 {
            PlainlyIs((['['] + chars)[..n]);
          } else {
            CutProper(rest, n - |chars| - 2);
          }
        case Group(alts, rest) =>
          if n >= GroupSize(alts) {
            CutProper(rest, n - GroupSize(alts));
          }
      }
    }
  }

  /** The first `n` characters are all but empty groups at the end. */
  predicate LosesNothing(p: Pattern, n: nat)
  {
    if n == 0 then Nothing(p)
    else
      match p
      case End => true
      case Lit(_, rest) => LosesNothing(rest, n - 1)
      case Class(chars, rest) => n >= |chars| + 2 && LosesNothing(rest, n - |chars| - 2)
      case Group(alts, rest) => n >= GroupSize(alts) && LosesNothing(rest, n - GroupSize(alts))
  }

  lemma {:induction false} NothingCut(p: Pattern, n: nat)
    requires LosesNothing(p, n)
    ensures !CutsGroup(p, n)
  {
    if n == 0 {
      NoneCut(p);
    } else {
      match p {
        case End =>
        case Lit(_, rest) =>
          NothingCut(rest, n - 1);
        case Class(chars, rest) =>
          NothingCut(rest, n - |chars| - 2);
        case Group(alts, rest) =>
          NothingCut(rest, n - GroupSize(alts));
      }
    }
  }

  lemma {:induction false} NoneCut(p: Pattern)
    ensures !CutsGroup(p, 0)
  {
  }

  /** Cutting a pattern short outside its groups leaves no more words, and less unless nothing is lost. */
  lemma {:induction false} CutLighter(p: Pattern, n: nat)
    requires n <= |Text(p)| && !CutsGroup(p, n)
    ensures |Product(Cut(p, n))| <= |Product(p)|
    ensures if LosesNothing(p, n) then Product(Cut(p, n)) == Product(p) else Weight(Product(Cut(p, n))) < Weight(Product(p))
  {
    hide Letters, Prefix, Cross;
    ProductSome(p);
    if n == 0 {
      NoLetters();
      if Nothing(p) {
        NothingProduct(p);
      } else {
        ProductHeavy(p);
      }
    } else {
      match p {
        case Lit(c, rest) =>
          CutLighter(rest, n - 1);
          LettersPrefix([c], Product(rest));
          LettersPrefix([c], Product(Cut(rest, n - 1)));
        case Class(chars, rest) =>
          ClassLighter(p, n);
        case Group(alts, rest) =>
          var m := n - GroupSize(alts);
          CutLighter(rest, m);
          ChoicesSome(alts);
          if !LosesNothing(rest, m) {
            HeavierCross(Choices(alts), Product(Cut(rest, m)), Product(rest));
          }
      }
    }
  }

  lemma {:induction false} ClassLighter(p: Pattern, n: nat)
    requires p.Class? && 0 < n <= |Text(p)| && !CutsGroup(p, n)
    ensures |Product(Cut(p, n))| <= |Product(p)|
    ensures if LosesNothing(p, n) then Product(Cut(p, n)) == Product(p) else Weight(Product(Cut(p, n))) < Weight(Product(p))
    decreases p, 0
  {
    hide Letters, Prefix, CutsGroup;
    var s, rest := ['['] + p.chars + [']'], p.rest;
    ProductSome(rest);
    LettersPrefix(s, Product(rest));
    if n < |s| {
      var t := (['['] + p.chars)[..n];
      PlainlyIs(t);
      OneWord(t);
      Times(1, |Product(rest)|, |s|);
    } else {
      AfterClass(p, n);
      CutLighter(rest, n - |s|);
      LettersPrefix(s, Product(Cut(rest, n - |s|)));
      Times(|Product(Cut(rest, n - |s|))|, |Product(rest)|, |s|);
    }
  }

  lemma OneWord(t: string)
    ensures Letters([t]) == |t|
  {
    assert [t][1..] == [];
  }

  lemma {:induction false} AfterClass(p: Pattern, n: nat)
    requires p.Class? && |p.chars| + 2 <= n <= |Text(p)| && !CutsGroup(p, n)
    ensures n - |p.chars| - 2 <= |Text(p.rest)| && !CutsGroup(p.rest, n - |p.chars| - 2)
  {
  }

  // -------- a word cut inside a group --------

  /** Something is missing, or every word still has an opening brace. */
  ghost predicate Spoilt(r: Out)
  {
    r.Missing? || (r.ws != [] && forall w :: w in r.ws ==> '{' in w)
  }

  lemma {:induction false} MatchFurther(a: string, b: string, i: nat)
    requires Match(a, i).Closed?
    ensures Match(a + b, i) == Match(a, i)
    decreases |a|
  {
    assert (a + b)[1..] == a[1..] + b;
    if a[0] == '[' {
      var k := IndexOf(a[1..], ']');
      IndexFurther(a[1..], b, ']');
      assert (a + b)[k + 2..] == a[k + 2..] + b;
      MatchFurther(a[k + 2..], b, i);
    } else if !(a[0] == '}' && i == 0) {
      MatchFurther(a[1..], b, Level(a[0], i));
    }
  }

  lemma {:induction false} IndexFurther(a: string, b: string, c: char)
    requires IndexOf(a, c) < |a|
    ensures IndexOf(a + b, c) == IndexOf(a, c)
  {
    if a[0] != c {
      assert (a + b)[1..] == a[1..] + b;
      IndexFurther(a[1..], b, c);
    }
  }

  /** A group that is not closed is missed by the match. */
  lemma {:induction false} PartOfGroup(alts: Alts, n: nat)
    requires ProperAlts(alts) && n <= |AltsText(alts)|
    ensures !Match(AltsText(alts)[..n], 0).Closed?
  {
    hide Match;
    var t := AltsText(alts);
    if Match(t[..n], 0).Closed? {
      var u := t[n..] + ['}'];
      MatchFurther(t[..n], u, 0);
      assert t[..n] + u == t + (['}'] + "");
      AltsOver(alts, ['}'] + "", 0);
      CloseFirst("");
      assert false;
    }
  }

  lemma {:induction false} OpenGroup(done: string, alts: Alts, n: nat)
    requires '{' !in done && ProperAlts(alts) && n <= |AltsText(alts)|
    ensures Spoilt(Expand(done + (['{'] + AltsText(alts)[..n])))
  {
    hide Match, Alternatives, IndexOf, AltsText;
    var part := AltsText(alts)[..n];
    var s := done + (['{'] + part);
    IndexAt(done, '{', part);
    Opened(done, '{', part);
    PartOfGroup(alts, n);
  }

  lemma {:induction false} CutsConcat(p: Pattern, q: Pattern, n: nat)
    requires CutsGroup(q, n)
    ensures CutsGroup(Concat(p, q), |Text(p)| + n)
  {
    match p {
      case End =>
      case Lit(_, rest) =>
        CutsConcat(rest, q, n);
      case Class(_, rest) =>
        CutsConcat(rest, q, n);
      case Group(_, rest) =>
        CutsConcat(rest, q, n);
    }
  }

  /** A word cut inside a group never expands as it should. */
  lemma {:induction false} InsideCut(done: string, p: Pattern, n: nat)
    requires Proper(p, false) && '{' !in done && n <= |Text(p)| && CutsGroup(p, n)
    ensures Spoilt(Expand(done + Text(p)[..n]))
    decreases Groups(p), 0, p
  {
    hide Expand, Spoilt;
    match p {
      case Lit(c, rest) =>
        InsideCut(done + [c], rest, n - 1);
        CutOne(c, Text(rest), n);
        assert done + [c] + Text(rest)[..n - 1] == done + ([c] + Text(rest)[..n - 1]);
      case Class(chars, rest) =>
        var s := ['['] + chars + [']'];
        InsideCut(done + s, rest, n - |s|);
        CutAfter('[', chars, ']', Text(rest), n);
        assert done + s + Text(rest)[..n - |s|] == done + (['['] + (chars + ([']'] + Text(rest)[..n - |s|])));
      case Group(alts, rest) =>
        if n < GroupSize(alts) {
          OpenGroup(done, alts, n - 1);
          CutWithin('{', AltsText(alts), '}', Text(rest), n);
          CutOne('{', AltsText(alts), n);
        } else {
          var m := n - GroupSize(alts);
          InsideCutAlts(done, alts, rest, m);
          CutAfter('{', AltsText(alts), '}', Text(rest), n);
          CutsSome(rest, m);
          SpoiltGroup(done, alts, Text(rest)[..m]);
        }
    }
  }

  lemma {:induction false} CutsSome(p: Pattern, n: nat)
    requires CutsGroup(p, n)
    ensures n > 0
  {
  }

  lemma {:induction false} SpoiltGroup(done: string, alts: Alts, suf: string)
    requires '{' !in done && ProperAlts(alts) && suf != ""
    requires Spoilt(ExpandAll(Around(done, Texts(alts), suf)))
    ensures Spoilt(Expand(done + (['{'] + (AltsText(alts) + (['}'] + suf)))))
  {
    hide Split, Around, Texts, ExpandAll, Spoilt;
    SplitGroupBefore(done, alts, suf);
    LongerGroup(done, AltsText(alts), suf);
  }

  lemma {:induction false} LongerGroup(done: string, inner: string, suf: string)
    requires suf != ""
    ensures !Untouched(done + (['{'] + (inner + (['}'] + suf))))
  {
  }

  lemma {:induction false} InsideCutAlts(done: string, a: Alts, rest: Pattern, m: nat)
    requires ProperAlts(a) && Proper(rest, false) && '{' !in done
    requires m <= |Text(rest)| && CutsGroup(rest, m)
    ensures Spoilt(ExpandAll(Around(done, Texts(a), Text(rest)[..m])))
    decreases AltsGroups(a) + Groups(rest), 1, a
  {
    hide Expand, Around, Texts, Spoilt, Text;
    var q, n := Concat(a.p, rest), |Text(a.p)| + m;
    GroupsConcat(a.p, rest);
    ProperConcat(a.p, rest, false);
    TextConcat(a.p, rest);
    CutsConcat(a.p, rest, m);
    InsideCut(done, q, n);
    assert done + Text(a.p) + Text(rest)[..m] == done + (Text(a.p) + Text(rest))[..n];
    if a.More? {
      InsideCutAlts(done, a.others, rest, m);
    }
    SpoiltMore(done, a, Text(rest)[..m]);
  }

  lemma {:induction false} SpoiltMore(done: string, a: Alts, suf: string)
    requires Spoilt(Expand(done + Text(a.p) + suf))
    requires a.More? ==> Spoilt(ExpandAll(Around(done, Texts(a.others), suf)))
    ensures Spoilt(ExpandAll(Around(done, Texts(a), suf)))
  {
    hide Expand, Text;
    AroundFirst(done, a, suf);
    var xs := Around(done, Texts(a), suf);
    if a.One? {
      assert xs[1..] == [];
      if Expand(xs[0]).Words? {
        assert Expand(xs[0]).ws + [] == Expand(xs[0]).ws;
      }
    }
  }

  lemma {:induction false} AroundFirst(done: string, a: Alts, suf: string)
    ensures var xs := Around(done, Texts(a), suf);
            && xs != [] && xs[0] == done + Text(a.p) + suf
            && xs[1..] == if a.More? then Around(done, Texts(a.others), suf) else []
  {
    hide Text;
    if a.More? {
      assert Texts(a)[1..] == Texts(a.others);
    } else {
      AroundOne(done, Text(a.p), suf);
    }
  }

  // -------- exactly when it is the product --------

  /**
   A word that a group leaves, `done` as far as it has no brace: as much of it as fits is all of it but for empty
   groups, and does not come down to "{}".
   */
  predicate Keeps(done: string, q: Pattern)
  {
    if |done| + |Text(q)| < PATH_MAX then done != "" || !EndsInEmptyGroup(q)
    else
      && |done| < PATH_MAX
      && LosesNothing(q, PATH_MAX - 1 - |done|)
      && (done != "" || !EndsInEmptyGroup(Cut(q, PATH_MAX - 1 - |done|)))
  }

  predicate AllKeep(done: string, a: Alts, rest: Pattern)
  {
    Keeps(done, Concat(a.p, rest)) && (a.More? ==> AllKeep(done, a.others, rest))
  }

  /** The word is not "{}", and its first group leaves only words that keep. */
  predicate Good(done: string, p: Pattern)
    decreases p
  {
    match p
    case End => true
    case Lit(c, rest) => Good(done + [c], rest)
    case Class(chars, rest) => Good(done + (['['] + chars + [']']), rest)
    case Group(alts, rest) => !(done == "" && alts == One(End) && rest == End) && AllKeep(done, alts, rest)
  }

  ghost predicate SomeBrace(ws: seq<string>)
  {
    exists i :: 0 <= i < |ws| && '{' in ws[i]
  }

  /** What has come out is just right, or else wrong to see or less than it should be. */
  ghost predicate Right(r: Out, xs: seq<string>, good: bool)
  {
    if good then r == Words(xs) else r.Missing? || SomeBrace(r.ws) || Weight(r.ws) < Weight(xs)
  }

  lemma {:induction false} RightAppend(r: Out, s: Out, xs: seq<string>, ys: seq<string>, a: bool, b: bool)
    requires Right(r, xs, a) && Right(s, ys, b)
    ensures Right(Append(r, s), xs + ys, a && b)
  {
    hide Letters;
    if r.Words? && s.Words? {
      LettersConcat(r.ws, s.ws);
      LettersConcat(xs, ys);
      var ws := r.ws + s.ws;
      if SomeBrace(r.ws) {
        var i :| 0 <= i < |r.ws| && '{' in r.ws[i];
        assert '{' in ws[i];
      } else if SomeBrace(s.ws) {
        var i :| 0 <= i < |s.ws| && '{' in s.ws[i];
        assert '{' in ws[|r.ws| + i];
      }
    }
  }

  /** A word that is short enough is right unless it comes down to "{}". */
  lemma {:induction false} RightShort(done: string, q: Pattern)
    requires Proper(q, false) && '{' !in done
    ensures var r := Expand(done + Text(q));
            if done != "" || !EndsInEmptyGroup(q) then r == Words(Prefix(done, Product(q))) else r.Words? && SomeBrace(r.ws)
  {
    hide Expand, Product, Text, Prefix, EndsInEmptyGroup, Stuck;
    Expands(done, q);
    StuckEnds(q);
    var ws := Expand(done + Text(q)).ws;
    if "{}" in ws {
      var i :| 0 <= i < |ws| && ws[i] == "{}";
      assert "{}"[0] == '{';
      assert '{' in ws[i];
    }
  }

  /** One word that the first group leaves, as much of it as fits. */
  lemma {:induction false} RightWord(done: string, q: Pattern)
    requires Proper(q, false) && '{' !in done && |done| < PATH_MAX
    ensures Right(Expanded(Clip(done + Text(q), PATH_MAX)), Prefix(done, Product(q)), Keeps(done, q))
  {
    hide Expanded, Expand, Product, Text, Letters, Proper, Prefix, LosesNothing, EndsInEmptyGroup, Cut, CutsGroup;
    var x := done + Text(q);
    ShortFits(Clip(x, PATH_MAX));
    FitsExpands(Clip(x, PATH_MAX));
    if |x| < PATH_MAX {
      RightShort(done, q);
    } else {
      var n := PATH_MAX - 1 - |done|;
      assert Clip(x, PATH_MAX) == done + Text(q)[..n];
      if CutsGroup(q, n) {
        InsideCut(done, q, n);
        SpoiltShows(Expand(done + Text(q)[..n]));
        if LosesNothing(q, n) {
          NothingCut(q, n);
        }
      } else {
        CutText(q, n);
        CutProper(q, n);
        CutLighter(q, n);
        RightShort(done, Cut(q, n));
        PrefixLighter(done, Product(Cut(q, n)), Product(q));
      }
    }
  }

  lemma {:induction false} SpoiltShows(r: Out)
    requires Spoilt(r)
    ensures r.Missing? || SomeBrace(r.ws)
  {
    if r.Words? {
      assert '{' in r.ws[0];
    }
  }

  lemma {:induction false} PrefixLighter(s: string, xs: seq<string>, ys: seq<string>)
    requires |xs| <= |ys|
    ensures Weight(xs) < Weight(ys) ==> Weight(Prefix(s, xs)) < Weight(Prefix(s, ys))
  {
    hide Letters, Prefix;
    LettersPrefix(s, xs);
    LettersPrefix(s, ys);
    Times(|xs|, |ys|, |s|);
  }

  /** All the words that the first group leaves. */
  lemma {:induction false} RightWords(done: string, a: Alts, rest: Pattern)
    requires ProperAlts(a) && Proper(rest, false) && '{' !in done && |done| < PATH_MAX
    ensures Right(ExpandedAll(ClipAll(Around(done, Texts(a), Text(rest)))), Prefix(done, Cross(Choices(a), Product(rest))), AllKeep(done, a, rest))
  {
    hide Expanded, Product, Text, Texts, Around, Right, Prefix, Cross, Keeps;
    var q := Concat(a.p, rest);
    ProperConcat(a.p, rest, false);
    TextConcat(a.p, rest);
    ProductConcat(a.p, rest);
    RightWord(done, q);
    AroundFirst(done, a, Text(rest));
    var xs := Around(done, Texts(a), Text(rest));
    assert xs[0] == done + Text(q);
    var first := Expanded(Clip(xs[0], PATH_MAX));
    assert xs == [xs[0]] + xs[1..];
    if a.More? {
      RightWords(done, a.others, rest);
      RightAppend(first, ExpandedAll(ClipAll(xs[1..])), Prefix(done, Product(q)),
                  Prefix(done, Cross(Choices(a.others), Product(rest))), Keeps(done, q), AllKeep(done, a.others, rest));
      CrossConcat(Product(a.p), Choices(a.others), Product(rest));
      PrefixConcat(done, Cross(Product(a.p), Product(rest)), Cross(Choices(a.others), Product(rest)));
    } else {
      AppendNothing(first);
    }
  }

  lemma {:induction false} AppendNothing(r: Out)
    ensures Append(r, ExpandedAll(ClipAll([]))) == r
  {
    if r.Words? {
      assert r.ws + [] == r.ws;
    }
  }

  lemma {:induction false} RightPattern(done: string, p: Pattern)
    requires Proper(p, false) && '{' !in done && PrefixFits(done + Text(p))
    ensures Right(Expanded(done + Text(p)), Prefix(done, Product(p)), Good(done, p))
    decreases p
  {
    hide Expanded, Text, Right, PrefixFits, AllKeep;
    match p {
      case End =>
        RightEnd(done);
      case Lit(c, rest) =>
        OneMore(done, c, rest);
        RightPattern(done + [c], rest);
      case Class(chars, rest) =>
        OneClass(done, chars, rest);
        RightPattern(done + (['['] + chars + [']']), rest);
      case Group(alts, rest) =>
        RightGroup(done, alts, rest);
    }
  }

  lemma {:induction false} RightEnd(done: string)
    requires '{' !in done
    ensures Right(Expanded(done + Text(End)), Prefix(done, Product(End)), true)
  {
    assert done + "" == done;
    PrefixOne(done, "");
  }

  lemma {:induction false} OneMore(done: string, c: char, rest: Pattern)
    ensures done + Text(Lit(c, rest)) == done + [c] + Text(rest)
    ensures Prefix(done, Product(Lit(c, rest))) == Prefix(done + [c], Product(rest))
  {
    PrefixTwice(done, [c], Product(rest));
  }

  lemma {:induction false} OneClass(done: string, chars: string, rest: Pattern)
    ensures var s := ['['] + chars + [']'];
            && done + Text(Class(chars, rest)) == done + s + Text(rest)
            && Prefix(done, Product(Class(chars, rest))) == Prefix(done + s, Product(rest))
  {
    PrefixTwice(done, ['['] + chars + [']'], Product(rest));
  }

  lemma {:induction false} RightGroup(done: string, alts: Alts, rest: Pattern)
    requires Proper(Group(alts, rest), false) && '{' !in done && PrefixFits(done + Text(Group(alts, rest)))
    ensures Right(Expanded(done + Text(Group(alts, rest))), Prefix(done, Product(Group(alts, rest))), Good(done, Group(alts, rest)))
  {
    hide Text, Texts, Around, Split, ExpandedAll, Product, Prefix, IndexOf, AllKeep, Letters;
    var s := done + Text(Group(alts, rest));
    SplitGroup(done, alts, rest);
    GroupText(done, alts, rest);
    if Untouched(s) {
      assert s == "{}" by { EmptyGroup(); }
      assert '{' in [s][0];
    } else {
      FirstBrace(done, alts, rest);
      RightWords(done, alts, rest);
      GroupProduct(alts, rest);
    }
  }

  lemma {:induction false} FirstBrace(done: string, alts: Alts, rest: Pattern)
    requires '{' !in done
    ensures IndexOf(done + Text(Group(alts, rest)), '{') == |done|
  {
    IndexAt(done, '{', AltsText(alts) + (['}'] + Text(rest)));
  }

  /** Every word expands to the product of its pattern if and only if it is a good one. */
  lemma {:induction false} ExactlyWhenGood(p: Pattern)
    requires Proper(p, false) && PrefixFits(Text(p))
    ensures Expanded(Text(p)) == Words(Product(p)) <==> Good("", p)
  {
    hide Expanded, Product, Text, PrefixFits, Good, Prefix;
    assert "" + Text(p) == Text(p);
    PrefixNothing(Product(p));
    RightPattern("", p);
    ProductBraceless(p, false);
    assert !SomeBrace(Product(p));
  }

  /** And every list of words to their products, one after the other, if and only if all are. */
  lemma {:induction false} ListsExactly(ps: seq<Pattern>, ws: seq<string>)
    requires |ws| == |ps|
    requires forall i :: 0 <= i < |ps| ==> Proper(ps[i], false) && ws[i] == Text(ps[i]) && PrefixFits(ws[i])
    ensures ExpandedAll(ws) == Words(Products(ps)) <==> forall i :: 0 <= i < |ps| ==> Good("", ps[i])
  {
    hide ExpandedAll, Products, Text, PrefixFits, Good, Proper;
    RightList(ps, ws);
    ListBraceless(ps);
    assert !SomeBrace(Products(ps));
  }

  lemma {:induction false} RightList(ps: seq<Pattern>, ws: seq<string>)
    requires |ws| == |ps|
    requires forall i :: 0 <= i < |ps| ==> Proper(ps[i], false) && ws[i] == Text(ps[i]) && PrefixFits(ws[i])
    ensures Right(ExpandedAll(ws), Products(ps), forall i :: 0 <= i < |ps| ==> Good("", ps[i]))
  {
    hide Expanded, Product, Text, PrefixFits, Good, Proper, Prefix;
    if ps != [] {
      var first, others := Good("", ps[0]), forall i :: 0 <= i < |ps[1..]| ==> Good("", ps[1..][i]);
      assert "" + Text(ps[0]) == Text(ps[0]);
      PrefixNothing(Product(ps[0]));
      RightPattern("", ps[0]);
      RightList(ps[1..], ws[1..]);
      RightAppend(Expanded(ws[0]), ExpandedAll(ws[1..]), Product(ps[0]), Products(ps[1..]), first, others);
      assert forall i :: 0 < i < |ps| ==> ps[i] == ps[1..][i - 1];
      assert first && others <==> forall i :: 0 <= i < |ps| ==> Good("", ps[i]);
    }
  }

  lemma {:induction false} ListBraceless(ps: seq<Pattern>)
    requires forall i :: 0 <= i < |ps| ==> Proper(ps[i], false)
    ensures Braceless(Products(ps))
  {
    if ps != [] {
      ProductBraceless(ps[0], false);
      ListBraceless(ps[1..]);
    }
  }

  // -------- without empty groups --------

  lemma {:induction false} EmptyConcat(p: Pattern, q: Pattern)
    ensures HasEmptyGroup(Concat(p, q)) <==> HasEmptyGroup(p) || HasEmptyGroup(q)
  {
    if !p.End? {
      EmptyConcat(p.rest, q);
    }
  }

  lemma {:induction false} NothingEmpty(p: Pattern)
    requires Nothing(p) && !HasEmptyGroup(p)
    ensures p == End
  {
    if p.Group? {
      NothingEmpty(p.alts.p);
    }
  }

  lemma {:induction false} AlwaysLost(p: Pattern, n: nat)
    requires n < |Text(p)| && !HasEmptyGroup(p)
    ensures !LosesNothing(p, n)
  {
    if n == 0 {
      if Nothing(p) {
        NothingEmpty(p);
      }
    } else {
      match p {
        case Lit(_, rest) =>
          AlwaysLost(rest, n - 1);
        case Class(chars, rest) =>
          if n >= |chars| + 2 {
            AlwaysLost(rest, n - |chars| - 2);
          }
        case Group(alts, rest) =>
          if n >= GroupSize(alts) {
            AlwaysLost(rest, n - GroupSize(alts));
          }
      }
    }
  }

  lemma {:induction false} KeepFits(done: string, a: Alts, rest: Pattern)
    requires !AnyHasEmptyGroup(a) && !HasEmptyGroup(rest)
    ensures AllKeep(done, a, rest) <==> forall x :: x in Around(done, Texts(a), Text(rest)) ==> |x| < PATH_MAX
  {
    hide Text, Texts, Around, HasEmptyGroup, LosesNothing, EndsInEmptyGroup, Cut;
    var q := Concat(a.p, rest);
    EmptyConcat(a.p, rest);
    TextConcat(a.p, rest);
    NoEmptyGroup(q);
    AroundFirst(done, a, Text(rest));
    var xs := Around(done, Texts(a), Text(rest));
    assert xs == [xs[0]] + xs[1..];
    if |done| + |Text(q)| >= PATH_MAX > |done| {
      AlwaysLost(q, PATH_MAX - 1 - |done|);
    }
    if a.More? {
      KeepFits(done, a.others, rest);
    }
  }

  lemma {:induction false} GoodFits(done: string, p: Pattern)
    requires Proper(p, false) && !HasEmptyGroup(p) && '{' !in done
    ensures Good(done, p) <==> Fits(done + Text(p))
    decreases p
  {
    hide Text, AllKeep, Split, Texts, Around;
    match p {
      case End =>
        assert done + "" == done && Text(End) == "" by { NoText(); }
      case Lit(c, rest) =>
        OneMore(done, c, rest);
        GoodFits(done + [c], rest);
      case Class(chars, rest) =>
        OneClass(done, chars, rest);
        GoodFits(done + (['['] + chars + [']']), rest);
      case Group(alts, rest) =>
        SplitGroup(done, alts, rest);
        GroupText(done, alts, rest);
        KeepFits(done, alts, rest);
    }
  }

  lemma NoText()
    ensures Text(End) == ""
  {
  }

  /** A word with no empty group in it expands to its product if and only if the words that the first group leaves fit. */
  lemma {:induction false} ExactlyWhenItFits(p: Pattern)
    requires Proper(p, false) && !HasEmptyGroup(p) && PrefixFits(Text(p))
    ensures Expanded(Text(p)) == Words(Product(p)) <==> Fits(Text(p))
  {
    hide Expanded, Text, Product, Good, Fits, PrefixFits, HasEmptyGroup;
    assert "" + Text(p) == Text(p);
    ExactlyWhenGood(p);
    GoodFits("", p);
  }

  /** Empty groups at the end may be cut off with no harm. */
  lemma {:induction false} EmptyGroupsCut(done: string)
    requires |done| == PATH_MAX - 1 && '{' !in done
    ensures !Fits(done + "{}{}") && Expanded(done + "{}{}") == Words([done])
  {
    hide Expanded, Fits, Good, Split, IndexOf, Text, Product, Proper, PrefixFits;
    var p := Group(One(End), Group(One(End), End));
    TwoEmpty();
    TwoEmptyLeave(done);
    TwoEmptyGood(done);
    RightPattern(done, p);
    PrefixOne(done, "");
    assert done + "" == done;
  }

  lemma {:induction false} TwoEmpty()
    ensures var p := Group(One(End), Group(One(End), End)); Proper(p, false) && Text(p) == "{}{}" && Product(p) == [""]
  {
    EmptyGroup();
    CrossOne([""]);
  }

  lemma {:induction false} TwoEmptyGood(done: string)
    requires |done| == PATH_MAX - 1
    ensures Good(done, Group(One(End), Group(One(End), End)))
  {
    hide EndsInEmptyGroup, Cut;
    EmptyGroup();
    assert Keeps(done, Group(One(End), End));
  }

  lemma {:induction false} TwoEmptyLeave(done: string)
    requires |done| == PATH_MAX - 1 && '{' !in done
    ensures PrefixFits(done + "{}{}") && !Fits(done + "{}{}")
  {
    hide Text, Texts, Around, Split, IndexOf;
    var tail := Group(One(End), End);
    TwoEmpty();
    EmptyGroup();
    FirstBrace(done, One(End), tail);
    SplitGroup(done, One(End), tail);
    GroupText(done, One(End), tail);
    AroundFirst(done, One(End), Text(tail));
    NotFitting(done + "{}{}", Around(done, Texts(One(End)), Text(tail)));
  }

  /** So lists of words whose first groups fit expand to their products. */
  lemma {:induction false} ListsThatFit(ps: seq<Pattern>, ws: seq<string>)
    requires |ws| == |ps|
    requires forall i :: 0 <= i < |ps| ==> Proper(ps[i], false) && !HasEmptyGroup(ps[i]) && ws[i] == Text(ps[i]) && Fits(ws[i])
    ensures ExpandedAll(ws) == Words(Products(ps))
  {
    hide Expand, Expanded, Product, Text, HasEmptyGroup;
    ListExpansion(ps);
    assert ws == seq(|ps|, i requires 0 <= i < |ps| => Text(ps[i]));
    FitsExpandAll(ws);
  }

  // -------- short results are not enough --------

  /** `n + 1` times the alternative "c". */
  function Copies(n: nat): Alts
  {
    if n == 0 then One(Lit('c', End)) else More(Lit('c', End), Copies(n - 1))
  }

  lemma {:induction false} CopiesFacts(n: nat)
    ensures ProperAlts(Copies(n)) && !AnyHasEmptyGroup(Copies(n)) && Copies(n) != One(End)
    ensures |AltsText(Copies(n))| == 2 * n + 1
    ensures forall x :: x in Choices(Copies(n)) ==> x == "c"
  {
    LitWord('c');
    if n > 0 {
      CopiesFacts(n - 1);
    }
  }

  lemma {:induction false} LitWord(c: char)
    ensures Text(Lit(c, End)) == [c] && Product(Lit(c, End)) == [[c]]
  {
    PrefixOne([c], "");
  }

  /** `{a,b}{c,...,c}` stands for words of two letters only, but what its first group leaves may be too long. */
  lemma {:induction false} ShortResultsLost(n: nat, p: Pattern)
    requires n >= PATH_MAX && p == Group(More(Lit('a', End), One(Lit('b', End))), Group(Copies(n), End))
    ensures forall x :: x in Product(p) ==> |x| == 2
    ensures Expanded(Text(p)) != Words(Product(p))
  {
    hide Expanded, Text, Product, Choices, Cross;
    var rest := Group(Copies(n), End);
    CopiesFacts(n);
    TwoLetters(p.alts);
    GroupProduct(Copies(n), End);
    GroupProduct(p.alts, rest);
    assert Product(End) == [""] by { EndWord(); }
    CrossLengths(Choices(Copies(n)), [""], 1, 0);
    CrossLengths(Choices(p.alts), Product(rest), 1, 1);
    LongRest(Copies(n));
    OneGroup(Copies(n), End);
    OneGroup(p.alts, rest);
    LeavesTooLong(p.alts, rest);
  }

  lemma OneGroup(a: Alts, rest: Pattern)
    requires ProperAlts(a) && !AnyHasEmptyGroup(a) && a != One(End) && Proper(rest, false) && !HasEmptyGroup(rest)
    ensures Proper(Group(a, rest), false) && !HasEmptyGroup(Group(a, rest))
  {
  }

  lemma EndWord()
    ensures Product(End) == [""]
  {
  }

  lemma {:induction false} TwoLetters(a: Alts)
    requires a == More(Lit('a', End), One(Lit('b', End)))
    ensures ProperAlts(a) && !AnyHasEmptyGroup(a) && forall x :: x in Choices(a) ==> |x| == 1
  {
    LitWord('a');
    LitWord('b');
  }

  lemma {:induction false} LongRest(a: Alts)
    ensures |Text(Group(a, End))| == |AltsText(a)| + 2
  {
  }

  /** What follows the first group may be too long by itself. */
  lemma {:induction false} LeavesTooLong(alts: Alts, rest: Pattern)
    requires Proper(Group(alts, rest), false) && !HasEmptyGroup(Group(alts, rest)) && |Text(rest)| >= PATH_MAX
    ensures Expanded(Text(Group(alts, rest))) != Words(Product(Group(alts, rest)))
  {
    hide Expanded, Split, IndexOf, Fits, Text, Product, Around, Texts, HasEmptyGroup, Proper;
    var p := Group(alts, rest);
    assert "" + Text(p) == Text(p);
    ProperGroup(alts, rest);
    FirstBrace("", alts, rest);
    SplitGroup("", alts, rest);
    AroundFirst("", alts, Text(rest));
    GroupText("", alts, rest);
    NotFitting(Text(p), Around("", Texts(alts), Text(rest)));
    ExactlyWhenItFits(p);
  }

  lemma ProperGroup(alts: Alts, rest: Pattern)
    requires Proper(Group(alts, rest), false) && !HasEmptyGroup(Group(alts, rest))
    ensures ProperAlts(alts) && alts != One(End)
  {
  }

  lemma {:induction false} NotFitting(s: string, xs: seq<string>)
    requires '{' in s && !Untouched(s) && Split(s) == Words(xs) && xs != [] && |xs[0]| >= PATH_MAX
    ensures !Fits(s)
  {
    assert xs[0] in xs;
  }

  lemma {:induction false} CrossLengths(xs: seq<string>, ys: seq<string>, k: nat, l: nat)
    requires (forall x :: x in xs ==> |x| == k) && (forall y :: y in ys ==> |y| == l)
    ensures forall z :: z in Cross(xs, ys) ==> |z| == k + l
  {
    if xs != [] {
      CrossLengths(xs[1..], ys, k, l);
      PrefixLengths(xs[0], ys, l);
    }
  }

  lemma {:induction false} PrefixLengths(s: string, ys: seq<string>, l: nat)
    requires forall y :: y in ys ==> |y| == l
    ensures forall z :: z in Prefix(s, ys) ==> |z| == |s| + l
  {
    if ys != [] {
      PrefixLengths(s, ys[1..], l);
    }
  }
}
