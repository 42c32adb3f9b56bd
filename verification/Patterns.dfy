/**
 Words with alternations as patterns, the strings a pattern stands for, and the
 proof that brace expansion lists just those, in order.
 */
module Patterns {
  import opened Braces

  /** A character, a bracketed class, or a group of alternatives, and what comes after. */
  datatype Pattern =
    | End
    | Lit(c: char, rest: Pattern)
    | Class(chars: string, rest: Pattern)
    | Group(alts: Alts, rest: Pattern)

  datatype Alts = One(p: Pattern) | More(p: Pattern, others: Alts)

  function Text(p: Pattern): string
  {
    match p
    case End => ""
    case Lit(c, rest) => [c] + Text(rest)
    case Class(chars, rest) => ['['] + (chars + ([']'] + Text(rest)))
    case Group(alts, rest) => ['{'] + (AltsText(alts) + (['}'] + Text(rest)))
  }

  function AltsText(a: Alts): string
  {
    match a
    case One(p) => Text(p)
    case More(p, others) => Text(p) + ([','] + AltsText(others))
  }

  function Texts(a: Alts): (ts: seq<string>)
    ensures ts != []
  {
    match a
    case One(p) => [Text(p)]
    case More(p, others) => [Text(p)] + Texts(others)
  }

  /** Outside groups a comma, a closing brace or a bracket stands for itself; an opening brace never does. */
  predicate Proper(p: Pattern, inside: bool)
  {
    match p
    case End => true
    case Lit(c, rest) => c != '{' && (inside ==> c != '}' && c != ',' && c != '[') && Proper(rest, inside)
    case Class(chars, rest) => ']' !in chars && '{' !in chars && Proper(rest, inside)
    case Group(alts, rest) => ProperAlts(alts) && Proper(rest, inside)
  }

  predicate ProperAlts(a: Alts)
  {
    Proper(a.p, true) && (a.More? ==> ProperAlts(a.others))
  }

  // -------- the strings a pattern stands for --------

  function Prefix(s: string, xs: seq<string>): (ys: seq<string>)
    ensures |ys| == |xs|
  {
    if xs == [] then [] else [s + xs[0]] + Prefix(s, xs[1..])
  }

  /** Every string of the one before every string of the other, the first varying slowest. */
  function Cross(xs: seq<string>, ys: seq<string>): seq<string>
  {
    if xs == [] then [] else Prefix(xs[0], ys) + Cross(xs[1..], ys)
  }

  function Product(p: Pattern): seq<string>
  {
    match p
    case End => [""]
    case Lit(c, rest) => Prefix([c], Product(rest))
    case Class(chars, rest) => Prefix(['['] + chars + [']'], Product(rest))
    case Group(alts, rest) => Cross(Choices(alts), Product(rest))
  }

  function Choices(a: Alts): seq<string>
  {
    match a
    case One(p) => Product(p)
    case More(p, others) => Product(p) + Choices(others)
  }

  function Concat(p: Pattern, q: Pattern): Pattern
  {
    match p
    case End => q
    case Lit(c, rest) => Lit(c, Concat(rest, q))
    case Class(chars, rest) => Class(chars, Concat(rest, q))
    case Group(alts, rest) => Group(alts, Concat(rest, q))
  }

  // -------- products of concatenations --------

  lemma {:induction false} PrefixConcat(s: string, xs: seq<string>, ys: seq<string>)
    ensures Prefix(s, xs + ys) == Prefix(s, xs) + Prefix(s, ys)
  {
    if xs == [] {
      assert xs + ys == ys;
    } else {
      assert (xs + ys)[1..] == xs[1..] + ys;
      PrefixConcat(s, xs[1..], ys);
    }
  }

  lemma {:induction false} PrefixTwice(s: string, t: string, xs: seq<string>)
    ensures Prefix(s, Prefix(t, xs)) == Prefix(s + t, xs)
  {
    if xs != [] {
      PrefixTwice(s, t, xs[1..]);
      assert s + (t + xs[0]) == s + t + xs[0];
      assert Prefix(t, xs)[1..] == Prefix(t, xs[1..]);
    }
  }

  lemma {:induction false} PrefixNothing(xs: seq<string>)
    ensures Prefix("", xs) == xs
  {
    if xs != [] {
      PrefixNothing(xs[1..]);
      assert "" + xs[0] == xs[0];
    }
  }

  lemma {:induction false} CrossConcat(xs: seq<string>, ys: seq<string>, zs: seq<string>)
    ensures Cross(xs + ys, zs) == Cross(xs, zs) + Cross(ys, zs)
  {
    if xs == [] {
      assert xs + ys == ys;
    } else {
      assert (xs + ys)[1..] == xs[1..] + ys;
      CrossConcat(xs[1..], ys, zs);
    }
  }

  lemma {:induction false} PrefixCross(s: string, xs: seq<string>, ys: seq<string>)
    ensures Prefix(s, Cross(xs, ys)) == Cross(Prefix(s, xs), ys)
  {
    if xs != [] {
      PrefixCross(s, xs[1..], ys);
      PrefixConcat(s, Prefix(xs[0], ys), Cross(xs[1..], ys));
      PrefixTwice(s, xs[0], ys);
      assert Prefix(s, xs)[1..] == Prefix(s, xs[1..]);
    }
  }

  lemma {:induction false} CrossAssoc(xs: seq<string>, ys: seq<string>, zs: seq<string>)
    ensures Cross(Cross(xs, ys), zs) == Cross(xs, Cross(ys, zs))
  {
    if xs != [] {
      CrossAssoc(xs[1..], ys, zs);
      CrossConcat(Prefix(xs[0], ys), Cross(xs[1..], ys), zs);
      PrefixCross(xs[0], ys, zs);
    }
  }

  lemma {:induction false} CrossOne(ys: seq<string>)
    ensures Cross([""], ys) == ys
  {
    PrefixNothing(ys);
    assert Cross([""][1..], ys) == [];
  }

  lemma {:induction false} ProductConcat(p: Pattern, q: Pattern)
    ensures Product(Concat(p, q)) == Cross(Product(p), Product(q))
  {
    match p {
      case End =>
        CrossOne(Product(q));
      case Lit(c, rest) =>
        ProductConcat(rest, q);
        PrefixCross([c], Product(rest), Product(q));
      case Class(chars, rest) =>
        ProductConcat(rest, q);
        PrefixCross(['['] + chars + [']'], Product(rest), Product(q));
      case Group(alts, rest) =>
        ProductConcat(rest, q);
        CrossAssoc(Choices(alts), Product(rest), Product(q));
    }
  }

  lemma {:induction false} After(c: char, a: string, u: string)
    ensures ([c] + a) + u == [c] + (a + u)
  {
  }

  lemma {:induction false} Beyond(o: char, a: string, c: char, b: string, u: string)
    ensures ([o] + (a + ([c] + b))) + u == [o] + (a + ([c] + (b + u)))
    ensures |[o] + (a + ([c] + b))| == |a| + |b| + 2
  {
  }

  lemma {:induction false} TextConcat(p: Pattern, q: Pattern)
    ensures Text(Concat(p, q)) == Text(p) + Text(q)
  {
    match p {
      case End =>
        assert "" + Text(q) == Text(q);
      case Lit(c, rest) =>
        TextConcat(rest, q);
        After(c, Text(rest), Text(q));
      case Class(chars, rest) =>
        TextConcat(rest, q);
        Beyond('[', chars, ']', Text(rest), Text(q));
      case Group(alts, rest) =>
        TextConcat(rest, q);
        Beyond('{', AltsText(alts), '}', Text(rest), Text(q));
    }
  }

  lemma {:induction false} ProperConcat(p: Pattern, q: Pattern, inside: bool)
    requires Proper(p, true) && Proper(q, inside)
    ensures Proper(Concat(p, q), inside)
  {
    if !p.End? {
      ProperConcat(p.rest, q, inside);
    }
  }

  // -------- the text of a pattern is passed over --------

  lemma {:induction false} IndexAt(s: string, c: char, t: string)
    requires c !in s
    ensures IndexOf(s + ([c] + t), c) == |s|
  {
    if s == "" {
      assert s + ([c] + t) == [c] + t;
    } else {
      assert (s + ([c] + t))[1..] == s[1..] + ([c] + t);
      IndexAt(s[1..], c, t);
    }
  }

  lemma {:induction false} MatchOne(c: char, u: string, i: nat)
    requires c != '[' && !(c == '}' && i == 0)
    ensures Match([c] + u, i) == Further(1, Match(u, Level(c, i)))
  {
    assert ([c] + u)[1..] == u;
  }

  lemma {:induction false} CommaOne(c: char, u: string, i: nat)
    requires c != '[' && !(c == ',' && i == 0)
    ensures Comma([c] + u, i) == 1 + Comma(u, Level(c, i))
  {
    assert ([c] + u)[1..] == u;
  }

  lemma {:induction false} ClassOver(chars: string, u: string, i: nat)
    requires ']' !in chars
    ensures Match(['['] + (chars + ([']'] + u)), i) == Further(|chars| + 2, Match(u, i))
    ensures Comma(['['] + (chars + ([']'] + u)), i) == |chars| + 2 + Comma(u, i)
  {
    var t := ['['] + (chars + ([']'] + u));
    assert t[1..] == chars + ([']'] + u);
    IndexAt(chars, ']', u);
    assert t[|chars| + 2..] == u;
  }

  lemma {:induction false} MatchOver(p: Pattern, u: string, i: nat)
    requires Proper(p, true)
    ensures Match(Text(p) + u, i) == Further(|Text(p)|, Match(u, i))
  {
    hide Match;
    match p {
      case End =>
        assert "" + u == u;
      case Lit(c, rest) =>
        MatchOver(rest, u, i);
        MatchOne(c, Text(rest) + u, i);
        After(c, Text(rest), u);
      case Class(chars, rest) =>
        MatchOver(rest, u, i);
        ClassOver(chars, Text(rest) + u, i);
        Beyond('[', chars, ']', Text(rest), u);
      case Group(alts, rest) =>
        MatchOver(rest, u, i);
        MatchOne('}', Text(rest) + u, i + 1);
        AltsOver(alts, ['}'] + (Text(rest) + u), i + 1);
        MatchOne('{', AltsText(alts) + (['}'] + (Text(rest) + u)), i);
        Beyond('{', AltsText(alts), '}', Text(rest), u);
    }
  }

  lemma {:induction false} AltsOver(a: Alts, u: string, i: nat)
    requires ProperAlts(a)
    ensures Match(AltsText(a) + u, i) == Further(|AltsText(a)|, Match(u, i))
  {
    hide Match;
    match a {
      case One(p) =>
        MatchOver(p, u, i);
      case More(p, others) =>
        AltsOver(others, u, i);
        MatchOne(',', AltsText(others) + u, i);
        MatchOver(p, [','] + (AltsText(others) + u), i);
        assert AltsText(a) + u == Text(p) + ([','] + (AltsText(others) + u));
    }
  }

  lemma {:induction false} CommaOver(p: Pattern, u: string, i: nat)
    requires Proper(p, true)
    ensures Comma(Text(p) + u, i) == |Text(p)| + Comma(u, i)
  {
    hide Comma;
    match p {
      case End =>
        assert "" + u == u;
      case Lit(c, rest) =>
        CommaOver(rest, u, i);
        CommaOne(c, Text(rest) + u, i);
        After(c, Text(rest), u);
      case Class(chars, rest) =>
        CommaOver(rest, u, i);
        ClassOver(chars, Text(rest) + u, i);
        Beyond('[', chars, ']', Text(rest), u);
      case Group(alts, rest) =>
        CommaOver(rest, u, i);
        CommaOne('}', Text(rest) + u, i + 1);
        AltsPastComma(alts, ['}'] + (Text(rest) + u), i + 1);
        CommaOne('{', AltsText(alts) + (['}'] + (Text(rest) + u)), i);
        Beyond('{', AltsText(alts), '}', Text(rest), u);
    }
  }

  lemma {:induction false} AltsPastComma(a: Alts, u: string, i: nat)
    requires ProperAlts(a) && i > 0
    ensures Comma(AltsText(a) + u, i) == |AltsText(a)| + Comma(u, i)
  {
    hide Comma;
    match a {
      case One(p) =>
        CommaOver(p, u, i);
      case More(p, others) =>
        AltsPastComma(others, u, i);
        CommaOne(',', AltsText(others) + u, i);
        CommaOver(p, [','] + (AltsText(others) + u), i);
        assert AltsText(a) + u == Text(p) + ([','] + (AltsText(others) + u));
    }
  }

  /** The alternatives of a group are the ones it was written from. */
  lemma {:induction false} AlternativesBack(a: Alts)
    requires ProperAlts(a)
    ensures Alternatives(AltsText(a)) == Texts(a)
  {
    hide Comma;
    match a {
      case One(p) =>
        CommaOver(p, "", 0);
        NoComma();
        assert Text(p) + "" == Text(p);
      case More(p, others) =>
        var t, u := AltsText(a), [','] + AltsText(others);
        CommaOver(p, u, 0);
        CommaFirst(AltsText(others));
        AlternativesBack(others);
        assert t[..|Text(p)|] == Text(p) && t[|Text(p)| + 1..] == AltsText(others);
    }
  }

  lemma {:induction false} NoComma()
    ensures Comma("", 0) == 0
  {
  }

  lemma {:induction false} CommaFirst(u: string)
    ensures Comma([','] + u, 0) == 0
  {
  }

  /** The first group of a word is split into the alternatives of the pattern, whatever comes after it. */
  lemma {:induction false} SplitGroupBefore(done: string, alts: Alts, suf: string)
    requires '{' !in done && ProperAlts(alts)
    ensures var s := done + (['{'] + (AltsText(alts) + (['}'] + suf)));
            '{' in s && Split(s) == Words(Around(done, Texts(alts), suf))
  {
    hide Match, Alternatives, IndexOf, AltsText, Around, Texts;
    var inner := AltsText(alts);
    var t := inner + (['}'] + suf);
    IndexAt(done, '{', t);
    Opened(done, '{', t);
    Opened(inner, '}', suf);
    AltsOver(alts, ['}'] + suf, 0);
    CloseFirst(suf);
    AlternativesBack(alts);
  }

  lemma {:induction false} SplitGroup(done: string, alts: Alts, rest: Pattern)
    requires '{' !in done && ProperAlts(alts)
    ensures var s := done + Text(Group(alts, rest));
            '{' in s && Split(s) == Words(Around(done, Texts(alts), Text(rest)))
  {
    SplitGroupBefore(done, alts, Text(rest));
  }

  lemma {:induction false} Opened(a: string, c: char, b: string)
    ensures var s := a + ([c] + b); c in s && s[..|a|] == a && s[|a|] == c && s[|a| + 1..] == b
  {
    assert (a + ([c] + b))[|a|] == c;
  }

  lemma {:induction false} CloseFirst(u: string)
    ensures Match(['}'] + u, 0) == Closed(0)
  {
  }

  // -------- expansion --------

  function Groups(p: Pattern): nat
  {
    match p
    case End => 0
    case Group(alts, rest) => 1 + AltsGroups(alts) + Groups(rest)
    case _ => Groups(p.rest)
  }

  function AltsGroups(a: Alts): nat
  {
    Groups(a.p) + if a.More? then AltsGroups(a.others) else 0
  }

  lemma {:induction false} GroupsConcat(p: Pattern, q: Pattern)
    ensures Groups(Concat(p, q)) == Groups(p) + Groups(q)
  {
    if !p.End? {
      GroupsConcat(p.rest, q);
    }
  }

  /** On the way, with nothing before it, some word comes down to "{}". */
  predicate Stuck(p: Pattern)
    decreases Groups(p), 0, p
  {
    p.Group? && ((p.alts == One(End) && p.rest == End) || StuckAlts(p.alts, p.rest))
  }

  predicate StuckAlts(a: Alts, rest: Pattern)
    decreases AltsGroups(a) + Groups(rest), 1, a
  {
    GroupsConcat(a.p, rest);
    Stuck(Concat(a.p, rest)) || (a.More? && StuckAlts(a.others, rest))
  }

  lemma {:induction false} PrefixOne(s: string, t: string)
    ensures Prefix(s, [t]) == [s + t]
  {
    assert Prefix(s, [t][1..]) == [];
  }

  /** What is expected of the expansion of a word that is `done` as far as it has no brace. */
  ghost predicate Expected(r: Out, done: string, product: seq<string>, stuck: bool)
  {
    && r.Words?
    && (done != "" || !stuck ==> r.ws == Prefix(done, product))
    && (done == "" && stuck ==> "{}" in r.ws)
  }

  lemma {:induction false} Expands(done: string, p: Pattern)
    requires Proper(p, false) && '{' !in done
    ensures Expected(Expand(done + Text(p)), done, Product(p), Stuck(p))
    decreases Groups(p), 0, p
  {
    hide Expand, ExpandAll, Product, Text, Stuck, StuckAlts, Prefix, Expected;
    match p {
      case End =>
        ExpandsEnd(done);
      case Lit(c, rest) =>
        Expands(done + [c], rest);
        ExpandsOn(done, [c], p);
      case Class(chars, rest) =>
        Expands(done + (['['] + chars + [']']), rest);
        ExpandsOn(done, ['['] + chars + [']'], p);
      case Group(alts, rest) =>
        ExpandsAlts(done, alts, rest);
        GroupProduct(alts, rest);
        ExpandsGroup(done, alts, rest);
    }
  }

  lemma {:induction false} ExpandsEnd(done: string)
    requires '{' !in done
    ensures Expected(Expand(done + Text(End)), done, Product(End), Stuck(End))
  {
    assert done + "" == done;
    PrefixOne(done, "");
  }

  lemma {:induction false} GroupProduct(alts: Alts, rest: Pattern)
    ensures Product(Group(alts, rest)) == Cross(Choices(alts), Product(rest))
  {
  }

  /** What has no brace is passed over. */
  lemma {:induction false} ExpandsOn(done: string, s: string, p: Pattern)
    requires (p.Lit? && s == [p.c]) || (p.Class? && s == ['['] + p.chars + [']'])
    requires Expected(Expand(done + s + Text(p.rest)), done + s, Product(p.rest), Stuck(p.rest))
    ensures Expected(Expand(done + Text(p)), done, Product(p), Stuck(p))
  {
    hide Expand, Prefix;
    PrefixTwice(done, s, Product(p.rest));
    assert done + s + Text(p.rest) == done + (s + Text(p.rest));
    assert s + Text(p.rest) == Text(p);
  }

  lemma {:induction false} ExpandsGroup(done: string, alts: Alts, rest: Pattern)
    requires ProperAlts(alts) && '{' !in done
    requires Expected(ExpandAll(Around(done, Texts(alts), Text(rest))), done, Product(Group(alts, rest)), StuckAlts(alts, rest))
    ensures Expected(Expand(done + Text(Group(alts, rest))), done, Product(Group(alts, rest)), Stuck(Group(alts, rest)))
  {
    hide Product, ExpandAll, Around, Texts, Split, StuckAlts, Prefix;
    var p := Group(alts, rest);
    SplitGroup(done, alts, rest);
    GroupText(done, alts, rest);
  }

  lemma {:induction false} GroupText(done: string, alts: Alts, rest: Pattern)
    ensures Untouched(done + Text(Group(alts, rest))) <==> done == "" && alts == One(End) && rest == End
  {
    var t := Text(Group(alts, rest));
    assert |t| == 2 + |AltsText(alts)| + |Text(rest)|;
    if done == "" && alts == One(End) && rest == End {
      assert done + t == "{}";
    } else if done == "" {
      assert |AltsText(alts)| + |Text(rest)| > 0;
    }
  }

  lemma {:induction false} ExpandsAlts(done: string, a: Alts, rest: Pattern)
    requires ProperAlts(a) && Proper(rest, false) && '{' !in done
    ensures Expected(ExpandAll(Around(done, Texts(a), Text(rest))), done, Cross(Choices(a), Product(rest)), StuckAlts(a, rest))
    decreases AltsGroups(a) + Groups(rest), 1, a
  {
    hide Expand, ExpandAll, Product, Choices, Text, Texts, Around, Stuck, StuckAlts, Prefix, Cross, Expected;
    var q := Concat(a.p, rest);
    GroupsConcat(a.p, rest);
    ProperConcat(a.p, rest, false);
    TextConcat(a.p, rest);
    ProductConcat(a.p, rest);
    Expands(done, q);
    assert done + Text(a.p) + Text(rest) == done + Text(q);
    if a.More? {
      ExpandsAlts(done, a.others, rest);
    }
    ExpandsMore(done, a, rest);
  }

  lemma {:induction false} ExpandsMore(done: string, a: Alts, rest: Pattern)
    requires var q := Concat(a.p, rest);
             && Expected(Expand(done + Text(q)), done, Product(q), Stuck(q)) && done + Text(a.p) + Text(rest) == done + Text(q)
             && Product(q) == Cross(Product(a.p), Product(rest))
    requires a.More? ==>
               Expected(ExpandAll(Around(done, Texts(a.others), Text(rest))), done, Cross(Choices(a.others), Product(rest)), StuckAlts(a.others, rest))
    ensures Expected(ExpandAll(Around(done, Texts(a), Text(rest))), done, Cross(Choices(a), Product(rest)), StuckAlts(a, rest))
  {
    hide Expand, Product, Stuck, Prefix, Cross, Text;
    var xs := Around(done, Texts(a), Text(rest));
    if a.More? {
      assert Texts(a)[1..] == Texts(a.others);
      assert xs == [done + Text(a.p) + Text(rest)] + Around(done, Texts(a.others), Text(rest));
      assert xs[1..] == Around(done, Texts(a.others), Text(rest));
      CrossConcat(Product(a.p), Choices(a.others), Product(rest));
      PrefixConcat(done, Cross(Product(a.p), Product(rest)), Cross(Choices(a.others), Product(rest)));
    } else {
      AroundOne(done, Text(a.p), Text(rest));
      assert xs[1..] == [];
      assert Expand(xs[0]).ws + [] == Expand(xs[0]).ws;
    }
  }

  lemma {:induction false} AroundOne(pre: string, a: string, suf: string)
    ensures Around(pre, [a], suf) == [pre + a + suf]
  {
    assert Around(pre, [a][1..], suf) == [];
  }

  // -------- exactly when the expansion is the product --------

  /** The pattern stands, among others, for the empty string. */
  predicate Nullable(p: Pattern)
  {
    p.End? || (p.Group? && AnyNullable(p.alts) && Nullable(p.rest))
  }

  predicate AnyNullable(a: Alts)
  {
    Nullable(a.p) || (a.More? && AnyNullable(a.others))
  }

  /** It ends in "{}", or in a group one of whose alternatives does, and what comes before can vanish. */
  predicate EndsInEmptyGroup(p: Pattern)
  {
    p.Group? &&
    if p.rest.End? then p.alts == One(End) || AnyEndsInEmptyGroup(p.alts)
    else AnyNullable(p.alts) && EndsInEmptyGroup(p.rest)
  }

  predicate AnyEndsInEmptyGroup(a: Alts)
  {
    EndsInEmptyGroup(a.p) || (a.More? && AnyEndsInEmptyGroup(a.others))
  }

  lemma {:induction false} EndsConcat(p: Pattern, q: Pattern)
    ensures EndsInEmptyGroup(Concat(p, q)) <==>
            if q.End? then EndsInEmptyGroup(p) else Nullable(p) && EndsInEmptyGroup(q)
  {
    if !p.End? {
      EndsConcat(p.rest, q);
    }
  }

  lemma {:induction false} StuckEnds(p: Pattern)
    ensures Stuck(p) <==> EndsInEmptyGroup(p)
    decreases Groups(p), 0, p
  {
    if p.Group? {
      StuckAltsEnds(p.alts, p.rest);
    }
  }

  lemma {:induction false} StuckAltsEnds(a: Alts, rest: Pattern)
    ensures StuckAlts(a, rest) <==>
            if rest.End? then AnyEndsInEmptyGroup(a) else AnyNullable(a) && EndsInEmptyGroup(rest)
    decreases AltsGroups(a) + Groups(rest), 1, a
  {
    GroupsConcat(a.p, rest);
    StuckEnds(Concat(a.p, rest));
    EndsConcat(a.p, rest);
    if a.More? {
      StuckAltsEnds(a.others, rest);
    }
  }

  ghost predicate Braceless(xs: seq<string>)
  {
    forall i :: 0 <= i < |xs| ==> '{' !in xs[i]
  }

  lemma {:induction false} NotAmong(xs: seq<string>)
    requires Braceless(xs)
    ensures "{}" !in xs
  {
    forall i | 0 <= i < |xs| ensures xs[i] != "{}" {
      assert "{}"[0] == '{' && '{' !in xs[i];
    }
  }

  lemma {:induction false} PrefixBraceless(s: string, xs: seq<string>)
    requires '{' !in s && Braceless(xs)
    ensures Braceless(Prefix(s, xs))
  {
    if xs != [] {
      PrefixBraceless(s, xs[1..]);
      assert '{' !in s + xs[0];
    }
  }

  lemma {:induction false} CrossBraceless(xs: seq<string>, ys: seq<string>)
    requires Braceless(xs) && Braceless(ys)
    ensures Braceless(Cross(xs, ys))
  {
    if xs != [] {
      PrefixBraceless(xs[0], ys);
      CrossBraceless(xs[1..], ys);
    }
  }

  /** No string that a pattern stands for has an opening brace. */
  lemma {:induction false} ProductBraceless(p: Pattern, inside: bool)
    requires Proper(p, inside)
    ensures Braceless(Product(p))
  {
    match p {
      case End =>
      case Lit(c, rest) =>
        ProductBraceless(rest, inside);
        PrefixBraceless([c], Product(rest));
      case Class(chars, rest) =>
        ProductBraceless(rest, inside);
        PrefixBraceless(['['] + chars + [']'], Product(rest));
      case Group(alts, rest) =>
        ProductBraceless(rest, inside);
        ChoicesBraceless(alts);
        CrossBraceless(Choices(alts), Product(rest));
    }
  }

  lemma {:induction false} ChoicesBraceless(a: Alts)
    requires ProperAlts(a)
    ensures Braceless(Choices(a))
  {
    ProductBraceless(a.p, true);
    if a.More? {
      ChoicesBraceless(a.others);
    }
  }

  /**
   A word expands to the strings its pattern stands for, in order, exactly when no
   word on the way comes down to "{}".
   */
  lemma {:induction false} ExpansionIsProduct(p: Pattern)
    requires Proper(p, false)
    ensures Expand(Text(p)) == Words(Product(p)) <==> !EndsInEmptyGroup(p)
  {
    hide Expand, Product, Text, Stuck, EndsInEmptyGroup, Prefix;
    Expands("", p);
    assert "" + Text(p) == Text(p);
    StuckEnds(p);
    PrefixNothing(Product(p));
    ProductBraceless(p, false);
    NotAmong(Product(p));
  }

  predicate HasEmptyGroup(p: Pattern)
  {
    match p
    case End => false
    case Group(alts, rest) => alts == One(End) || AnyHasEmptyGroup(alts) || HasEmptyGroup(rest)
    case _ => HasEmptyGroup(p.rest)
  }

  predicate AnyHasEmptyGroup(a: Alts)
  {
    HasEmptyGroup(a.p) || (a.More? && AnyHasEmptyGroup(a.others))
  }

  lemma {:induction false} NoEmptyGroup(p: Pattern)
    requires !HasEmptyGroup(p)
    ensures !EndsInEmptyGroup(p)
  {
    if p.Group? {
      NoEmptyGroup(p.rest);
      NoEmptyGroupAlts(p.alts);
    }
  }

  lemma {:induction false} NoEmptyGroupAlts(a: Alts)
    requires !AnyHasEmptyGroup(a)
    ensures !AnyEndsInEmptyGroup(a)
  {
    NoEmptyGroup(a.p);
    if a.More? {
      NoEmptyGroupAlts(a.others);
    }
  }

  /** Lists of words with no "{}" in them: each is expanded in its turn. */
  lemma {:induction false} ListExpansion(ps: seq<Pattern>)
    requires forall i :: 0 <= i < |ps| ==> Proper(ps[i], false) && !HasEmptyGroup(ps[i])
    ensures ExpandAll(seq(|ps|, i requires 0 <= i < |ps| => Text(ps[i]))) == Words(Products(ps))
  {
    hide Expand, Product, Text;
    var xs := seq(|ps|, i requires 0 <= i < |ps| => Text(ps[i]));
    if ps != [] {
      NoEmptyGroup(ps[0]);
      ExpansionIsProduct(ps[0]);
      ListExpansion(ps[1..]);
      assert xs[1..] == seq(|ps[1..]|, i requires 0 <= i < |ps[1..]| => Text(ps[1..][i]));
    }
  }

  function Products(ps: seq<Pattern>): seq<string>
  {
    if ps == [] then [] else Product(ps[0]) + Products(ps[1..])
  }

  /** "{}" is left as it is, though its pattern stands for the empty word only. */
  lemma {:induction false} EmptyGroup()
    ensures Text(Group(One(End), End)) == "{}" && Product(Group(One(End), End)) == [""]
    ensures Expand("{}") == Words(["{}"])
  {
    hide Expand;
    CrossOne([""]);
    LeftAlone("{}");
  }

  lemma {:induction false} LeftAlone(s: string)
    requires Untouched(s)
    ensures Expand(s) == Words([s])
  {
  }

  /** And so are all the words that come down to it: one more "{}" in front changes nothing. */
  lemma {:induction false} EmptyGroupBefore(rest: Pattern)
    requires Proper(rest, false) && EndsInEmptyGroup(rest)
    ensures var p := Group(One(End), rest);
            Text(p) == "{}" + Text(rest) && Product(p) == Product(rest) && Expand(Text(p)) != Words(Product(p))
  {
    hide Expand;
    var p := Group(One(End), rest);
    assert ['{'] + ("" + (['}'] + Text(rest))) == "{}" + Text(rest);
    CrossOne(Product(rest));
    ExpansionIsProduct(p);
  }
}
