/**
 The operands of `dd` (`args.c`): flags that exclude one another, sizes and
 offsets, and the checks made when all operands have been read.
 */
module Dd {
  import opened DdSizes
  import opened Naturals

  datatype Flag =
    | ASCII | BLOCK | BS | CBS | COUNT | EBCDIC | FILES | IBS | IF | LCASE | NOERROR | NOTRUNC | OBS | OF
    | SEEK | SKIP | SWAB | SYNC | UCASE | UNBLOCK | OSYNC | STATUS | NOXFER | NOINFO

  type Flags = set<Flag>

  const SIZE_MAX := WORD - 1
  const QUAD_MAX := 0x7fff_ffff_ffff_ffff
  const SSIZE_MAX := QUAD_MAX

  type Offset = n: int | -QUAD_MAX - 1 <= n <= QUAD_MAX

  datatype Conversion =
    | Ascii | Block | Ebcdic | Ibm | Lcase | Osync | Swab | Sync | Ucase | Unblock | Noerror | Notrunc

  datatype Table = NoTable | E2A | A2E | A2IBM

  /** One thing an operand asks for. */
  datatype Setting =
    | Bs(n: Size) | Cbs(n: Size) | Count(n: Size) | Files(n: Size) | Ibs(n: Size) | Obs(n: Size)
    | If(name: string) | Of(name: string) | Seek(o: Offset) | Skip(o: Offset)
    | Status(none: bool)
    | Conv(c: Conversion)

  /** An operand; one whose name or value is not known is `Wrong`. `conv` takes a list. */
  datatype Operand = Wrong | Single(s: Setting) | Convs(cs: seq<Conversion>)

  /** The settings that take a size. */
  datatype Sizing = ForBs | ForCbs | ForCount | ForFiles | ForIbs | ForObs

  function SizedBy(k: Sizing, n: Size): Setting
  {
    match k
    case ForBs => Bs(n)
    case ForCbs => Cbs(n)
    case ForCount => Count(n)
    case ForFiles => Files(n)
    case ForIbs => Ibs(n)
    case ForObs => Obs(n)
  }

  /** An operand whose value is written as a product. */
  function Sized(k: Sizing, fs: seq<Factor>): Operand
    requires fs != []
  {
    var n := GetBsz(fs);
    if n.None? then Wrong else Single(SizedBy(k, n.value))
  }

  /** It is wrong exactly if a test fails, and asks for the product exactly where `get_bsz` is exact. */
  lemma {:induction false} SizeAsked(k: Sizing, fs: seq<Factor>)
    requires fs != []
    ensures Sized(k, fs) == if AllGrow(fs) then Single(SizedBy(k, Product(fs) % WORD)) else Wrong
    ensures Product(fs) < WORD && Sized(k, fs) == Single(SizedBy(k, Product(fs))) <==> Exact(fs)
  {
    hide GetBsz, AllGrow, Product, Exact;
    GetBszExact(fs);
    TrueProduct(fs);
  }

  datatype State = State(
    flags: Flags, ibs: Size, obs: Size, cbs: Size, count: Size, files: Size,
    skip: Offset, seek: Offset, inName: string, outName: string, ctab: Table)

  const START := State({}, 512, 512, 0, 0, 1, 0, 0, "", "", NoTable)

  // -------- the two tables --------

  function Sets(s: Setting): Flags
  {
    match s
    case Bs(_) => {BS}
    case Cbs(_) => {CBS}
    case Count(_) => {COUNT}
    case Files(_) => {FILES}
    case Ibs(_) => {IBS}
    case If(_) => {IF}
    case Obs(_) => {OBS}
    case Of(_) => {OF}
    case Seek(_) => {SEEK}
    case Skip(_) => {SKIP}
    case Status(none) => {STATUS, if none then NOINFO else NOXFER}
    case Conv(c) =>
      match c
      case Ascii => {ASCII}
      case Block => {BLOCK}
      case Ebcdic => {EBCDIC}
      case Ibm => {EBCDIC}
      case Lcase => {LCASE}
      case Osync => {OSYNC}
      case Swab => {SWAB}
      case Sync => {SYNC}
      case Ucase => {UCASE}
      case Unblock => {UNBLOCK}
      case Noerror => {NOERROR}
      case Notrunc => {NOTRUNC}
  }

  function Bars(s: Setting): Flags
  {
    match s
    case Bs(_) => {BS, IBS, OBS, OSYNC}
    case Cbs(_) => {CBS}
    case Count(_) => {COUNT}
    case Files(_) => {FILES}
    case Ibs(_) => {BS, IBS}
    case If(_) => {IF}
    case Obs(_) => {BS, OBS}
    case Of(_) => {OF}
    case Seek(_) => {SEEK}
    case Skip(_) => {SKIP}
    case Status(_) => {STATUS}
    case Conv(c) =>
      match c
      case Ascii => {EBCDIC}
      case Block => {UNBLOCK}
      case Ebcdic => {ASCII}
      case Ibm => {ASCII}
      case Lcase => {UCASE}
      case Osync => {BS}
      case Ucase => {LCASE}
      case Unblock => {BLOCK}
      case _ => {}
  }

  /** What a setting does besides setting flags. */
  function Effect(s: Setting, st: State): State
  {
    match s
    case Bs(n) => st.(ibs := n, obs := n)
    case Cbs(n) => st.(cbs := n)
    case Count(n) => st.(count := if n == 0 then SIZE_MAX else n)
    case Files(n) => st.(files := n)
    case Ibs(n) => st.(ibs := n)
    case If(name) => st.(inName := name)
    case Obs(n) => st.(obs := n)
    case Of(name) => st.(outName := name)
    case Seek(o) => st.(seek := o)
    case Skip(o) => st.(skip := o)
    case Status(_) => st
    case Conv(c) =>
      match c
      case Ascii => st.(ctab := E2A)
      case Ebcdic => st.(ctab := A2E)
      case Ibm => st.(ctab := A2IBM)
      case _ => st
  }

  datatype Outcome = Rejected | Accepted(st: State)

  function Apply(s: Setting, st: State): Outcome
  {
    if st.flags * Bars(s) != {} then Rejected
    else Accepted(Effect(s, st).(flags := st.flags + Sets(s)))
  }

  function ApplyAll(ss: seq<Setting>, st: State): Outcome
  {
    if ss == [] then Accepted(st)
    else
      match Apply(ss[0], st)
      case Rejected => Rejected
      case Accepted(st') => ApplyAll(ss[1..], st')
  }

  function Settings(op: Operand): seq<Setting>
  {
    match op
    case Wrong => []
    case Single(s) => [s]
    case Convs(cs) => seq(|cs|, i requires 0 <= i < |cs| => Conv(cs[i]))
  }

  function Flatten(ops: seq<Operand>): seq<Setting>
  {
    if ops == [] then [] else Settings(ops[0]) + Flatten(ops[1..])
  }

  // -------- the final checks --------

  function Implied(st: State): Outcome
  {
    var f := if BS in st.flags && st.flags * {BLOCK, LCASE, SWAB, UCASE, UNBLOCK} != {} then st.flags - {BS} else st.flags;
    if BLOCK in f || UNBLOCK in f then
      if CBS !in f || st.cbs == 0 then Rejected else Accepted(st.(flags := f))
    else if CBS in f then
      if ASCII in f then (if st.cbs == 0 then Rejected else Accepted(st.(flags := f + {UNBLOCK})))
      else if EBCDIC in f then (if st.cbs == 0 then Rejected else Accepted(st.(flags := f + {BLOCK})))
      else Rejected
    else Accepted(st.(flags := f))
  }

  /** An `off_t` where the other operand of a comparison is a `size_t`. */
  function AsUnsigned(o: Offset): Size
  {
    if o < 0 then o + SIZE_MAX + 1 else o
  }

  function Checked(st: State): Outcome
  {
    match Implied(st)
    case Rejected => Rejected
    case Accepted(s) =>
      if s.ibs == 0 || s.obs == 0 then Rejected
      else if s.cbs > SSIZE_MAX || s.ibs > SSIZE_MAX || s.obs > SSIZE_MAX then Rejected
      else if AsUnsigned(s.skip) > QUAD_MAX / s.ibs || AsUnsigned(s.seek) > QUAD_MAX / s.obs then Rejected
      else Accepted(s)
  }

  function Whole(ops: seq<Operand>): Outcome
  {
    if Wrong in ops then Rejected
    else
      match ApplyAll(Flatten(ops), START)
      case Rejected => Rejected
      case Accepted(st) => Checked(st)
  }

  // -------- as it runs --------

  /** `jcl`: operand by operand, and within `conv` conversion by conversion; the first error ends it. */
  method Jcl(ops: seq<Operand>) returns (r: Outcome)
    ensures r == Whole(ops)
  {
    hide Apply, Checked;
    var st := START;
    for i := 0 to |ops|
      invariant Wrong !in ops[..i]
      invariant ApplyAll(Flatten(ops), START) == ApplyAll(Flatten(ops[i..]), st)
    {
      assert ops[i..][1..] == ops[i + 1..];
      ghost var ss, rest := Settings(ops[i]), Flatten(ops[i + 1..]);
      match ops[i] {
        case Wrong =>
          return Rejected;
        case Single(s) =>
          OneThen(s, rest, st);
          var o := Apply(s, st);
          if o.Rejected? {
            return Rejected;
          }
          st := o.st;
        case Convs(cs) =>
          var o := Conversions(cs, st);
          AllThen(ss, rest, st);
          if o.Rejected? {
            return Rejected;
          }
          st := o.st;
      }
      assert ops[..i + 1] == ops[..i] + [ops[i]];
    }
    assert ops[..|ops|] == ops;
    r := Checked(st);
  }

  /** `f_conv`. */
  method Conversions(cs: seq<Conversion>, st: State) returns (o: Outcome)
    ensures o == ApplyAll(Settings(Convs(cs)), st)
  {
    hide Apply;
    ghost var ss := Settings(Convs(cs));
    o := Accepted(st);
    for k := 0 to |cs|
      invariant o.Accepted? && ApplyAll(ss, st) == ApplyAll(ss[k..], o.st)
    {
      assert ss[k..] == [Conv(cs[k])] + ss[k + 1..];
      OneThen(Conv(cs[k]), ss[k + 1..], o.st);
      o := Apply(Conv(cs[k]), o.st);
      if o.Rejected? {
        return;
      }
    }
  }

  lemma {:induction false} AllThen(a: seq<Setting>, b: seq<Setting>, st: State)
    ensures ApplyAll(a + b, st) == var o := ApplyAll(a, st); if o.Rejected? then Rejected else ApplyAll(b, o.st)
  {
    hide Apply;
    if a == [] {
      assert a + b == b;
    } else {
      assert (a + b)[1..] == a[1..] + b;
      var o := Apply(a[0], st);
      if o.Accepted? {
        AllThen(a[1..], b, o.st);
      }
    }
  }

  lemma {:induction false} OneThen(s: Setting, rest: seq<Setting>, st: State)
    ensures ApplyAll([s] + rest, st) == var o := Apply(s, st); if o.Rejected? then Rejected else ApplyAll(rest, o.st)
  {
    assert ([s] + rest)[1..] == rest;
  }

  // -------- the order of operands does not matter --------

  function Then(o: Outcome, s: Setting): Outcome
  {
    if o.Rejected? then Rejected else Apply(s, o.st)
  }

  /** Both give the conversion table, and neither bars the other. */
  predicate Rivals(s: Setting, t: Setting)
  {
    (s == Conv(Ebcdic) && t == Conv(Ibm)) || (s == Conv(Ibm) && t == Conv(Ebcdic))
  }

  lemma {:induction false} Barred(s: Setting, t: Setting)
    ensures Sets(s) * Bars(t) != {} <==> Sets(t) * Bars(s) != {}
  {
    Meets(s, t);
    Meets(t, s);
  }

  /** Which settings bar which. */
  predicate Excludes(s: Setting, t: Setting)
  {
    match s
    case Bs(_) => t.Bs? || t.Ibs? || t.Obs? || t == Conv(Osync)
    case Ibs(_) => t.Bs? || t.Ibs?
    case Obs(_) => t.Bs? || t.Obs?
    case Cbs(_) => t.Cbs?
    case Count(_) => t.Count?
    case Files(_) => t.Files?
    case If(_) => t.If?
    case Of(_) => t.Of?
    case Seek(_) => t.Seek?
    case Skip(_) => t.Skip?
    case Status(_) => t.Status?
    case Conv(c) =>
      match c
      case Ascii => t == Conv(Ebcdic) || t == Conv(Ibm)
      case Ebcdic => t == Conv(Ascii)
      case Ibm => t == Conv(Ascii)
      case Block => t == Conv(Unblock)
      case Unblock => t == Conv(Block)
      case Lcase => t == Conv(Ucase)
      case Ucase => t == Conv(Lcase)
      case Osync => t.Bs?
      case _ => false
  }

  /** The flag that stands for a setting. */
  function Key(s: Setting): Flag
  {
    match s
    case Bs(_) => BS
    case Cbs(_) => CBS
    case Count(_) => COUNT
    case Files(_) => FILES
    case Ibs(_) => IBS
    case If(_) => IF
    case Obs(_) => OBS
    case Of(_) => OF
    case Seek(_) => SEEK
    case Skip(_) => SKIP
    case Status(_) => STATUS
    case Conv(c) =>
      match c
      case Ascii => ASCII
      case Block => BLOCK
      case Ebcdic => EBCDIC
      case Ibm => EBCDIC
      case Lcase => LCASE
      case Osync => OSYNC
      case Swab => SWAB
      case Sync => SYNC
      case Ucase => UCASE
      case Unblock => UNBLOCK
      case Noerror => NOERROR
      case Notrunc => NOTRUNC
  }

  lemma {:induction false} KeyBars(s: Setting, t: Setting)
    ensures Key(s) in Sets(s) && (Key(s) in Bars(t) <==> Excludes(s, t))
  {
  }

  lemma {:induction false} OnlyKeyBars(s: Setting, t: Setting, g: Flag)
    requires g in Sets(s) && g in Bars(t)
    ensures g == Key(s)
  {
    assert NOINFO !in Bars(t) && NOXFER !in Bars(t);
  }

  lemma {:induction false} Meets(s: Setting, t: Setting)
    ensures Sets(s) * Bars(t) != {} <==> Excludes(s, t)
  {
    hide Sets, Bars, Excludes, Key;
    KeyBars(s, t);
    if Excludes(s, t) {
      assert Key(s) in Sets(s) * Bars(t);
    } else {
      forall g | g in Sets(s) ensures g !in Bars(t) {
        if g in Bars(t) {
          OnlyKeyBars(s, t, g);
        }
      }
    }
  }

  /** Two settings may change places, unless they are rivals for the table. */
  lemma {:induction false} Swap(s: Setting, t: Setting, st: State)
    requires !Rivals(s, t)
    ensures Then(Apply(s, st), t) == Then(Apply(t, st), s)
  {
    hide Sets, Bars, Excludes, Effect, Rivals, Then, Apply;
    ApplyTwo(s, t, st);
    ApplyTwo(t, s, st);
    Barred(s, t);
    if Sets(s) * Bars(t) == {} {
      Meets(s, t);
      SwapEffects(s, t, st);
      assert st.flags + Sets(s) + Sets(t) == st.flags + Sets(t) + Sets(s);
    }
  }

  lemma {:induction false} ApplyTwo(s: Setting, t: Setting, st: State)
    ensures Then(Apply(s, st), t) ==
            if st.flags * Bars(s) != {} || st.flags * Bars(t) != {} || Sets(s) * Bars(t) != {} then Rejected
            else Accepted(Effect(t, Effect(s, st)).(flags := st.flags + Sets(s) + Sets(t)))
  {
    hide Sets, Bars, Effect;
    SplitBars(st.flags, Sets(s), Bars(t));
    EffectFlags(t, Effect(s, st), st.flags + Sets(s));
  }

  lemma {:induction false} SplitBars(f: Flags, a: Flags, b: Flags)
    ensures (f + a) * b == {} <==> f * b == {} && a * b == {}
  {
    assert (f + a) * b == f * b + a * b;
  }

  /** Effects neither look at flags nor change them. */
  lemma {:induction false} EffectFlags(s: Setting, st: State, f: Flags)
    ensures Effect(s, st.(flags := f)) == Effect(s, st).(flags := f)
  {
  }

  lemma {:induction false} SwapEffects(s: Setting, t: Setting, st: State)
    requires !Excludes(s, t) && !Rivals(s, t)
    ensures Effect(t, Effect(s, st)) == Effect(s, Effect(t, st))
  {
    match s {
      case Conv(_) =>
      case _ =>
        if t.Conv? {
        } else {
          SwapSizes(s, t, st);
        }
    }
  }

  lemma {:induction false} SwapSizes(s: Setting, t: Setting, st: State)
    requires !Excludes(s, t) && !s.Conv? && !t.Conv?
    ensures Effect(t, Effect(s, st)) == Effect(s, Effect(t, st))
  {
  }

  /** A setting can be moved to the front. */
  lemma {:induction false} ToFront(a: seq<Setting>, s: Setting, b: seq<Setting>, st: State)
    requires forall i :: 0 <= i < |a| ==> !Rivals(a[i], s)
    ensures ApplyAll(a + [s] + b, st) == ApplyAll([s] + a + b, st)
    decreases |a|
  {
    hide Apply, Rivals;
    if a == [] {
      assert a + [s] + b == [s] + a + b;
    } else {
      var t := a[0];
      assert a + [s] + b == [t] + (a[1..] + [s] + b);
      assert [s] + a + b == [s] + ([t] + (a[1..] + b));
      var o := Apply(t, st);
      OneThen(t, a[1..] + [s] + b, st);
      OneThen(s, [t] + (a[1..] + b), st);
      if o.Accepted? {
        ToFront(a[1..], s, b, o.st);
        assert [s] + a[1..] + b == [s] + (a[1..] + b);
        OneThen(s, a[1..] + b, o.st);
      }
      var p := Apply(s, st);
      if p.Accepted? {
        OneThen(t, a[1..] + b, p.st);
      }
      Swap(t, s, st);
    }
  }

  ghost predicate Tables(ss: seq<Setting>)
  {
    !(Conv(Ebcdic) in ss && Conv(Ibm) in ss)
  }

  /** The outcome does not depend on the order of settings with no rivals among them. */
  lemma {:induction false} AnySettingOrder(a: seq<Setting>, b: seq<Setting>, st: State)
    requires multiset(a) == multiset(b) && Tables(a)
    ensures ApplyAll(a, st) == ApplyAll(b, st)
    decreases |b|
  {
    hide Apply, ApplyAll, Rivals;
    if b == [] {
      assert |multiset(a)| == |a|;
    } else {
      var s := b[0];
      var k := TakeOut(a, b);
      var p, q := a[..k], a[k + 1..];
      FewerTables(a, k);
      ToFront(p, s, q, st);
      Joined(a, b, k);
      OneThen(s, p + q, st);
      OneThen(s, b[1..], st);
      var o := Apply(s, st);
      if o.Accepted? {
        AnySettingOrder(p + q, b[1..], o.st);
      }
    }
  }

  lemma {:induction false} Joined(a: seq<Setting>, b: seq<Setting>, k: nat)
    requires k < |a| && b != [] && a[k] == b[0]
    ensures a[..k] + [b[0]] + a[k + 1..] == a && [b[0]] + a[..k] + a[k + 1..] == [b[0]] + (a[..k] + a[k + 1..])
    ensures [b[0]] + b[1..] == b
  {
  }

  lemma {:induction false} FewerTables(a: seq<Setting>, k: nat)
    requires k < |a| && Tables(a)
    ensures Tables(a[..k] + a[k + 1..])
    ensures forall i :: 0 <= i < |a[..k]| ==> !Rivals(a[..k][i], a[k])
  {
    assert forall x :: x in a[..k] + a[k + 1..] ==> x in a;
    assert a[k] in a;
    forall i | 0 <= i < |a[..k]| ensures !Rivals(a[..k][i], a[k]) {
      assert a[..k][i] in a;
    }
  }

  /** The first of the one list is somewhere in the other; without it the two are still alike. */
  lemma {:induction false} TakeOut<T>(a: seq<T>, b: seq<T>) returns (k: nat)
    requires multiset(a) == multiset(b) && b != []
    ensures k < |a| && a[k] == b[0] && multiset(a[..k] + a[k + 1..]) == multiset(b[1..])
  {
    assert b[0] in multiset(b) && b[0] in a;
    k :| 0 <= k < |a| && a[k] == b[0];
    assert a == a[..k] + ([a[k]] + a[k + 1..]);
    assert b == [b[0]] + b[1..];
    var m, n := multiset(a[..k] + a[k + 1..]), multiset(b[1..]);
    assert multiset(a) == m + multiset{b[0]};
    assert multiset(b) == n + multiset{b[0]};
    Cancel(m, n, b[0]);
  }

  lemma {:induction false} Cancel<T>(m: multiset<T>, n: multiset<T>, x: T)
    requires m + multiset{x} == n + multiset{x}
    ensures m == n
  {
    assert m == m + multiset{x} - multiset{x};
  }

  lemma {:induction false} FlattenConcat(a: seq<Operand>, b: seq<Operand>)
    ensures Flatten(a + b) == Flatten(a) + Flatten(b)
  {
    if a == [] {
      assert a + b == b;
    } else {
      assert (a + b)[1..] == a[1..] + b;
      FlattenConcat(a[1..], b);
    }
  }

  lemma {:induction false} FlattenOrder(a: seq<Operand>, b: seq<Operand>)
    requires multiset(a) == multiset(b)
    ensures multiset(Flatten(a)) == multiset(Flatten(b))
    decreases |b|
  {
    hide Settings;
    if b == [] {
      assert |multiset(a)| == |a|;
    } else {
      var k := TakeOut(a, b);
      var p, q := a[..k], a[k + 1..];
      FlattenOrder(p + q, b[1..]);
      assert a == p + ([b[0]] + q) && ([b[0]] + q)[1..] == q;
      FlattenConcat(p, [b[0]] + q);
      FlattenConcat(p, q);
      assert multiset(Flatten(a)) == multiset(Flatten(p + q)) + multiset(Settings(b[0]));
    }
  }

  /** An outcome but for the conversion table. */
  function Plain(o: Outcome): Outcome
  {
    if o.Rejected? then o else Accepted(o.st.(ctab := NoTable))
  }

  /** "ibm" in the place of "ebcdic": the same but for the table. */
  function Same(s: Setting): Setting
  {
    if s == Conv(Ibm) then Conv(Ebcdic) else s
  }

  function AllSame(ss: seq<Setting>): (ts: seq<Setting>)
    ensures |ts| == |ss| && forall i :: 0 <= i < |ss| ==> ts[i] == Same(ss[i])
  {
    seq(|ss|, i requires 0 <= i < |ss| => Same(ss[i]))
  }

  lemma {:induction false} ApplySame(s: Setting, st: State, st': State)
    requires st.(ctab := NoTable) == st'.(ctab := NoTable)
    ensures Plain(Apply(s, st)) == Plain(Apply(Same(s), st'))
  {
  }

  lemma {:induction false} ApplyAllSame(ss: seq<Setting>, st: State, st': State)
    requires st.(ctab := NoTable) == st'.(ctab := NoTable)
    ensures Plain(ApplyAll(ss, st)) == Plain(ApplyAll(AllSame(ss), st'))
  {
    hide Apply, Same;
    if ss != [] {
      ApplySame(ss[0], st, st');
      assert AllSame(ss)[1..] == AllSame(ss[1..]);
      var o, o' := Apply(ss[0], st), Apply(Same(ss[0]), st');
      if o.Accepted? {
        ApplyAllSame(ss[1..], o.st, o'.st);
      }
    }
  }

  lemma {:induction false} AllSameOrder(a: seq<Setting>, b: seq<Setting>)
    requires multiset(a) == multiset(b)
    ensures multiset(AllSame(a)) == multiset(AllSame(b))
    decreases |b|
  {
    hide Same;
    if b == [] {
      assert |multiset(a)| == |a|;
    } else {
      var k := TakeOut(a, b);
      var p, q := a[..k], a[k + 1..];
      AllSameOrder(p + q, b[1..]);
      var s := AllSame(a);
      assert s == s[..k] + ([s[k]] + s[k + 1..]);
      assert AllSame(p + q) == s[..k] + s[k + 1..];
      assert AllSame(b) == [Same(b[0])] + AllSame(b[1..]);
    }
  }

  lemma {:induction false} CheckedPlain(st: State, st': State)
    requires st.(ctab := NoTable) == st'.(ctab := NoTable)
    ensures Plain(Checked(st)) == Plain(Checked(st'))
  {
  }

  /** In whatever order the operands come, they are accepted or rejected alike, with the same flags, sizes and offsets. */
  lemma {:induction false} AnyOrder(a: seq<Operand>, b: seq<Operand>)
    requires multiset(a) == multiset(b)
    ensures Plain(Whole(a)) == Plain(Whole(b))
  {
    hide Checked, ApplyAll, Flatten;
    assert Wrong in a <==> Wrong in multiset(a);
    assert Wrong in b <==> Wrong in multiset(b);
    FlattenOrder(a, b);
    var s, t := Flatten(a), Flatten(b);
    AllSameOrder(s, t);
    ApplyAllSame(s, START, START);
    ApplyAllSame(t, START, START);
    assert Tables(AllSame(s));
    AnySettingOrder(AllSame(s), AllSame(t), START);
    var o, o' := ApplyAll(s, START), ApplyAll(t, START);
    if o.Accepted? {
      CheckedPlain(o.st, o'.st);
    }
  }

  /** And with the same table, unless both "ebcdic" and "ibm" are named. */
  lemma {:induction false} AnyOrderTable(a: seq<Operand>, b: seq<Operand>)
    requires multiset(a) == multiset(b) && Tables(Flatten(a))
    ensures Whole(a) == Whole(b)
  {
    hide Checked, ApplyAll, Flatten;
    assert Wrong in a <==> Wrong in multiset(a);
    assert Wrong in b <==> Wrong in multiset(b);
    FlattenOrder(a, b);
    AnySettingOrder(Flatten(a), Flatten(b), START);
  }

  // -------- what is rejected --------

  /** What all settings together ask for, whether or not they may stand together. */
  function Gathered(ss: seq<Setting>, st: State): State
  {
    if ss == [] then st else Gathered(ss[1..], Effect(ss[0], st).(flags := st.flags + Sets(ss[0])))
  }

  /** Two settings exclude one another. */
  ghost predicate Clash(ss: seq<Setting>)
  {
    exists i, j :: 0 <= i < j < |ss| && Excludes(ss[i], ss[j])
  }

  ghost predicate Open(ss: seq<Setting>, f: Flags)
  {
    forall i :: 0 <= i < |ss| ==> f * Bars(ss[i]) == {}
  }

  /** Settings are accepted exactly if no flag set before bars one of them and no two exclude one another. */
  lemma {:induction false} AcceptedExact(ss: seq<Setting>, st: State)
    ensures ApplyAll(ss, st) == if Open(ss, st.flags) && !Clash(ss) then Accepted(Gathered(ss, st)) else Rejected
  {
    hide Sets, Bars, Excludes, Effect, Clash, Open;
    if ss == [] {
      NothingClashes(st.flags);
    } else {
      var s, f := ss[0], st.flags + Sets(ss[0]);
      OpenFirst(ss, st.flags);
      ClashFirst(ss);
      AcceptedExact(ss[1..], Effect(s, st).(flags := f));
    }
  }

  lemma {:induction false} NothingClashes(f: Flags)
    ensures Open([], f) && !Clash([])
  {
  }

  lemma {:induction false} OpenFirst(ss: seq<Setting>, f: Flags)
    requires ss != []
    ensures Open(ss, f) <==> f * Bars(ss[0]) == {} && Open(ss[1..], f)
    ensures Open(ss[1..], f + Sets(ss[0])) <==> Open(ss[1..], f) && forall j :: 0 < j < |ss| ==> !Excludes(ss[0], ss[j])
  {
    hide Sets, Bars, Excludes;
    var rest := ss[1..];
    assert forall j :: 0 < j < |ss| ==> ss[j] == rest[j - 1];
    forall j | 0 <= j < |rest|
      ensures (f + Sets(ss[0])) * Bars(rest[j]) == {} <==> f * Bars(rest[j]) == {} && !Excludes(ss[0], ss[j + 1]) {
      SplitBars(f, Sets(ss[0]), Bars(rest[j]));
      Meets(ss[0], rest[j]);
    }
  }

  lemma {:induction false} ClashFirst(ss: seq<Setting>)
    requires ss != []
    ensures Clash(ss) <==> Clash(ss[1..]) || exists j :: 0 < j < |ss| && Excludes(ss[0], ss[j])
  {
    hide Excludes;
    var rest := ss[1..];
    if Clash(rest) {
      var i, j :| 0 <= i < j < |rest| && Excludes(rest[i], rest[j]);
      assert Excludes(ss[i + 1], ss[j + 1]);
    }
    if Clash(ss) {
      var i, j :| 0 <= i < j < |ss| && Excludes(ss[i], ss[j]);
      if i > 0 {
        assert Excludes(rest[i - 1], rest[j - 1]);
      }
    }
  }

  /** Record operations are asked for, or implied by a record size with a change of character set. */
  predicate Records(f: Flags)
  {
    BLOCK in f || UNBLOCK in f || (CBS in f && (ASCII in f || EBCDIC in f))
  }

  /**
   What the final checks ask: a record size exactly with record operations, block sizes that can be
   read and written, and offsets that a file can have.
   */
  predicate Sane(st: State)
  {
    && (CBS in st.flags <==> Records(st.flags)) && (CBS in st.flags ==> st.cbs > 0)
    && st.cbs <= SSIZE_MAX && 0 < st.ibs <= SSIZE_MAX && 0 < st.obs <= SSIZE_MAX
    && 0 <= st.skip <= QUAD_MAX / st.ibs && 0 <= st.seek <= QUAD_MAX / st.obs
  }

  lemma {:induction false} CheckedExact(st: State)
    ensures Checked(st).Accepted? <==> Sane(st)
  {
    hide Implied;
    ImpliedExact(st);
    if Implied(st).Accepted? && 0 < st.ibs <= SSIZE_MAX && 0 < st.obs <= SSIZE_MAX {
      UnsignedRange(st.skip, st.ibs);
      UnsignedRange(st.seek, st.obs);
    }
  }

  lemma {:induction false} ImpliedExact(st: State)
    ensures Implied(st).Accepted? <==> (CBS in st.flags <==> Records(st.flags)) && (CBS in st.flags ==> st.cbs > 0)
    ensures Implied(st).Accepted? ==> Implied(st).st == st.(flags := Implied(st).st.flags)
  {
  }

  lemma {:induction false} UnsignedRange(o: Offset, n: Size)
    requires 0 < n <= SSIZE_MAX
    ensures AsUnsigned(o) <= QUAD_MAX / n <==> 0 <= o <= QUAD_MAX / n
  {
    assert QUAD_MAX / n <= QUAD_MAX;
  }

  /** Operands are accepted exactly if none is wrong, no two exclude one another and the final checks hold. */
  lemma {:induction false} WholeExact(ops: seq<Operand>)
    ensures Whole(ops).Rejected? <==> Wrong in ops || Clash(Flatten(ops)) || !Sane(Gathered(Flatten(ops), START))
  {
    hide ApplyAll, Checked, Clash, Gathered, Flatten, Sane, Open;
    var ss := Flatten(ops);
    AcceptedExact(ss, START);
    NothingBarred(ss);
    CheckedExact(Gathered(ss, START));
  }

  lemma {:induction false} NothingBarred(ss: seq<Setting>)
    ensures Open(ss, START.flags)
  {
  }

  // -------- where the order shows --------

  function TableOf(s: Setting, t: Table): Table
  {
    match s
    case Conv(Ascii) => E2A
    case Conv(Ebcdic) => A2E
    case Conv(Ibm) => A2IBM
    case _ => t
  }

  /** The table of the last setting that gives one. */
  function LastTable(ss: seq<Setting>, t: Table): Table
  {
    if ss == [] then t else LastTable(ss[1..], TableOf(ss[0], t))
  }

  /** The table an operand leaves behind it, if it gives one. */
  function Own(op: Operand): Table
  {
    LastTable(Settings(op), NoTable)
  }

  lemma {:induction false} LastWins(ss: seq<Setting>, st: State)
    requires ApplyAll(ss, st).Accepted?
    ensures ApplyAll(ss, st).st.ctab == LastTable(ss, st.ctab)
  {
    hide Sets, Bars;
    if ss != [] {
      LastWins(ss[1..], Apply(ss[0], st).st);
    }
  }

  lemma {:induction false} WholeTable(ops: seq<Operand>)
    requires Whole(ops).Accepted?
    ensures Whole(ops).st.ctab == LastTable(Flatten(ops), NoTable)
  {
    hide ApplyAll, LastTable, Flatten;
    LastWins(Flatten(ops), START);
  }

  /** Of the same operands in two orders, all that can differ is which table comes last. */
  lemma {:induction false} SameOutcome(a: seq<Operand>, b: seq<Operand>)
    requires multiset(a) == multiset(b)
    ensures Whole(a) == Whole(b) <==>
            Whole(a).Rejected? || LastTable(Flatten(a), NoTable) == LastTable(Flatten(b), NoTable)
  {
    hide Whole, LastTable, Flatten;
    AnyOrder(a, b);
    if Whole(a).Accepted? {
      WholeTable(a);
      WholeTable(b);
      var x, y := Whole(a).st, Whole(b).st;
      assert x.(ctab := NoTable).(ctab := x.ctab) == x && y.(ctab := NoTable).(ctab := y.ctab) == y;
    }
  }

  lemma {:induction false} LastConcat(a: seq<Setting>, b: seq<Setting>, t: Table)
    ensures LastTable(a + b, t) == LastTable(b, LastTable(a, t))
  {
    hide TableOf;
    if a == [] {
      assert a + b == b;
    } else {
      assert (a + b)[1..] == a[1..] + b;
      LastConcat(a[1..], b, TableOf(a[0], t));
    }
  }

  /** Settings that give a table hide what was there before; others leave it. */
  lemma {:induction false} LastFrom(ss: seq<Setting>, t: Table)
    ensures LastTable(ss, t) == if LastTable(ss, NoTable) == NoTable then t else LastTable(ss, NoTable)
  {
    if ss != [] {
      LastFrom(ss[1..], TableOf(ss[0], t));
      LastFrom(ss[1..], TableOf(ss[0], NoTable));
    }
  }

  lemma {:induction false} LastOperand(ops: seq<Operand>, op: Operand)
    ensures LastTable(Flatten(ops + [op]), NoTable) == if Own(op) == NoTable then LastTable(Flatten(ops), NoTable) else Own(op)
  {
    hide LastTable, Settings;
    FlattenConcat(ops, [op]);
    assert [op][1..] == [];
    assert Flatten([op]) == Settings(op);
    LastConcat(Flatten(ops), Settings(op), NoTable);
    LastFrom(Settings(op), LastTable(Flatten(ops), NoTable));
  }

  /** No two operands give different tables. */
  ghost predicate Agree(ops: seq<Operand>)
  {
    forall x, y :: x in ops && y in ops && Own(x) != NoTable && Own(y) != NoTable ==> Own(x) == Own(y)
  }

  ghost predicate AnyOrderSame(ops: seq<Operand>)
  {
    forall b :: multiset(b) == multiset(ops) ==> Whole(b) == Whole(ops)
  }

  /** With no two tables among the operands, the last table is the one that any of them gives. */
  lemma {:induction false} AgreedTable(ops: seq<Operand>)
    requires Agree(ops)
    ensures forall x :: x in ops && Own(x) != NoTable ==> LastTable(Flatten(ops), NoTable) == Own(x)
    ensures (forall x :: x in ops ==> Own(x) == NoTable) ==> LastTable(Flatten(ops), NoTable) == NoTable
  {
    hide LastTable, Own, Flatten;
    if ops == [] {
      NoneGiven();
    } else {
      var n := |ops| - 1;
      var rest, op := ops[..n], ops[n];
      assert ops == rest + [op];
      assert forall x :: x in rest ==> x in ops;
      AgreedTable(rest);
      LastOperand(rest, op);
    }
  }

  lemma {:induction false} NoneGiven()
    ensures LastTable(Flatten([]), NoTable) == NoTable
  {
  }

  lemma {:induction false} AgreedOrder(a: seq<Operand>, b: seq<Operand>)
    requires multiset(a) == multiset(b) && Agree(a)
    ensures LastTable(Flatten(a), NoTable) == LastTable(Flatten(b), NoTable)
  {
    hide LastTable, Own, Flatten;
    assert forall x :: x in a <==> x in multiset(a);
    assert forall x :: x in b <==> x in multiset(b);
    AgreedTable(a);
    AgreedTable(b);
  }

  /** The operand at `k` moved to the end. */
  function Delayed(ops: seq<Operand>, k: nat): seq<Operand>
    requires k < |ops|
  {
    ops[..k] + ops[k + 1..] + [ops[k]]
  }

  lemma {:induction false} DelayedOrder(ops: seq<Operand>, k: nat)
    requires k < |ops|
    ensures multiset(Delayed(ops, k)) == multiset(ops)
  {
    assert ops == ops[..k] + ([ops[k]] + ops[k + 1..]);
  }

  /** An operand that gives another table than the one in force has only to come last. */
  lemma {:induction false} OrderTells(ops: seq<Operand>, x: Operand)
    requires Whole(ops).Accepted? && x in ops && Own(x) != NoTable && Own(x) != LastTable(Flatten(ops), NoTable)
    ensures !AnyOrderSame(ops)
  {
    hide Whole, LastTable, Own, Flatten;
    var k :| 0 <= k < |ops| && ops[k] == x;
    var b := Delayed(ops, k);
    DelayedOrder(ops, k);
    LastOperand(ops[..k] + ops[k + 1..], x);
    SameOutcome(ops, b);
    assert Whole(b) != Whole(ops);
  }

  /**
   The order of the operands makes no difference exactly if one is wrong, two exclude one another, a final
   check fails, or no two of them give different tables.
   */
  lemma {:induction false} OrderExact(ops: seq<Operand>)
    ensures AnyOrderSame(ops) <==>
            Wrong in ops || Clash(Flatten(ops)) || !Sane(Gathered(Flatten(ops), START)) || Agree(ops)
  {
    hide Whole, AnyOrderSame, Agree, Clash, Sane, Gathered, Flatten;
    WholeExact(ops);
    OrderTold(ops);
  }

  lemma {:induction false} OrderTold(ops: seq<Operand>)
    ensures AnyOrderSame(ops) <==> Whole(ops).Rejected? || Agree(ops)
  {
    hide Whole, LastTable, Own, Flatten;
    if Whole(ops).Rejected? || Agree(ops) {
      forall b | multiset(b) == multiset(ops) ensures Whole(b) == Whole(ops) {
        SameOutcome(ops, b);
        if Agree(ops) {
          AgreedOrder(ops, b);
        }
      }
    } else {
      var x, y :| x in ops && y in ops && Own(x) != NoTable && Own(y) != NoTable && Own(x) != Own(y);
      if Own(x) != LastTable(Flatten(ops), NoTable) {
        OrderTells(ops, x);
      } else {
        OrderTells(ops, y);
      }
    }
  }

  /** "ebcdic" and "ibm" in two operands: the later one wins, so the order shows. */
  lemma {:induction false} TableDepends()
    ensures Whole([Convs([Ebcdic]), Convs([Ibm])]) == Accepted(START.(flags := {EBCDIC}, ctab := A2IBM))
    ensures Whole([Convs([Ibm]), Convs([Ebcdic])]) == Accepted(START.(flags := {EBCDIC}, ctab := A2E))
  {
    TwoTables(Ebcdic, Ibm, A2E, A2IBM);
    TwoTables(Ibm, Ebcdic, A2IBM, A2E);
  }

  lemma {:induction false} TwoTables(c: Conversion, d: Conversion, x: Table, y: Table)
    requires (c == Ebcdic && d == Ibm && x == A2E && y == A2IBM) || (c == Ibm && d == Ebcdic && x == A2IBM && y == A2E)
    ensures Whole([Convs([c]), Convs([d])]) == Accepted(START.(flags := {EBCDIC}, ctab := y))
  {
    hide ApplyAll, Apply;
    TwoOperands(c, d);
    OneThen(Conv(c), [Conv(d)], START);
    var st := START.(flags := {EBCDIC}, ctab := x);
    ApplyTable(c, START, x);
    assert [Conv(d)] == [Conv(d)] + [];
    OneThen(Conv(d), [], st);
    ApplyTable(d, st, y);
    AllDone(st.(ctab := y));
  }

  lemma {:induction false} TwoOperands(c: Conversion, d: Conversion)
    ensures Flatten([Convs([c]), Convs([d])]) == [Conv(c)] + [Conv(d)]
  {
    var ops := [Convs([c]), Convs([d])];
    assert ops[1..] == [Convs([d])] && ops[1..][1..] == [];
    assert Flatten(ops[1..]) == Settings(Convs([d]));
    assert Settings(Convs([c])) == [Conv(c)] && Settings(Convs([d])) == [Conv(d)];
  }

  lemma {:induction false} ApplyTable(c: Conversion, st: State, x: Table)
    requires (c == Ebcdic && x == A2E) || (c == Ibm && x == A2IBM)
    requires st.flags <= {EBCDIC}
    ensures Apply(Conv(c), st) == Accepted(st.(flags := {EBCDIC}, ctab := x))
  {
    assert st.flags * {ASCII} == {} && st.flags + {EBCDIC} == {EBCDIC};
  }

  lemma {:induction false} AllDone(st: State)
    ensures ApplyAll([], st) == Accepted(st)
  {
  }

  // -------- what is accepted --------

  ghost predicate Exclusive(f: Flags)
  {
    !(ASCII in f && EBCDIC in f) && !(BLOCK in f && UNBLOCK in f) && !(LCASE in f && UCASE in f)
  }

  lemma {:induction false} StaysExclusive(ss: seq<Setting>, st: State)
    requires Exclusive(st.flags) && ApplyAll(ss, st).Accepted?
    ensures Exclusive(ApplyAll(ss, st).st.flags)
  {
    if ss != [] {
      OneExclusive(ss[0], st);
      StaysExclusive(ss[1..], Apply(ss[0], st).st);
    }
  }

  lemma {:induction false} OneExclusive(s: Setting, st: State)
    requires Exclusive(st.flags) && Apply(s, st).Accepted?
    ensures Exclusive(Apply(s, st).st.flags)
  {
    var f := st.flags;
    assert forall g :: g in f && g in Bars(s) ==> g in f * Bars(s);
  }

  /**
   What is accepted holds no two conversions that exclude one another, does record
   operations only with a record size, and neither offset leaves the range of a file.
   */
  lemma {:induction false} AcceptedIsSound(ops: seq<Operand>)
    requires Whole(ops).Accepted?
    ensures var st := Whole(ops).st;
            && Exclusive(st.flags)
            && (BLOCK in st.flags || UNBLOCK in st.flags <==> CBS in st.flags) && (CBS in st.flags ==> st.cbs > 0)
            && 0 < st.ibs <= SSIZE_MAX && 0 < st.obs <= SSIZE_MAX
            && 0 <= st.skip && st.skip * st.ibs <= QUAD_MAX && 0 <= st.seek && st.seek * st.obs <= QUAD_MAX
  {
    hide ApplyAll, Flatten;
    StaysExclusive(Flatten(ops), START);
    var st := Whole(ops).st;
    InRange(st.skip, st.ibs);
    InRange(st.seek, st.obs);
  }

  lemma {:induction false} InRange(o: Offset, n: Size)
    requires 0 < n <= SSIZE_MAX && AsUnsigned(o) <= QUAD_MAX / n
    ensures 0 <= o && o * n <= QUAD_MAX
  {
    var q := QUAD_MAX / n;
    assert q * n <= QUAD_MAX;
    assert q <= QUAD_MAX;
    assert o >= 0;
    Scale(o, q, n);
  }

}
