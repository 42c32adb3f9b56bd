/**
 What `dd` ends with: each size, name, offset and flag of the outcome, told from
 the operands one by one.
 */
module DdFields {
  import opened Dd
  import opened DdSizes
  import opened Options

  // -------- one field at a time --------

  datatype Field = InSize | OutSize | RecordSize | Blocks | FileCount | InOffset | OutOffset | InName | OutName

  datatype Value = Number(n: int) | Name(s: string)

  function Held(k: Field, st: State): Value
  {
    match k
    case InSize => Number(st.ibs)
    case OutSize => Number(st.obs)
    case RecordSize => Number(st.cbs)
    case Blocks => Number(st.count)
    case FileCount => Number(st.files)
    case InOffset => Number(st.skip)
    case OutOffset => Number(st.seek)
    case InName => Name(st.inName)
    case OutName => Name(st.outName)
  }

  /** The value that a setting names for a field; no blocks at all stands for all of them. */
  function Named(k: Field, s: Setting): Option<Value>
  {
    match k
    case InSize => if s.Bs? || s.Ibs? then Some(Number(s.n)) else None
    case OutSize => if s.Bs? || s.Obs? then Some(Number(s.n)) else None
    case RecordSize => if s.Cbs? then Some(Number(s.n)) else None
    case Blocks => if s.Count? then Some(Number(if s.n == 0 then WORD - 1 else s.n)) else None
    case FileCount => if s.Files? then Some(Number(s.n)) else None
    case InOffset => if s.Skip? then Some(Number(s.o)) else None
    case OutOffset => if s.Seek? then Some(Number(s.o)) else None
    case InName => if s.If? then Some(Name(s.name)) else None
    case OutName => if s.Of? then Some(Name(s.name)) else None
  }

  lemma {:induction false} OneEffect(k: Field, s: Setting, st: State)
    ensures Held(k, Effect(s, st)) == if Named(k, s).Some? then Named(k, s).value else Held(k, st)
  {
  }

  /** Two settings that name the same field exclude one another. */
  lemma {:induction false} NamedTwice(k: Field, s: Setting, t: Setting)
    requires Named(k, s).Some? && Named(k, t).Some?
    ensures Excludes(s, t)
  {
  }

  ghost predicate Nowhere(k: Field, ss: seq<Setting>)
  {
    forall i :: 0 <= i < |ss| ==> Named(k, ss[i]).None?
  }

  /** A field holds what any setting names for it, and what it held before if none does. */
  lemma {:induction false} FieldGathered(k: Field, ss: seq<Setting>, st: State)
    requires !Clash(ss)
    ensures forall i :: 0 <= i < |ss| && Named(k, ss[i]).Some? ==> Held(k, Gathered(ss, st)) == Named(k, ss[i]).value
    ensures Nowhere(k, ss) ==> Held(k, Gathered(ss, st)) == Held(k, st)
  {
    hide Clash, Excludes, Named, Held, Effect, Sets;
    if ss != [] {
      var s, rest := ss[0], ss[1..];
      var next := Effect(s, st).(flags := st.flags + Sets(s));
      ClashFirst(ss);
      FieldGathered(k, rest, next);
      OneEffect(k, s, st);
      FlagsApart(k, Effect(s, st), st.flags + Sets(s));
      assert forall i :: 0 < i < |ss| ==> ss[i] == rest[i - 1];
      if Named(k, s).Some? {
        forall i | 0 <= i < |rest| ensures Named(k, rest[i]).None? {
          if Named(k, rest[i]).Some? {
            NamedTwice(k, s, rest[i]);
            assert false;
          }
        }
      }
    }
  }

  lemma {:induction false} FlagsApart(k: Field, st: State, f: Flags)
    ensures Held(k, st.(flags := f)) == Held(k, st)
  {
  }

  // -------- flags --------

  /** A setting marks its own flag, and `status` one more. */
  predicate Marks(s: Setting, g: Flag)
  {
    g == Key(s) || (s.Status? && g == if s.none then NOINFO else NOXFER)
  }

  lemma {:induction false} OneMark(s: Setting, g: Flag)
    ensures g in Sets(s) <==> Marks(s, g)
  {
  }

  lemma {:induction false} FlagGathered(g: Flag, ss: seq<Setting>, st: State)
    ensures g in Gathered(ss, st).flags <==> g in st.flags || Marked(ss, g)
  {
    hide Marks, Effect, Sets;
    if ss != [] {
      var s, rest := ss[0], ss[1..];
      FlagGathered(g, rest, Effect(s, st).(flags := st.flags + Sets(s)));
      OneMark(s, g);
      assert forall i :: 0 < i < |ss| ==> ss[i] == rest[i - 1];
      if exists i :: 0 <= i < |rest| && Marks(rest[i], g) {
        var i :| 0 <= i < |rest| && Marks(rest[i], g);
        assert Marks(ss[i + 1], g);
      }
    }
  }

  /** Any of the conversions that take away what "bs" means. */
  predicate Converts(f: Flags)
  {
    BLOCK in f || LCASE in f || SWAB in f || UCASE in f || UNBLOCK in f
  }

  /** The flags in the end: conversions take "bs" off, and a change of character set with a record size implies what to do with records. */
  predicate Ends(f: Flags, g: Flag)
  {
    if g == BS then BS in f && !Converts(f)
    else if g == UNBLOCK then UNBLOCK in f || (BLOCK !in f && CBS in f && ASCII in f)
    else if g == BLOCK then BLOCK in f || (UNBLOCK !in f && CBS in f && ASCII !in f && EBCDIC in f)
    else g in f
  }

  lemma {:induction false} FlagChecked(st: State, g: Flag)
    requires Checked(st).Accepted?
    ensures g in Checked(st).st.flags <==> Ends(st.flags, g)
    ensures Checked(st).st == st.(flags := Checked(st).st.flags)
  {
    hide Implied, Ends;
    ImpliedExact(st);
    FlagImplied(st, g);
  }

  lemma {:induction false} FlagImplied(st: State, g: Flag)
    requires Implied(st).Accepted?
    ensures g in Implied(st).st.flags <==> Ends(st.flags, g)
  {
    hide Converts;
    ConversionsMeet(st.flags);
    ConversionsStay(st.flags);
  }

  lemma {:induction false} ConversionsStay(f: Flags)
    ensures BLOCK in f || UNBLOCK in f ==> Converts(f)
  {
  }

  lemma {:induction false} ConversionsMeet(f: Flags)
    ensures f * {BLOCK, LCASE, SWAB, UCASE, UNBLOCK} != {} <==> Converts(f)
  {
    if Converts(f) {
      var g := if BLOCK in f then BLOCK else if LCASE in f then LCASE else if SWAB in f then SWAB else if UCASE in f then UCASE else UNBLOCK;
      assert g in f * {BLOCK, LCASE, SWAB, UCASE, UNBLOCK};
    }
  }

  // -------- the outcome --------

  lemma {:induction false} WholeGathered(ops: seq<Operand>)
    requires Whole(ops).Accepted?
    ensures !Clash(Flatten(ops)) && Checked(Gathered(Flatten(ops), START)).Accepted?
    ensures Whole(ops) == Checked(Gathered(Flatten(ops), START))
  {
    hide ApplyAll, Checked, Clash, Gathered, Flatten, Open;
    AcceptedExact(Flatten(ops), START);
    NothingBarred(Flatten(ops));
  }

  lemma {:induction false} FieldEnd(ops: seq<Operand>, k: Field)
    requires Whole(ops).Accepted?
    ensures var ss := Flatten(ops);
            && (forall i :: 0 <= i < |ss| && Named(k, ss[i]).Some? ==> Held(k, Whole(ops).st) == Named(k, ss[i]).value)
            && (Nowhere(k, ss) ==> Held(k, Whole(ops).st) == Held(k, START))
  {
    hide Whole, Checked, Clash, Gathered, Flatten, Named;
    WholeGathered(ops);
    var ss := Flatten(ops);
    var st := Gathered(ss, START);
    FieldGathered(k, ss, START);
    FlagChecked(st, BS);
    FlagsApart(k, st, Whole(ops).st.flags);
  }

  lemma {:induction false} FieldGiven(ops: seq<Operand>, k: Field, s: Setting)
    requires Whole(ops).Accepted? && s in Flatten(ops) && Named(k, s).Some?
    ensures Held(k, Whole(ops).st) == Named(k, s).value
  {
    hide Whole, Flatten, Named, Held;
    FieldEnd(ops, k);
    var ss := Flatten(ops);
    var i :| 0 <= i < |ss| && ss[i] == s;
  }

  lemma {:induction false} FieldStart(ops: seq<Operand>, k: Field)
    requires Whole(ops).Accepted? && Nowhere(k, Flatten(ops))
    ensures Held(k, Whole(ops).st) == Held(k, START)
  {
    hide Whole, Flatten, Named, Held, Nowhere;
    FieldEnd(ops, k);
  }

  /** Offsets, sizes and names in the end are those of the operands, for every setting of them. */
  lemma {:induction false} OperandsKept(ops: seq<Operand>, s: Setting)
    requires Whole(ops).Accepted? && s in Flatten(ops)
    ensures var st := Whole(ops).st;
            && (s.Skip? ==> st.skip == s.o) && (s.Seek? ==> st.seek == s.o)
            && (s.Ibs? ==> st.ibs == s.n) && (s.Obs? ==> st.obs == s.n) && (s.Bs? ==> st.ibs == st.obs == s.n)
            && (s.Cbs? ==> st.cbs == s.n) && (s.Files? ==> st.files == s.n)
            && (s.Count? ==> st.count == if s.n == 0 then WORD - 1 else s.n)
            && (s.If? ==> st.inName == s.name) && (s.Of? ==> st.outName == s.name)
  {
    hide Whole, Flatten;
    match s {
      case Skip(_) => FieldGiven(ops, InOffset, s);
      case Seek(_) => FieldGiven(ops, OutOffset, s);
      case Ibs(_) => FieldGiven(ops, InSize, s);
      case Obs(_) => FieldGiven(ops, OutSize, s);
      case Bs(_) =>
        FieldGiven(ops, InSize, s);
        FieldGiven(ops, OutSize, s);
      case Cbs(_) => FieldGiven(ops, RecordSize, s);
      case Files(_) => FieldGiven(ops, FileCount, s);
      case Count(_) => FieldGiven(ops, Blocks, s);
      case If(_) => FieldGiven(ops, InName, s);
      case Of(_) => FieldGiven(ops, OutName, s);
      case _ =>
    }
  }

  /** What no operand names is as at the start. */
  lemma {:induction false} OffsetsStart(ops: seq<Operand>)
    requires Whole(ops).Accepted?
    ensures var ss, st := Flatten(ops), Whole(ops).st;
            && ((forall i :: 0 <= i < |ss| ==> !ss[i].Skip?) ==> st.skip == 0)
            && ((forall i :: 0 <= i < |ss| ==> !ss[i].Seek?) ==> st.seek == 0)
            && ((forall i :: 0 <= i < |ss| ==> !ss[i].If?) ==> st.inName == "")
            && ((forall i :: 0 <= i < |ss| ==> !ss[i].Of?) ==> st.outName == "")
  {
    hide Whole, Flatten;
    var ss := Flatten(ops);
    if forall i :: 0 <= i < |ss| ==> !ss[i].Skip? {
      FieldStart(ops, InOffset);
    }
    if forall i :: 0 <= i < |ss| ==> !ss[i].Seek? {
      FieldStart(ops, OutOffset);
    }
    if forall i :: 0 <= i < |ss| ==> !ss[i].If? {
      FieldStart(ops, InName);
    }
    if forall i :: 0 <= i < |ss| ==> !ss[i].Of? {
      FieldStart(ops, OutName);
    }
  }

  lemma {:induction false} SizesStart(ops: seq<Operand>)
    requires Whole(ops).Accepted?
    ensures var ss, st := Flatten(ops), Whole(ops).st;
            && ((forall i :: 0 <= i < |ss| ==> !ss[i].Ibs? && !ss[i].Bs?) ==> st.ibs == 512)
            && ((forall i :: 0 <= i < |ss| ==> !ss[i].Obs? && !ss[i].Bs?) ==> st.obs == 512)
            && ((forall i :: 0 <= i < |ss| ==> !ss[i].Cbs?) ==> st.cbs == 0)
            && ((forall i :: 0 <= i < |ss| ==> !ss[i].Files?) ==> st.files == 1)
            && ((forall i :: 0 <= i < |ss| ==> !ss[i].Count?) ==> st.count == 0)
  {
    hide Whole, Flatten;
    var ss := Flatten(ops);
    if forall i :: 0 <= i < |ss| ==> !ss[i].Ibs? && !ss[i].Bs? {
      FieldStart(ops, InSize);
    }
    if forall i :: 0 <= i < |ss| ==> !ss[i].Obs? && !ss[i].Bs? {
      FieldStart(ops, OutSize);
    }
    if forall i :: 0 <= i < |ss| ==> !ss[i].Cbs? {
      FieldStart(ops, RecordSize);
    }
    if forall i :: 0 <= i < |ss| ==> !ss[i].Files? {
      FieldStart(ops, FileCount);
    }
    if forall i :: 0 <= i < |ss| ==> !ss[i].Count? {
      FieldStart(ops, Blocks);
    }
  }

  ghost predicate Marked(ss: seq<Setting>, g: Flag)
  {
    exists i :: 0 <= i < |ss| && Marks(ss[i], g)
  }

  /** A flag is set in the end exactly if the flags that the operands mark say so. */
  lemma {:induction false} FlagsKept(ops: seq<Operand>, f: Flags, g: Flag)
    requires Whole(ops).Accepted? && forall h :: h in f <==> Marked(Flatten(ops), h)
    ensures g in Whole(ops).st.flags <==> Ends(f, g)
  {
    hide Whole, Checked, Clash, Gathered, Flatten, Marked, Ends;
    WholeGathered(ops);
    var st := Gathered(Flatten(ops), START);
    FlagChecked(st, g);
    forall h: Flag ensures h in st.flags <==> h in f {
      FlagGathered(h, Flatten(ops), START);
    }
    assert f == st.flags;
  }
}
