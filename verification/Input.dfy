/**
 The shell's input (`lex.c`): a file that can be positioned is read through one
 buffer; anything else through a growing list of blocks, so that a loop can go
 back over what it has read.
 */
module Input {

  const BUFSIZ: nat := 1024

  type Byte = b: int | 0 <= b < 256

  function Min(a: nat, b: nat): nat
  {
    if a < b then a else b
  }

  /** How much one read gives: at least a byte where there is one, at most what is asked for. */
  function Given(give: nat, room: nat, left: nat): (c: nat)
    ensures c <= room && c <= left && (room > 0 && left > 0 ==> c > 0)
  {
    Min(Min(if give == 0 then 1 else give, room), left)
  }

  /** The byte at a position, or -1 past the end. */
  function ByteAt(data: seq<Byte>, pos: nat): int
  {
    if pos < |data| then data[pos] else -1
  }

  function After(data: seq<Byte>, pos: nat): nat
  {
    if pos < |data| then pos + 1 else pos
  }

  // -------- a file that can be positioned --------

  class Seekable {
    const file: seq<Byte>
    const fbuf: array<Byte>
    var fbobp: nat
    var feobp: nat
    var fseekp: nat

    /** Where the kernel is in the file. */
    var offset: nat

    /** The buffer holds the bytes from `fbobp` to `feobp`, where the kernel stands. */
    ghost predicate Valid()
      reads this, fbuf
    {
      && fbuf.Length == BUFSIZ && fbobp <= feobp <= fbobp + BUFSIZ && offset == feobp
      && (fbobp < feobp ==> feobp <= |file|)
      && forall i :: fbobp <= i < feobp ==> i < |file| && fbuf[i - fbobp] == file[i]
    }

    constructor (data: seq<Byte>, at: nat)
      ensures Valid() && file == data && fseekp == at && fresh(fbuf)
    {
      file := data;
      fbuf := new Byte[BUFSIZ];
      fbobp, feobp, fseekp, offset := at, at, at, at;
    }

    /** `read` into the buffer; `give` is how much the kernel has ready. */
    method Fill(give: nat) returns (c: nat)
      requires Valid() && fbobp == feobp
      modifies this, fbuf
      ensures Valid() && fbobp == old(feobp) && feobp == fbobp + c && fseekp == old(fseekp)
      ensures c == 0 <==> old(feobp) >= |file|
    {
      c := if offset < |file| then Given(give, BUFSIZ, |file| - offset) else 0;
      for i := 0 to c
        invariant fbobp == old(fbobp) && feobp == old(feobp) && fseekp == old(fseekp) && offset == old(offset)
        invariant forall k :: 0 <= k < i ==> fbuf[k] == file[offset + k]
      {
        fbuf[i] := file[offset + i];
      }
      offset := offset + c;
      feobp := feobp + c;
    }

    /** `bgetc`: the byte of the file at the current position, whatever was read or sought before. */
    method Bgetc(give: nat) returns (r: int)
      requires Valid()
      modifies this, fbuf
      ensures Valid() && r == ByteAt(file, old(fseekp)) && fseekp == After(file, old(fseekp))
    {
      if fseekp < fbobp || fseekp > feobp {
        fbobp, feobp, offset := fseekp, fseekp, fseekp;
      }
      if fseekp == feobp {
        fbobp := feobp;
        var c := Fill(give);
        if c == 0 {
          return -1;
        }
      }
      r := fbuf[fseekp - fbobp];
      fseekp := fseekp + 1;
    }

    method Bseek(to: nat)
      requires Valid()
      modifies this`fseekp
      ensures Valid() && fseekp == to
    {
      fseekp := to;
    }

    method Btell() returns (at: nat)
      requires Valid()
      ensures at == fseekp
    {
      at := fseekp;
    }
  }

  datatype Act = Get(give: nat) | Go(to: nat)

  /** The bytes a script reads, by position alone. */
  function Readings(data: seq<Byte>, pos: nat, script: seq<Act>): seq<int>
    decreases |script|
  {
    if script == [] then []
    else
      match script[0]
      case Get(_) => [ByteAt(data, pos)] + Readings(data, After(data, pos), script[1..])
      case Go(to) => Readings(data, to, script[1..])
  }

  /** Any mixture of reads and seeks reads what the file holds at each position. */
  method Play(data: seq<Byte>, at: nat, script: seq<Act>) returns (out: seq<int>)
    ensures out == Readings(data, at, script)
  {
    var input := new Seekable(data, at);
    out := [];
    for i := 0 to |script|
      invariant fresh(input) && fresh(input.fbuf) && input.file == data && input.Valid()
      invariant Readings(data, at, script) == out + Readings(data, input.fseekp, script[i..])
    {
      assert script[i..][1..] == script[i + 1..];
      match script[i] {
        case Get(give) =>
          var r := input.Bgetc(give);
          out := out + [r];
        case Go(to) =>
          input.Bseek(to);
      }
    }
  }

  // -------- input that cannot be positioned --------

  type Block = seq<Byte>

  /** Byte `i` of a list of blocks. */
  function Nth(blocks: seq<Block>, i: nat): Byte
    requires i < |blocks| * BUFSIZ && forall k :: 0 <= k < |blocks| ==> |blocks[k]| == BUFSIZ
  {
    InBlocks(|blocks|, i);
    blocks[i / BUFSIZ][i % BUFSIZ]
  }

  lemma {:induction false} InBlocks(n: nat, i: nat)
    requires i < n * BUFSIZ
    ensures i / BUFSIZ < n
  {
  }

  const EMPTY: Block := seq(BUFSIZ, i => 0)

  /** Where what is kept of a stream begins, once every block before that of the last byte read has been let go. */
  function Kept(pos: nat, base: nat): (b: nat)
    requires base <= pos
    ensures base <= b <= pos <= b + BUFSIZ && (b == base <==> pos <= base + BUFSIZ)
  {
    if pos == base then base else base + BUFSIZ * ((pos - base - 1) / BUFSIZ)
  }

  class Blocks {
    /** All that will ever come from the descriptor, and how much has come. */
    const stream: seq<Byte>
    var taken: nat

    var fbuf: seq<Block>
    var fblocks: nat
    var feobp: nat
    var fseekp: nat

    /** How much of the stream has been let go. */
    ghost var gone: nat

    ghost predicate Valid()
      reads this
    {
      && fblocks == |fbuf| && fseekp <= feobp <= fblocks * BUFSIZ
      && gone + feobp == taken <= |stream|
      && (forall k :: 0 <= k < |fbuf| ==> |fbuf[k]| == BUFSIZ)
      && forall i :: 0 <= i < feobp ==> Nth(fbuf, i) == stream[gone + i]
    }

    /** The place in the stream of the next byte to read. */
    ghost function Position(): nat
      reads this
    {
      gone + fseekp
    }

    constructor (data: seq<Byte>)
      ensures Valid() && stream == data && Position() == 0 && gone == 0
    {
      stream := data;
      taken, fblocks, feobp, fseekp, gone := 0, 0, 0, 0, 0;
      fbuf := [];
    }

    /** `bgetc`: the next byte, from a block or, when all that has come is read, from the descriptor. */
    method Bgetc(give: nat) returns (r: int)
      requires Valid()
      modifies this
      ensures Valid() && gone == old(gone) && feobp >= old(feobp)
      ensures r == ByteAt(stream, old(Position())) && Position() == After(stream, old(Position()))
    {
      if fseekp / BUFSIZ >= fblocks {
        Extend();
      }
      if fseekp >= feobp {
        var c := Fill(give);
        if c == 0 {
          return -1;
        }
      }
      assert Nth(fbuf, fseekp) == stream[gone + fseekp];
      r := fbuf[fseekp / BUFSIZ][fseekp % BUFSIZ];
      fseekp := fseekp + 1;
    }

    method Extend()
      requires Valid() && fseekp / BUFSIZ >= fblocks
      modifies this`fbuf, this`fblocks
      ensures Valid() && fseekp / BUFSIZ < fblocks
    {
      Longer(fbuf, EMPTY);
      fbuf := fbuf + [EMPTY];
      fblocks := fblocks + 1;
    }

    method Fill(give: nat) returns (c: nat)
      requires Valid() && fseekp == feobp && feobp / BUFSIZ < fblocks
      modifies this`fbuf, this`feobp, this`taken
      ensures Valid() && feobp == old(feobp) + c
      ensures c == 0 <==> old(taken) >= |stream|
    {
      var buf, off := feobp / BUFSIZ, feobp % BUFSIZ;
      c := Given(give, BUFSIZ - off, |stream| - taken);
      var more := stream[taken..taken + c];
      var now := fbuf[buf := fbuf[buf][..off] + more + fbuf[buf][off + c..]];
      Filled(fbuf, now, feobp, more);
      fbuf := now;
      feobp := feobp + c;
      taken := taken + c;
    }

    /** `bfree`: blocks that have been read through are let go; what is still to be read stays. */
    method Bfree(whyles: bool)
      requires Valid()
      modifies this
      ensures Valid() && Position() == old(Position()) && taken == old(taken)
      ensures fblocks < old(fblocks) <==> gone != old(gone)
      ensures gone == old(gone) ==> fseekp == old(fseekp) && feobp == old(feobp)
      ensures gone == if whyles then old(gone) else Kept(old(Position()), old(gone))
    {
      if whyles || fseekp == 0 {
        return;
      }
      var sb := (fseekp - 1) / BUFSIZ;
      if sb > 0 {
        Dropped(fbuf, sb, feobp);
        fbuf := fbuf[sb..];
        fseekp := fseekp - BUFSIZ * sb;
        feobp := feobp - BUFSIZ * sb;
        fblocks := fblocks - sb;
        gone := gone + BUFSIZ * sb;
      }
    }

    method Btell() returns (at: nat)
      requires Valid()
      ensures at == fseekp && gone + at == Position()
    {
      at := fseekp;
    }

    /** `bseek` to a place told since blocks were last let go. */
    method Bseek(to: nat)
      requires Valid() && to <= feobp
      modifies this`fseekp
      ensures Valid() && Position() == gone + to
    {
      fseekp := to;
    }
  }

  lemma {:induction false} Longer(blocks: seq<Block>, b: Block)
    requires (forall k :: 0 <= k < |blocks| ==> |blocks[k]| == BUFSIZ) && |b| == BUFSIZ
    ensures forall i :: 0 <= i < |blocks| * BUFSIZ ==> Nth(blocks + [b], i) == Nth(blocks, i)
  {
    forall i | 0 <= i < |blocks| * BUFSIZ ensures Nth(blocks + [b], i) == Nth(blocks, i) {
      InBlocks(|blocks|, i);
    }
  }

  /** New bytes go in after the first `end`, in the block where those end. */
  lemma {:induction false} Filled(blocks: seq<Block>, now: seq<Block>, end: nat, more: seq<Byte>)
    requires forall k :: 0 <= k < |blocks| ==> |blocks[k]| == BUFSIZ
    requires end / BUFSIZ < |blocks| && end % BUFSIZ + |more| <= BUFSIZ
    requires var buf, off := end / BUFSIZ, end % BUFSIZ;
             now == blocks[buf := blocks[buf][..off] + more + blocks[buf][off + |more|..]]
    ensures end + |more| <= |blocks| * BUFSIZ && |now| == |blocks| && forall k :: 0 <= k < |now| ==> |now[k]| == BUFSIZ
    ensures forall i :: 0 <= i < end ==> Nth(now, i) == Nth(blocks, i)
    ensures forall i :: end <= i < end + |more| ==> Nth(now, i) == more[i - end]
  {
    var buf, off := end / BUFSIZ, end % BUFSIZ;
    var block := now[buf];
    forall i | 0 <= i < end ensures Nth(now, i) == Nth(blocks, i) {
      if i / BUFSIZ == buf {
        assert i % BUFSIZ < off;
      }
    }
    forall i | end <= i < end + |more| ensures Nth(now, i) == more[i - end] {
      assert i / BUFSIZ == buf && i % BUFSIZ == off + (i - end);
      assert block[off + (i - end)] == more[i - end];
    }
  }

  lemma {:induction false} Dropped(blocks: seq<Block>, sb: nat, end: nat)
    requires (forall k :: 0 <= k < |blocks| ==> |blocks[k]| == BUFSIZ) && sb * BUFSIZ <= end <= |blocks| * BUFSIZ
    ensures sb <= |blocks| && end - BUFSIZ * sb <= (|blocks| - sb) * BUFSIZ
    ensures forall i :: 0 <= i < end - BUFSIZ * sb ==> Nth(blocks[sb..], i) == Nth(blocks, BUFSIZ * sb + i)
  {
    forall i | 0 <= i < end - BUFSIZ * sb ensures Nth(blocks[sb..], i) == Nth(blocks, BUFSIZ * sb + i) {
      assert (BUFSIZ * sb + i) / BUFSIZ == sb + i / BUFSIZ && (BUFSIZ * sb + i) % BUFSIZ == i % BUFSIZ;
    }
  }

  // -------- loops over such input --------

  datatype Mark = NoMark | Marked(at: nat)

  /** Read, note the place, go back to it, let blocks go; inside a loop (`whyles`) nothing is let go. */
  datatype Loop = Take(give: nat) | Note | Back | Free(whyles: bool)

  /**
   The bytes read, by place in the stream alone. `base` is where what is kept begins; a place noted is
   good for as long as that stays.
   */
  function Replayed(stream: seq<Byte>, pos: nat, base: nat, mark: Mark, script: seq<Loop>): seq<int>
    requires base <= pos && (mark.Marked? ==> base <= mark.at)
    decreases |script|
  {
    if script == [] then []
    else
      var rest := script[1..];
      match script[0]
      case Take(_) => [ByteAt(stream, pos)] + Replayed(stream, After(stream, pos), base, mark, rest)
      case Note => Replayed(stream, pos, base, Marked(pos), rest)
      case Back => Replayed(stream, if mark.Marked? then mark.at else pos, base, mark, rest)
      case Free(whyles) =>
        var now := if whyles then base else Kept(pos, base);
        Replayed(stream, pos, now, if now == base then mark else NoMark, rest)
  }

  /** Going back replays the same bytes until a block is let go, and that loses none that are still to be read. */
  method Replay(stream: seq<Byte>, script: seq<Loop>) returns (out: seq<int>)
    ensures out == Replayed(stream, 0, 0, NoMark, script)
  {
    var input := new Blocks(stream);
    var mark := NoMark;
    out := [];
    for i := 0 to |script|
      invariant fresh(input) && input.stream == stream && input.Valid()
      invariant mark.Marked? ==> mark.at <= input.feobp
      invariant Replayed(stream, 0, 0, NoMark, script) ==
                out + Replayed(stream, input.Position(), input.gone, Placed(mark, input.gone), script[i..])
    {
      assert script[i..][1..] == script[i + 1..];
      match script[i] {
        case Take(give) =>
          var r := input.Bgetc(give);
          out := out + [r];
        case Note =>
          var at := input.Btell();
          mark := Marked(at);
        case Back =>
          if mark.Marked? {
            input.Bseek(mark.at);
          }
        case Free(whyles) =>
          var before := input.fblocks;
          input.Bfree(whyles);
          if input.fblocks < before {
            mark := NoMark;
          }
      }
    }
  }

  /** A place in the blocks as a place in the stream. */
  function Placed(mark: Mark, gone: nat): Mark
  {
    if mark.Marked? then Marked(gone + mark.at) else NoMark
  }
}
