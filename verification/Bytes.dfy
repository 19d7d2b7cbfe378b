/**
 The writer and reader objects of cbase_bytes.c: buffers written in place, positions and
 sticky error codes, byte shifts spelled out. Each method is the operation of `Codec`.
 */
module Bytes {
  import opened Bits
  import opened Codec
  import opened Slices

  /* Shifts and masks of the multi-byte integers */

  lemma Little1(v: nat)
    requires v < 256
    ensures Little(v, 1) == [v]
  {
  }

  lemma Little2(v: nat)
    ensures Little(v, 2) == [v % 256, v / 0x100 % 256]
  {
    assert Little(v / 256, 1) == [v / 256 % 256];
  }

  lemma Little4(v: nat)
    ensures Little(v, 4) == [v % 256, v / 0x100 % 256, v / 0x1_0000 % 256, v / 0x100_0000 % 256]
  {
    Little2(v / 0x1_0000);
    assert v / 256 / 256 == v / 0x1_0000 && v / 0x1_0000 / 0x100 == v / 0x100_0000;
    assert Little(v / 256, 3) == [v / 256 % 256] + Little(v / 256 / 256, 2);
  }

  lemma Little8(v: nat)
    ensures Little(v, 8) == Little(v, 4) + Little(v / U32, 4)
  {
    assert v / 256 / 256 / 256 / 256 == v / U32;
    assert Little(v, 8) == [v % 256] + Little(v / 256, 7);
    assert Little(v / 256, 7) == [v / 256 % 256] + Little(v / 256 / 256, 6);
    assert Little(v / 256 / 256, 6) == [v / 256 / 256 % 256] + Little(v / 256 / 256 / 256, 5);
    assert Little(v / 256 / 256 / 256, 5) == [v / 256 / 256 / 256 % 256] + Little(v / U32, 4);
    Little4(v);
  }

  lemma UnlittleSplit(a: seq<Byte>, b: seq<Byte>)
    ensures Unlittle(a + b) == Unlittle(a) + Range(|a|) * Unlittle(b)
  {
    if a == [] {
      assert a + b == b;
    } else {
      UnlittleSplit(a[1..], b);
      assert (a + b)[1..] == a[1..] + b;
      MulAssoc(256, Range(|a| - 1), Unlittle(b));
    }
  }

  /** A byte moved up to the place of the given weight. */
  function Shl(b: Byte, weight: nat): nat {
    MulLe(0, b, weight);
    b * weight
  }

  /** OR-ing in the next byte, shifted above the bytes joined so far, is adding it. */
  lemma JoinByte(bs: seq<Byte>, b: Byte)
    ensures Or(Unlittle(bs), Shl(b, Range(|bs|))) == Unlittle(bs + [b])
  {
    hide Or, Unlittle;
    UnlittleRange(bs);
    RangeIsPow2(|bs|);
    DivExact(b, Range(|bs|));
    OrDisjoint(Unlittle(bs), Shl(b, Range(|bs|)), 8 * |bs|);
    UnlittleSplit(bs, [b]);
    UnlittleOne(b);
  }

  lemma UnlittleOne(b: Byte)
    ensures Unlittle([b]) == b
  {
    assert [b][1..] == [];
  }

  lemma {:induction false} RangeIsPow2(k: nat)
    ensures Range(k) == Pow2(8 * k)
  {
    if k != 0 {
      RangeIsPow2(k - 1);
      Pow2Values();
      Pow2Add(8, 8 * (k - 1));
    }
  }

  lemma Ranges()
    ensures Range(1) == 0x100 && Range(2) == 0x1_0000 && Range(3) == 0x100_0000 && Range(4) == U32
    ensures Range(5) == 0x100 * U32 && Range(6) == 0x1_0000 * U32 && Range(7) == 0x100_0000 * U32
    ensures Range(8) == U64
  {
    assert Range(4) == 256 * Range(3);
    assert Range(8) == 256 * Range(7);
  }

  class Writer {
    var info: Info
    const data: array<Byte>
    var pos: nat

    ghost function Value(): Output reads this, data {
      Output(info, data[..], pos)
    }

    ghost predicate Valid() reads this, data { WriterOk(Value()) }

    constructor (buffer: array<Byte>)
      ensures data == buffer && Valid() && Value() == Output(Ok, buffer[..], 0)
    {
      data := buffer;
      info, pos := Ok, 0;
    }

    /** Is there room for n more bytes? If not, the writer fails for good. */
    method Check(n: nat) returns (ok: bool)
      requires Valid()
      modifies `info
      ensures ok <==> old(info) == Ok && n <= data.Length - pos
      ensures info == if old(info) == Ok && !ok then OutOfBounds else old(info)
    {
      if info != Ok { return false; }
      if n > data.Length || pos > data.Length - n {
        info := OutOfBounds;
        return false;
      }
      ok := true;
    }

    /** One byte behind the run that has been stored so far. */
    method Store(ghost start: seq<Byte>, at: nat, k: nat, ghost run: seq<Byte>, b: Byte)
      requires at + k < data.Length == |start| && |run| == k && data[..] == Overwrite(start, at, run)
      modifies data
      ensures data[..] == Overwrite(start, at, run + [b])
    {
      hide Overwrite;
      OverwriteOne(start, at, run, b);
      data[at + k] := b;
    }

    method WriteU8(v: nat)
      requires Valid() && v < 0x100
      modifies this, data
      ensures Valid() && Value() == Put(old(Value()), Little(v, 1))
    {
      hide Overwrite, Little;
      var ok := Check(1);
      if !ok { return; }
      Little1(v);
      OverwriteNone(data[..], pos);
      Store(data[..], pos, 0, [], v);
      assert [] + [v] == [v];
      pos := pos + 1;
    }

    method WriteU16(v: nat)
      requires Valid() && v < 0x1_0000
      modifies this, data
      ensures Valid() && Value() == Put(old(Value()), Little(v, 2))
    {
      hide Overwrite, Little;
      var ok := Check(2);
      if !ok { return; }
      Store2(pos, v);
      pos := pos + 2;
    }

    method WriteU32(v: nat)
      requires Valid() && v < U32
      modifies this, data
      ensures Valid() && Value() == Put(old(Value()), Little(v, 4))
    {
      hide Overwrite, Little;
      var ok := Check(4);
      if !ok { return; }
      Store4(pos, v);
      pos := pos + 4;
    }

    /** The two byte stores of a 16-bit word. */
    method Store2(at: nat, v: nat)
      requires at + 2 <= data.Length
      modifies data
      ensures data[..] == Overwrite(old(data[..]), at, Little(v, 2))
    {
      hide Overwrite, Little;
      Little2(v);
      ghost var s := data[..];
      OverwriteNone(s, at);
      Store(s, at, 0, [], v % 256);
      Store(s, at, 1, [] + [v % 256], v / 0x100 % 256);
      assert [] + [v % 256] + [v / 0x100 % 256] == [v % 256, v / 0x100 % 256];
    }

    /** The four byte stores of a 32-bit word. */
    method Store4(at: nat, v: nat)
      requires at + 4 <= data.Length
      modifies data
      ensures data[..] == Overwrite(old(data[..]), at, Little(v, 4))
    {
      hide Overwrite, Little;
      Little4(v);
      ghost var s := data[..];
      var b0, b1, b2, b3 := v % 256, v / 0x100 % 256, v / 0x1_0000 % 256, v / 0x100_0000 % 256;
      OverwriteNone(s, at);
      Store(s, at, 0, [], b0);
      Store(s, at, 1, [] + [b0], b1);
      Store(s, at, 2, [] + [b0] + [b1], b2);
      Store(s, at, 3, [] + [b0] + [b1] + [b2], b3);
      assert [] + [b0] + [b1] + [b2] + [b3] == [b0, b1, b2, b3];
    }

    /** The low word is stored before the high word. */
    method WriteU64(v: nat)
      requires Valid() && v < U64
      modifies this, data
      ensures Valid() && Value() == Put(old(Value()), Little(v, 8))
    {
      hide Overwrite, Little;
      var ok := Check(8);
      if !ok { return; }
      Little8(v);
      OverwriteTwice(data[..], pos, Little(v, 4), Little(v / U32, 4));
      Store4(pos, v);
      Store4(pos + 4, v / U32);
      pos := pos + 8;
    }

    /** The signed writes cast to the unsigned type of the same width. */
    method WriteSigned(k: Kind, v: int)
      requires Valid() && k in {I8K, I16K, I32K, I64K} && InRange(k, v)
      modifies this, data
      ensures Valid() && Value() == Put(old(Value()), Little(Cast(k, v), k.width))
    {
      Ranges();
      if k.width == 1 {
        WriteU8(Cast(k, v));
      } else if k.width == 2 {
        WriteU16(Cast(k, v));
      } else if k.width == 4 {
        WriteU32(Cast(k, v));
      } else {
        WriteU64(Cast(k, v));
      }
    }

    method WriteBytes(src: seq<Byte>)
      requires Valid()
      modifies this, data
      ensures Valid() && Value() == Put(old(Value()), src)
    {
      hide Overwrite;
      var ok := Check(|src|);
      if !ok { return; }
      ghost var start := data[..];
      OverwriteNone(start, pos);
      for k := 0 to |src|
        invariant info == old(info) && pos == old(pos)
        invariant data[..] == Overwrite(start, pos, src[..k])
      {
        Store(start, pos, k, src[..k], src[k]);
        assert src[..k + 1] == src[..k] + [src[k]];
      }
      pos := pos + |src|;
      assert src[..|src|] == src;
    }

    method BeginFrame() returns (mark: nat)
      requires Valid()
      modifies this, data
      ensures Valid() && Value() == Put(old(Value()), [0, 0]) && mark == MarkOf(old(Value()))
    {
      Little2(0);
      if info != Ok { return 0; }
      mark := pos;
      WriteU16(0);
      if info != Ok { mark := 0; }
    }

    method EndFrame(mark: nat)
      requires Valid() && FrameOpen(Value(), mark)
      modifies this, data
      ensures Valid() && Value() == Codec.EndFrame(old(Value()), mark)
    {
      hide Overwrite, Little;
      if info != Ok { return; }
      var body := pos - mark - 2;
      if body > 0xFFFF {
        info := FrameTooLarge;
        return;
      }
      Store2(mark, body);
    }

    /** A caller that writes a whole message: `Codec.Write`, operation by operation. */
    method WriteMessage(m: Message)
      requires Valid() && WellFormed(m) && Supported(m)
      modifies this, data
      ensures Valid() && Value() == Write(old(Value()), m)
      decreases m
    {
      match m
      case End =>
      case Number(k, v, rest) =>
        WriteNumber(k, v);
        WriteMessage(rest);
      case Raw(bs, rest) =>
        WriteBytes(bs);
        WriteMessage(rest);
      case Frame(body, rest) =>
        var mark := BeginFrame();
        WriteMessage(body);
        EndFrame(mark);
        WriteMessage(rest);
    }

    method WriteNumber(k: Kind, v: int)
      requires Valid() && InRange(k, v) && k in KINDS
      modifies this, data
      ensures Valid() && Value() == Put(old(Value()), Little(Cast(k, v), k.width))
    {
      Ranges();
      if k.signed {
        WriteSigned(k, v);
      } else {
        DivSmall(v, Range(k.width));
        match k.width {
          case 1 => WriteU8(v);
          case 2 => WriteU16(v);
          case 4 => WriteU32(v);
          case _ => WriteU64(v);
        }
      }
    }
  }

  const KINDS: set<Kind> := {U8K, U16K, U32K, U64K, I8K, I16K, I32K, I64K}

  /** Only the integer types that the interface has. */
  ghost predicate Supported(m: Message) {
    match m
    case End => true
    case Number(k, _, rest) => k in KINDS && Supported(rest)
    case Raw(_, rest) => Supported(rest)
    case Frame(body, rest) => Supported(body) && Supported(rest)
  }

  /** A reader over `len` bytes of a buffer it shares, from offset `base` on. */
  class Reader {
    var info: Info
    const buf: array<Byte>
    const base: nat
    const len: nat
    var pos: nat

    ghost predicate Placed() { base + len <= buf.Length }

    ghost function Value(): Input
      requires Placed()
      reads this, buf
    {
      Input(info, buf[..][base..base + len], pos)
    }

    ghost predicate Valid() reads this, buf { Placed() && ReaderOk(Value()) }

    constructor (buf: array<Byte>, base: nat, len: nat)
      requires base + len <= buf.Length
      ensures this.buf == buf && this.base == base && this.len == len
      ensures Valid() && Value() == Input(Ok, buf[..][base..base + len], 0)
    {
      this.buf, this.base, this.len := buf, base, len;
      info, pos := Ok, 0;
    }

    /** What lies at the position, in the buffer. */
    lemma PeekIs(n: nat)
      requires Valid() && Available(Value(), n)
      ensures Peek(Value(), n) == buf[..][base + pos..base + pos + n]
      ensures forall i :: 0 <= i < n ==> Peek(Value(), n)[i] == buf[base + pos + i]
    {
      SliceOfSlice(buf[..], base, len, pos, n);
    }

    method Check(n: nat) returns (ok: bool)
      requires Valid()
      modifies `info
      ensures ok <==> old(info) == Ok && Available(Value(), n)
      ensures info == if old(info) == Ok && !ok then OutOfBounds else old(info)
    {
      if info != Ok { return false; }
      if n > len || pos > len - n {
        info := OutOfBounds;
        return false;
      }
      ok := true;
    }

    method ReadU8() returns (v: nat)
      requires Valid()
      modifies this
      ensures Valid() && Value() == Skip(old(Value()), 1)
      ensures info == Ok ==> v == Unlittle(Peek(old(Value()), 1))
    {
      var ok := Check(1);
      if !ok { return 0; }
      PeekIs(1);
      v := buf[base + pos];
      UnlittleOne(v);
      assert Peek(Value(), 1) == [v];
      pos := pos + 1;
    }

    method ReadU16() returns (v: nat)
      requires Valid()
      modifies this
      ensures Valid() && Value() == Skip(old(Value()), 2)
      ensures info == Ok ==> v == Unlittle(Peek(old(Value()), 2))
    {
      var ok := Check(2);
      if !ok { return 0; }
      PeekIs(2);
      v := Or(buf[base + pos], Shl(buf[base + pos + 1], 0x100));
      JoinTwo(Peek(Value(), 2));
      pos := pos + 2;
    }

    method ReadU32() returns (v: nat)
      requires Valid()
      modifies this
      ensures Valid() && Value() == Skip(old(Value()), 4)
      ensures info == Ok ==> v == Unlittle(Peek(old(Value()), 4))
    {
      hide Or, Shl, Unlittle;
      var ok := Check(4);
      if !ok { return 0; }
      PeekIs(4);
      v := Or(Or(Or(buf[base + pos], Shl(buf[base + pos + 1], 0x100)), Shl(buf[base + pos + 2], 0x1_0000)), Shl(buf[base + pos + 3], 0x100_0000));
      JoinFour(Peek(Value(), 4));
      pos := pos + 4;
    }

    method ReadU64() returns (v: nat)
      requires Valid()
      modifies this
      ensures Valid() && Value() == Skip(old(Value()), 8)
      ensures info == Ok ==> v == Unlittle(Peek(old(Value()), 8))
    {
      hide Or, Shl, Unlittle;
      var ok := Check(8);
      if !ok { return 0; }
      PeekIs(8);
      v := Or(Or(Or(buf[base + pos], Shl(buf[base + pos + 1], 0x100)), Shl(buf[base + pos + 2], 0x1_0000)), Shl(buf[base + pos + 3], 0x100_0000));
      v := Or(Or(v, Shl(buf[base + pos + 4], 0x1_0000_0000)), Shl(buf[base + pos + 5], 0x100_0000_0000));
      v := Or(Or(v, Shl(buf[base + pos + 6], 0x1_0000_0000_0000)), Shl(buf[base + pos + 7], 0x100_0000_0000_0000));
      JoinEight(Peek(Value(), 8));
      pos := pos + 8;
    }

    /** The signed reads cast the unsigned value of the same width back. */
    method ReadSigned(k: Kind) returns (v: int)
      requires Valid() && k in {I8K, I16K, I32K, I64K}
      modifies this
      ensures Valid() && Value() == Skip(old(Value()), k.width)
      ensures info == Ok ==> v == Uncast(k, Unlittle(Peek(old(Value()), k.width)))
    {
      var u: nat;
      if k.width == 1 {
        u := ReadU8();
      } else if k.width == 2 {
        u := ReadU16();
      } else if k.width == 4 {
        u := ReadU32();
      } else {
        u := ReadU64();
      }
      v := Uncast(k, u);
    }

    method ReadBytes(n: nat) returns (bs: seq<Byte>)
      requires Valid()
      modifies this
      ensures Valid() && Value() == Skip(old(Value()), n)
      ensures info == Ok ==> bs == Peek(old(Value()), n)
    {
      var ok := Check(n);
      if !ok { return []; }
      PeekIs(n);
      bs := buf[..][base + pos..base + pos + n];
      pos := pos + n;
    }

    /** The largest read that still succeeds; 0 on a reader that has failed. */
    method Remaining() returns (n: nat)
      requires Valid()
      ensures forall m: nat :: m > 0 ==> (Skip(Value(), m).info == Ok <==> m <= n)
    {
      if info != Ok { return 0; }
      n := len - pos;
    }

    method ReadFrame() returns (sub: Reader?)
      requires Valid()
      modifies this
      ensures Valid() && Value() == SkipFrame(old(Value()))
      ensures (sub == null <==> info != Ok) && (sub != null ==> fresh(sub) && sub.Valid())
      ensures sub != null ==> sub.buf == buf && sub.Value() == FrameBody(old(Value()))
    {
      if info != Ok { return null; }
      var saved := pos;
      var size := ReadU16();
      if info != Ok { return null; }
      var ok := Check(size);
      if !ok {
        pos := saved;
        return null;
      }
      PeekIs(size);
      sub := new Reader(buf, base + pos, size);
      pos := pos + size;
    }

    /** A caller that reads a whole message: `Codec.Read`, operation by operation; frame bodies
        are read through their sub-readers. */
    method ReadMessage(shape: Message) returns (m: Message)
      requires Valid() && WellFormed(shape) && Supported(shape)
      modifies this
      ensures Valid() && (Value(), m) == Read(old(Value()), shape)
      decreases shape
    {
      match shape
      case End =>
        m := End;
      case Number(k, _, rest) =>
        var v := ReadNumber(k);
        if info != Ok { return End; }
        var more := ReadMessage(rest);
        m := Number(k, v, more);
      case Raw(bs, rest) =>
        var got := ReadBytes(|bs|);
        if info != Ok { return End; }
        var more := ReadMessage(rest);
        m := Raw(got, more);
      case Frame(body, rest) =>
        var sub := ReadFrame();
        if sub == null { return End; }
        var inner := sub.ReadMessage(body);
        if sub.info != Ok || sub.pos != sub.len {
          info := OutOfBounds;
          return End;
        }
        var more := ReadMessage(rest);
        m := Frame(inner, more);
    }

    method ReadNumber(k: Kind) returns (v: int)
      requires Valid() && k in KINDS
      modifies this
      ensures Valid() && Value() == Skip(old(Value()), k.width)
      ensures info == Ok ==> v == Uncast(k, Unlittle(Peek(old(Value()), k.width)))
    {
      if k.signed {
        v := ReadSigned(k);
      } else {
        match k.width {
          case 1 => v := ReadU8();
          case 2 => v := ReadU16();
          case 4 => v := ReadU32();
          case _ => v := ReadU64();
        }
      }
    }
  }

  /** Writing and reading back through one buffer: it works exactly when the message fits, and
      then the same message comes back and nothing is left over. */
  method ThereAndBack(m: Message, buf: array<Byte>) returns (ok: bool, back: Message, left: nat)
    requires WellFormed(m) && Supported(m)
    modifies buf
    ensures ok <==> |Encode(m)| <= buf.Length && FramesFit(m)
    ensures ok ==> back == m && left == 0
  {
    hide Write, Read, Encode, FramesFit, Supported, WellFormed, Put, EndFrame, SkipFrame, Little, Unlittle, Written;
    var w := new Writer(buf);
    ghost var start := w.Value();
    WriteEncodes(start, m);
    w.WriteMessage(m);
    if w.info != Ok { return false, End, 0; }
    RoundTrip(start.data, m);
    var r := new Reader(buf, 0, w.pos);
    back := r.ReadMessage(m);
    left := r.Remaining();
    assert left > 0 ==> Skip(r.Value(), 1).info == Ok;
    ok := true;
  }

  lemma JoinTwo(bs: seq<Byte>)
    requires |bs| == 2
    ensures Or(bs[0], Shl(bs[1], 0x100)) == Unlittle(bs)
  {
    Ranges();
    UnlittleOne(bs[0]);
    JoinByte([bs[0]], bs[1]);
    assert bs == [bs[0]] + [bs[1]];
  }

  lemma JoinFour(bs: seq<Byte>)
    requires |bs| == 4
    ensures Or(Or(Or(bs[0], Shl(bs[1], 0x100)), Shl(bs[2], 0x1_0000)), Shl(bs[3], 0x100_0000)) == Unlittle(bs)
  {
    hide Or, Shl, Unlittle;
    Ranges();
    JoinTwo(bs[..2]);
    JoinByte(bs[..2], bs[2]);
    assert bs[..3] == bs[..2] + [bs[2]];
    JoinByte(bs[..3], bs[3]);
    assert bs == bs[..3] + [bs[3]];
  }

  lemma JoinEight(bs: seq<Byte>)
    requires |bs| == 8
    ensures var v := Or(Or(Or(bs[0], Shl(bs[1], 0x100)), Shl(bs[2], 0x1_0000)), Shl(bs[3], 0x100_0000));
            var v := Or(Or(v, Shl(bs[4], 0x1_0000_0000)), Shl(bs[5], 0x100_0000_0000));
            Or(Or(v, Shl(bs[6], 0x1_0000_0000_0000)), Shl(bs[7], 0x100_0000_0000_0000)) == Unlittle(bs)
  {
    hide Or, Shl, Unlittle;
    Ranges();
    JoinFour(bs[..4]);
    JoinByte(bs[..4], bs[4]);
    assert bs[..5] == bs[..4] + [bs[4]];
    JoinByte(bs[..5], bs[5]);
    assert bs[..6] == bs[..5] + [bs[5]];
    JoinByte(bs[..6], bs[6]);
    assert bs[..7] == bs[..6] + [bs[6]];
    JoinByte(bs[..7], bs[7]);
    assert bs == bs[..7] + [bs[7]];
  }
}
