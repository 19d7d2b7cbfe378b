/**
 The bounded byte writer and reader of cbase_bytes.c as functions on values, and the round
 trip of nested length-prefixed frames through them.
 */
module Codec {
  import opened Bits
  import opened Slices

  datatype Info = Ok | OutOfBounds | FrameTooLarge

  /** A writer over a buffer of |data| bytes. */
  datatype Output = Output(info: Info, data: seq<Byte>, pos: nat)

  /** A reader over |data| bytes. */
  datatype Input = Input(info: Info, data: seq<Byte>, pos: nat)

  ghost predicate WriterOk(w: Output) { w.pos <= |w.data| }
  ghost predicate ReaderOk(r: Input) { r.pos <= |r.data| }

  /* Little-endian integers */

  /** The k low bytes of v, least significant first. */
  function Little(v: nat, k: nat): (bs: seq<Byte>)
    ensures |bs| == k
    decreases k
  {
    if k == 0 then [] else [v % 256] + Little(v / 256, k - 1)
  }

  function Unlittle(bs: seq<Byte>): nat {
    if bs == [] then 0 else bs[0] + 256 * Unlittle(bs[1..])
  }

  /** 256^k */
  function Range(k: nat): (n: nat)
    ensures n > 0
  {
    if k == 0 then 1 else 256 * Range(k - 1)
  }

  lemma {:induction false} LittleRoundTrip(v: nat, k: nat)
    requires v < Range(k)
    ensures Unlittle(Little(v, k)) == v
    decreases k
  {
    if k != 0 {
      LittleRoundTrip(v / 256, k - 1);
      assert Little(v, k)[1..] == Little(v / 256, k - 1);
    }
  }

  /** Byte i holds the digit of weight 256^i. */
  lemma {:induction false} LittleDigits(v: nat, k: nat, i: nat)
    requires i < k
    ensures v / Range(i) >= 0 && Little(v, k)[i] == v / Range(i) % 256
    decreases k
  {
    if i > 0 {
      LittleDigits(v / 256, k - 1, i - 1);
      DivDiv(v, 256, Range(i - 1));
    }
  }

  lemma {:induction false} UnlittleRange(bs: seq<Byte>)
    ensures Unlittle(bs) < Range(|bs|)
    ensures Little(Unlittle(bs), |bs|) == bs
  {
    if bs != [] {
      UnlittleRange(bs[1..]);
      FirstDigit(bs[0], Unlittle(bs[1..]));
      assert bs == [bs[0]] + bs[1..];
    }
  }

  lemma FirstDigit(b: Byte, u: nat)
    ensures (b + 256 * u) % 256 == b && (b + 256 * u) / 256 == u
  {
  }

  /* Writer operations */

  /** Every primitive write: check the room, then copy the bytes and advance. */
  ghost function Put(w: Output, bs: seq<Byte>): (w': Output)
    requires WriterOk(w)
    ensures WriterOk(w') && |w'.data| == |w.data|
  {
    if w.info != Ok then w
    else if |bs| > |w.data| || w.pos > |w.data| - |bs| then w.(info := OutOfBounds)
    else w.(data := Overwrite(w.data, w.pos, bs), pos := w.pos + |bs|)
  }

  /** The offset that begin_frame hands back; zero when it fails. */
  ghost function MarkOf(w: Output): nat
    requires WriterOk(w)
  {
    if Put(w, [0, 0]).info == Ok then w.pos else 0
  }

  ghost predicate FrameOpen(w: Output, mark: nat) {
    w.info == Ok ==> mark + 2 <= w.pos
  }

  /** Back-patch the length of the frame that starts at `mark`. */
  ghost function EndFrame(w: Output, mark: nat): (w': Output)
    requires WriterOk(w) && FrameOpen(w, mark)
    ensures WriterOk(w') && |w'.data| == |w.data| && w'.pos == w.pos
  {
    if w.info != Ok then w
    else if w.pos - mark - 2 > 0xFFFF then w.(info := FrameTooLarge)
    else w.(data := Overwrite(w.data, mark, Little(w.pos - mark - 2, 2)))
  }

  /* Reader operations */

  ghost predicate Available(r: Input, n: nat) { n <= |r.data| && r.pos <= |r.data| - n }

  /** The reader after an attempt to take n bytes. */
  ghost function Skip(r: Input, n: nat): (r': Input)
    requires ReaderOk(r)
    ensures ReaderOk(r') && r'.data == r.data
  {
    if r.info != Ok then r
    else if !Available(r, n) then r.(info := OutOfBounds)
    else r.(pos := r.pos + n)
  }

  /** The n bytes a successful read of that size sees. */
  ghost function Peek(r: Input, n: nat): (bs: seq<Byte>)
    requires Available(r, n)
    ensures |bs| == n
  {
    r.data[r.pos..r.pos + n]
  }

  /** Reading a frame: a body that does not fit leaves the position before the length. */
  ghost function SkipFrame(r: Input): (r': Input)
    requires ReaderOk(r)
    ensures ReaderOk(r') && r'.data == r.data
  {
    var r1 := Skip(r, 2);
    if r1.info != Ok then r1
    else
      var r2 := Skip(r1, Unlittle(Peek(r, 2)));
      if r2.info != Ok then r2.(pos := r.pos) else r2
  }

  /** The sub-reader over the body of the frame. */
  ghost function FrameBody(r: Input): (sub: Input)
    requires ReaderOk(r) && r.info == Ok && SkipFrame(r).info == Ok
    ensures ReaderOk(sub) && sub.info == Ok && sub.pos == 0
  {
    Input(Ok, Peek(Skip(r, 2), Unlittle(Peek(r, 2))), 0)
  }

  /* Failures stay */

  lemma WriteFailureSticks(w: Output, bs: seq<Byte>, mark: nat)
    requires WriterOk(w)
    ensures w.info != Ok ==> Put(w, bs) == w && EndFrame(w, mark) == w && MarkOf(w) == 0
    ensures Put(w, bs).info != Ok ==> Put(w, bs).pos == w.pos && Put(w, bs).data == w.data
    ensures w.info == Ok ==> Put(w, bs).info == if |bs| <= |w.data| - w.pos then Ok else OutOfBounds
    ensures w.info == Ok && mark + 2 <= w.pos ==>
              EndFrame(w, mark).info == if w.pos - (mark + 2) <= 65535 then Ok else FrameTooLarge
  {
  }

  lemma UnlittleTwo(bs: seq<Byte>)
    requires |bs| == 2
    ensures var lo: int, hi: int := bs[0], bs[1]; Unlittle(bs) == lo + 256 * hi
  {
    assert Unlittle(bs[1..][1..]) == 0;
  }

  lemma ReadFailureSticks(r: Input, n: nat)
    requires ReaderOk(r)
    ensures r.info != Ok ==> Skip(r, n) == r && SkipFrame(r) == r
    ensures Skip(r, n).info != Ok ==> Skip(r, n).pos == r.pos
    ensures SkipFrame(r).info != Ok ==> SkipFrame(r).pos == r.pos
    ensures r.info == Ok ==> Skip(r, n).info == if n <= |r.data| - r.pos then Ok else OutOfBounds
    ensures r.info == Ok ==>
              var room := |r.data| - r.pos;
              var lo: int := if room < 2 then 0 else r.data[r.pos];
              var hi: int := if room < 2 then 0 else r.data[r.pos + 1];
              var end := 2 + lo + 256 * hi;
              && SkipFrame(r).info == (if end <= room then Ok else OutOfBounds)
              && (end <= room ==> SkipFrame(r).pos == r.pos + end)
  {
    if r.info == Ok && |r.data| - r.pos >= 2 { UnlittleTwo(Peek(r, 2)); }
  }

  /* Messages: any sequence of integers, byte runs and nested frames */

  datatype Kind = Kind(width: nat, signed: bool)

  const U8K := Kind(1, false)
  const U16K := Kind(2, false)
  const U32K := Kind(4, false)
  const U64K := Kind(8, false)
  const I8K := Kind(1, true)
  const I16K := Kind(2, true)
  const I32K := Kind(4, true)
  const I64K := Kind(8, true)

  datatype Message =
    | End
    | Number(kind: Kind, value: int, rest: Message)
    | Raw(bytes: seq<Byte>, rest: Message)
    | Frame(body: Message, rest: Message)

  /** The values an integer of this kind can have. */
  ghost predicate InRange(k: Kind, v: int) {
    k.width > 0 &&
    if k.signed then -(Range(k.width) / 2) <= v < Range(k.width) / 2 else 0 <= v < Range(k.width)
  }

  /** The cast to the unsigned type of the same width. */
  function Cast(k: Kind, v: int): (u: nat)
    requires k.width > 0
    ensures u < Range(k.width)
  {
    DivMod(v, Range(k.width));
    v % Range(k.width)
  }

  /** The cast back. */
  function Uncast(k: Kind, u: nat): int
    requires k.width > 0
  {
    if k.signed && u >= Range(k.width) / 2 then u - Range(k.width) else u
  }

  lemma CastRoundTrip(k: Kind, v: int)
    requires InRange(k, v)
    ensures Uncast(k, Cast(k, v)) == v
  {
    var n := Range(k.width);
    assert n == 256 * Range(k.width - 1);
    DivUnique(v, n, if v < 0 then -1 else 0, if v < 0 then v + n else v);
  }

  ghost predicate WellFormed(m: Message) {
    match m
    case End => true
    case Number(k, v, rest) => InRange(k, v) && WellFormed(rest)
    case Raw(_, rest) => WellFormed(rest)
    case Frame(body, rest) => WellFormed(body) && WellFormed(rest)
  }

  ghost function Encode(m: Message): seq<Byte>
    requires WellFormed(m)
  {
    match m
    case End => []
    case Number(k, v, rest) => Little(Cast(k, v), k.width) + Encode(rest)
    case Raw(bs, rest) => bs + Encode(rest)
    case Frame(body, rest) => Little(|Encode(body)|, 2) + Encode(body) + Encode(rest)
  }

  /** A number, then a frame with a negative number in it, byte by byte. */
  lemma EncodeExample()
    ensures var m := Number(U32K, 0x0102_0304, Frame(Number(I16K, -2, End), Raw([9], End)));
            WellFormed(m) && Encode(m) == [4, 3, 2, 1, 2, 0, 0xFE, 0xFF, 9]
  {
    hide Encode, Little;
    var last, inner := Raw([9], End), Number(I16K, -2, End);
    RangeValues();
    EncodeParts(last);
    EncodeParts(inner);
    EncodeParts(Frame(inner, last));
    EncodeParts(Number(U32K, 0x0102_0304, Frame(inner, last)));
    DivUnique(-2, 0x1_0000, -1, 0xFFFE);
    DivSmall(0x0102_0304, 0x1_0000_0000);
    LittleTwo(0xFFFE, 0xFE, 0xFF);
    LittleTwo(2, 2, 0);
    LittleTwo(0x0304, 4, 3);
    LittleFour(0x0102_0304, 4, 3, 2, 1);
    assert Encode(End) == [] by { EncodeParts(End); }
    assert [4, 3, 2, 1] + ([2, 0] + ([0xFE, 0xFF] + []) + ([9] + [])) == [4, 3, 2, 1, 2, 0, 0xFE, 0xFF, 9];
  }

  lemma RangeValues()
    ensures Range(2) == 0x1_0000 && Range(4) == 0x1_0000_0000
  {
    assert Range(3) == 256 * Range(2);
  }

  lemma EncodeParts(m: Message)
    requires WellFormed(m)
    ensures match m
            case End => Encode(m) == []
            case Number(k, v, rest) => Encode(m) == Little(Cast(k, v), k.width) + Encode(rest)
            case Raw(bs, rest) => Encode(m) == bs + Encode(rest)
            case Frame(body, rest) => Encode(m) == Little(|Encode(body)|, 2) + Encode(body) + Encode(rest)
  {
    hide Little, Cast;
  }

  lemma LittleTwo(v: nat, a: Byte, b: Byte)
    requires v == a + 256 * b
    ensures Little(v, 2) == [a, b]
  {
    assert v % 256 == a && v / 256 == b;
    assert Little(v, 2) == [a] + Little(b, 1);
    assert Little(b, 1) == [b] + Little(b / 256, 0);
  }

  lemma LittleFour(v: nat, a: Byte, b: Byte, c: Byte, d: Byte)
    requires v == a + 256 * (b + 256 * (c + 256 * d))
    ensures Little(v, 4) == [a, b, c, d]
  {
    assert v % 256 == a && v / 256 == b + 256 * (c + 256 * d);
    LittleThree(v / 256, b, c, d);
    assert Little(v, 4) == [a] + Little(v / 256, 3);
  }

  lemma LittleThree(v: nat, a: Byte, b: Byte, c: Byte)
    requires v == a + 256 * (b + 256 * c)
    ensures Little(v, 3) == [a, b, c]
  {
    assert v % 256 == a && v / 256 == b + 256 * c;
    LittleTwo(v / 256, b, c);
    assert Little(v, 3) == [a] + Little(v / 256, 2);
  }

  /** Every frame, at every depth, has a body whose size fits its prefix. */
  ghost predicate FramesFit(m: Message)
    requires WellFormed(m)
  {
    match m
    case End => true
    case Number(_, _, rest) => FramesFit(rest)
    case Raw(_, rest) => FramesFit(rest)
    case Frame(body, rest) => FramesFit(body) && |Encode(body)| <= 0xFFFF && FramesFit(rest)
  }

  lemma FramesFitParts(m: Message)
    requires WellFormed(m) && FramesFit(m)
    ensures m != End ==> FramesFit(m.rest)
    ensures m.Frame? ==> FramesFit(m.body) && |Encode(m.body)| <= 0xFFFF
  {
  }

  /* Writing a message */

  ghost function Write(w: Output, m: Message): (w': Output)
    requires WriterOk(w) && WellFormed(m)
    ensures WriterOk(w') && |w'.data| == |w.data| && w'.pos >= w.pos
    ensures w.info != Ok ==> w' == w
    decreases m
  {
    match m
    case End => w
    case Number(k, v, rest) => Write(Put(w, Little(Cast(k, v), k.width)), rest)
    case Raw(bs, rest) => Write(Put(w, bs), rest)
    case Frame(body, rest) => Write(EndFrame(Write(Put(w, [0, 0]), body), MarkOf(w)), rest)
  }

  /** The buffer with `bs` written at the current position. */
  ghost function Written(w: Output, bs: seq<Byte>): Output
    requires WriterOk(w) && |bs| <= |w.data| - w.pos
  {
    w.(data := Overwrite(w.data, w.pos, bs), pos := w.pos + |bs|)
  }

  lemma WrittenTwice(w: Output, a: seq<Byte>, b: seq<Byte>)
    requires WriterOk(w) && |a| + |b| <= |w.data| - w.pos
    ensures Written(Written(w, a), b) == Written(w, a + b)
  {
    hide Overwrite;
    OverwriteTwice(w.data, w.pos, a, b);
  }

  lemma PatchedLength(w: Output, len: nat, body: seq<Byte>)
    requires WriterOk(w) && 2 + |body| <= |w.data| - w.pos && w.info == Ok
    requires len == |body| <= 0xFFFF
    ensures EndFrame(Written(w, [0, 0] + body), w.pos) == Written(w, Little(len, 2) + body)
  {
    hide Little, Overwrite;
    OverwriteFront(w.data, w.pos, [0, 0], Little(len, 2), body);
  }

  /** Writing succeeds exactly when the encoding fits the buffer and every frame its prefix;
      on success the encoding is in place and nothing else has changed. */
  lemma {:induction false} WriteEncodes(w: Output, m: Message)
    requires WriterOk(w) && WellFormed(m) && w.info == Ok
    ensures Write(w, m).info == Ok <==> |Encode(m)| <= |w.data| - w.pos && FramesFit(m)
    ensures Write(w, m).info == Ok ==> Write(w, m) == Written(w, Encode(m))
    decreases m, 1
  {
    match m
    case End =>
      assert Written(w, []) == w;
    case Number(k, v, rest) => ThenRest(w, Little(Cast(k, v), k.width), rest);
    case Raw(bs, rest) => ThenRest(w, bs, rest);
    case Frame(body, rest) => FrameThenRest(w, body, rest);
  }

  lemma FrameThenRest(w: Output, body: Message, rest: Message)
    requires WriterOk(w) && WellFormed(body) && WellFormed(rest) && w.info == Ok
    ensures var m := Frame(body, rest);
            && (Write(w, m).info == Ok <==> |Encode(m)| <= |w.data| - w.pos && FramesFit(m))
            && (Write(w, m).info == Ok ==> Write(w, m) == Written(w, Encode(m)))
    decreases Frame(body, rest), 0
  {
    hide Put, EndFrame, Written, Little, WriterOk;
    var closed := CloseBody(w, body);
    var bs := Little(|Encode(body)|, 2) + Encode(body);
    BodyEncodes(w, body);
    assert Write(w, Frame(body, rest)) == Write(closed, rest);
    if closed.info == Ok {
      assert WriterOk(closed) && |closed.data| == |w.data| && closed.pos == w.pos + |bs| by { WrittenShape(w, bs); }
      WriteEncodes(closed, rest);
      if Write(closed, rest).info == Ok {
        WrittenTwice(w, bs, Encode(rest));
      }
    }
  }

  lemma WrittenShape(w: Output, bs: seq<Byte>)
    requires WriterOk(w) && |bs| <= |w.data| - w.pos
    ensures var w' := Written(w, bs);
            WriterOk(w') && |w'.data| == |w.data| && w'.pos == w.pos + |bs| && w'.info == w.info
  {
  }

  /** A frame whose body has been written and whose length has been filled in. */
  ghost function CloseBody(w: Output, body: Message): (w': Output)
    requires WriterOk(w) && WellFormed(body)
    ensures WriterOk(w')
  {
    EndFrame(Write(Put(w, [0, 0]), body), MarkOf(w))
  }

  lemma BodyEncodes(w: Output, body: Message)
    requires WriterOk(w) && WellFormed(body) && w.info == Ok
    ensures CloseBody(w, body).info == Ok <==>
            2 + |Encode(body)| <= |w.data| - w.pos && FramesFit(body) && |Encode(body)| <= 0xFFFF
    ensures CloseBody(w, body).info == Ok ==>
              CloseBody(w, body) == Written(w, Little(|Encode(body)|, 2) + Encode(body))
    decreases body, 2
  {
    var begun := Put(w, [0, 0]);
    if begun.info == Ok {
      WriteEncodes(begun, body);
      if Write(begun, body).info == Ok {
        WrittenTwice(w, [0, 0], Encode(body));
        if |Encode(body)| <= 0xFFFF {
          PatchedLength(w, |Encode(body)|, Encode(body));
        }
      }
    }
  }

  lemma ThenRest(w: Output, bs: seq<Byte>, rest: Message)
    requires WriterOk(w) && WellFormed(rest) && w.info == Ok
    ensures Write(Put(w, bs), rest).info == Ok <==>
            |bs| + |Encode(rest)| <= |w.data| - w.pos && FramesFit(rest)
    ensures Write(Put(w, bs), rest).info == Ok ==> Write(Put(w, bs), rest) == Written(w, bs + Encode(rest))
    decreases rest, 2
  {
    var w1 := Put(w, bs);
    if w1.info == Ok {
      WriteEncodes(w1, rest);
      if Write(w1, rest).info == Ok {
        WrittenTwice(w, bs, Encode(rest));
      }
    }
  }

  /* Reading a message back */

  /** Read items of the kinds found in `shape`; frame bodies are read through sub-readers. */
  ghost function Read(r: Input, shape: Message): (res: (Input, Message))
    requires ReaderOk(r) && WellFormed(shape)
    ensures ReaderOk(res.0)
    decreases shape
  {
    match shape
    case End => (r, End)
    case Number(k, _, rest) =>
      var r' := Skip(r, k.width);
      if r'.info != Ok then (r', End)
      else
        var (e, m) := Read(r', rest);
        (e, Number(k, Uncast(k, Unlittle(Peek(r, k.width))), m))
    case Raw(bs, rest) =>
      var r' := Skip(r, |bs|);
      if r'.info != Ok then (r', End)
      else
        var (e, m) := Read(r', rest);
        (e, Raw(Peek(r, |bs|), m))
    case Frame(body, rest) =>
      var r' := SkipFrame(r);
      if r'.info != Ok then (r', End)
      else
        var (sub, inner) := Read(FrameBody(r), body);
        if sub.info != Ok || sub.pos != |sub.data| then (r'.(info := OutOfBounds), End)
        else
          var (e, m) := Read(r', rest);
          (e, Frame(inner, m))
  }

  ghost predicate Starts(r: Input, bs: seq<Byte>) {
    r.info == Ok && r.pos + |bs| <= |r.data| && r.data[r.pos..r.pos + |bs|] == bs
  }

  lemma StartsSplit(r: Input, a: seq<Byte>, b: seq<Byte>)
    requires ReaderOk(r) && Starts(r, a + b)
    ensures Available(r, |a|) && Peek(r, |a|) == a && Skip(r, |a|).info == Ok
    ensures Starts(Skip(r, |a|), b)
  {
    var s := r.data[r.pos..r.pos + |a + b|];
    assert r.data[r.pos..r.pos + |a|] == s[..|a|] == a;
    assert r.data[r.pos + |a|..r.pos + |a| + |b|] == s[|a|..] == b;
  }

  /** A reader that stands at an encoding returns the message and stops right after it. */
  lemma {:induction false} ReadDecodes(r: Input, m: Message)
    requires ReaderOk(r) && WellFormed(m) && FramesFit(m) && Starts(r, Encode(m))
    ensures Read(r, m) == (r.(pos := r.pos + |Encode(m)|), m)
    decreases m
  {
    hide Little, Unlittle, Cast, Uncast, SkipFrame, FrameBody, FramesFit;
    FramesFitParts(m);
    match m
    case End =>
    case Number(k, v, rest) =>
      StartsSplit(r, Little(Cast(k, v), k.width), Encode(rest));
      LittleRoundTrip(Cast(k, v), k.width);
      CastRoundTrip(k, v);
      ReadDecodes(Skip(r, k.width), rest);
    case Raw(bs, rest) =>
      StartsSplit(r, bs, Encode(rest));
      ReadDecodes(Skip(r, |bs|), rest);
    case Frame(body, rest) =>
      FrameDecodes(r, Encode(body), Encode(rest));
      ReadDecodes(FrameBody(r), body);
      ReadDecodes(SkipFrame(r), rest);
  }

  lemma FrameDecodes(r: Input, inner: seq<Byte>, tail: seq<Byte>)
    requires ReaderOk(r) && r.info == Ok && |inner| <= 0xFFFF
    requires Starts(r, Little(|inner|, 2) + inner + tail)
    ensures SkipFrame(r) == r.(pos := r.pos + 2 + |inner|) && Starts(SkipFrame(r), tail)
    ensures FrameBody(r) == Input(Ok, inner, 0) && Starts(FrameBody(r), inner)
  {
    hide Little, Unlittle, Starts, Peek;
    var len := Little(|inner|, 2);
    assert len + inner + tail == len + (inner + tail);
    StartsSplit(r, len, inner + tail);
    LengthFits(|inner|);
    StartsSplit(Skip(r, 2), inner, tail);
    StartsWhole(inner);
  }

  lemma StartsWhole(bs: seq<Byte>)
    ensures Starts(Input(Ok, bs, 0), bs)
  {
    assert bs[0..|bs|] == bs;
  }

  lemma LengthFits(n: nat)
    requires n <= 0xFFFF
    ensures Unlittle(Little(n, 2)) == n
  {
    assert Range(1) == 256;
    LittleRoundTrip(n, 2);
  }

  /** Whatever is written successfully is read back unchanged, to the last byte. */
  lemma RoundTrip(buffer: seq<Byte>, m: Message)
    requires WellFormed(m) && Write(Output(Ok, buffer, 0), m).info == Ok
    ensures var w := Write(Output(Ok, buffer, 0), m);
            var r := Input(Ok, w.data[..w.pos], 0);
            Read(r, m) == (r.(pos := |r.data|), m)
  {
    hide Write, Read, Encode, WellFormed, FramesFit, Overwrite;
    var w0, e := Output(Ok, buffer, 0), Encode(m);
    WriteEncodes(w0, m);
    var w := Write(w0, m);
    var r := Input(Ok, w.data[..w.pos], 0);
    SliceUpdate(buffer, 0, e, 0);
    assert r.data == e && e[0..|e|] == e;
    ReadDecodes(r, m);
  }
}
