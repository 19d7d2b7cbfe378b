/**
 The streaming SHA-256 and HMAC contexts of cbase_hash.c, updated in place, against the
 one-shot definitions of FIPS 180-4 and RFC 2104.
 */
module Hash {
  import opened Bits
  import opened WordOps
  import opened Fips180

  /** cb__sha256_compress: the schedule array, 64 rounds on eight variables, the final sums. */
  method CompressInto(state: array<Word>, block: seq<Octet>)
    requires state.Length == 8 && |block| == 64
    modifies state
    ensures state[..] == Compress(old(state[..]), block)
  {
    hide Rounds, Schedule, AddVars;
    ghost var s0 := state[..];
    var w := FillSchedule(block);
    var v := RunRounds(s0, block, w[..], state);
    AddInto(state, v);
  }

  method AddInto(state: array<Word>, v: Vars)
    requires state.Length == 8
    modifies state
    ensures state[..] == AddVars(old(state[..]), v)
  {
    hide Add;
    ghost var s0 := state[..];
    var low := [Add(state[0], v.a), Add(state[1], v.b), Add(state[2], v.c), Add(state[3], v.d)];
    var high := [Add(state[4], v.e), Add(state[5], v.f), Add(state[6], v.g), Add(state[7], v.h)];
    assert AddVars(s0, v) == low + high;
    StoreFour(state, 0, low);
    StoreFour(state, 4, high);
    assert state[..8] == state[..];
  }

  /** Four elements of an array, behind what is there already. */
  method StoreFour<T>(out: array<T>, at: nat, w: seq<T>)
    requires |w| == 4 && at + 4 <= out.Length
    modifies out
    ensures out[..at + 4] == old(out[..at]) + w
  {
    out[at] := w[0];
    out[at + 1] := w[1];
    out[at + 2] := w[2];
    out[at + 3] := w[3];
    assert out[at..at + 4] == w;
  }

  ghost predicate IsSchedule(w: seq<Word>, block: seq<Octet>, n: nat) {
    |block| == 64 && n <= |w| == 64 && forall j :: 0 <= j < n ==> w[j] == Schedule(block, j)
  }

  method FillSchedule(block: seq<Octet>) returns (w: array<Word>)
    requires |block| == 64
    ensures fresh(w) && IsSchedule(w[..], block, 64)
  {
    hide Schedule, SSIG0, SSIG1, WordAt, Add;
    w := new Word[64](_ => 0);
    for i := 0 to 16
      invariant IsSchedule(w[..], block, i)
    {
      ScheduleStep(block, i);
      w[i] := WordAt(block, i);
    }
    for i := 16 to 64
      invariant IsSchedule(w[..], block, i)
    {
      ScheduleStep(block, i);
      assert w[i - 2] == w[..][i - 2] && w[i - 7] == w[..][i - 7];
      assert w[i - 15] == w[..][i - 15] && w[i - 16] == w[..][i - 16];
      w[i] := Add(Add(Add(SSIG1(w[i - 2]), w[i - 7]), SSIG0(w[i - 15])), w[i - 16]);
    }
  }

  method RunRounds(ghost s0: seq<Word>, ghost block: seq<Octet>, w: seq<Word>, state: array<Word>) returns (v: Vars)
    requires state.Length == 8 && s0 == state[..] && IsSchedule(w, block, 64)
    ensures v == Rounds(s0, block, 64)
  {
    hide Rounds, Schedule, Round, BSIG0, BSIG1, Ch, Maj, K, Add;
    RoundsStart(s0, block);
    var a, b, c, d := state[0], state[1], state[2], state[3];
    var e, f, g, h := state[4], state[5], state[6], state[7];
    for i := 0 to 64
      invariant Vars(a, b, c, d, e, f, g, h) == Rounds(s0, block, i)
    {
      RoundsStep(s0, block, i);
      RoundUpdates(Vars(a, b, c, d, e, f, g, h), K(i), w[i]);
      var t1 := Add(Add(Add(Add(h, BSIG1(e)), Ch(e, f, g)), K(i)), w[i]);
      var t2 := Add(BSIG0(a), Maj(a, b, c));
      h := g;
      g := f;
      f := e;
      e := Add(d, t1);
      d := c;
      c := b;
      b := a;
      a := Add(t1, t2);
    }
    v := Vars(a, b, c, d, e, f, g, h);
  }

  lemma RoundsStart(s: seq<Word>, block: seq<Octet>)
    requires |s| == 8 && |block| == 64
    ensures Rounds(s, block, 0) == Vars(s[0], s[1], s[2], s[3], s[4], s[5], s[6], s[7])
  {
  }

  lemma RoundsStep(s: seq<Word>, block: seq<Octet>, t: nat)
    requires |s| == 8 && |block| == 64 && t < 64
    ensures Rounds(s, block, t + 1) == Round(Rounds(s, block, t), K(t), Schedule(block, t))
  {
    hide Round, Schedule;
  }

  /** One pass of the loop body is one round. */
  lemma RoundUpdates(v: Vars, k: Word, w: Word)
    ensures var t1 := Add(Add(Add(Add(v.h, BSIG1(v.e)), Ch(v.e, v.f, v.g)), k), w);
            var t2 := Add(BSIG0(v.a), Maj(v.a, v.b, v.c));
            Round(v, k, w) == Vars(Add(t1, t2), v.a, v.b, v.c, Add(v.d, t1), v.e, v.f, v.g)
  {
    hide BSIG0, BSIG1, BigSigma0, BigSigma1, Ch, Maj, Add;
    MacrosAgree(v.a);
    MacrosAgree(v.e);
  }

  lemma ScheduleStep(block: seq<Octet>, t: nat)
    requires |block| == 64 && t < 64
    ensures t < 16 ==> Schedule(block, t) == WordAt(block, t)
    ensures t >= 16 ==>
              Schedule(block, t) == Add(Add(Add(SSIG1(Schedule(block, t - 2)), Schedule(block, t - 7)),
                                            SSIG0(Schedule(block, t - 15))), Schedule(block, t - 16))
  {
    hide SSIG0, SSIG1, SmallSigma0, SmallSigma1, WordAt, Add;
    if t >= 16 {
      MacrosAgree(Schedule(block, t - 2));
      MacrosAgree(Schedule(block, t - 15));
    }
  }

  /* Complete blocks and the rest */

  ghost function Whole(m: seq<Octet>): (n: nat)
    ensures n <= |m| && n % 64 == 0 && |m| - n < 64
  {
    |m| - |m| % 64
  }

  /** The state after the complete blocks of m. */
  ghost function StateAfter(m: seq<Octet>): (s: seq<Word>)
    ensures |s| == 8
  {
    ConstantSizes();
    Blocks(H0, m[..Whole(m)])
  }

  /** A compression state and the bytes not yet compressed, after the message m. */
  ghost predicate Core(st: seq<Word>, pending: seq<Octet>, m: seq<Octet>) {
    st == StateAfter(m) && pending == m[Whole(m)..]
  }

  lemma CoreSizes(st: seq<Word>, pending: seq<Octet>, m: seq<Octet>)
    requires Core(st, pending, m)
    ensures |st| == 8 && |pending| < 64 && |pending| == |m| % 64
  {
  }

  lemma CoreEmpty()
    ensures Core(H0, [], [])
  {
    var m: seq<Octet> := [];
    assert Blocks(H0, []) == H0;
  }

  /** Bytes that complete a block: exactly that block is compressed. */
  lemma BlockCompleted(st: seq<Word>, pending: seq<Octet>, m: seq<Octet>, more: seq<Octet>)
    requires Core(st, pending, m) && |pending| + |more| == 64
    ensures |st| == 8 && Core(Compress(st, pending + more), [], m + more)
  {
    hide Compress;
    ConstantSizes();
    var full, last := m[..Whole(m)], pending + more;
    assert m + more == full + last;
    assert Whole(m + more) == |m + more|;
    assert (m + more)[..Whole(m + more)] == full + last;
    BlocksSplit(H0, full, last);
    OneBlock(Blocks(H0, full), last);
  }

  /** Bytes that do not complete a block are kept for later. */
  lemma Stashed(st: seq<Word>, pending: seq<Octet>, m: seq<Octet>, more: seq<Octet>)
    requires Core(st, pending, m) && |pending| + |more| < 64
    ensures Core(st, pending + more, m + more)
  {
    assert Whole(m + more) == Whole(m);
    assert (m + more)[..Whole(m)] == m[..Whole(m)];
  }

  class Context {
    const state: array<Word>
    const buffer: array<Octet>
    var totalBits: nat
    var bufferLen: nat
    /** Everything hashed so far. */
    ghost var message: seq<Octet>

    ghost predicate Sized() reads this {
      state.Length == 8 && buffer.Length == 64 && bufferLen < 64
    }

    ghost predicate Valid() reads this, state, buffer {
      && Sized()
      && Core(state[..], buffer[..bufferLen], message)
      && totalBits == 8 * |message| % U64
    }

    /** cb_sha256_init; the bytes in the buffer stay whatever they were. */
    constructor ()
      ensures Valid() && message == [] && fresh(state) && fresh(buffer)
    {
      ConstantSizes();
      state := new Word[8](i requires 0 <= i < 8 => H0[i]);
      buffer := new Octet[64](_ => 0);
      totalBits, bufferLen, message := 0, 0, [];
      new;
      assert state[..] == H0;
      CoreEmpty();
    }

    /** memcpy of a run of input bytes into the buffer. */
    method Stash(p: seq<Octet>)
      requires Sized() && bufferLen + |p| <= 64
      modifies buffer
      ensures buffer[..bufferLen + |p|] == old(buffer[..bufferLen]) + p
    {
      for k := 0 to |p|
        invariant buffer[..bufferLen + k] == old(buffer[..bufferLen]) + p[..k]
      {
        buffer[bufferLen + k] := p[k];
        assert p[..k + 1] == p[..k] + [p[k]];
      }
      assert p[..|p|] == p;
    }

    /** cb_sha256_update: any bytes, in any number of calls, are appended to the message. */
    method Update(data: seq<Octet>)
      requires Valid()
      modifies this, state, buffer
      ensures Valid() && message == old(message) + data
    {
      hide Core, Compress;
      if |data| == 0 {
        assert message + data == message;
        return;
      }
      BitsAdded(|message|, |data|);
      totalBits := (totalBits + |data| * 8 % U64) % U64;
      var p := data;
      if bufferLen > 0 {
        var need := 64 - bufferLen;
        if |p| < need {
          Stashed(state[..], buffer[..bufferLen], message, p);
          Stash(p);
          bufferLen := bufferLen + |p|;
          message := message + p;
          return;
        }
        FillBuffer(p[..need]);
        p := p[need..];
        assert data[..need] + p == data;
      }
      assert message + p == old(message) + data;
      UpdateTail(p);
    }

    /** The step of update that completes a buffered block. */
    method FillBuffer(p: seq<Octet>)
      requires Sized() && Core(state[..], buffer[..bufferLen], message) && bufferLen + |p| == 64
      modifies `bufferLen, `message, state, buffer
      ensures Sized() && bufferLen == 0 && message == old(message) + p
      ensures Core(state[..], [], message)
    {
      hide Core, Compress;
      BlockCompleted(state[..], buffer[..bufferLen], message, p);
      Stash(p);
      assert buffer[..64] == buffer[..];
      CompressInto(state, buffer[..]);
      message := message + p;
      bufferLen := 0;
    }

    /** The step of update with an empty buffer: whole blocks from the input, then the tail. */
    method UpdateTail(data: seq<Octet>)
      requires Sized() && Core(state[..], [], message) && bufferLen == 0
      modifies `bufferLen, `message, state, buffer
      ensures Sized() && Core(state[..], buffer[..bufferLen], message)
      ensures message == old(message) + data
    {
      hide Core, Compress;
      var p := data;
      while |p| >= 64
        invariant Core(state[..], [], message) && bufferLen == 0
        invariant message + p == old(message) + data
        decreases |p|
      {
        ghost var whole := message + p;
        BlockCompleted(state[..], [], message, p[..64]);
        assert [] + p[..64] == p[..64];
        CompressInto(state, p[..64]);
        message := message + p[..64];
        p := p[64..];
        assert message + p == whole;
      }
      Stashed(state[..], [], message, p);
      assert [] + p == p;
      if |p| > 0 {
        Stash(p);
        bufferLen := |p|;
        assert buffer[..|p|] == [] + p;
      }
      message := message + p;
    }

    /** Zero bytes up to position `to` of the buffer. */
    method FillZeros(to: nat)
      requires buffer.Length == 64 && bufferLen <= to <= 64
      modifies `bufferLen, buffer
      ensures bufferLen == to && buffer[..to] == old(buffer[..bufferLen]) + Zeros(to - old(bufferLen))
    {
      ghost var start := bufferLen;
      while bufferLen < to
        invariant start <= bufferLen <= to
        invariant buffer[..bufferLen] == old(buffer[..bufferLen]) + Zeros(bufferLen - start)
      {
        buffer[bufferLen] := 0;
        bufferLen := bufferLen + 1;
      }
    }

    /** The last eight bytes of the buffer receive the bit count, most significant byte first. */
    method StoreBits(bits: nat)
      requires buffer.Length == 64 && bits < U64
      modifies buffer
      ensures buffer[..] == old(buffer[..56]) + BigEndian(bits, 8)
    {
      hide BigEndian, ToOctet;
      BigEndian8(bits);
      var high := [ToOctet(bits / 0x100_0000_0000_0000 % 256), ToOctet(bits / 0x1_0000_0000_0000 % 256),
                   ToOctet(bits / 0x100_0000_0000 % 256), ToOctet(bits / 0x1_0000_0000 % 256)];
      var low := [ToOctet(bits / 0x100_0000 % 256), ToOctet(bits / 0x1_0000 % 256),
                  ToOctet(bits / 0x100 % 256), ToOctet(bits % 256)];
      StoreFour(buffer, 56, high);
      StoreFour(buffer, 60, low);
      assert high + low == BigEndian(bits, 8) && buffer[..64] == buffer[..];
    }

    /** cb_sha256_final: pad, compress, emit. The length field is the bit count modulo 2^64. */
    method Final(out: array<Octet>)
      requires Valid() && out.Length == 32 && out != buffer
      modifies this, state, buffer, out
      ensures out[..] == DigestWith(old(message), 8 * |old(message)| % U64)
      ensures 8 * |old(message)| < U64 ==> out[..] == Sha256(old(message))
    {
      hide Core, Compress, PadWith, Octets, H0, BigEndian;
      ghost var m := message;
      var bits := totalBits;
      FinishBlocks(bits);
      assert state[..] == Blocks(H0, PadWith(m, bits));
      Emit(out);
      if 8 * |m| < U64 { DivSmall(8 * |m|, U64); }
    }

    method FinishBlocks(bits: nat)
      requires Valid() && bits < U64
      modifies this, state, buffer
      ensures |H0| == 8 && state[..] == Blocks(H0, PadWith(old(message), bits))
    {
      hide Core, Compress, PadWith, Zeros, H0, BigEndian;
      ConstantSizes();
      ghost var m, st, pending := message, state[..], buffer[..bufferLen];
      buffer[bufferLen] := 0x80;
      bufferLen := bufferLen + 1;
      assert buffer[..bufferLen] == pending + [0x80];
      if bufferLen > 64 - 8 {
        PadTwoBlocks(st, pending, m, bits);
        CloseBlock();
        assert buffer[..bufferLen] + Zeros(56) == Zeros(56);
      } else {
        PadOneBlock(st, pending, m, bits);
      }
      LastBlock(bits);
    }

    /** Zeros up to byte 56, the length field, and the last compression. */
    method LastBlock(bits: nat)
      requires state.Length == 8 && buffer.Length == 64 && bufferLen <= 56 && bits < U64
      modifies `bufferLen, state, buffer
      ensures state[..] == Compress(old(state[..]), old(buffer[..bufferLen]) + Zeros(56 - old(bufferLen)) + BigEndian(bits, 8))
    {
      hide Compress, Zeros, BigEndian;
      FillZeros(56);
      StoreBits(bits);
      CompressInto(state, buffer[..]);
    }

    /** Zero the rest of the block, compress it, and start a fresh one. */
    method CloseBlock()
      requires state.Length == 8 && buffer.Length == 64 && bufferLen <= 64
      modifies `bufferLen, state, buffer
      ensures bufferLen == 0
      ensures state[..] == Compress(old(state[..]), old(buffer[..bufferLen]) + Zeros(64 - old(bufferLen)))
    {
      hide Compress, Zeros;
      FillZeros(64);
      assert buffer[..64] == buffer[..];
      CompressInto(state, buffer[..]);
      bufferLen := 0;
    }

    /** The digest: the state words, most significant byte first. */
    method Emit(out: array<Octet>)
      requires state.Length == 8 && out.Length == 32
      modifies out
      ensures out[..] == Octets(state[..])
    {
      hide WordOctets, Octets;
      assert Octets(state[..0]) == [] by { NoWords(state[..0]); }
      for i := 0 to 8
        invariant out[..4 * i] == Octets(state[..i])
      {
        OctetsStep(state[..], i);
        StoreFour(out, 4 * i, WordOctets(state[i]));
      }
      assert state[..8] == state[..] && out[..32] == out[..];
    }
  }

  lemma OctetsStep(ws: seq<Word>, i: nat)
    requires i < |ws|
    ensures Octets(ws[..i + 1]) == Octets(ws[..i]) + WordOctets(ws[i])
  {
    hide WordOctets;
    assert ws[..i + 1][..i] == ws[..i];
  }

  lemma NoWords(ws: seq<Word>)
    requires ws == []
    ensures Octets(ws) == []
  {
  }

  lemma BigEndian8(v: nat)
    ensures BigEndian(v, 8) == [
              ToOctet(v / 0x100_0000_0000_0000 % 256), ToOctet(v / 0x1_0000_0000_0000 % 256),
              ToOctet(v / 0x100_0000_0000 % 256), ToOctet(v / 0x1_0000_0000 % 256),
              ToOctet(v / 0x100_0000 % 256), ToOctet(v / 0x1_0000 % 256),
              ToOctet(v / 0x100 % 256), ToOctet(v % 256)]
  {
    hide ToOctet, BigEndian;
    BigEndian4(v / 0x1_0000_0000);
    BigEndian4(v);
    var h := v / 0x1_0000_0000;
    assert h / 0x100_0000 == v / 0x100_0000_0000_0000;
    assert h / 0x1_0000 == v / 0x1_0000_0000_0000;
    assert h / 0x100 == v / 0x100_0000_0000;
    BigEndianSplit(v);
  }

  lemma BigEndian4(v: nat)
    ensures BigEndian(v, 4) == [ToOctet(v / 0x100_0000 % 256), ToOctet(v / 0x1_0000 % 256),
                                ToOctet(v / 0x100 % 256), ToOctet(v % 256)]
  {
    hide ToOctet, BigEndian;
    LastOctet(v / 0x100_0000, 1);
    assert v / 0x1_0000 / 256 == v / 0x100_0000 && v / 0x100 / 256 == v / 0x1_0000;
    LastOctet(v / 0x1_0000, 2);
    LastOctet(v / 0x100, 3);
    LastOctet(v, 4);
    assert BigEndian(v / 0x100_0000 / 256, 0) == [] by { NoOctets(v / 0x100_0000 / 256); }
  }

  lemma LastOctet(v: nat, n: nat)
    requires n > 0
    ensures BigEndian(v, n) == BigEndian(v / 256, n - 1) + [ToOctet(v % 256)]
  {
  }

  lemma NoOctets(v: nat)
    ensures BigEndian(v, 0) == []
  {
  }

  lemma BigEndianSplit(v: nat)
    ensures BigEndian(v, 8) == BigEndian(v / 0x1_0000_0000, 4) + BigEndian(v, 4)
  {
    hide ToOctet, BigEndian;
    var h := BigEndian(v / 0x1_0000_0000, 4);
    var b3, b2, b1, b0 := ToOctet(v / 0x100_0000 % 256), ToOctet(v / 0x1_0000 % 256), ToOctet(v / 0x100 % 256), ToOctet(v % 256);
    assert v / 0x100_0000 / 256 == v / 0x1_0000_0000 && v / 0x1_0000 / 256 == v / 0x100_0000 && v / 0x100 / 256 == v / 0x1_0000;
    LastOctet(v / 0x100_0000, 5);
    LastOctet(v / 0x1_0000, 6);
    LastOctet(v / 0x100, 7);
    LastOctet(v, 8);
    assert BigEndian(v, 8) == h + [b3] + [b2] + [b1] + [b0];
    BigEndian4(v);
  }

  lemma ZerosSplit(a: nat, b: nat)
    ensures Zeros(a + b) == Zeros(a) + Zeros(b)
  {
  }

  lemma Regroup(full: seq<Octet>, pending: seq<Octet>, z: seq<Octet>, be: seq<Octet>)
    ensures full + pending + [0x80] + z + be == full + (pending + [0x80] + z + be)
  {
  }

  lemma PadFromPending(st: seq<Word>, pending: seq<Octet>, m: seq<Octet>, bits: nat, tail: seq<Octet>)
    requires Core(st, pending, m) && |tail| % 64 == 0
    requires pending + [0x80] + Zeros(ZeroCount(|m|)) + BigEndian(bits, 8) == tail
    ensures |st| == 8 && |H0| == 8 && Blocks(H0, PadWith(m, bits)) == Blocks(st, tail)
  {
    hide Compress, BigEndian, H0, Zeros, Core;
    ConstantSizes();
    var full, z, be := m[..Whole(m)], Zeros(ZeroCount(|m|)), BigEndian(bits, 8);
    CoreParts(st, pending, m);
    Regroup(full, pending, z, be);
    assert PadWith(m, bits) == full + tail;
    BlocksSplit(H0, full, tail);
  }

  lemma CoreParts(st: seq<Word>, pending: seq<Octet>, m: seq<Octet>)
    requires Core(st, pending, m)
    ensures |H0| == 8 && st == Blocks(H0, m[..Whole(m)]) && m == m[..Whole(m)] + pending
  {
    hide Compress, H0;
    ConstantSizes();
  }

  lemma PadOneBlock(st: seq<Word>, pending: seq<Octet>, m: seq<Octet>, bits: nat)
    requires Core(st, pending, m) && |pending| < 56
    ensures |st| == 8 && |H0| == 8
    ensures Blocks(H0, PadWith(m, bits))
            == Compress(st, pending + [0x80] + Zeros(55 - |pending|) + BigEndian(bits, 8))
  {
    hide Compress, BigEndian, H0, PadWith, Zeros;
    CoreSizes(st, pending, m);
    var tail := pending + [0x80] + Zeros(55 - |pending|) + BigEndian(bits, 8);
    PadFromPending(st, pending, m, bits, tail);
    OneBlock(st, tail);
  }

  lemma PadTwoBlocks(st: seq<Word>, pending: seq<Octet>, m: seq<Octet>, bits: nat)
    requires Core(st, pending, m) && 56 <= |pending| < 64
    ensures |st| == 8 && |H0| == 8
    ensures Blocks(H0, PadWith(m, bits))
            == Compress(Compress(st, pending + [0x80] + Zeros(63 - |pending|)), Zeros(56) + BigEndian(bits, 8))
  {
    hide Compress, BigEndian, H0, PadWith, Zeros;
    CoreSizes(st, pending, m);
    var first, second := pending + [0x80] + Zeros(63 - |pending|), Zeros(56) + BigEndian(bits, 8);
    ZerosSplit(63 - |pending|, 56);
    assert pending + [0x80] + Zeros(119 - |pending|) + BigEndian(bits, 8) == first + second;
    PadFromPending(st, pending, m, bits, first + second);
    BlocksSplit(st, first, second);
    OneBlock(st, first);
    OneBlock(Compress(st, first), second);
  }

  lemma BitsAdded(n: nat, k: nat)
    ensures (8 * n % U64 + k * 8 % U64) % U64 == 8 * (n + k) % U64
  {
    ModSum(8 * n, k * 8 % U64, U64);
    ModSum(k * 8, 8 * n, U64);
  }
}
