/**
 The chained bump allocator of cbase_arena.c. A block is named by the number of its
 creation; an address is a block and an offset into its data.
 */
module Arena {
  import opened Bits

  datatype Strategy = Fixed | Linear | Exponential | Unknown

  datatype Block = Block(id: nat, size: nat, used: nat)

  /** The chain from `head`, the position of `current` in it, and the number of blocks ever made. */
  datatype Chain = Chain(strategy: Strategy, initial: nat, blocks: seq<Block>, cur: nat, made: nat)

  datatype Reply = Address(id: nat, offset: nat) | OutOfMemory | AllocFailed | GenericError

  /** `creates` says whether malloc would succeed if it were called for this request. */
  datatype Request = Request(size: nat, align: nat, creates: bool)

  const POINTER_SIZE: nat := 8
  const HEADER: nat := 32
  const GUARD: nat := 16
  const GUARD_BYTE: Byte := 0xCB

  ghost predicate IsPowerOfTwo(a: nat) { exists k: nat :: k < 64 && a == Pow2(k) }

  function Alignment(r: Request): nat { if r.align == 0 then POINTER_SIZE else r.align }

  /** cb__align_forward at 64 bits: add the mask, clear the low bits. */
  function AlignForward(offset: nat, align: nat): nat
    requires 0 < align <= U64 && offset + (align - 1) < U64
  {
    And(offset + (align - 1), U64 - align)
  }

  /** Rounding up to the next multiple. */
  lemma AlignForwardRounds(offset: nat, align: nat)
    requires IsPowerOfTwo(align) && offset + align < U64
    ensures offset <= AlignForward(offset, align) < offset + align
    ensures AlignForward(offset, align) % align == 0
    ensures offset % align == 0 ==> AlignForward(offset, align) == offset
  {
    hide And, Pow2;
    var k: nat :| k < 64 && align == Pow2(k);
    var x := offset + (align - 1);
    assert Pow2(64) == U64 by { Pow2Values(); }
    AndClear(x, k, 64);
    RoundedUp(offset, align);
  }

  lemma RoundedUp(offset: nat, align: nat)
    requires align > 0
    ensures var x := offset + (align - 1);
            && offset <= x - x % align < offset + align
            && (x - x % align) % align == 0
            && (offset % align == 0 ==> x - x % align == offset)
  {
    var x := offset + (align - 1);
    DivMod(x, align);
    DivExact(x / align, align);
    DivMod(offset, align);
    if offset % align == 0 {
      DivUnique(x, align, offset / align, align - 1);
    }
  }

  ghost predicate WellFormed(a: Chain) {
    && a.cur < |a.blocks|
    && (forall i :: 0 <= i < |a.blocks| ==> a.blocks[i].used <= a.blocks[i].size && a.blocks[i].id < a.made)
    && (forall i :: a.cur < i < |a.blocks| ==> a.blocks[i].used == 0)
    && (forall i, j :: 0 <= i < j < |a.blocks| ==> a.blocks[i].id != a.blocks[j].id)
  }

  /** The block whose size doubles under the exponential strategy: the next one if there is one. */
  ghost function Model(a: Chain): Block
    requires a.cur < |a.blocks|
  {
    if a.cur + 1 < |a.blocks| then a.blocks[a.cur + 1] else a.blocks[a.cur]
  }

  /** A strategy that never adds a block. */
  predicate Closed(s: Strategy) { s == Fixed || s == Unknown }

  /** Doubling, where the strategy doubles, stays within 64 bits. */
  ghost predicate Doubles(a: Chain)
    requires a.cur < |a.blocks|
  {
    a.strategy == Exponential ==> Model(a).size * 2 < U64
  }

  ghost function NewSize(a: Chain, r: Request): nat
    requires a.cur < |a.blocks|
  {
    var n := if a.strategy == Linear then a.initial else Model(a).size * 2;
    if n < r.size + Alignment(r) then r.size + Alignment(r) else n
  }

  ghost function FitsAt(b: Block, r: Request): bool
    requires IsPowerOfTwo(Alignment(r)) && b.used + Alignment(r) < U64
  {
    AlignForward(b.used, Alignment(r)) + r.size <= b.size
  }

  ghost function Use(b: Block, r: Request): Block
    requires IsPowerOfTwo(Alignment(r)) && b.used + Alignment(r) < U64
  {
    b.(used := AlignForward(b.used, Alignment(r)) + r.size)
  }

  ghost predicate NextFits(a: Chain, r: Request)
    requires IsPowerOfTwo(Alignment(r)) && Alignment(r) < U64
  {
    a.cur + 1 < |a.blocks| &&
    AlignForward(0, Alignment(r)) + r.size <= a.blocks[a.cur + 1].size
  }

  /** The request needs a block that is not there, and the strategy would make one. */
  ghost predicate Grows(a: Chain, r: Request)
    requires a.cur < |a.blocks| && IsPowerOfTwo(Alignment(r)) && a.blocks[a.cur].used + Alignment(r) < U64
  {
    !FitsAt(a.blocks[a.cur], r) && !NextFits(a, r) && !Closed(a.strategy)
  }

  /** The request has a power-of-two alignment, and no size computed for it overflows 64 bits. */
  ghost predicate Acceptable(a: Chain, r: Request) {
    && a.cur < |a.blocks|
    && IsPowerOfTwo(Alignment(r))
    && a.blocks[a.cur].used + Alignment(r) + r.size < U64
    && (Grows(a, r) ==> Doubles(a) && HEADER + 2 * GUARD + NewSize(a, r) < U64)
  }

  /** cb_arena_alloc */
  ghost function AllocStep(a: Chain, r: Request): (Chain, Reply)
    requires Acceptable(a, r)
  {
    var align, b := Alignment(r), a.blocks[a.cur];
    var zero := AlignForward(0, align);
    if FitsAt(b, r) then
      (a.(blocks := a.blocks[a.cur := Use(b, r)]), Address(b.id, AlignForward(b.used, align)))
    else if NextFits(a, r) then
      var n := a.blocks[a.cur + 1];
      (a.(blocks := a.blocks[a.cur + 1 := n.(used := zero + r.size)], cur := a.cur + 1), Address(n.id, zero))
    else if a.strategy == Fixed then (a, OutOfMemory)
    else if a.strategy == Unknown then (a, GenericError)
    else if !r.creates then (a, AllocFailed)
    else
      var n := Block(a.made, NewSize(a, r), zero + r.size);
      (a.(blocks := a.blocks[..a.cur + 1] + [n], cur := a.cur + 1, made := a.made + 1), Address(n.id, zero))
  }

  ghost function Reset(a: Chain): (a': Chain)
    ensures |a'.blocks| == |a.blocks|
  {
    a.(blocks := seq(|a.blocks|, i requires 0 <= i < |a.blocks| => a.blocks[i].(used := 0)), cur := 0)
  }

  lemma ZeroAligned(align: nat)
    requires IsPowerOfTwo(align) && align < U64
    ensures AlignForward(0, align) == 0
  {
    DivSmall(0, align);
    AlignForwardRounds(0, align);
  }

  /* When a request succeeds, and where */

  /** A span for the request is free at this offset of the block. */
  ghost predicate FreeAt(b: Block, r: Request, o: nat) {
    var align := if r.align == 0 then 8 else r.align;
    align > 0 && o % align == 0 && b.used <= o && o + r.size <= b.size
  }

  ghost predicate Room(b: Block, r: Request) { exists o :: FreeAt(b, r, o) }

  ghost predicate NextRoom(a: Chain, r: Request) {
    a.cur + 1 < |a.blocks| && r.size <= a.blocks[a.cur + 1].size
  }

  /** No multiple at or above the offset is smaller than the rounded one. */
  lemma RoundedLeast(offset: nat, align: nat, up: nat, o: nat)
    requires align > 0 && up % align == 0 && up < offset + align
    requires offset <= o && o % align == 0
    ensures up <= o
  {
    var p, q := up / align, o / align;
    DivMod(up, align);
    DivMod(o, align);
    if p > q {
      MulLe(q + 1, p, align);
      MulDist(q, 1, align);
    }
  }

  lemma FitsIffRoom(a: Chain, r: Request)
    requires WellFormed(a) && Acceptable(a, r)
    ensures var b := a.blocks[a.cur];
            var o := AlignForward(b.used, Alignment(r));
            && (FitsAt(b, r) <==> FreeAt(b, r, o)) && (FitsAt(b, r) <==> Room(b, r))
            && (forall q :: FreeAt(b, r, q) ==> o <= q)
  {
    hide WellFormed, AlignForward, IsPowerOfTwo;
    var b, align := a.blocks[a.cur], Alignment(r);
    var up := AlignForward(b.used, align);
    AlignForwardRounds(b.used, align);
    forall o | FreeAt(b, r, o) ensures up <= o {
      RoundedLeast(b.used, align, up, o);
    }
  }

  /** A request takes the lowest free span of the current block, else the start of the next block if
      that is large enough, else the start of a new one, which only a growing strategy makes and only
      malloc can deny. */
  lemma AllocIff(a: Chain, r: Request)
    requires WellFormed(a) && Acceptable(a, r)
    ensures var b, reply := a.blocks[a.cur], AllocStep(a, r).1;
            if Room(b, r) then
              reply.Address? && reply.id == b.id && FreeAt(b, r, reply.offset)
              && forall o :: FreeAt(b, r, o) ==> reply.offset <= o
            else
              reply == if NextRoom(a, r) then Address(a.blocks[a.cur + 1].id, 0)
                       else if a.strategy == Fixed then OutOfMemory
                       else if a.strategy == Unknown then GenericError
                       else if r.creates then Address(a.made, 0) else AllocFailed
  {
    hide WellFormed, AlignForward, FreeAt, NewSize, Doubles;
    FitsIffRoom(a, r);
    ZeroAligned(Alignment(r));
  }

  /** What becomes of the chain: one block is used up to the end of the span, and only growing adds one. */
  lemma AllocLeaves(a: Chain, r: Request)
    requires WellFormed(a) && Acceptable(a, r)
    ensures var (a', reply) := AllocStep(a, r);
            var align := if r.align == 0 then 8 else r.align;
            if !reply.Address? then a' == a
            else if Room(a.blocks[a.cur], r) then
              a' == a.(blocks := a.blocks[a.cur := a.blocks[a.cur].(used := reply.offset + r.size)])
            else if NextRoom(a, r) then
              a' == a.(blocks := a.blocks[a.cur + 1 := a.blocks[a.cur + 1].(used := r.size)], cur := a.cur + 1)
            else
              var last := a.blocks[if a.cur + 1 < |a.blocks| then a.cur + 1 else a.cur].size;
              var n := if a.strategy == Linear then a.initial else 2 * last;
              a' == a.(blocks := a.blocks[..a.cur + 1]
                                 + [Block(a.made, if n < r.size + align then r.size + align else n, r.size)],
                       cur := a.cur + 1, made := a.made + 1)
  {
    hide WellFormed, AlignForward, FreeAt, Doubles;
    FitsIffRoom(a, r);
    ZeroAligned(Alignment(r));
  }

  /* What allocations never do to each other */

  /** A byte range handed out: `size` bytes at `offset` of block `id`. */
  datatype Span = Span(id: nat, offset: nat, size: nat, align: nat)

  ghost predicate Disjoint(s: Span, t: Span) {
    s.id != t.id || s.offset + s.size <= t.offset || t.offset + t.size <= s.offset
  }

  /** The span lies in the used part of a block up to the current one, aligned. */
  ghost predicate Inside(a: Chain, s: Span) {
    s.align > 0 && s.offset % s.align == 0 &&
    exists i :: 0 <= i <= a.cur < |a.blocks| && a.blocks[i].id == s.id && s.offset + s.size <= a.blocks[i].used
  }

  /** Everything handed out since the last reset is in place and pairwise disjoint. */
  ghost predicate Logged(a: Chain, log: seq<Span>) {
    && (forall i :: 0 <= i < |log| ==> Inside(a, log[i]))
    && (forall i, j :: 0 <= i < j < |log| ==> Disjoint(log[i], log[j]))
  }

  ghost function SpanOf(r: Request, reply: Reply): Span
    requires reply.Address?
  {
    Span(reply.id, reply.offset, r.size, Alignment(r))
  }

  /** The log after one more request; a failed request adds nothing. */
  ghost function Extended(log: seq<Span>, r: Request, reply: Reply): seq<Span> {
    if reply.Address? then log + [SpanOf(r, reply)] else log
  }

  lemma AllocKeepsForm(a: Chain, r: Request)
    requires WellFormed(a) && Acceptable(a, r)
    ensures WellFormed(AllocStep(a, r).0) && AllocStep(a, r).0.strategy == a.strategy && AllocStep(a, r).0.initial == a.initial
  {
    hide AlignForward, NewSize;
    ZeroAligned(Alignment(r));
    assert NewSize(a, r) >= r.size by { SizeCovers(a, r); }
  }

  lemma SizeCovers(a: Chain, r: Request)
    requires a.cur < |a.blocks|
    ensures NewSize(a, r) >= r.size + Alignment(r)
  {
  }

  lemma ResetKeepsForm(a: Chain)
    requires WellFormed(a)
    ensures WellFormed(Reset(a))
  {
  }

  /** A successful request gets a span that is inside its block, aligned, and above everything used. */
  lemma AllocPlaces(a: Chain, r: Request)
    requires WellFormed(a) && Acceptable(a, r) && AllocStep(a, r).1.Address?
    ensures var (a', reply) := AllocStep(a, r);
            && Inside(a', SpanOf(r, reply))
            && (forall s :: Inside(a, s) ==> Inside(a', s) && Disjoint(s, SpanOf(r, reply)))
  {
    hide AlignForward, NewSize, WellFormed;
    var align, b := Alignment(r), a.blocks[a.cur];
    var (a', reply) := AllocStep(a, r);
    AllocKeepsForm(a, r);
    ZeroAligned(align);
    AlignForwardRounds(b.used, align);
    SmallFacts(a, align);
    assert a'.blocks[a'.cur].id == reply.id && reply.offset + r.size == a'.blocks[a'.cur].used;
    forall s | Inside(a, s)
      ensures Inside(a', s) && Disjoint(s, SpanOf(r, reply))
    {
      var i :| 0 <= i <= a.cur && a.blocks[i].id == s.id && s.offset + s.size <= a.blocks[i].used;
      assert a'.blocks[i].id == s.id && s.offset + s.size <= a'.blocks[i].used;
      if i < a'.cur { IdsDiffer(a', i); }
    }
  }

  lemma SmallFacts(a: Chain, align: nat)
    requires align > 0
    ensures 0 % align == 0
  {
    DivSmall(0, align);
  }

  lemma IdsDiffer(a: Chain, i: nat)
    requires WellFormed(a) && i < a.cur
    ensures a.blocks[i].id != a.blocks[a.cur].id
  {
  }

  /** Every request keeps the log in place and disjoint, whether it succeeds or fails. */
  lemma AllocKeepsLog(a: Chain, r: Request, log: seq<Span>)
    requires WellFormed(a) && Acceptable(a, r) && Logged(a, log)
    ensures Logged(AllocStep(a, r).0, Extended(log, r, AllocStep(a, r).1))
  {
    hide AllocStep, Inside, Disjoint, Acceptable;
    var (a', reply) := AllocStep(a, r);
    if reply.Address? {
      AllocPlaces(a, r);
    } else {
      FailureKeeps(a, r);
    }
  }

  /** A request that fails leaves the arena as it was. */
  lemma FailureKeeps(a: Chain, r: Request)
    requires Acceptable(a, r) && !AllocStep(a, r).1.Address?
    ensures AllocStep(a, r).0 == a
  {
  }

  /* Runs of requests */

  /** Each request of the run is acceptable when its turn comes. */
  ghost predicate AllAcceptable(a: Chain, rs: seq<Request>)
    decreases |rs|
  {
    rs == [] || (Acceptable(a, rs[0]) && AllAcceptable(AllocStep(a, rs[0]).0, rs[1..]))
  }

  ghost function Run(a: Chain, rs: seq<Request>): (res: (Chain, seq<Reply>))
    requires AllAcceptable(a, rs)
    ensures |res.1| == |rs|
    decreases |rs|
  {
    if rs == [] then (a, [])
    else
      var (a', reply) := AllocStep(a, rs[0]);
      var (e, replies) := Run(a', rs[1..]);
      (e, [reply] + replies)
  }

  ghost function LogOf(rs: seq<Request>, replies: seq<Reply>, log: seq<Span>): seq<Span>
    requires |rs| == |replies|
    decreases |rs|
  {
    if rs == [] then log else LogOf(rs[1..], replies[1..], Extended(log, rs[0], replies[0]))
  }

  /** Between resets all spans handed out are aligned, inside their blocks and pairwise disjoint. */
  lemma {:induction false} SpansDisjoint(a: Chain, rs: seq<Request>, log: seq<Span>)
    requires WellFormed(a) && AllAcceptable(a, rs) && Logged(a, log)
    ensures WellFormed(Run(a, rs).0)
    ensures Logged(Run(a, rs).0, LogOf(rs, Run(a, rs).1, log))
    decreases |rs|
  {
    hide AllocStep, WellFormed, Logged, Acceptable;
    if rs != [] {
      var (a', reply) := AllocStep(a, rs[0]);
      AllocKeepsForm(a, rs[0]);
      AllocKeepsLog(a, rs[0], log);
      SpansDisjoint(a', rs[1..], Extended(log, rs[0], reply));
      var replies := Run(a', rs[1..]).1;
      assert ([reply] + replies)[1..] == replies;
    }
  }

  /* Replaying requests after a reset */

  /** The same chain of blocks, whatever is used in them. */
  ghost predicate SameBlock(b: Block, c: Block) { b.id == c.id && b.size == c.size }

  ghost predicate SamePrefix(a: Chain, e: Chain, n: nat) {
    n <= |a.blocks| && n <= |e.blocks| &&
    forall i :: 0 <= i < n ==> SameBlock(a.blocks[i], e.blocks[i])
  }

  lemma AllocKeepsPrefix(a: Chain, r: Request)
    requires WellFormed(a) && Acceptable(a, r)
    ensures var a' := AllocStep(a, r).0;
            && a.cur <= a'.cur && SamePrefix(a, a', a.cur + 1)
            && (Closed(a.strategy) ==> |a'.blocks| == |a.blocks| && SamePrefix(a, a', |a.blocks|))
  {
    hide AlignForward, NewSize;
  }

  /** Blocks up to the current one stay in the chain until the end of the run. */
  lemma {:induction false} RunKeepsPrefix(a: Chain, rs: seq<Request>)
    requires WellFormed(a) && AllAcceptable(a, rs)
    ensures var e := Run(a, rs).0;
            && e.strategy == a.strategy && a.cur <= e.cur && SamePrefix(a, e, a.cur + 1)
            && (Closed(a.strategy) ==> |e.blocks| == |a.blocks| && SamePrefix(a, e, |a.blocks|))
    decreases |rs|
  {
    hide AllocStep, Acceptable;
    if rs != [] {
      AllocKeepsForm(a, rs[0]);
      AllocKeepsPrefix(a, rs[0]);
      RunKeepsPrefix(AllocStep(a, rs[0]).0, rs[1..]);
    }
  }

  /** t is in the same position as s, on the chain that the run from s ends with. */
  ghost predicate Mirrors(t: Chain, s: Chain, e: Chain) {
    && t.strategy == s.strategy && t.initial == s.initial && t.cur == s.cur < |s.blocks|
    && |t.blocks| == |e.blocks| && SamePrefix(t, e, |e.blocks|) && t.cur < |t.blocks| && t.made == e.made
    && SamePrefix(s, e, s.cur + 1)
    && (forall i :: 0 <= i <= s.cur ==> t.blocks[i].used == s.blocks[i].used)
    && (forall i :: s.cur < i < |t.blocks| ==> t.blocks[i].used == 0)
  }

  ghost predicate NoneFailedToCreate(replies: seq<Reply>) {
    forall i :: 0 <= i < |replies| ==> !replies[i].AllocFailed?
  }

  /** One request, on the chain of the first run's end: same reply, no block made. */
  lemma MirrorStep(t: Chain, s: Chain, e: Chain, r: Request)
    requires WellFormed(s) && Acceptable(s, r) && Mirrors(t, s, e)
    requires !AllocStep(s, r).1.AllocFailed?
    requires SamePrefix(AllocStep(s, r).0, e, AllocStep(s, r).0.cur + 1)
    requires Closed(s.strategy) ==> |e.blocks| == |s.blocks| && SamePrefix(s, e, |s.blocks|)
    ensures Acceptable(t, r) && AllocStep(t, r).1 == AllocStep(s, r).1
    ensures Mirrors(AllocStep(t, r).0, AllocStep(s, r).0, e)
  {
    hide AlignForward, NewSize, IsPowerOfTwo, Doubles;
    ZeroAligned(Alignment(r));
    SizeCovers(s, r);
    var s' := AllocStep(s, r).0;
    assert SameBlock(s.blocks[s.cur], e.blocks[s.cur]) && SameBlock(t.blocks[s.cur], e.blocks[s.cur]);
    if s'.cur > s.cur {
      assert SameBlock(s'.blocks[s'.cur], e.blocks[s'.cur]) && SameBlock(t.blocks[s'.cur], e.blocks[s'.cur]);
    }
  }

  lemma {:induction false} MirrorRun(t: Chain, s: Chain, rs: seq<Request>)
    requires WellFormed(s) && AllAcceptable(s, rs)
    requires NoneFailedToCreate(Run(s, rs).1)
    requires Mirrors(t, s, Run(s, rs).0)
    ensures AllAcceptable(t, rs) && Run(t, rs).1 == Run(s, rs).1
    ensures Mirrors(Run(t, rs).0, Run(s, rs).0, Run(s, rs).0)
    decreases |rs|
  {
    hide AllocStep, Acceptable, Mirrors;
    if rs != [] {
      var r, e := rs[0], Run(s, rs).0;
      var (s', reply) := AllocStep(s, r);
      AllocKeepsForm(s, r);
      RunKeepsPrefix(s, rs);
      RunKeepsPrefix(s', rs[1..]);
      assert Run(s, rs).1[0] == reply;
      MirrorStep(t, s, e, r);
      assert forall i :: 0 <= i < |rs| - 1 ==> Run(s', rs[1..]).1[i] == Run(s, rs).1[i + 1];
      MirrorRun(AllocStep(t, r).0, s', rs[1..]);
    }
  }

  /** Replaying requests after a reset returns the same addresses and creates no block. */
  lemma ReplayIsIdentical(a: Chain, rs: seq<Request>)
    requires WellFormed(a) && AllAcceptable(Reset(a), rs) && NoneFailedToCreate(Run(Reset(a), rs).1)
    ensures var (e, replies) := Run(Reset(a), rs);
            && AllAcceptable(Reset(e), rs) && Run(Reset(e), rs).1 == replies
            && Run(Reset(e), rs).0.made == e.made && |Run(Reset(e), rs).0.blocks| == |e.blocks|
  {
    hide AllocStep, Acceptable;
    var s := Reset(a);
    var e := Run(s, rs).0;
    ResetKeepsForm(a);
    RunKeepsPrefix(s, rs);
    RunKeepsForm(s, rs);
    assert Mirrors(Reset(e), s, e);
    MirrorRun(Reset(e), s, rs);
  }

  /* Replaying a run in which malloc failed */

  /** The same replies, one by one, on chain t. */
  ghost predicate Repeats(t: Chain, rs: seq<Request>, replies: seq<Reply>)
    requires |rs| == |replies|
    decreases |rs|
  {
    rs == [] ||
    (Acceptable(t, rs[0]) && AllocStep(t, rs[0]).1 == replies[0] &&
     Repeats(AllocStep(t, rs[0]).0, rs[1..], replies[1..]))
  }

  /** A request that failed at s also fails on the blocks of e: the block that follows there is
      too small for it as well. */
  ghost predicate StillFails(s: Chain, r: Request, e: Chain)
    requires IsPowerOfTwo(Alignment(r)) && Alignment(r) < U64
  {
    var t := s.(blocks := e.blocks);
    t.cur < |t.blocks| && !NextFits(t, r) && Doubles(t) && HEADER + 2 * GUARD + NewSize(t, r) < U64
  }

  ghost predicate FailuresStay(s: Chain, rs: seq<Request>, e: Chain)
    requires AllAcceptable(s, rs)
    decreases |rs|
  {
    rs == [] ||
    ((AllocStep(s, rs[0]).1.AllocFailed? ==> StillFails(s, rs[0], e)) && FailuresStay(AllocStep(s, rs[0]).0, rs[1..], e))
  }

  lemma MirrorFailure(t: Chain, s: Chain, e: Chain, r: Request)
    requires WellFormed(s) && Acceptable(s, r) && Mirrors(t, s, e) && AllocStep(s, r).1.AllocFailed?
    ensures AllocStep(s, r).0 == s
    ensures StillFails(s, r, e) <==> Acceptable(t, r) && AllocStep(t, r).1 == AllocFailed
    ensures StillFails(s, r, e) ==> AllocStep(t, r).0 == t
  {
    hide AlignForward, IsPowerOfTwo;
    ZeroAligned(Alignment(r));
    var u := s.(blocks := e.blocks);
    assert SameBlock(t.blocks[s.cur], e.blocks[s.cur]);
    assert SameBlock(s.blocks[s.cur], e.blocks[s.cur]);
    if s.cur + 1 < |e.blocks| {
      assert SameBlock(t.blocks[s.cur + 1], e.blocks[s.cur + 1]);
    }
    assert NextFits(u, r) <==> NextFits(t, r);
    assert Model(u).size == Model(t).size && NewSize(u, r) == NewSize(t, r);
  }

  lemma AlignmentOk(a: Chain, r: Request)
    requires Acceptable(a, r)
    ensures IsPowerOfTwo(Alignment(r)) && Alignment(r) < U64
  {
  }

  lemma {:induction false} MirrorRunIff(t: Chain, s: Chain, rs: seq<Request>)
    requires WellFormed(s) && AllAcceptable(s, rs) && Mirrors(t, s, Run(s, rs).0)
    ensures Repeats(t, rs, Run(s, rs).1) <==> FailuresStay(s, rs, Run(s, rs).0)
    decreases |rs|
  {
    hide AllocStep, Acceptable, Mirrors, StillFails;
    if rs != [] {
      var r, e := rs[0], Run(s, rs).0;
      var (s', reply) := AllocStep(s, r);
      AllocKeepsForm(s, r);
      RunKeepsPrefix(s, rs);
      RunKeepsPrefix(s', rs[1..]);
      var (e', rest) := Run(s', rs[1..]);
      assert Run(s, rs).1 == [reply] + rest && e == e';
      assert Run(s, rs).1[1..] == rest;
      if reply.AllocFailed? {
        MirrorFailure(t, s, e, r);
        AlignmentOk(s, r);
        if StillFails(s, r, e) { MirrorRunIff(t, s, rs[1..]); }
      } else {
        MirrorStep(t, s, e, r);
        MirrorRunIff(AllocStep(t, r).0, s', rs[1..]);
      }
    }
  }

  /** A replay after a reset gives the same replies if and only if every request that malloc
      failed still finds no room: the block that came to stand behind it is too small. */
  lemma ReplayIff(a: Chain, rs: seq<Request>)
    requires WellFormed(a) && AllAcceptable(Reset(a), rs)
    ensures var (e, replies) := Run(Reset(a), rs);
            Repeats(Reset(e), rs, replies) <==> FailuresStay(Reset(a), rs, e)
  {
    hide AllocStep, Acceptable;
    var s := Reset(a);
    var e := Run(s, rs).0;
    ResetKeepsForm(a);
    RunKeepsPrefix(s, rs);
    RunKeepsForm(s, rs);
    assert Mirrors(Reset(e), s, e);
    MirrorRunIff(Reset(e), s, rs);
  }

  lemma RunCons(a: Chain, r: Request, rs: seq<Request>)
    requires Acceptable(a, r) && AllAcceptable(AllocStep(a, r).0, rs)
    ensures AllAcceptable(a, [r] + rs)
    ensures var (a', reply) := AllocStep(a, r);
            Run(a, [r] + rs) == (Run(a', rs).0, [reply] + Run(a', rs).1)
  {
    assert ([r] + rs)[1..] == rs;
  }

  /** A request that failed for want of memory can succeed in the replay, in the block that a
      later request brought. */
  lemma FailureCanHeal()
    ensures var a := Chain(Linear, 16, [Block(0, 16, 0)], 0, 1);
            var rs := [Request(100, 1, false), Request(100, 1, true)];
            && WellFormed(a) && AllAcceptable(Reset(a), rs)
            && Run(Reset(a), rs).1 == [AllocFailed, Address(1, 0)]
            && !Repeats(Reset(Run(Reset(a), rs).0), rs, Run(Reset(a), rs).1)
  {
    hide AlignForward;
    var a := Chain(Linear, 16, [Block(0, 16, 0)], 0, 1);
    var r1, r2 := Request(100, 1, false), Request(100, 1, true);
    assert IsPowerOfTwo(1) by { assert Pow2(0) == 1; }
    AlignForwardRounds(0, 1);
    assert Reset(a) == a;
    assert Acceptable(a, r1) && AllocStep(a, r1) == (a, AllocFailed);
    var e := Chain(Linear, 16, [Block(0, 16, 0), Block(1, 101, 100)], 1, 2);
    assert a.blocks[..1] == a.blocks;
    assert AllocStep(a, r2).0.blocks == e.blocks;
    assert Acceptable(a, r2) && AllocStep(a, r2) == (e, Address(1, 0));
    RunCons(a, r2, []);
    RunCons(a, r1, [r2]);
    assert [r2] + [] == [r2] && [r1] + [r2] == [r1, r2];
    var t := Reset(e);
    assert t.blocks[1].size == 101 && t.blocks[0] == Block(0, 16, 0);
    assert AllocStep(t, r1).1 == Address(1, 0);
  }

  lemma {:induction false} RunKeepsForm(a: Chain, rs: seq<Request>)
    requires WellFormed(a) && AllAcceptable(a, rs)
    ensures WellFormed(Run(a, rs).0) && Run(a, rs).0.initial == a.initial
    decreases |rs|
  {
    hide AllocStep, Acceptable, WellFormed;
    if rs != [] {
      AllocKeepsForm(a, rs[0]);
      RunKeepsForm(AllocStep(a, rs[0]).0, rs[1..]);
    }
  }

  /* The object */

  class Allocator {
    const strategy: Strategy
    const initial: nat
    var blocks: seq<Block>
    var cur: nat
    /** Names the next block to be made. */
    var made: nat

    ghost function Value(): Chain reads this {
      Chain(strategy, initial, blocks, cur, made)
    }

    /** cb_arena_create when its malloc succeeds. */
    constructor (size: nat, strategy: Strategy)
      requires HEADER + 2 * GUARD + size < U64
      ensures WellFormed(Value())
      ensures Value() == Chain(strategy, size, [Block(0, size, 0)], 0, 1)
    {
      this.strategy := strategy;
      initial := size;
      blocks := [Block(0, size, 0)];
      cur, made := 0, 1;
    }

    method Alloc(size: nat, align0: nat, creates: bool) returns (reply: Reply)
      requires WellFormed(Value()) && Acceptable(Value(), Request(size, align0, creates))
      modifies this
      ensures (Value(), reply) == AllocStep(old(Value()), Request(size, align0, creates))
      ensures WellFormed(Value())
    {
      hide WellFormed, AlignForward, IsPowerOfTwo;
      ghost var a, r := Value(), Request(size, align0, creates);
      AllocKeepsForm(a, r);
      var align := if align0 == 0 then POINTER_SIZE else align0;
      var block := blocks[cur];
      var offset := AlignForward(block.used, align);
      if offset + size <= block.size {
        blocks := blocks[cur := block.(used := offset + size)];
        return Address(block.id, offset);
      }
      if cur + 1 < |blocks| {
        block := blocks[cur + 1];
        offset := AlignForward(0, align);
        if offset + size <= block.size {
          blocks := blocks[cur + 1 := block.(used := offset + size)];
          cur := cur + 1;
          return Address(block.id, offset);
        }
      }
      var newSize: nat;
      match strategy {
        case Fixed => return OutOfMemory;
        case Unknown => return GenericError;
        case Linear => newSize := initial;
        case Exponential => newSize := block.size * 2;
      }
      if newSize < size + align { newSize := size + align; }
      if !creates { return AllocFailed; }
      offset := AlignForward(0, align);
      blocks := blocks[..cur + 1] + [Block(made, newSize, offset + size)];
      cur := cur + 1;
      reply := Address(made, offset);
      made := made + 1;
    }

    /** cb_arena_reset: nothing is used any more, no block is given back. */
    method Rewind()
      requires WellFormed(Value())
      modifies this
      ensures Value() == Reset(old(Value())) && WellFormed(Value())
      ensures cur == 0 && made == old(made) && |blocks| == |old(blocks)|
      ensures forall i :: 0 <= i < |blocks| ==> blocks[i] == old(blocks)[i].(used := 0)
    {
      ResetKeepsForm(Value());
      ghost var goal := Reset(Value());
      var i := 0;
      while i < |blocks|
        invariant i <= |blocks| == |old(blocks)| && cur == old(cur) && made == old(made)
        invariant forall j :: 0 <= j < i ==> blocks[j] == goal.blocks[j]
        invariant forall j :: i <= j < |blocks| ==> blocks[j] == old(blocks)[j]
      {
        blocks := blocks[i := blocks[i].(used := 0)];
        i := i + 1;
      }
      cur := 0;
      assert blocks == goal.blocks;
    }
  }

  /* Guard zones in the memory of one block: header, guard, data, guard */

  ghost predicate GuardAt(raw: seq<Byte>, from: nat) {
    from + GUARD <= |raw| && forall i :: from <= i < from + GUARD ==> raw[i] == GUARD_BYTE
  }

  ghost predicate Healthy(raw: seq<Byte>, size: nat) {
    && |raw| == HEADER + GUARD + size + GUARD
    && GuardAt(raw, HEADER) && GuardAt(raw, HEADER + GUARD + size)
  }

  /** cb__arena_block_create, after malloc. */
  method CreateBlock(raw: array<Byte>, id: nat, size: nat) returns (b: Block)
    requires raw.Length == HEADER + GUARD + size + GUARD
    modifies raw
    ensures Healthy(raw[..], size) && b == Block(id, size, 0)
    ensures forall i :: 32 <= i < 48 || 48 + size <= i < 64 + size ==> raw[i] == 0xCB
  {
    for i := 0 to GUARD
      invariant forall j :: HEADER <= j < HEADER + i ==> raw[j] == GUARD_BYTE
    {
      raw[HEADER + i] := GUARD_BYTE;
    }
    for i := 0 to GUARD
      invariant forall j :: HEADER <= j < HEADER + GUARD ==> raw[j] == GUARD_BYTE
      invariant forall j :: HEADER + GUARD + size <= j < HEADER + GUARD + size + i ==> raw[j] == GUARD_BYTE
    {
      raw[HEADER + GUARD + size + i] := GUARD_BYTE;
    }
    b := Block(id, size, 0);
  }

  /** cb__arena_block_check_guards: true exactly when both guards are intact. */
  method CheckGuards(raw: array<Byte>, size: nat) returns (ok: bool)
    requires raw.Length == HEADER + GUARD + size + GUARD
    ensures ok <==> Healthy(raw[..], size)
  {
    for i := 0 to GUARD
      invariant forall j :: HEADER <= j < HEADER + i ==> raw[j] == GUARD_BYTE
      invariant forall j :: HEADER + GUARD + size <= j < HEADER + GUARD + size + i ==> raw[j] == GUARD_BYTE
    {
      if raw[HEADER + i] != GUARD_BYTE {
        assert raw[..][HEADER + i] != GUARD_BYTE;
        return false;
      }
      if raw[HEADER + GUARD + size + i] != GUARD_BYTE {
        assert raw[..][HEADER + GUARD + size + i] != GUARD_BYTE;
        return false;
      }
    }
    ok := true;
  }

  /** The memory of every block of the chain has its guards. */
  ghost predicate ChainHealthy(a: Chain, mem: seq<seq<Byte>>) {
    |mem| == |a.blocks| && forall i :: 0 <= i < |mem| ==> Healthy(mem[i], a.blocks[i].size)
  }

  /** The byte at k of a block with this number belongs to a span that was handed out. */
  ghost predicate HandedOut(log: seq<Span>, id: nat, k: nat) {
    exists j :: 0 <= j < |log| && log[j].id == id
                && HEADER + GUARD + log[j].offset <= k < HEADER + GUARD + log[j].offset + log[j].size
  }

  ghost predicate SameOutside(a: Chain, log: seq<Span>, mem: seq<seq<Byte>>, mem': seq<seq<Byte>>)
    requires |mem| == |a.blocks|
  {
    && |mem'| == |mem|
    && (forall i :: 0 <= i < |mem| ==> |mem'[i]| == |mem[i]|)
    && (forall i, k :: 0 <= i < |mem| && 0 <= k < |mem[i]| && !HandedOut(log, a.blocks[i].id, k)
          ==> mem'[i][k] == mem[i][k])
  }

  /** Whatever is written into all the spans handed out since the last reset, the chain stays
      healthy. */
  lemma WritesKeepHealth(a: Chain, log: seq<Span>, mem: seq<seq<Byte>>, mem': seq<seq<Byte>>)
    requires WellFormed(a) && Logged(a, log) && ChainHealthy(a, mem) && SameOutside(a, log, mem, mem')
    ensures ChainHealthy(a, mem')
  {
    hide Disjoint;
    forall i | 0 <= i < |mem| ensures Healthy(mem'[i], a.blocks[i].size) {
      var size := a.blocks[i].size;
      forall k | HEADER <= k < HEADER + GUARD || HEADER + GUARD + size <= k < HEADER + GUARD + size + GUARD
        ensures mem'[i][k] == mem[i][k]
      {
        GuardsNotHandedOut(a, log, i, k);
      }
    }
  }

  lemma GuardsNotHandedOut(a: Chain, log: seq<Span>, i: nat, k: nat)
    requires WellFormed(a) && Logged(a, log) && i < |a.blocks|
    requires k < HEADER + GUARD || k >= HEADER + GUARD + a.blocks[i].size
    ensures !HandedOut(log, a.blocks[i].id, k)
  {
    forall j | 0 <= j < |log| && log[j].id == a.blocks[i].id
      ensures log[j].offset + log[j].size <= a.blocks[i].size
    {
      assert Inside(a, log[j]);
      var n :| 0 <= n <= a.cur && a.blocks[n].id == log[j].id && log[j].offset + log[j].size <= a.blocks[n].used;
      assert n == i;
    }
  }

  /** cb_arena_check_health walks the chain: true exactly when every guard of it is intact. */
  method CheckHealth(blocks: seq<Block>, raws: seq<array<Byte>>) returns (ok: bool)
    requires |raws| == |blocks|
    requires forall i :: 0 <= i < |raws| ==> raws[i].Length == HEADER + GUARD + blocks[i].size + GUARD
    ensures ok <==> forall i :: 0 <= i < |raws| ==> Healthy(raws[i][..], blocks[i].size)
  {
    hide Healthy;
    var i := 0;
    while i < |blocks|
      invariant i <= |blocks| && forall j :: 0 <= j < i ==> Healthy(raws[j][..], blocks[j].size)
    {
      var good := CheckGuards(raws[i], blocks[i].size);
      if !good { return false; }
      i := i + 1;
    }
    ok := true;
  }
}
