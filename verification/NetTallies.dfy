/**
 The answers and counters of the network simulator, said in terms of what a caller can see:
 who is bound, which bytes are ready or pending for whom, and what was rolled.
 */
module NetTallies {
  import opened Bits
  import opened Options
  import opened Tally
  import opened NetModel
  import opened NetLists
  import opened NetInvariant
  import opened NetRuns
  import opened NetFifo
  import opened NetCounts

  ghost predicate IsAt(net: Net, a: Addr, j: int) {
    0 <= j < |net.ports| && net.ports[j].addr == a
  }

  ghost predicate Bound(net: Net, a: Addr) {
    exists j :: IsAt(net, a, j)
  }

  /** One more datagram of this length would go over the cap of a bound address. */
  ghost predicate Full(net: Net, a: Addr, len: nat) {
    net.params.cap != 0 &&
    exists j :: IsAt(net, a, j) && Bytes(net.ports[j].ready) + Bytes(For(net.pending, a)) + len > net.params.cap
  }

  /** Something is ready for the address, and its head satisfies the bound. */
  ghost predicate HeadFits(net: Net, a: Addr, cap: nat) {
    exists j :: IsAt(net, a, j) && net.ports[j].ready != [] && |net.ports[j].ready[0].d.payload| <= cap
  }

  ghost predicate SomethingReady(net: Net, a: Addr) {
    exists j :: IsAt(net, a, j) && net.ports[j].ready != []
  }

  lemma FindIs(net: Net, a: Addr, j: int)
    requires Core(net) && IsAt(net, a, j)
    ensures Find(net.ports, a) == j
  {
    FindIndex(net.ports, j);
  }

  lemma BoundIff(net: Net, a: Addr)
    requires Core(net)
    ensures Bound(net, a) <==> Find(net.ports, a) < |net.ports|
  {
    hide Core;
    var i := Find(net.ports, a);
    if i < |net.ports| {
      assert IsAt(net, a, i);
    }
  }

  /** A send is refused exactly when its destination is not bound or full. */
  lemma RefusedIff(net: Net, dest: Addr, payload: seq<Byte>)
    requires Core(net)
    ensures Refused(net, dest, payload) <==> !Bound(net, dest) || Full(net, dest, |payload|)
  {
    hide PendingOk, OwnLine, Numbered, For;
    BoundIff(net, dest);
    var i := Find(net.ports, dest);
    if i < |net.ports| {
      assert PortOk(net.ports[i], net.pending, net.nextId, net.nextBinding);
      assert IsAt(net, dest, i);
      forall j | IsAt(net, dest, j) ensures j == i { FindIs(net, dest, j); }
    }
  }

  /** A receive succeeds exactly when the head of the ready list fits the buffer. */
  lemma RecvIff(net: Net, a: Addr, cap: nat)
    requires Core(net)
    ensures RecvReply(net, a, cap) == Ok <==> HeadFits(net, a, cap)
    ensures RecvReply(net, a, cap) == Empty <==> !SomethingReady(net, a)
    ensures RecvReply(net, a, cap) == BufTooSmall <==> SomethingReady(net, a) && !HeadFits(net, a, cap)
  {
    hide Core;
    var i := Find(net.ports, a);
    if i < |net.ports| {
      assert IsAt(net, a, i);
      forall j | IsAt(net, a, j) ensures j == i { FindIs(net, a, j); }
    }
  }

  /** It takes that head and leaves everything else alone. */
  lemma RecvTakesHead(net: Net, a: Addr, cap: nat, j: nat)
    requires Core(net) && IsAt(net, a, j) && net.ports[j].ready != [] && |net.ports[j].ready[0].d.payload| <= cap
    ensures var e, n := net.ports[j], Recv(net, a, cap);
            && |n.ports| == |net.ports| && n.pending == net.pending
            && n.ports[j].got == e.got + [e.ready[0]] && [e.ready[0]] + n.ports[j].ready == e.ready
            && n.ports[j].inFlight == e.inFlight - |e.ready[0].d.payload|
            && forall k :: 0 <= k < |net.ports| && k != j ==> n.ports[k] == net.ports[k]
  {
    hide Core, PortOk, Line;
    FindIs(net, a, j);
    RecvPort(net, a, cap);
  }

  /** What a send answers. */
  lemma SendReplyIff(net: Net, dest: Addr, payload: seq<Byte>, r: Rolls)
    requires Core(net)
    ensures var reply := SendReply(net, dest, payload, r);
            && (reply == PayloadTooLarge <==> |payload| > 65535)
            && (reply == AllocFailed <==>
                |payload| <= 65535 && Bound(net, dest) && !Full(net, dest, |payload|) && !r.drop
                && (!r.first.made || (r.dup && !r.second.made)))
            && (reply == Ok || reply == PayloadTooLarge || reply == AllocFailed)
  {
    hide Core, Refused, Bound, Full;
    RefusedIff(net, dest, payload);
  }

  /* Counters */

  const NOTHING := Totals(0, 0, 0, 0, 0, 0, 0, 0, 0, 0)

  ghost function Plus(t: Totals, u: Totals): Totals {
    Totals(t.enqueued + u.enqueued, t.delivered + u.delivered, t.dropped + u.dropped, t.duplicated + u.duplicated,
           t.corrupted + u.corrupted, t.reordered + u.reordered, t.queueFull + u.queueFull,
           t.flushed + u.flushed, t.closedReady + u.closedReady, t.failed + u.failed)
  }

  function One(b: bool): nat { if b then 1 else 0 }

  /** What one send adds to the counters. */
  ghost function SendTally(net: Net, dest: Addr, len: nat, r: Rolls): Totals {
    if len > 65535 then NOTHING
    else if !Bound(net, dest) then NOTHING.(enqueued := 1, dropped := 1)
    else if Full(net, dest, len) then NOTHING.(enqueued := 1, queueFull := 1)
    else if r.drop then NOTHING.(enqueued := 1, dropped := 1)
    else if !r.first.made then NOTHING.(enqueued := 1, failed := 1)
    else
      var two := r.dup && r.second.made;
      NOTHING.(enqueued := 1, duplicated := One(two),
               corrupted := One(r.first.flip.Some?) + One(two && r.second.flip.Some?),
               reordered := One(r.first.swap.Some?) + One(two && r.second.swap.Some?))
  }

  /** What one event adds to the counters. */
  ghost function EventTally(net: Net, ev: Event): Totals {
    match ev
    case DoSend(_, dest, payload, _, rolls) => SendTally(net, dest, |payload|, rolls)
    case DoRecv(a, cap) => NOTHING.(delivered := One(HeadFits(net, a, cap)))
    case DoClose(a) =>
      if j :| IsAt(net, a, j) then
        NOTHING.(dropped := |For(net.pending, a)|, closedReady := |net.ports[j].ready|)
      else NOTHING
    case DoFlush => NOTHING.(flushed := |net.pending| + Sum(net.ports, ReadySize()))
    case _ => NOTHING
  }

  lemma PlusNothing(t: Totals)
    ensures Plus(t, NOTHING) == t
  {
  }

  lemma SendTallied(net: Net, src: Addr, dest: Addr, payload: seq<Byte>, now: nat, r: Rolls)
    requires Core(net)
    ensures Send(net, src, dest, payload, now, r).totals == Plus(net.totals, SendTally(net, dest, |payload|, r))
  {
    hide Core, Bound, Full, Find, Refused, SendCopies;
    BoundIff(net, dest);
    RefusedIff(net, dest, payload);
    CopiesTallied(net.(totals := net.totals.(enqueued := net.totals.enqueued + 1), clock := now), src, dest, payload, now, r);
  }

  lemma CopiesTallied(net: Net, src: Addr, dest: Addr, payload: seq<Byte>, now: nat, r: Rolls)
    ensures var two := r.dup && r.second.made;
            SendCopies(net, src, dest, payload, now, r).totals
            == Plus(net.totals, NOTHING.(
                 duplicated := One(two),
                 corrupted := One(r.first.flip.Some?) + One(two && r.second.flip.Some?),
                 reordered := One(r.first.swap.Some?) + One(two && r.second.swap.Some?)))
  {
    hide Insert, Find, CopyDue, CopyPayload;
  }

  lemma {:induction false} StepTallied(net: Net, now: nat)
    requires Core(net)
    ensures MatureAll(net, now).totals == net.totals
    decreases |net.pending|
  {
    hide Core, Mature;
    if HasDue(net, now) {
      MatureShape(net);
      MatureKeeps(net);
      StepTallied(Mature(net), now);
    }
  }

  lemma CloseTallied(net: Net, a: Addr)
    requires Core(net)
    ensures Close(net, a).totals == Plus(net.totals, EventTally(net, DoClose(a)))
  {
    hide Core, For, NotFor;
    NotForSplits(net.pending, a, a);
    var i := Find(net.ports, a);
    if i < |net.ports| { assert IsAt(net, a, i); }
    forall j | IsAt(net, a, j) ensures j == i { FindIs(net, a, j); }
  }

  /** Each event changes the counters as it should. */
  lemma ApplyTallied(net: Net, ev: Event)
    requires Core(net)
    ensures Apply(net, ev).totals == Plus(net.totals, EventTally(net, ev))
  {
    hide Core, Close, Send, MatureAll, HeadFits, RecvReply, SendTally, For;
    match ev
    case DoBind(a, made) => PlusNothing(net.totals);
    case DoClose(a) => CloseTallied(net, a);
    case DoSend(src, dest, payload, now, rolls) => SendTallied(net, src, dest, payload, now, rolls);
    case DoStep(now) => 
      CoreOfLists(net, net.(clock := now));
      StepTallied(net.(clock := now), now);
    case DoRecv(a, cap) => RecvIff(net, a, cap);
    case DoFlush =>
    case DoParams(p) =>
  }

  /** What the events of a run add up to. */
  ghost function TotalsOf(p: Params, es: seq<Event>): Totals
    decreases |es|
  {
    if es == [] then NOTHING
    else
      var n := |es| - 1;
      Plus(TotalsOf(p, es[..n]), EventTally(Run(Start(p), es[..n]), es[n]))
  }

  /** Over every run each counter is the number of the happenings it stands for. */
  lemma {:induction false} RunTotals(p: Params, es: seq<Event>)
    ensures Run(Start(p), es).totals == TotalsOf(p, es)
    decreases |es|
  {
    hide Apply, Plus, EventTally;
    if es != [] {
      var n := |es| - 1;
      RunKeeps(p, es[..n]);
      RunTotals(p, es[..n]);
      ApplyTallied(Run(Start(p), es[..n]), es[n]);
    }
  }

  ghost predicate NoCap(es: seq<Event>) {
    forall i :: 0 <= i < |es| && es[i].DoParams? ==> es[i].params.cap == 0
  }

  /** Without a cap no queue is ever full. */
  lemma {:induction false} UncappedNeverFull(p: Params, es: seq<Event>)
    requires p.cap == 0 && NoCap(es)
    ensures Run(Start(p), es).totals.queueFull == 0 && Run(Start(p), es).params.cap == 0
    decreases |es|
  {
    hide Apply, For;
    if es != [] {
      var n := |es| - 1;
      UncappedNeverFull(p, es[..n]);
      RunKeeps(p, es[..n]);
      ApplyTallied(Run(Start(p), es[..n]), es[n]);
      ApplyParams(Run(Start(p), es[..n]), es[n]);
    }
  }

  /* What an accepted send puts on its way */

  /** The value of the k-th bit of a byte. */
  function BitValue(k: nat): nat
    requires k < 8
  {
    [1, 2, 4, 8, 16, 32, 64, 128][k]
  }

  /** The byte with one bit inverted. */
  function Toggled(x: int, k: nat): int
    requires k < 8
  {
    if x / BitValue(k) % 2 == 0 then x + BitValue(k) else x - BitValue(k)
  }

  lemma {:induction false} XorOneBit(x: nat, k: nat)
    ensures Xor(x, Pow2(k)) == if x / Pow2(k) % 2 == 0 then x + Pow2(k) else x - Pow2(k)
    decreases k
  {
    hide Xor, Pow2;
    if k == 0 {
      XorLowest(x);
    } else {
      XorOneBit(x / 2, k - 1);
      assert x / Pow2(k) == x / 2 / Pow2(k - 1) by { ShiftStep(x, k); }
      XorUpper(x, k);
    }
  }

  lemma XorLowest(x: nat)
    ensures Pow2(0) == 1 && Xor(x, 1) == (if x % 2 == 0 then x + 1 else x - 1)
  {
    XorParts(x, 1);
    XorZero(x / 2);
  }

  lemma XorUpper(x: nat, k: nat)
    requires k > 0
    ensures Pow2(k) == 2 * Pow2(k - 1)
    ensures Xor(x, Pow2(k)) - x == 2 * (Xor(x / 2, Pow2(k - 1)) - x / 2)
  {
    hide Xor;
    var y := Xor(x, Pow2(k));
    XorParts(x, Pow2(k));
    DivExact(Pow2(k - 1), 2);
    FromHalves(y, Xor(x / 2, Pow2(k - 1)), x % 2);
    FromHalves(x, x / 2, x % 2);
  }

  lemma BitValueIs(k: nat)
    requires k < 8
    ensures BitValue(k) == Pow2(k)
  {
  }

  lemma FlipToggles(payload: seq<Byte>, bit: nat)
    requires bit < 8 * |payload|
    ensures Flip(payload, bit) == payload[bit / 8 := Toggled(payload[bit / 8], bit % 8)]
  {
    hide Xor;
    BitValueIs(bit % 8);
    XorOneBit(payload[bit / 8], bit % 8);
  }

  /** The cast to a signed 32-bit number keeps the residue. */
  lemma SignedCast(x: nat)
    ensures -0x8000_0000 <= Signed32(x) < 0x8000_0000 && (x - Signed32(x)) % 0x1_0000_0000 == 0
  {
    DivMod(x, U32);
    DivUnique(x - Signed32(x), U32, (x - Signed32(x)) / U32, 0);
  }

  /** The copy of this roll: same sender, destination and bytes but for the flipped bit, due after the
      rolled milliseconds on the 64-bit clock. */
  ghost predicate IsCopy(d: Datagram, src: Addr, dest: Addr, payload: seq<Byte>, now: nat, c: CopyRoll) {
    && d.src == src && d.dest == dest
    && (if c.flip.Some? && c.flip.value < 8 * |payload| then
          var bit := c.flip.value;
          d.payload == payload[bit / 8 := Toggled(payload[bit / 8], bit % 8)]
        else d.payload == payload)
    && d.due == (now + 1_000_000 * (c.latency + if c.swap.Some? then c.swap.value else 0)) % 0x1_0000_0000_0000_0000
  }

  lemma CopyOfIsCopy(src: Addr, dest: Addr, payload: seq<Byte>, now: nat, c: CopyRoll)
    ensures IsCopy(CopyOf(src, dest, payload, now, c), src, dest, payload, now, c)
  {
    hide Flip, Toggled;
    if c.flip.Some? && c.flip.value < 8 * |payload| { FlipToggles(payload, c.flip.value); }
  }

  lemma {:induction false} EnqueuedAt(net: Net, ds: seq<Datagram>, j: nat)
    requires Core(net) && j < |net.ports| && forall d :: d in ds ==> d.dest == net.ports[j].addr
    ensures var n := EnqueueAll(net, ds);
            && Core(n) && SameHomes(net.ports, n.ports)
            && |n.ports[j].accepted| == |net.ports[j].accepted| + |ds|
            && n.ports[j].accepted[..|net.ports[j].accepted|] == net.ports[j].accepted
            && (forall k :: 0 <= k < |ds| ==> n.ports[j].accepted[|net.ports[j].accepted| + k].d == ds[k])
    decreases |ds|
  {
    hide Core, Enqueue, Find, Kept;
    if ds != [] {
      var k := |ds| - 1;
      var n := EnqueueAll(net, ds[..k]);
      EnqueuedAt(net, ds[..k], j);
      EnqueueKeeps(n, ds[k]);
      ChargePorts(n, ds[k]);
      EnqueueEffect(n, ds[k], j);
      FindAt(n, j);
    }
  }

  lemma FindAt(net: Net, j: nat)
    requires Core(net) && j < |net.ports|
    ensures Find(net.ports, net.ports[j].addr) == j
  {
    FindIndex(net.ports, j);
  }

  /** A send to a bound address that is not full, not dropped and not short of memory puts one copy,
      or two with a duplicate, on its way to that address. */
  lemma SendPuts(net: Net, j: nat, src: Addr, payload: seq<Byte>, now: nat, r: Rolls)
    requires Core(net) && j < |net.ports| && |payload| <= 65535
    requires !Full(net, net.ports[j].addr, |payload|) && !r.drop && r.first.made
    ensures var dest, two := net.ports[j].addr, r.dup && r.second.made;
            var was, n := net.ports[j].accepted, Send(net, src, dest, payload, now, r);
            && SameHomes(net.ports, n.ports)
            && |n.ports[j].accepted| == |was| + (if two then 2 else 1)
            && n.ports[j].accepted[..|was|] == was
            && IsCopy(n.ports[j].accepted[|was|].d, src, dest, payload, now, r.first)
            && (two ==> IsCopy(n.ports[j].accepted[|was| + 1].d, src, dest, payload, now, r.second))
  {
    hide Core, Send, IsCopy, CopyOf, EnqueueAll, Refused, Full, Bound;
    var dest := net.ports[j].addr;
    assert IsAt(net, dest, j);
    assert !Refused(net, dest, payload) by { RefusedIff(net, dest, payload); assert Bound(net, dest) by { BoundAt(net, j); } }
    var m, ds := net.(clock := now), Copies(net, src, dest, payload, now, r);
    SendIsEnqueues(net, src, dest, payload, now, r);
    CoreOfLists(net, m);
    EnqueuedAt(m, ds, j);
    CopyOfIsCopy(src, dest, payload, now, r.first);
    if |ds| > 1 {
      CopyOfIsCopy(src, dest, payload, now, r.second);
      assert ds[1] == CopyOf(src, dest, payload, now, r.second);
    }
    assert ds[0] == CopyOf(src, dest, payload, now, r.first);
  }

  lemma BoundAt(net: Net, j: nat)
    requires j < |net.ports|
    ensures Bound(net, net.ports[j].addr)
  {
    assert IsAt(net, net.ports[j].addr, j);
  }

  /** Any other send puts nothing on its way. */
  lemma SendPutsNothing(net: Net, src: Addr, dest: Addr, payload: seq<Byte>, now: nat, r: Rolls)
    requires Core(net)
    requires |payload| > 65535 || !Bound(net, dest) || Full(net, dest, |payload|) || r.drop || !r.first.made
    ensures var n := Send(net, src, dest, payload, now, r); n.ports == net.ports && n.pending == net.pending
  {
    hide Core, Bound, Full, Refused, Find, SendCopies;
    RefusedIff(net, dest, payload);
    BoundIff(net, dest);
  }

  /* Who is bound */

  /** Binding adds the one address, with nothing ready or in flight, unless memory runs out. */
  lemma BindIff(net: Net, a: Addr, made: bool, b: Addr)
    requires Core(net)
    ensures var n := Bind(net, a, made);
            && (Bound(n, b) <==> Bound(net, b) || (b == a && made))
            && n.pending == net.pending
            && (made && !Bound(net, a) ==>
                  exists j :: IsAt(n, a, j) && n.ports[j].ready == n.ports[j].got == [] && n.ports[j].inFlight == 0)
            && (Bound(net, a) || !made ==> n == net)
  {
    hide Core;
    var n := Bind(net, a, made);
    BoundIff(net, a);
    if n != net {
      assert IsAt(n, a, 0);
      if j :| IsAt(net, b, j) { assert IsAt(n, b, j + 1); }
      if j :| IsAt(n, b, j) { assert j > 0 ==> IsAt(net, b, j - 1); }
    }
  }

  /** Closing removes the one address and everything pending for it. */
  lemma CloseIff(net: Net, a: Addr, b: Addr)
    requires Core(net)
    ensures var n := Close(net, a);
            && (Bound(n, b) <==> Bound(net, b) && b != a)
            && (For(n.pending, b) == if b == a then [] else For(net.pending, b))
  {
    hide Core, For, NotFor;
    var n, i := Close(net, a), Find(net.ports, a);
    NotForSplits(net.pending, a, b);
    if i < |net.ports| {
      forall j | IsAt(net, a, j) ensures j == i { FindIs(net, a, j); }
      if j :| IsAt(net, b, j) && b != a { assert IsAt(n, b, if j < i then j else j - 1); }
      if j :| IsAt(n, b, j) { assert IsAt(net, b, if j < i then j else j + 1); }
    } else {
      UnboundEmpty(net, a);
      forall j | IsAt(net, a, j) ensures false { FindIs(net, a, j); }
    }
  }

  /** A flush leaves every endpoint bound, with nothing ready, pending or in flight. */
  lemma FlushEmpties(net: Net, j: nat)
    requires j < |net.ports|
    ensures var n := Flush(net);
            && SameHomes(net.ports, n.ports) && n.pending == []
            && n.ports[j].ready == [] && n.ports[j].inFlight == 0 && n.ports[j].got == net.ports[j].got
  {
  }

  /* What a step makes ready */

  lemma {:induction false} MatureAllMatures(net: Net, now: nat, k: nat, j: nat)
    requires Core(net) && k <= |net.pending| && j < |net.ports|
    requires forall i :: 0 <= i < |net.pending| ==> (net.pending[i].d.due <= now <==> i < k)
    ensures var n := MatureAll(net, now);
            && SameHomes(net.ports, n.ports) && n.pending == net.pending[k..]
            && n.ports[j].got == net.ports[j].got
            && n.ports[j].ready == net.ports[j].ready + For(net.pending[..k], net.ports[j].addr)
    decreases |net.pending|
  {
    hide Core, Mature, For, Line;
    if k > 0 {
      var m := Mature(net);
      MatureShape(net);
      MatureKeeps(net);
      MatureLine(net, j);
      MatureAllMatures(m, now, k - 1, j);
      ForHead(net.pending[..k], net.ports[j].addr);
      assert net.pending[..k][1..] == m.pending[..k - 1];
      assert net.ports[j].ready + ([net.pending[0]] + For(m.pending[..k - 1], net.ports[j].addr))
          == net.ports[j].ready + [net.pending[0]] + For(m.pending[..k - 1], net.ports[j].addr);
    } else {
      assert net.pending[..0] == [];
      ForNone([], net.ports[j].addr);
    }
  }

  /** Exactly the pending packets up to the clock become ready, each for its own address and in list order. */
  lemma StepMatures(net: Net, now: nat, k: nat, j: nat)
    requires Core(net) && k <= |net.pending| && j < |net.ports|
    requires forall i :: 0 <= i < |net.pending| ==> (net.pending[i].d.due <= now <==> i < k)
    ensures var n := Step(net, now);
            && SameHomes(net.ports, n.ports) && n.pending == net.pending[k..]
            && n.ports[j].got == net.ports[j].got
            && n.ports[j].ready == net.ports[j].ready + For(net.pending[..k], net.ports[j].addr)
  {
    hide Core, MatureAll, For, SameHomes;
    var m := net.(clock := now);
    CoreOfLists(net, m);
    MatureAllMatures(m, now, k, j);
  }
}
