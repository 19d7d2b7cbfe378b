/**
 The cap of the network simulator against its own generator: from every seed there are calls
 that take an endpoint over the cap, when all sends are duplicated, and on a link that does
 nothing but duplicate now and then.
 */
module NetSeeds {
  import opened Options
  import opened Bits
  import opened NetModel
  import opened NetLists
  import opened NetInvariant
  import opened NetRuns
  import opened NetFifo
  import opened NetCounts
  import opened NetCap
  import opened NetSim
  import opened NetDrive
  import Bounded
  import Random
  import Pcg

  ghost function NetAfter(p: Params, state: nat, inc: nat, calls: seq<Call>): Net
    requires Pcg.IsState(state) && Pcg.IsInc(inc)
  {
    Run(Start(p), Played(p, state, inc, calls).events)
  }

  lemma OneMore(p: Params, state: nat, inc: nat, calls: seq<Call>, c: Call)
    requires Pcg.IsState(state) && Pcg.IsInc(inc)
    ensures var net, st := NetAfter(p, state, inc, calls), Played(p, state, inc, calls).state;
            && NetAfter(p, state, inc, calls + [c]) == Apply(net, EventOf(net.params, st, inc, c))
            && Played(p, state, inc, calls + [c]).state == StateAfter(net, st, inc, c)
  {
    hide Apply, EventOf, StateAfter;
    var r := Played(p, state, inc, calls);
    assert (calls + [c])[..|calls|] == calls;
    RunLast(Start(p), r.events, EventOf(NetAfter(p, state, inc, calls).params, r.state, inc, c));
  }

  const GRANTED := Allocs(true, true)

  ghost function SendCall(len: nat): Call {
    ToSend(HERE, HERE, seq(len, _ => 0), 0, GRANTED, GRANTED)
  }

  /** A send that fits is charged once, or twice if the generator says so. */
  lemma SendOnce(p: Params, state: nat, inc: nat, calls: seq<Call>, n: nat, len: nat)
    requires Pcg.IsState(state) && Pcg.IsInc(inc)
    requires OneAt(NetAfter(p, state, inc, calls), p, n) && len <= 2 && n + len <= p.cap && p.drop <= 0
    ensures var r := RollsAt(Played(p, state, inc, calls).state, inc, p, len, true, true);
            && OneAt(NetAfter(p, state, inc, calls + [SendCall(len)]), p, n + Charged(len, r.value.dup))
            && Played(p, state, inc, calls + [SendCall(len)]).state == r.state
            && NetAfter(p, state, inc, calls + [SendCall(len)])
               == Send(NetAfter(p, state, inc, calls), HERE, HERE, seq(len, _ => 0), 0, r.value)
  {
    hide RollsAt, Send, Run, Played, CopyOk;
    var net, st := NetAfter(p, state, inc, calls), Played(p, state, inc, calls).state;
    var r, payload := RollsAt(st, inc, p, len, true, true), seq(len, _ => 0);
    OneMore(p, state, inc, calls, SendCall(len));
    FindUnique(net.ports, HERE, 0);
    SendCharges(net, p, n, HERE, payload, 0, r.value);
  }

  lemma BindFirst(p: Params, state: nat, inc: nat)
    requires Pcg.IsState(state) && Pcg.IsInc(inc)
    ensures var net := NetAfter(p, state, inc, [ToBind(HERE, true)]);
            OneAt(net, p, 0) && net.pending == [] && net.ports[0].ready == []
  {
    OneMore(p, state, inc, [], ToBind(HERE, true));
    assert [] + [ToBind(HERE, true)] == [ToBind(HERE, true)];
    assert NetAfter(p, state, inc, []) == Start(p);
  }

  /** When every send is duplicated, every seed goes over the cap. */
  lemma CertainDuplicatesExceed(p: Params, state: nat, inc: nat) returns (calls: seq<Call>)
    requires Pcg.IsState(state) && Pcg.IsInc(inc)
    requires p.cap > 0 && p.dup >= FX_ONE && p.drop <= 0
    ensures !Within(NetAfter(p, state, inc, calls), p.cap)
  {
    hide NetAfter, RollsAt, Send, OneAt, Within, SendCall, Played;
    calls := [ToBind(HERE, true)];
    BindFirst(p, state, inc);
    var n: nat := 0;
    while n + 2 < p.cap
      invariant n < p.cap && OneAt(NetAfter(p, state, inc, calls), p, n)
    {
      SendOnce(p, state, inc, calls, n, 1);
      calls := calls + [SendCall(1)];
      n := n + 2;
    }
    SendOnce(p, state, inc, calls, n, p.cap - n);
    calls := calls + [SendCall(p.cap - n)];
    Over(NetAfter(p, state, inc, calls), p, n + 2 * (p.cap - n));
  }

  /* A link that only duplicates, and not always */

  /** Constant latency, no drops, no corruption, no reordering; duplicates are possible. */
  ghost predicate OnlyDuplicates(p: Params) {
    && p.drop <= 0 && p.corrupt <= 0 && p.reorder <= 0 && 0 < p.dup < FX_ONE
    && p.latMin == p.latMax < 0x8000_0000
  }

  ghost function Due(p: Params): nat { p.latMin * MS }

  lemma BelowOne(state: nat, inc: nat)
    requires Pcg.IsState(state) && Pcg.IsInc(inc)
    ensures Random.DrawBelow(state, inc, 1) == Random.Drawn(0, Pcg.StateAt(state, inc, 1))
  {
    hide Pcg.StateAt;
    assert Bounded.Accepts(Pcg.Draw(state, inc, 0), 1);
    assert Bounded.Rejections(state, inc, 1) == 0;
  }

  /** On such a link a send draws once for the latency and once for the duplicate. */
  lemma RollsOfLink(p: Params, state: nat, inc: nat)
    requires Pcg.IsState(state) && Pcg.IsInc(inc) && OnlyDuplicates(p)
    ensures var r := RollsAt(state, inc, p, 1, true, true);
            && r.value.dup == (Pcg.Draw(state, inc, 1) < p.dup * 0x1_0000)
            && (!r.value.dup ==> r.state == Pcg.StateAt(state, inc, 2))
            && CopyDue(0, r.value.first) == Due(p) && (r.value.dup ==> CopyDue(0, r.value.second) == Due(p))
            && !r.value.drop && r.value.first.made && (r.value.dup ==> r.value.second.made)
  {
    hide Pcg.Draw, Random.DrawBelow, Pcg.StateAt, Pcg.Output;
    LatencyOfLink(p, state, inc);
    var one := Pcg.StateAt(state, inc, 1);
    Pcg.StateAtSplit(state, inc, 1, 1);
    Pcg.DrawSplit(state, inc, 1, 0);
    assert CopyFrom(state, inc, p, 1, true) == Rolled(CopyRoll(p.latMin, true, None, None), one);
    if ChanceAt(one, inc, p.dup).value {
      LatencyOfLink(p, ChanceAt(one, inc, p.dup).state, inc);
    }
  }

  lemma LatencyOfLink(p: Params, state: nat, inc: nat)
    requires Pcg.IsState(state) && Pcg.IsInc(inc) && OnlyDuplicates(p)
    ensures CopyFrom(state, inc, p, 1, true)
            == Rolled(CopyRoll(p.latMin, true, None, None), Pcg.StateAt(state, inc, 1))
  {
    hide Pcg.StateAt, Random.DrawBelow;
    BelowOne(state, inc);
  }

  /* The order of the rolls */

  /** A bound that is a power of two takes the first draw. */
  lemma BelowPower(state: nat, inc: nat, b: nat)
    requires Pcg.IsState(state) && Pcg.IsInc(inc) && (b == 2 || b == 8)
    ensures Random.DrawBelow(state, inc, b)
            == Random.Drawn(Pcg.Draw(state, inc, 0) / (0x1_0000_0000 / b), Pcg.StateAt(state, inc, 1))
  {
    hide Pcg.StateAt, Pcg.Draw;
    assert Bounded.Accepts(Pcg.Draw(state, inc, 0), b);
    assert Bounded.Rejections(state, inc, b) == 0;
    ScaledByPower(Pcg.Draw(state, inc, 0), b);
  }

  lemma ScaledByPower(x: nat, b: nat)
    requires b == 2 || b == 8
    ensures x * b / U32 == x / (0x1_0000_0000 / b)
  {
  }

  lemma ShiftDraws(state: nat, inc: nat, m: nat, n: nat)
    requires Pcg.IsState(state)
    ensures Pcg.Draw(Pcg.StateAt(state, inc, m), inc, n) == Pcg.Draw(state, inc, m + n)
    ensures Pcg.StateAt(Pcg.StateAt(state, inc, m), inc, n) == Pcg.StateAt(state, inc, m + n)
  {
    Pcg.DrawSplit(state, inc, m, n);
    Pcg.StateAtSplit(state, inc, m, n);
  }

  /** Every chance is open, and both delays are 0 or 1. */
  ghost predicate AllOpen(p: Params) {
    && 0 < p.drop < 65536 && 0 < p.dup < 65536 && 0 < p.corrupt < 65536 && 0 < p.reorder < 65536
    && p.latMin == 0 && p.latMax == 1 && p.swapMin == 0 && p.swapMax == 1
  }

  ghost predicate Hit(state: nat, inc: nat, k: nat, chance: int)
    requires Pcg.IsState(state)
  {
    Pcg.Draw(state, inc, k) < chance * 65536
  }

  /** One copy that is corrupted and delayed, from the k-th draw on. */
  ghost function FiveRolls(state: nat, inc: nat, k: nat): CopyRoll
    requires Pcg.IsState(state)
  {
    CopyRoll(Pcg.Draw(state, inc, k) / 0x8000_0000, true,
             Some(Pcg.Draw(state, inc, k + 2) / 0x2000_0000), Some(Pcg.Draw(state, inc, k + 4) / 0x8000_0000))
  }

  lemma ChanceOfDraw(state: nat, inc: nat, k: nat, chance: int)
    requires Pcg.IsState(state) && Pcg.IsInc(inc) && 0 < chance < 65536
    ensures ChanceAt(Pcg.StateAt(state, inc, k), inc, chance)
            == Rolled(Hit(state, inc, k, chance), Pcg.StateAt(state, inc, k + 1))
  {
    hide Pcg.StateAt, Pcg.Draw;
    ShiftDraws(state, inc, k, 0);
    ShiftDraws(state, inc, k, 1);
  }

  lemma BitOfDraw(state: nat, inc: nat, k: nat)
    requires Pcg.IsState(state) && Pcg.IsInc(inc)
    ensures RangeAt(Pcg.StateAt(state, inc, k), inc, 0, 1)
            == Rolled(Pcg.Draw(state, inc, k) / 0x8000_0000, Pcg.StateAt(state, inc, k + 1))
    ensures Random.DrawBelow(Pcg.StateAt(state, inc, k), inc, 8)
            == Random.Drawn(Pcg.Draw(state, inc, k) / 0x2000_0000, Pcg.StateAt(state, inc, k + 1))
  {
    hide Pcg.StateAt, Pcg.Draw, Random.DrawBelow;
    ShiftDraws(state, inc, k, 0);
    ShiftDraws(state, inc, k, 1);
    BelowPower(Pcg.StateAt(state, inc, k), inc, 2);
    BelowPower(Pcg.StateAt(state, inc, k), inc, 8);
  }

  lemma CopyOrder(p: Params, state: nat, inc: nat, k: nat)
    requires Pcg.IsState(state) && Pcg.IsInc(inc) && AllOpen(p)
    requires Hit(state, inc, k + 1, p.corrupt) && Hit(state, inc, k + 3, p.reorder)
    ensures CopyFrom(Pcg.StateAt(state, inc, k), inc, p, 1, true)
            == Rolled(FiveRolls(state, inc, k), Pcg.StateAt(state, inc, k + 5))
  {
    hide Pcg.StateAt, Pcg.Draw, Random.DrawBelow, ChanceAt, RangeAt, Hit;
    BitOfDraw(state, inc, k);
    ChanceOfDraw(state, inc, k + 1, p.corrupt);
    BitOfDraw(state, inc, k + 2);
    ChanceOfDraw(state, inc, k + 3, p.reorder);
    BitOfDraw(state, inc, k + 4);
  }

  /** When everything but the drop strikes, a one-byte send draws twelve times: for the drop, the first
      copy's latency, corruption, bit, reordering and delay, the duplicate, and the same five again. */
  lemma RollOrder(p: Params, state: nat, inc: nat)
    requires Pcg.IsState(state) && Pcg.IsInc(inc) && AllOpen(p)
    requires !Hit(state, inc, 0, p.drop) && Hit(state, inc, 6, p.dup)
    requires Hit(state, inc, 2, p.corrupt) && Hit(state, inc, 4, p.reorder)
    requires Hit(state, inc, 8, p.corrupt) && Hit(state, inc, 10, p.reorder)
    ensures RollsAt(state, inc, p, 1, true, true)
            == Rolled(Rolls(false, FiveRolls(state, inc, 1), true, FiveRolls(state, inc, 7)), Pcg.StateAt(state, inc, 12))
  {
    hide Pcg.Draw, ChanceAt, CopyFrom, Hit, FiveRolls;
    assert Pcg.StateAt(state, inc, 0) == state;
    hide Pcg.StateAt;
    ChanceOfDraw(state, inc, 0, p.drop);
    CopyOrder(p, state, inc, 1);
    ChanceOfDraw(state, inc, 6, p.dup);
    CopyOrder(p, state, inc, 7);
  }

  /* The generator reaches a duplicate */

  lemma {:induction false} Parity(state: nat, inc: nat, n: nat)
    requires Pcg.IsState(state) && Pcg.IsInc(inc)
    ensures Pcg.StateAt(state, inc, n) % 2 == (state + n) % 2
  {
    hide Pcg.Step;
    if n > 0 {
      var s := Pcg.StateAt(state, inc, n - 1);
      Parity(state, inc, n - 1);
      StepFlips(s, inc);
      NextParity(s, state + (n - 1));
    }
  }

  /** One step changes the lowest bit. */
  lemma StepFlips(s: nat, inc: nat)
    requires Pcg.IsInc(inc)
    ensures Pcg.Step(s, inc) % 2 == (s + 1) % 2
  {
    var x := s * Pcg.MULT + inc;
    assert Pcg.MULT == 2 * (Pcg.MULT / 2) + 1;
    DivMod(inc, 2);
    ParityOf(s * (Pcg.MULT / 2) + inc / 2, s + 1);
    assert x == 2 * (s * (Pcg.MULT / 2) + inc / 2) + (s + 1);
    DivMod(x, U64);
    ParityOf(0x8000_0000_0000_0000 * (x / U64), x % U64);
  }

  lemma NextParity(a: nat, b: nat)
    requires a % 2 == b % 2
    ensures (a + 1) % 2 == (b + 1) % 2
  {
  }

  lemma ParityOf(h: int, r: int)
    ensures (2 * h + r) % 2 == r % 2
  {
  }

  /** From every state, an odd number of draws ahead the output is 0. */
  lemma HitAhead(state: nat, inc: nat) returns (d: nat)
    requires Pcg.IsState(state) && Pcg.IsInc(inc)
    ensures Pcg.Draw(state, inc, 2 * d + 1) == 0
  {
    hide Pcg.Output, Pcg.Step, Pcg.StateAt, Pcg.StateFor;
    var low := (state + 1) % 2;
    var target := Pcg.StateFor(0, low, 0);
    var n := Pcg.StateReached(state, inc, target);
    Parity(state, inc, n);
    LowBit(target, low);
    d := OddHalf(state, n);
  }

  lemma LowBit(s: nat, low: nat)
    requires low < 2 && s % 0x800_0000 == low
    ensures s % 2 == low
  {
    DivMod(s, 0x800_0000);
  }

  lemma OddHalf(a: nat, n: nat) returns (d: nat)
    requires (a + n) % 2 == (a + 1) % 2
    ensures n == 2 * d + 1
  {
    d := n / 2;
  }

  /* What is on the link */

  /** One endpoint, and only one-byte datagrams for it, due at the same time. */
  ghost predicate Ones(net: Net, due: nat) {
    && |net.ports| == 1
    && (forall k :: 0 <= k < |net.pending| ==>
          net.pending[k].d.dest == HERE && |net.pending[k].d.payload| == 1 && net.pending[k].d.due == due)
    && (forall k :: 0 <= k < |net.ports[0].ready| ==> |net.ports[0].ready[k].d.payload| == 1)
  }

  lemma EnqueueOnes(net: Net, d: Datagram, due: nat)
    requires Ones(net, due) && d.dest == HERE && |d.payload| == 1 && d.due == due
    ensures Ones(Enqueue(net, d), due)
  {
    hide Position;
  }

  lemma SendOnes(net: Net, due: nat, src: Addr, payload: seq<Byte>, r: Rolls)
    requires Ones(net, due) && |payload| == 1
    requires CopyDue(0, r.first) == due && (r.dup ==> CopyDue(0, r.second) == due)
    ensures Ones(Send(net, src, HERE, payload, 0, r), due)
  {
    hide Insert, CopyDue, CopyPayload, Find, Refused;
    var ds := Copies(net, src, HERE, payload, 0, r);
    SendIsEnqueues(net, src, HERE, payload, 0, r);
    var m := net.(clock := 0);
    if |ds| > 0 {
      EnqueueOnes(m, ds[0], due);
      assert ds[..1] == [ds[0]] && EnqueueAll(m, ds[..1]) == Enqueue(m, ds[0]);
    }
    if |ds| == 1 {
      assert ds == ds[..1];
    }
    if |ds| == 2 {
      EnqueueOnes(Enqueue(m, ds[0]), ds[1], due);
      assert EnqueueAll(m, ds) == Enqueue(Enqueue(m, ds[0]), ds[1]);
    }
  }

  lemma {:induction false} MatureOnes(net: Net, p: Params, n: nat, due: nat)
    requires Core(net) && OneAt(net, p, n) && Ones(net, due)
    ensures var m := MatureAll(net, due); Core(m) && OneAt(m, p, n) && Ones(m, due) && m.pending == []
    decreases |net.pending|
  {
    hide Core;
    if net.pending != [] {
      MatureKeeps(net);
      FindUnique(net.ports, HERE, 0);
      MatureOnes(Mature(net), p, n, due);
    }
  }

  /** A step makes everything ready, and one receive frees one byte. */
  lemma Drained(net: Net, p: Params, n: nat, due: nat)
    requires Core(net) && OneAt(net, p, n) && n > 0 && Ones(net, due)
    ensures var m := Recv(Step(net, due), HERE, 1); OneAt(m, p, n - 1) && Ones(m, due)
  {
    hide Core;
    var m := Step(net, due);
    CoreOfLists(net, net.(clock := due));
    MatureOnes(net.(clock := due), p, n, due);
    FindUnique(m.ports, HERE, 0);
    SomethingReady(m, n);
  }

  /** Bytes in flight that are not pending are ready. */
  lemma SomethingReady(net: Net, n: nat)
    requires Core(net) && |net.ports| == 1 && net.pending == [] && net.ports[0].inFlight == n > 0
    ensures net.ports[0].ready != []
  {
    hide PendingOk, OwnLine, Numbered;
    assert PortOk(net.ports[0], net.pending, net.nextId, net.nextBinding);
    assert Bytes([]) == 0;
  }

  ghost predicate AtHand(p: Params, state: nat, inc: nat, calls: seq<Call>, n: nat)
    requires Pcg.IsState(state) && Pcg.IsInc(inc)
  {
    OneAt(NetAfter(p, state, inc, calls), p, n) && Ones(NetAfter(p, state, inc, calls), Due(p))
  }

  lemma BindAtHand(p: Params, state: nat, inc: nat)
    requires Pcg.IsState(state) && Pcg.IsInc(inc)
    ensures AtHand(p, state, inc, [ToBind(HERE, true)], 0)
  {
    BindFirst(p, state, inc);
  }

  lemma SendAtHand(p: Params, state: nat, inc: nat, calls: seq<Call>, n: nat) returns (dup: bool)
    requires Pcg.IsState(state) && Pcg.IsInc(inc) && OnlyDuplicates(p) && n + 1 <= p.cap
    requires AtHand(p, state, inc, calls, n)
    ensures var st, st' := Played(p, state, inc, calls).state, Played(p, state, inc, calls + [SendCall(1)]).state;
            && AtHand(p, state, inc, calls + [SendCall(1)], n + if dup then 2 else 1)
            && dup == (Pcg.Draw(st, inc, 1) < p.dup * 0x1_0000)
            && (!dup ==> st' == Pcg.StateAt(st, inc, 2))
  {
    hide RollsAt, NetAfter, Send, Ones, Played, Pcg.Draw, Pcg.StateAt, CopyDue;
    var st := Played(p, state, inc, calls).state;
    RollsOfLink(p, st, inc);
    var r := RollsAt(st, inc, p, 1, true, true).value;
    dup := r.dup;
    SendOnce(p, state, inc, calls, n, 1);
    SendOnes(NetAfter(p, state, inc, calls), Due(p), HERE, seq(1, _ => 0), r);
  }

  lemma DrainAtHand(p: Params, state: nat, inc: nat, calls: seq<Call>, n: nat) returns (calls': seq<Call>)
    requires Pcg.IsState(state) && Pcg.IsInc(inc) && n > 0
    requires AtHand(p, state, inc, calls, n)
    ensures AtHand(p, state, inc, calls', n - 1)
    ensures Played(p, state, inc, calls').state == Played(p, state, inc, calls).state
  {
    hide Step, Recv, Run, Ones, Played;
    OneMore(p, state, inc, calls, ToStep(Due(p)));
    OneMore(p, state, inc, calls + [ToStep(Due(p))], ToRecv(HERE, 1));
    calls' := calls + [ToStep(Due(p))] + [ToRecv(HERE, 1)];
    RunKeeps(p, Played(p, state, inc, calls).events);
    Drained(NetAfter(p, state, inc, calls), p, n, Due(p));
  }

  /** On a link that does nothing but duplicate now and then, every seed goes over the cap:
      fill up to one byte below it, and try that byte again until it is duplicated. */
  lemma PossibleDuplicatesExceed(p: Params, state: nat, inc: nat) returns (calls: seq<Call>)
    requires Pcg.IsState(state) && Pcg.IsInc(inc)
    requires p.cap > 0 && OnlyDuplicates(p)
    ensures !Within(NetAfter(p, state, inc, calls), p.cap)
  {
    hide NetAfter, AtHand, Played, Pcg.Draw, Pcg.StateAt;
    calls := [ToBind(HERE, true)];
    BindAtHand(p, state, inc);
    var n: nat := 0;
    while n + 1 < p.cap
      invariant n <= p.cap && AtHand(p, state, inc, calls, n)
    {
      var dup := SendAtHand(p, state, inc, calls, n);
      calls := calls + [SendCall(1)];
      n := n + if dup then 2 else 1;
    }
    var d := HitAhead(Played(p, state, inc, calls).state, inc);
    while n <= p.cap
      invariant p.cap - 1 <= n <= p.cap + 1 && AtHand(p, state, inc, calls, n)
      invariant n <= p.cap ==> Pcg.Draw(Played(p, state, inc, calls).state, inc, 2 * d + 1) == 0
      decreases if n <= p.cap then 1 else 0, d
    {
      if n == p.cap {
        calls := DrainAtHand(p, state, inc, calls, n);
        n := n - 1;
      }
      ghost var st := Played(p, state, inc, calls).state;
      var dup := SendAtHand(p, state, inc, calls, n);
      calls := calls + [SendCall(1)];
      n := n + if dup then 2 else 1;
      if !dup {
        Pcg.DrawSplit(st, inc, 2, 2 * (d - 1) + 1);
        d := d - 1;
      }
    }
    assert OneAt(NetAfter(p, state, inc, calls), p, n) by { AtHandIs(p, state, inc, calls, n); }
    Over(NetAfter(p, state, inc, calls), p, n);
  }

  lemma AtHandIs(p: Params, state: nat, inc: nat, calls: seq<Call>, n: nat)
    requires Pcg.IsState(state) && Pcg.IsInc(inc) && AtHand(p, state, inc, calls, n)
    ensures OneAt(NetAfter(p, state, inc, calls), p, n)
  {
  }
}
