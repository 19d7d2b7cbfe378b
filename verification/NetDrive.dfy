/**
 The simulator object driven by whole lists of calls: what it does is a run of the state
 machine, and the run is a function of the seed, the parameters and the calls.
 */
module NetDrive {
  import opened Bits
  import opened Tally
  import opened NetModel
  import opened NetInvariant
  import opened NetRuns
  import opened NetCounts
  import opened NetTallies
  import opened NetSim
  import Pcg

  /** A call of the interface, with the clock reading and the answers of the allocator. */
  datatype Call =
    | ToBind(addr: Addr, made: bool)
    | ToClose(addr: Addr)
    | ToSend(src: Addr, dest: Addr, payload: seq<Byte>, now: nat, mem1: Allocs, mem2: Allocs)
    | ToStep(now: nat)
    | ToRecv(addr: Addr, cap: nat)
    | ToFlush
    | ToParams(params: Params)

  const NO_ROLLS := Rolls(true, NO_COPY, false, NO_COPY)

  /** The event a call amounts to; a send's rolls come from the generator's state. */
  ghost function EventOf(p: Params, state: nat, inc: nat, c: Call): Event
    requires Pcg.IsState(state) && Pcg.IsInc(inc)
  {
    match c
    case ToBind(a, made) => DoBind(a, made)
    case ToClose(a) => DoClose(a)
    case ToSend(src, dest, payload, now, mem1, mem2) =>
      DoSend(src, dest, payload, now,
             if |payload| > MAX_DATAGRAM then NO_ROLLS
             else RollsAt(state, inc, p, |payload|, Made(mem1, |payload|), Made(mem2, |payload|)).value)
    case ToStep(now) => DoStep(now)
    case ToRecv(a, cap) => DoRecv(a, cap)
    case ToFlush => DoFlush
    case ToParams(q) => DoParams(q)
  }

  /** The generator's state after a call: only a send that is not refused draws. */
  ghost function StateAfter(net: Net, state: nat, inc: nat, c: Call): (s: nat)
    requires Pcg.IsState(state) && Pcg.IsInc(inc)
    ensures Pcg.IsState(s)
  {
    if !c.ToSend? || |c.payload| > MAX_DATAGRAM || Refused(net, c.dest, c.payload) then state
    else
      var len := |c.payload|;
      RollsAt(state, inc, net.params, len, Made(c.mem1, len), Made(c.mem2, len)).state
  }

  datatype Play = Play(events: seq<Event>, state: nat)

  /** The events of a list of calls from the start, and the generator's state after them. */
  ghost function Played(p: Params, state: nat, inc: nat, calls: seq<Call>): (r: Play)
    requires Pcg.IsState(state) && Pcg.IsInc(inc)
    ensures |r.events| == |calls| && Pcg.IsState(r.state)
    decreases |calls|
  {
    if calls == [] then Play([], state)
    else
      var n := |calls| - 1;
      var before := Played(p, state, inc, calls[..n]);
      var net := Run(Start(p), before.events);
      Play(before.events + [EventOf(net.params, before.state, inc, calls[n])],
           StateAfter(net, before.state, inc, calls[n]))
  }

  ghost predicate CallOk(c: Call) { c.ToParams? ==> Words(c.params) }

  /** One call on the object is one event of the state machine, legal there. */
  method Perform(sim: Sim, c: Call)
    requires sim.Valid() && CallOk(c)
    modifies sim, sim.rng`state
    ensures sim.Valid()
    ensures var e := EventOf(old(sim.params), old(sim.rng.state), sim.rng.inc, c);
            sim.model == Apply(old(sim.model), e) && Legal(old(sim.model), e)
    ensures sim.rng.state == StateAfter(old(sim.model), old(sim.rng.state), sim.rng.inc, c)
  {
    hide Sim.Lists, Sim.Counters, NetModel.Bind, NetModel.Close, Send, NetModel.Step, Recv, NetModel.Flush, Refused, RollsOk, RollsAt;
    match c
    case ToBind(a, made) => var _ := sim.Bind(a, made);
    case ToClose(a) => sim.Close(a);
    case ToSend(src, dest, payload, now, mem1, mem2) =>
      if |payload| > MAX_DATAGRAM { TooLarge(sim.model, src, dest, payload, now); }
      var _ := sim.SendTo(src, dest, payload, now, mem1, mem2);
    case ToStep(now) => var _ := sim.Step(now);
    case ToRecv(a, cap) => var _, _, _, _ := sim.RecvFrom(a, cap);
    case ToFlush => sim.Flush();
    case ToParams(q) => var _ := sim.SetParams(q);
  }

  lemma TooLarge(net: Net, src: Addr, dest: Addr, payload: seq<Byte>, now: nat)
    requires |payload| > MAX_DATAGRAM
    ensures Send(net, src, dest, payload, now, NO_ROLLS) == net
  {
  }

  /** The state a seed starts the generator with. */
  ghost function Seeded(seed: nat): (s: nat)
    ensures Pcg.IsState(s)
  {
    Pcg.Step((Pcg.Step(0, 1) + seed) % U64, 1)
  }

  /** Any list of calls on a new object is a legal run from the start state, and both the run and
      the generator's state are determined by seed, parameters and calls. */
  method PlayAll(seed: nat, p: Params, calls: seq<Call>) returns (sim: Sim, ghost es: seq<Event>)
    requires seed < U64 && Words(p) && forall i :: 0 <= i < |calls| ==> CallOk(calls[i])
    ensures sim.Valid() && fresh(sim) && fresh(sim.rng) && sim.rng.inc == 1
    ensures sim.model == Run(Start(p), es) && AllLegal(Start(p), es)
    ensures Play(es, sim.rng.state) == Played(p, Seeded(seed), 1, calls)
  {
    hide Run, AllLegal, Apply, Legal, EventOf, StateAfter, Core;
    sim := new Sim(seed, p);
    es := [];
    assert Run(Start(p), []) == Start(p) && AllLegal(Start(p), []) by { NothingYet(p); }
    for i := 0 to |calls|
      invariant sim.Valid() && fresh(sim) && fresh(sim.rng) && sim.rng.inc == 1
      invariant sim.model == Run(Start(p), es) && AllLegal(Start(p), es)
      invariant Play(es, sim.rng.state) == Played(p, Seeded(seed), 1, calls[..i])
    {
      ghost var e := EventOf(sim.params, sim.rng.state, sim.rng.inc, calls[i]);
      RunLast(Start(p), es, e);
      assert calls[..i + 1][..i] == calls[..i];
      Perform(sim, calls[i]);
      es := es + [e];
    }
    assert calls[..|calls|] == calls;
  }

  lemma NothingYet(p: Params)
    ensures Run(Start(p), []) == Start(p) && AllLegal(Start(p), [])
  {
  }

  /* The counters of the program */

  ghost function ReadyCount(): Endpoint -> nat { (e: Endpoint) => |e.ready| }

  lemma {:induction false} SumBares(es: seq<Port>)
    ensures Sum(Bares(es), ReadyCount()) == Sum(es, ReadySize())
  {
    if es != [] {
      var n := |es| - 1;
      assert Bares(es)[..n] == Bares(es[..n]);
      SumBares(es[..n]);
    }
  }

  /** What the 32-bit counters and the lists of the object say about each other after any calls. */
  lemma CountersBalance(sim: Sim, p: Params, es: seq<Event>)
    requires sim.Valid() && sim.model == Run(Start(p), es)
    ensures var t := sim.model.totals;
            (sim.enqueued + sim.duplicated) % U32
            == (sim.delivered + sim.dropped + sim.queueFull + t.flushed + t.closedReady + t.failed
                + |sim.pending| + Sum(sim.endpoints, ReadyCount())) % U32
  {
    hide Run, Core;
    RunBalance(p, es);
    SumBares(sim.model.ports);
    var t := sim.model.totals;
    var rest := t.flushed + t.closedReady + t.failed + |sim.pending| + Sum(sim.endpoints, ReadyCount());
    WrappedSum(t.enqueued, t.duplicated, 0, 0);
    WrappedSum(t.delivered, t.dropped, t.queueFull, rest);
  }

  /** After any calls the 32-bit counters are the numbers of the happenings they stand for, modulo 2^32. */
  lemma CountersTally(sim: Sim, p: Params, es: seq<Event>)
    requires sim.Valid() && sim.model == Run(Start(p), es)
    ensures var t := TotalsOf(p, es);
            && sim.enqueued == t.enqueued % U32 && sim.delivered == t.delivered % U32
            && sim.dropped == t.dropped % U32 && sim.duplicated == t.duplicated % U32
            && sim.corrupted == t.corrupted % U32 && sim.reordered == t.reordered % U32
            && sim.queueFull == t.queueFull % U32
  {
    hide Run, Core, TotalsOf;
    RunTotals(p, es);
  }

  /** A sum of wrapped counters and a rest wraps to the same as the exact sum. */
  lemma WrappedSum(a: nat, b: nat, c: nat, rest: nat)
    ensures (a % U32 + b % U32 + c % U32 + rest) % U32 == (a + b + c + rest) % U32
  {
    ModSum(a, b % U32 + c % U32 + rest, U32);
    ModSum(b, a + c % U32 + rest, U32);
    ModSum(c, a + b + rest, U32);
  }
}
