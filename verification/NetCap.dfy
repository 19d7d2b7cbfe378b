/**
 When the cap on the bytes in flight is really a cap: exactly when nothing can be duplicated.
 */
module NetCap {
  import opened Options
  import opened Tally
  import opened Bits
  import opened NetModel
  import opened NetLists
  import opened NetInvariant
  import opened NetRuns
  import opened NetFifo
  import opened NetCounts

  ghost predicate SameParams(es: seq<Event>, p: Params) {
    forall i :: 0 <= i < |es| && es[i].DoParams? ==> es[i].params == p
  }

  /** Every run under these parameters stays within the cap. */
  ghost predicate CapHolds(p: Params) {
    forall es :: AllLegal(Start(p), es) && SameParams(es, p) ==> Within(Run(Start(p), es), p.cap)
  }

  /* Nothing is enqueued when everything is dropped. */

  lemma ApplyIdle(net: Net, ev: Event)
    requires Core(net) && Within(net, 0) && net.params.drop >= FX_ONE && Legal(net, ev)
    ensures Within(Apply(net, ev), 0)
  {
    hide Core, MatureAll, EnqueueCopy, Find, Refused, NotFor;
    match ev
    case DoStep(now) =>
      CoreOfLists(net, net.(clock := now));
      MatureAllWithin(net.(clock := now), now, 0);
    case _ =>
  }

  lemma {:induction false} RunIdle(p: Params, es: seq<Event>)
    requires p.drop >= FX_ONE && AllLegal(Start(p), es) && SameParams(es, p)
    ensures Within(Run(Start(p), es), 0) && Run(Start(p), es).params == p
    decreases |es|
  {
    hide Apply, Legal;
    if es != [] {
      var n := |es| - 1;
      RunIdle(p, es[..n]);
      RunKeeps(p, es[..n]);
      ApplyIdle(Run(Start(p), es[..n]), es[n]);
      ApplyParams(Run(Start(p), es[..n]), es[n]);
    }
  }

  /* Duplicates can always go over the cap. */


  ghost function Certain(p: Params): CopyRoll {
    CopyRoll(Signed32(p.latMin), true,
             if p.corrupt >= FX_ONE then Some(0) else None,
             if p.reorder >= FX_ONE then Some(Signed32(p.swapMin)) else None)
  }

  /** A send that is not dropped. */
  ghost function Sent(p: Params, len: nat, dup: bool): Event {
    DoSend(HERE, HERE, seq(len, _ => 0), 0, Rolls(false, Certain(p), dup, Certain(p)))
  }

  /** What n bytes are charged with, sent once or twice. */
  ghost function Charged(n: nat, twice: bool): nat { if twice then 2 * n else n }

  /** A bind, then k sends of one byte, duplicated only if every send is. */
  ghost function Filling(p: Params, k: nat): seq<Event> {
    if k == 0 then [DoBind(HERE, true)] else Filling(p, k - 1) + [Sent(p, 1, p.dup >= FX_ONE)]
  }

  /** Counts the sends that are duplicated. */
  ghost function Duplicating(): Event -> nat {
    (e: Event) => if e.DoSend? && e.rolls.dup then 1 else 0
  }

  ghost predicate OneAt(net: Net, p: Params, n: nat) {
    |net.ports| == 1 && net.ports[0].addr == HERE && net.ports[0].inFlight == n && net.params == p
  }

  /** A send to the only endpoint that is neither refused nor dropped is charged once or twice. */
  lemma SendCharges(net: Net, p: Params, n: nat, src: Addr, payload: seq<Byte>, now: nat, r: Rolls)
    requires OneAt(net, p, n) && |payload| <= MAX_DATAGRAM && (p.cap == 0 || n + |payload| <= p.cap)
    requires !r.drop && r.first.made && (r.dup ==> r.second.made)
    ensures OneAt(Send(net, src, HERE, payload, now, r), p, n + Charged(|payload|, r.dup))
  {
    hide Insert, CopyDue, CopyPayload;
    FindUnique(net.ports, HERE, 0);
    var ds := Copies(net, src, HERE, payload, now, r);
    SendIsEnqueues(net, src, HERE, payload, now, r);
    var m := net.(clock := now);
    OneCharge(m, p, n, ds[0]);
    assert ds[..1] == [ds[0]] && EnqueueAll(m, ds[..1]) == Enqueue(m, ds[0]);
    if r.dup {
      OneCharge(Enqueue(m, ds[0]), p, n + |payload|, ds[1]);
      assert EnqueueAll(m, ds) == Enqueue(Enqueue(m, ds[0]), ds[1]);
    } else {
      assert ds == ds[..1];
    }
  }

  lemma OneCharge(net: Net, p: Params, n: nat, d: Datagram)
    requires OneAt(net, p, n) && d.dest == HERE
    ensures OneAt(Enqueue(net, d), p, n + |d.payload|)
  {
    FindUnique(net.ports, HERE, 0);
  }

  lemma SentCharges(net: Net, p: Params, n: nat, len: nat, dup: bool)
    requires OneAt(net, p, n) && 1 <= len <= 2 && n + len <= p.cap && p.drop < FX_ONE
    requires ChanceOk(p.dup, dup)
    ensures Legal(net, Sent(p, len, dup))
    ensures OneAt(Apply(net, Sent(p, len, dup)), p, n + Charged(len, dup))
  {
    var ev := Sent(p, len, dup);
    SendCharges(net, p, n, HERE, ev.payload, 0, ev.rolls);
  }

  lemma {:induction false} FillingReaches(p: Params, k: nat)
    requires p.drop < FX_ONE && Charged(k, p.dup >= FX_ONE) <= p.cap
    ensures AllLegal(Start(p), Filling(p, k)) && OneAt(Run(Start(p), Filling(p, k)), p, Charged(k, p.dup >= FX_ONE))
    ensures forall i :: 0 <= i < |Filling(p, k)| ==> !Filling(p, k)[i].DoParams?
  {
    hide Sent, Apply, Legal, Run, AllLegal, OneAt;
    if k == 0 {
      FillingStarts(p);
    } else {
      var twice := p.dup >= FX_ONE;
      FillingReaches(p, k - 1);
      SentCharges(Run(Start(p), Filling(p, k - 1)), p, Charged(k - 1, twice), 1, twice);
      RunLast(Start(p), Filling(p, k - 1), Sent(p, 1, twice));
      SentIsSend(p, 1, twice);
    }
  }

  /** While a send need not be duplicated the filling duplicates none. */
  lemma {:induction false} FillingDuplicates(p: Params, k: nat)
    requires p.dup < FX_ONE
    ensures Sum(Filling(p, k), Duplicating()) == 0
  {
    hide Sent, Duplicating;
    if k == 0 {
      BindIsNoSend();
      SumOne(DoBind(HERE, true), Duplicating());
    } else {
      FillingDuplicates(p, k - 1);
      SentIsSend(p, 1, false);
      SumAppend(Filling(p, k - 1), [Sent(p, 1, false)], Duplicating());
      SumOne(Sent(p, 1, false), Duplicating());
    }
  }

  lemma BindIsNoSend()
    ensures Duplicating()(DoBind(HERE, true)) == 0
  {
  }

  lemma FillingStarts(p: Params)
    ensures AllLegal(Start(p), Filling(p, 0)) && OneAt(Run(Start(p), Filling(p, 0)), p, 0)
  {
    hide Run, AllLegal, Legal, AllOnTime, OnTime;
    NoEvents(Start(p));
    NoRolls(Start(p), DoBind(HERE, true));
    assert Filling(p, 0) == [] + [DoBind(HERE, true)];
    RunLast(Start(p), [], DoBind(HERE, true));
    assert Apply(Start(p), DoBind(HERE, true)).ports == [Port(HERE, [], 0, 0, [], [], [])];
  }

  lemma NoRolls(net: Net, ev: Event)
    requires !ev.DoSend?
    ensures Legal(net, ev)
  {
  }

  lemma SentIsSend(p: Params, len: nat, dup: bool)
    ensures Sent(p, len, dup).DoSend? && Duplicating()(Sent(p, len, dup)) == if dup then 1 else 0
  {
  }

  /** Fill up to one or two bytes below the cap, then send and duplicate exactly what is left.
      One duplicate is enough, unless all sends are duplicated. */
  lemma DuplicateExceedsCap(p: Params)
    requires p.cap > 0 && p.drop < FX_ONE && p.dup > 0
    ensures exists es :: AllLegal(Start(p), es) && SameParams(es, p) && !Within(Run(Start(p), es), p.cap)
                         && (p.dup < FX_ONE ==> Sum(es, Duplicating()) == 1)
  {
    hide Sent, Apply, Legal, Run, AllLegal, OneAt, Within, Duplicating, Sum, Filling;
    var twice := p.dup >= FX_ONE;
    var k := if twice then (p.cap - 1) / 2 else p.cap - 1;
    var n := Charged(k, twice);
    var len := p.cap - n;
    var es := Filling(p, k) + [Sent(p, len, true)];
    FillingReaches(p, k);
    SentCharges(Run(Start(p), Filling(p, k)), p, n, len, true);
    RunLast(Start(p), Filling(p, k), Sent(p, len, true));
    SentIsSend(p, len, true);
    if !twice {
      FillingDuplicates(p, k);
      SumAppend(Filling(p, k), [Sent(p, len, true)], Duplicating());
      SumOne(Sent(p, len, true), Duplicating());
    }
    Over(Run(Start(p), es), p, n + Charged(len, true));
  }

  lemma Over(net: Net, p: Params, n: nat)
    requires OneAt(net, p, n) && n > p.cap
    ensures !Within(net, p.cap)
  {
    assert net.ports[0].inFlight > p.cap;
  }

  /** A cap is kept by every run if and only if duplicates, or all sends, are ruled out. */
  lemma CapHoldsIff(p: Params)
    requires p.cap > 0
    ensures CapHolds(p) <==> p.dup <= 0 || p.drop >= FX_ONE
  {
    hide AllLegal, Run;
    if p.dup <= 0 {
      forall es | AllLegal(Start(p), es) && SameParams(es, p) ensures Within(Run(Start(p), es), p.cap) {
        RunWithin(p, es, p.cap, false);
      }
    } else if p.drop >= FX_ONE {
      forall es | AllLegal(Start(p), es) && SameParams(es, p) ensures Within(Run(Start(p), es), p.cap) {
        RunIdle(p, es);
      }
    } else {
      DuplicateExceedsCap(p);
    }
  }
}
