/**
 Two quantities of the network simulator over whole runs: every packet is counted exactly
 once, and the bytes in flight respect the cap.
 */
module NetCounts {
  import opened Bits
  import opened Tally
  import opened NetModel
  import opened NetLists
  import opened NetInvariant
  import opened NetRuns
  import opened NetFifo

  /* Conservation */

  /** Where a packet can have gone. */
  ghost function Accounted(net: Net): nat {
    var t := net.totals;
    t.delivered + t.dropped + t.queueFull + t.flushed + t.closedReady + t.failed
    + |net.pending| + Sum(net.ports, ReadySize())
  }

  ghost predicate Balanced(net: Net) {
    net.totals.enqueued + net.totals.duplicated == Accounted(net)
  }

  lemma EnqueueBalance(net: Net, d: Datagram)
    requires Find(net.ports, d.dest) < |net.ports|
    ensures var n := Enqueue(net, d);
            && n.totals == net.totals && |n.pending| == |net.pending| + 1
            && Sum(n.ports, ReadySize()) == Sum(net.ports, ReadySize())
            && SameHomes(net.ports, n.ports)
  {
    var i := Find(net.ports, d.dest);
    var e := net.ports[i];
    SumUpdate(net.ports, i, e.(inFlight := e.inFlight + |d.payload|,
                               accepted := e.accepted + [Packet(d, net.nextId, e.binding)]), ReadySize());
  }

  lemma {:induction false} FindSame(es: seq<Port>, es': seq<Port>, a: Addr)
    requires SameHomes(es, es')
    ensures Find(es, a) == Find(es', a)
  {
    FindUnique(es', a, Find(es, a));
  }

  lemma EnqueueCopyBalance(net: Net, src: Addr, dest: Addr, payload: seq<Byte>, now: nat, c: CopyRoll)
    requires Find(net.ports, dest) < |net.ports|
    ensures var n := EnqueueCopy(net, src, dest, payload, now, c);
            && n.totals.enqueued == net.totals.enqueued && n.totals.duplicated == net.totals.duplicated
            && Accounted(n) == Accounted(net) + 1
            && Find(n.ports, dest) < |n.ports|
  {
    hide Enqueue, CopyDue, CopyPayload;
    var d := Datagram(src, dest, CopyDue(now, c), CopyPayload(payload, c));
    EnqueueBalance(net, d);
    FindSame(net.ports, Enqueue(net, d).ports, dest);
  }

  lemma SendBalance(net: Net, src: Addr, dest: Addr, payload: seq<Byte>, now: nat, r: Rolls)
    requires Balanced(net)
    ensures Balanced(Send(net, src, dest, payload, now, r))
  {
    hide EnqueueCopy, Find, ReadySize;
    var n := net.(totals := net.totals.(enqueued := net.totals.enqueued + 1), clock := now);
    if Find(net.ports, dest) < |net.ports| {
      EnqueueCopyBalance(n, src, dest, payload, now, r.first);
      EnqueueCopyBalance(EnqueueCopy(n, src, dest, payload, now, r.first), src, dest, payload, now, r.second);
    }
  }

  lemma MatureBalance(net: Net)
    requires net.pending != [] && Balanced(net)
    ensures Balanced(Mature(net))
  {
    var p, i := net.pending[0], Find(net.ports, net.pending[0].d.dest);
    if i < |net.ports| {
      SumUpdate(net.ports, i, net.ports[i].(ready := net.ports[i].ready + [p]), ReadySize());
    }
  }

  lemma {:induction false} MatureAllBalance(net: Net, now: nat)
    requires Balanced(net)
    ensures Balanced(MatureAll(net, now))
    decreases |net.pending|
  {
    if HasDue(net, now) {
      MatureBalance(net);
      MatureAllBalance(Mature(net), now);
    }
  }

  lemma RecvBalance(net: Net, a: Addr, cap: nat)
    requires Balanced(net)
    ensures Balanced(Recv(net, a, cap))
  {
    var i := Find(net.ports, a);
    if RecvReply(net, a, cap) == Ok {
      SumUpdate(net.ports, i, Recv(net, a, cap).ports[i], ReadySize());
    }
  }

  lemma BindBalance(net: Net, a: Addr, made: bool)
    requires Balanced(net)
    ensures Balanced(Bind(net, a, made))
  {
    var born := Port(a, [], 0, net.nextBinding, [], [], []);
    SumAppend([born], net.ports, ReadySize());
    SumOne(born, ReadySize());
  }

  lemma CloseBalance(net: Net, a: Addr)
    requires Balanced(net)
    ensures Balanced(Close(net, a))
  {
    var i := Find(net.ports, a);
    if i < |net.ports| {
      SumSplit(net.ports, i, ReadySize());
      SumAppend(net.ports[..i], net.ports[i + 1..], ReadySize());
    }
  }

  lemma FlushBalance(net: Net)
    requires Balanced(net)
    ensures Balanced(Flush(net))
  {
    NothingReady(EmptyAll(net.ports, net.pending));
  }

  lemma NothingReady(es: seq<Port>)
    requires forall j :: 0 <= j < |es| ==> es[j].ready == []
    ensures Sum(es, ReadySize()) == 0
  {
    SumPositive(es, ReadySize());
  }

  lemma ApplyBalance(net: Net, ev: Event)
    requires Balanced(net)
    ensures Balanced(Apply(net, ev))
  {
    hide Bind, Close, Send, Recv, Flush, MatureAll;
    match ev
    case DoBind(a, made) => BindBalance(net, a, made);
    case DoClose(a) => CloseBalance(net, a);
    case DoSend(src, dest, payload, now, rolls) => SendBalance(net, src, dest, payload, now, rolls);
    case DoStep(now) => MatureAllBalance(net.(clock := now), now);
    case DoRecv(a, cap) => RecvBalance(net, a, cap);
    case DoFlush => FlushBalance(net);
    case DoParams(p) =>
  }

  /** Over every run, packets sent and duplicated are exactly those delivered, dropped, refused,
      waiting, thrown away by flush or close, or lost to a failed allocation. */
  lemma {:induction false} RunBalance(p: Params, es: seq<Event>)
    ensures Balanced(Run(Start(p), es))
    decreases |es|
  {
    hide Apply, Balanced;
    if es == [] {
      assert Balanced(Start(p)) by { StartBalance(p); }
    } else {
      RunBalance(p, es[..|es| - 1]);
      ApplyBalance(Run(Start(p), es[..|es| - 1]), es[|es| - 1]);
    }
  }

  lemma StartBalance(p: Params)
    ensures Balanced(Start(p))
  {
  }

  /* The cap */

  /** The highest count a cap allows: one uncharged duplicate can go over it. */
  ghost function Limit(cap: nat, copies: bool): nat {
    cap + if !copies then 0 else if cap < MAX_DATAGRAM then cap else MAX_DATAGRAM
  }

  ghost predicate Within(net: Net, limit: nat) {
    forall j :: 0 <= j < |net.ports| ==> net.ports[j].inFlight <= limit
  }

  ghost predicate CapIs(p: Params, cap: nat, copies: bool) {
    p.cap == cap && (!copies ==> p.dup <= 0)
  }

  ghost predicate CapRun(es: seq<Event>, cap: nat, copies: bool) {
    forall i :: 0 <= i < |es| && es[i].DoParams? ==> CapIs(es[i].params, cap, copies)
  }

  /** A send charges its destination once or twice, and only after the cap has been checked. */
  lemma SendWithin(net: Net, src: Addr, dest: Addr, payload: seq<Byte>, now: nat, r: Rolls, cap: nat, copies: bool)
    requires Core(net) && cap > 0 && CapIs(net.params, cap, copies)
    requires |payload| <= MAX_DATAGRAM ==> RollsOk(net.params, |payload|, r)
    requires Within(net, Limit(cap, copies))
    ensures Within(Send(net, src, dest, payload, now, r), Limit(cap, copies))
  {
    hide Core, Enqueue, Send, Find, CopyOk;
    var n, ds := Send(net, src, dest, payload, now, r), Copies(net, src, dest, payload, now, r);
    var m := net.(clock := n.clock);
    var i := Find(net.ports, dest);
    SendIsEnqueues(net, src, dest, payload, now, r);
    CoreOfLists(net, m);
    if |ds| > 0 {
      assert net.ports[i].inFlight + |payload| <= cap;
      assert |ds| > 1 ==> copies;
      forall j | 0 <= j < |n.ports| ensures n.ports[j].inFlight <= Limit(cap, copies) {
        CopiesCharge(m, dest, |payload|, ds, j);
      }
    }
  }

  lemma {:induction false} CopiesCharge(net: Net, dest: Addr, len: nat, ds: seq<Datagram>, j: nat)
    requires Core(net) && forall d :: d in ds ==> d.dest == dest && |d.payload| == len
    requires j < |EnqueueAll(net, ds).ports|
    ensures var n := EnqueueAll(net, ds);
            && Core(n) && SameHomes(net.ports, n.ports)
            && n.ports[j].inFlight <= net.ports[j].inFlight + if j == Find(net.ports, dest) then |ds| * len else 0
    decreases |ds|
  {
    hide Core, Enqueue, Find, Kept;
    if ds != [] {
      var k := |ds| - 1;
      var n := EnqueueAll(net, ds[..k]);
      ChargePorts(n, ds[k]);
      CopiesCharge(net, dest, len, ds[..k], j);
      EnqueueKeeps(n, ds[k]);
      FindSame(net.ports, n.ports, dest);
      ChargeOne(n, ds[k], j);
      MulStep(|ds|, len);
    }
  }

  lemma MulStep(k: nat, len: nat)
    requires k > 0
    ensures k * len == (k - 1) * len + len
  {
  }

  lemma ChargePorts(net: Net, d: Datagram)
    ensures SameHomes(net.ports, Enqueue(net, d).ports)
  {
    hide Insert, For;
  }

  lemma ChargeOne(net: Net, d: Datagram, j: nat)
    requires Core(net) && j < |net.ports|
    ensures |Enqueue(net, d).ports| == |net.ports|
    ensures Enqueue(net, d).ports[j].inFlight
            <= net.ports[j].inFlight + if j == Find(net.ports, d.dest) then |d.payload| else 0
  {
    hide Core, Enqueue, Line;
    EnqueueEffect(net, d, j);
  }

  lemma {:induction false} MatureAllWithin(net: Net, now: nat, limit: nat)
    requires Core(net) && Within(net, limit)
    ensures Within(MatureAll(net, now), limit)
    decreases |net.pending|
  {
    hide Core;
    if HasDue(net, now) {
      MatureKeeps(net);
      assert Within(Mature(net), limit);
      MatureAllWithin(Mature(net), now, limit);
    }
  }

  lemma ApplyWithin(net: Net, ev: Event, cap: nat, copies: bool)
    requires Core(net) && Legal(net, ev) && cap > 0 && CapIs(net.params, cap, copies)
    requires Within(net, Limit(cap, copies))
    ensures Within(Apply(net, ev), Limit(cap, copies))
  {
    hide Core, Send, MatureAll, RollsOk, NotFor, Limit;
    match ev
    case DoSend(src, dest, payload, now, rolls) => SendWithin(net, src, dest, payload, now, rolls, cap, copies);
    case DoStep(now) =>
      CoreOfLists(net, net.(clock := now));
      MatureAllWithin(net.(clock := now), now, Limit(cap, copies));
    case _ =>
  }

  /** Under a fixed cap no endpoint ever has more than the cap and one datagram in flight, and
      no more than the cap when nothing is duplicated. */
  lemma {:induction false} RunWithin(p: Params, es: seq<Event>, cap: nat, copies: bool)
    requires cap > 0 && CapIs(p, cap, copies) && CapRun(es, cap, copies) && AllLegal(Start(p), es)
    ensures var n := Run(Start(p), es); Within(n, Limit(cap, copies)) && CapIs(n.params, cap, copies)
    decreases |es|
  {
    hide Apply, Legal, Limit;
    if es != [] {
      var n := |es| - 1;
      RunKeeps(p, es[..n]);
      RunWithin(p, es[..n], cap, copies);
      ApplyWithin(Run(Start(p), es[..n]), es[n], cap, copies);
      ApplyParams(Run(Start(p), es[..n]), es[n]);
    }
  }
}
