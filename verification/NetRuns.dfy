/**
 Whole runs of the network simulator: order of delivery, first-in first-out under constant
 latency, fresh starts after a rebind, the byte cap, and conservation of packets.
 */
module NetRuns {
  import opened Bits
  import opened NetModel
  import opened NetLists
  import opened NetInvariant

  /* What the operations do to the line of one endpoint */

  /** An endpoint that kept its line and did not gain ready packets or bytes. */
  ghost predicate Kept(e: Port, ps: seq<Packet>, e': Port, qs: seq<Packet>) {
    && e'.addr == e.addr && e'.binding == e.binding && e'.accepted == e.accepted && e'.flushed == e.flushed
    && Line(e', qs) == Line(e, ps) && e'.got + e'.ready == e.got + e.ready
    && e'.inFlight <= e.inFlight
  }

  lemma RecvEffect(net: Net, a: Addr, cap: nat, j: nat)
    requires Core(net) && j < |net.ports|
    ensures var n := Recv(net, a, cap);
            |n.ports| == |net.ports| && Kept(net.ports[j], net.pending, n.ports[j], n.pending)
  {
    hide Core, For, Find, Line;
    if RecvReply(net, a, cap) == Ok && Find(net.ports, a) == j {
      RecvPort(net, a, cap);
      var e := net.ports[j];
      assert e.got + [e.ready[0]] + e.ready[1..] == e.got + e.ready;
    }
  }

  lemma CloseEffect(net: Net, a: Addr, j: nat)
    requires Core(net) && j < |Close(net, a).ports|
    ensures var n := Close(net, a);
            exists i :: 0 <= i < |net.ports| && Kept(net.ports[i], net.pending, n.ports[j], n.pending)
  {
    hide Core, For, NotFor;
    var n, i := Close(net, a), Find(net.ports, a);
    if i == |net.ports| {
      assert Kept(net.ports[j], net.pending, n.ports[j], n.pending);
    } else {
      ClosePort(net, a, j);
      assert Kept(net.ports[if j < i then j else j + 1], net.pending, n.ports[j], n.pending);
    }
  }

  lemma BindEffect(net: Net, a: Addr, made: bool, j: nat)
    requires Core(net) && j < |Bind(net, a, made).ports|
    ensures var n := Bind(net, a, made);
            if n == net then Kept(net.ports[j], net.pending, n.ports[j], n.pending)
            else if j == 0 then n.ports[0] == Port(a, [], 0, net.nextBinding, [], [], []) && Line(n.ports[0], n.pending) == []
            else Kept(net.ports[j - 1], net.pending, n.ports[j], n.pending)
  {
    hide Core, For, Find;
    if Bind(net, a, made) != net && j == 0 {
      UnboundEmpty(net, a);
    }
  }

  lemma EnqueueEffect(net: Net, d: Datagram, j: nat)
    requires Core(net) && j < |net.ports|
    ensures var n, i := Enqueue(net, d), Find(net.ports, d.dest);
            && |n.ports| == |net.ports|
            && (if j == i then n.ports[j] == Grown(net.ports[j], Packet(d, net.nextId, net.ports[j].binding))
                else Kept(net.ports[j], net.pending, n.ports[j], n.pending))
  {
    hide For, Insert, Find, PendingOk, PortsOk;
    var i := Find(net.ports, d.dest);
    FindIndex(net.ports, j);
    if i < |net.ports| && j != i {
      ForInsert(net.pending, Packet(d, net.nextId, net.ports[i].binding), net.ports[j].addr);
    }
  }

  /* A send is at most two enqueued datagrams */

  ghost function EnqueueAll(net: Net, ds: seq<Datagram>): Net
    decreases |ds|
  {
    if ds == [] then net else Enqueue(EnqueueAll(net, ds[..|ds| - 1]), ds[|ds| - 1])
  }

  ghost function CopyOf(src: Addr, dest: Addr, payload: seq<Byte>, now: nat, c: CopyRoll): Datagram {
    Datagram(src, dest, CopyDue(now, c), CopyPayload(payload, c))
  }

  /** The datagrams that a send puts on their way. */
  ghost function Copies(net: Net, src: Addr, dest: Addr, payload: seq<Byte>, now: nat, r: Rolls): (ds: seq<Datagram>)
    ensures |ds| <= 2
    ensures forall d :: d in ds ==> d.dest == dest && |d.payload| == |payload|
  {
    if |payload| > MAX_DATAGRAM || Refused(net, dest, payload) || r.drop || !r.first.made then []
    else if !r.dup || !r.second.made then [CopyOf(src, dest, payload, now, r.first)]
    else [CopyOf(src, dest, payload, now, r.first), CopyOf(src, dest, payload, now, r.second)]
  }

  lemma CopiesNotEarly(net: Net, src: Addr, dest: Addr, payload: seq<Byte>, now: nat, r: Rolls)
    requires NoWrap(net.params, now) && (|payload| <= MAX_DATAGRAM ==> RollsOk(net.params, |payload|, r))
    ensures forall d :: d in Copies(net, src, dest, payload, now, r) ==> d.due >= now
  {
    hide Refused, CopyPayload, NoWrap, CopyOk, CopyDue;
    var ds := Copies(net, src, dest, payload, now, r);
    if |ds| > 0 { DueFits(net.params, |payload|, now, r.first); }
    if |ds| > 1 { DueFits(net.params, |payload|, now, r.second); }
  }

  lemma SendIsEnqueues(net: Net, src: Addr, dest: Addr, payload: seq<Byte>, now: nat, r: Rolls)
    ensures var n := Send(net, src, dest, payload, now, r);
            && n.clock == (if |payload| > MAX_DATAGRAM then net.clock else now)
            && n.params == net.params
            && SameLists(EnqueueAll(net.(clock := n.clock), Copies(net, src, dest, payload, now, r)), n)
  {
    hide Insert, Find, CopyDue, CopyPayload;
    var n := net.(totals := net.totals.(enqueued := net.totals.enqueued + 1), clock := now);
    var ds := Copies(net, src, dest, payload, now, r);
    var m := net.(clock := now);
    if |ds| > 0 {
      EnqueueLists(m, n, ds[0]);
      assert ds[..1] == [ds[0]];
      assert EnqueueAll(m, ds[..1]) == Enqueue(m, ds[0]);
      if |ds| == 2 {
        assert ds[..2] == ds;
        assert EnqueueAll(m, ds) == Enqueue(Enqueue(m, ds[0]), ds[1]);
        EnqueueLists(Enqueue(m, ds[0]), EnqueueCopy(n, src, dest, payload, now, r.first), ds[1]);
      }
    }
  }

  lemma EnqueueLists(n: Net, m: Net, d: Datagram)
    requires SameLists(n, m)
    ensures SameLists(Enqueue(n, d), Enqueue(m, d))
    ensures Enqueue(n, d).clock == n.clock && Enqueue(n, d).params == n.params
  {
  }

  /* Delivery in order */

  /** Nothing is ready before it is due, and everything comes in order of (due time, number). */
  ghost predicate PortOrdered(e: Port, pending: seq<Packet>, clock: nat) {
    && Sorted(Line(e, pending))
    && (forall p :: p in e.got + e.ready ==> p.d.due <= clock)
  }

  ghost predicate Ordered(net: Net) {
    forall j :: 0 <= j < |net.ports| ==> PortOrdered(net.ports[j], net.pending, net.clock)
  }

  lemma OrderedKept(e: Port, ps: seq<Packet>, e': Port, qs: seq<Packet>, clock: nat, clock': nat)
    requires PortOrdered(e, ps, clock) && Kept(e, ps, e', qs) && clock <= clock'
    ensures PortOrdered(e', qs, clock')
  {
    hide Line, Sorted;
  }

  lemma OrderedGrown(e: Port, p: Packet, pending: seq<Packet>, clock: nat)
    requires PortOrdered(e, pending, clock) && OwnLine(e, Line(e, pending), p.id)
    requires Sorted(pending) && p.d.dest == e.addr && p.d.due >= clock
    ensures PortOrdered(Grown(e, p), Insert(pending, p), clock)
  {
    hide Sorted, AllBefore, For, Insert, Line, Before;
    var k := Position(pending, p.d.due);
    var had, early, late := e.got + e.ready, For(pending[..k], e.addr), For(pending[k..], e.addr);
    LineGrows(e, p, pending);
    SortedParts(had + early, late);
    assert AllBefore([p], late) by {
      LatePart(pending, p);
      ForMembers(pending[k..], e.addr);
      MembersBefore(p, pending[k..], late);
    }
    assert AllBefore(had + early, [p]) by {
      ForMembers(pending[..k], e.addr);
      forall q: Packet | q in had + early ensures q.d.due <= p.d.due && q.id < p.id {
        OwnLineMember(e, Line(e, pending), p.id, q);
        if q in early { assert q in pending[..k]; }
      }
      DueBefore(had + early, p);
    }
    BetweenSorted(had + early, p, late);
  }

  lemma MembersBefore(p: Packet, ps: seq<Packet>, qs: seq<Packet>)
    requires AllBefore([p], ps) && forall i :: 0 <= i < |qs| ==> qs[i] in ps
    ensures AllBefore([p], qs)
  {
    forall j | 0 <= j < |qs| ensures Before(p, qs[j]) {
      var k :| 0 <= k < |ps| && ps[k] == qs[j];
      assert Before([p][0], ps[k]);
    }
  }

  lemma DueBefore(ps: seq<Packet>, p: Packet)
    requires forall q :: q in ps ==> q.d.due <= p.d.due && q.id < p.id
    ensures AllBefore(ps, [p])
  {
  }

  lemma EnqueueOrdered(net: Net, d: Datagram)
    requires Core(net) && Ordered(net) && d.due >= net.clock
    ensures Ordered(Enqueue(net, d))
  {
    hide Line, Sorted, PortOrdered, OwnLine, Find, AtHome;
    var n := Enqueue(net, d);
    forall j | 0 <= j < |n.ports| ensures PortOrdered(n.ports[j], n.pending, n.clock) {
      var e := net.ports[j];
      EnqueueEffect(net, d, j);
      if j == Find(net.ports, d.dest) {
        assert PortOk(e, net.pending, net.nextId, net.nextBinding);
        OrderedGrown(e, Packet(d, net.nextId, e.binding), net.pending, net.clock);
      } else {
        OrderedKept(e, net.pending, n.ports[j], n.pending, net.clock, n.clock);
      }
    }
  }

  lemma {:induction false} EnqueueAllOrdered(net: Net, ds: seq<Datagram>)
    requires Core(net) && Ordered(net) && forall d :: d in ds ==> d.due >= net.clock
    ensures Core(EnqueueAll(net, ds)) && Ordered(EnqueueAll(net, ds)) && EnqueueAll(net, ds).clock == net.clock
    decreases |ds|
  {
    hide Core, Ordered;
    if ds != [] {
      var n := |ds| - 1;
      EnqueueAllOrdered(net, ds[..n]);
      EnqueueKeeps(EnqueueAll(net, ds[..n]), ds[n]);
      EnqueueOrdered(EnqueueAll(net, ds[..n]), ds[n]);
    }
  }

  lemma OrderedLater(net: Net, m: Net)
    requires Ordered(net) && net.clock <= m.clock && net.ports == m.ports && net.pending == m.pending
    ensures Ordered(m)
  {
    hide Line, Sorted;
    forall j | 0 <= j < |m.ports| ensures PortOrdered(m.ports[j], m.pending, m.clock) {
      assert PortOrdered(net.ports[j], net.pending, net.clock);
    }
  }

  lemma {:induction false} MatureAllOrdered(net: Net, now: nat)
    requires Core(net) && Ordered(net) && now == net.clock
    ensures Ordered(MatureAll(net, now))
    decreases |net.pending|
  {
    hide Core, Ordered, Mature;
    if HasDue(net, now) {
      MatureShape(net);
      MatureKeeps(net);
      MatureOrdered(net);
      MatureAllOrdered(Mature(net), now);
    }
  }

  lemma MatureOrdered(net: Net)
    requires Core(net) && Ordered(net) && HasDue(net, net.clock)
    ensures Ordered(Mature(net))
  {
    hide Core, Sorted, Line, Mature;
    var n := Mature(net);
    MatureShape(net);
    forall j | 0 <= j < |n.ports| ensures PortOrdered(n.ports[j], n.pending, n.clock) {
      MatureLine(net, j);
      assert PortOrdered(net.ports[j], net.pending, net.clock);
    }
  }

  lemma FlushOrdered(net: Net)
    requires Core(net) && Ordered(net)
    ensures Ordered(Flush(net))
  {
    hide Sorted, For, Line, PortOk, PendingOk, Unique;
    var n := Flush(net);
    forall j | 0 <= j < |n.ports| ensures PortOrdered(n.ports[j], n.pending, n.clock) {
      var e := net.ports[j];
      FlushPort(e, net.pending, net.nextId, net.nextBinding);
      assert PortOrdered(e, net.pending, net.clock);
      ReceivedSorted(e, net.pending);
    }
  }

  lemma ReceivedSorted(e: Port, pending: seq<Packet>)
    requires Sorted(Line(e, pending))
    ensures Sorted(e.got)
  {
    hide For, Sorted, AllBefore;
    assert Line(e, pending) == e.got + (e.ready + For(pending, e.addr));
    SortedParts(e.got, e.ready + For(pending, e.addr));
  }

  /** The clock does not go back, and no due time wraps around. */
  ghost predicate OnTime(net: Net, ev: Event) {
    && ((ev.DoSend? || ev.DoStep?) ==> ev.now >= net.clock)
    && (ev.DoSend? ==> NoWrap(net.params, ev.now))
  }

  ghost predicate AllOnTime(net: Net, es: seq<Event>)
    decreases |es|
  {
    es == [] || (AllOnTime(net, es[..|es| - 1]) && OnTime(Run(net, es[..|es| - 1]), es[|es| - 1]))
  }

  lemma RunLast(net: Net, es: seq<Event>, ev: Event)
    ensures Run(net, es + [ev]) == Apply(Run(net, es), ev)
    ensures AllLegal(net, es + [ev]) == (AllLegal(net, es) && Legal(Run(net, es), ev))
    ensures AllOnTime(net, es + [ev]) == (AllOnTime(net, es) && OnTime(Run(net, es), ev))
  {
    assert (es + [ev])[..|es|] == es;
  }

  lemma ApplyOrdered(net: Net, ev: Event)
    requires Core(net) && Ordered(net) && OnTime(net, ev) && Legal(net, ev)
    ensures Ordered(Apply(net, ev))
  {
    hide Core, Ordered, Bind, Close, Send, Recv, Flush, MatureAll, RollsOk, NoWrap;
    match ev
    case DoBind(a, made) => BindOrdered(net, a, made);
    case DoClose(a) => CloseOrdered(net, a);
    case DoSend(src, dest, payload, now, rolls) => SendOrdered(net, src, dest, payload, now, rolls);
    case DoStep(now) =>
      CoreOfLists(net, net.(clock := now));
      OrderedLater(net, net.(clock := now));
      MatureAllOrdered(net.(clock := now), now);
    case DoRecv(a, cap) => RecvOrdered(net, a, cap);
    case DoFlush => FlushOrdered(net);
    case DoParams(p) => OrderedLater(net, net.(params := p));
  }

  lemma SendOrdered(net: Net, src: Addr, dest: Addr, payload: seq<Byte>, now: nat, r: Rolls)
    requires Core(net) && Ordered(net) && now >= net.clock && NoWrap(net.params, now)
    requires |payload| <= MAX_DATAGRAM ==> RollsOk(net.params, |payload|, r)
    ensures Ordered(Send(net, src, dest, payload, now, r))
  {
    hide Core, Ordered, Send, EnqueueAll, RollsOk, NoWrap, CopyDue, CopyPayload, Refused;
    var n := Send(net, src, dest, payload, now, r);
    var m := net.(clock := n.clock);
    SendIsEnqueues(net, src, dest, payload, now, r);
    CoreOfLists(net, m);
    OrderedLater(net, m);
    CopiesNotEarly(net, src, dest, payload, now, r);
    EnqueueAllOrdered(m, Copies(net, src, dest, payload, now, r));
    OrderedLater(EnqueueAll(m, Copies(net, src, dest, payload, now, r)), n);
  }

  lemma BindOrdered(net: Net, a: Addr, made: bool)
    requires Core(net) && Ordered(net)
    ensures Ordered(Bind(net, a, made))
  {
    hide Core, Bind, Line;
    var n := Bind(net, a, made);
    BindClock(net, a, made);
    forall j | 0 <= j < |n.ports| ensures PortOrdered(n.ports[j], n.pending, n.clock) {
      BindEffect(net, a, made, j);
      if n != net && j > 0 {
        OrderedKept(net.ports[j - 1], net.pending, n.ports[j], n.pending, net.clock, n.clock);
      }
    }
  }

  lemma BindClock(net: Net, a: Addr, made: bool)
    ensures var n := Bind(net, a, made);
            n.clock == net.clock && n.pending == net.pending && |n.ports| <= |net.ports| + 1 && n.params == net.params
            && n.nextId == net.nextId && n.nextBinding >= net.nextBinding && (n != net ==> |n.ports| == |net.ports| + 1)
  {
  }

  lemma CloseOrdered(net: Net, a: Addr)
    requires Core(net) && Ordered(net)
    ensures Ordered(Close(net, a))
  {
    hide Core, Line, Sorted, PortOrdered, NotFor;
    var n := Close(net, a);
    forall j | 0 <= j < |n.ports| ensures PortOrdered(n.ports[j], n.pending, n.clock) {
      CloseEffect(net, a, j);
      var i :| 0 <= i < |net.ports| && Kept(net.ports[i], net.pending, n.ports[j], n.pending);
      OrderedKept(net.ports[i], net.pending, n.ports[j], n.pending, net.clock, n.clock);
    }
  }

  lemma RecvOrdered(net: Net, a: Addr, cap: nat)
    requires Core(net) && Ordered(net)
    ensures Ordered(Recv(net, a, cap))
  {
    hide Core, Line, Sorted, PortOrdered;
    var n := Recv(net, a, cap);
    forall j | 0 <= j < |n.ports| ensures PortOrdered(n.ports[j], n.pending, n.clock) {
      RecvEffect(net, a, cap, j);
      OrderedKept(net.ports[j], net.pending, n.ports[j], n.pending, net.clock, n.clock);
    }
  }

  /** When the clock never goes back and no due time wraps around, every endpoint receives in order of (due time, number),
      and nothing before it is due. */
  lemma {:induction false} RunOrdered(p: Params, es: seq<Event>)
    requires AllOnTime(Start(p), es) && AllLegal(Start(p), es)
    ensures Ordered(Run(Start(p), es))
    decreases |es|
  {
    hide Apply;
    if es != [] {
      var n := |es| - 1;
      RunKeeps(p, es[..n]);
      RunOrdered(p, es[..n]);
      ApplyOrdered(Run(Start(p), es[..n]), es[n]);
    }
  }
}
