/**
 Two histories of the network simulator: first in, first out under constant latency, and
 a rebound address that never hears of anything sent before.
 */
module NetFifo {
  import opened Options
  import opened Bits
  import opened NetModel
  import opened NetLists
  import opened NetInvariant
  import opened NetRuns

  /* First in, first out */

  /** One latency and no reordering; drops, copies and corruption are free. */
  ghost predicate Steady(p: Params, latency: nat) {
    p.latMin == latency && p.latMax <= latency && p.reorder <= 0
  }

  ghost predicate SteadyRun(es: seq<Event>, latency: nat) {
    forall i :: 0 <= i < |es| && es[i].DoParams? ==> Steady(es[i].params, latency)
  }

  /** What is left of ps without the packets in `out`. */
  ghost function Without(ps: seq<Packet>, out: seq<Packet>): seq<Packet> {
    if ps == [] then []
    else
      var n := |ps| - 1;
      Without(ps[..n], out) + if ps[n] in out then [] else [ps[n]]
  }

  lemma WithoutLast(ps: seq<Packet>, p: Packet, out: seq<Packet>)
    ensures Without(ps + [p], out) == Without(ps, out) + if p in out then [] else [p]
  {
    assert (ps + [p])[..|ps|] == ps;
  }

  lemma {:induction false} WithoutMembers(ps: seq<Packet>, out: seq<Packet>)
    ensures forall p :: p in Without(ps, out) <==> p in ps && p !in out
  {
    if ps != [] {
      var n := |ps| - 1;
      assert ps == ps[..n] + [ps[n]];
      WithoutMembers(ps[..n], out);
    }
  }

  lemma {:induction false} WithoutNone(ps: seq<Packet>, out: seq<Packet>)
    requires forall p :: p in ps ==> p !in out
    ensures Without(ps, out) == ps
  {
    if ps != [] {
      var n := |ps| - 1;
      assert ps == ps[..n] + [ps[n]];
      WithoutNone(ps[..n], out);
    }
  }

  lemma {:induction false} WithoutAll(ps: seq<Packet>, out: seq<Packet>)
    requires forall p :: p in ps ==> p in out
    ensures Without(ps, out) == []
  {
    if ps != [] {
      var n := |ps| - 1;
      assert ps == ps[..n] + [ps[n]];
      WithoutAll(ps[..n], out);
    }
  }

  lemma {:induction false} WithoutConcat(ps: seq<Packet>, qs: seq<Packet>, out: seq<Packet>)
    ensures Without(ps + qs, out) == Without(ps, out) + Without(qs, out)
    decreases |qs|
  {
    if qs == [] {
      assert ps + qs == ps;
    } else {
      var n := |qs| - 1;
      assert (ps + qs)[..|ps + qs| - 1] == ps + qs[..n];
      WithoutConcat(ps, qs[..n], out);
    }
  }

  lemma {:induction false} WithoutMore(ps: seq<Packet>, out: seq<Packet>, more: seq<Packet>)
    ensures Without(ps, out + more) == Without(Without(ps, out), more)
  {
    if ps != [] {
      var n := |ps| - 1;
      var kept := Without(ps[..n], out);
      WithoutMore(ps[..n], out, more);
      if ps[n] in out {
        assert Without(ps, out) == kept;
      } else {
        assert Without(ps, out) == kept + [ps[n]];
        WithoutLast(kept, ps[n], more);
      }
    }
  }

  /** The line of an endpoint is what was enqueued for it, in that order, without what was flushed. */
  ghost predicate PortInLine(e: Port, pending: seq<Packet>) {
    Line(e, pending) == Without(e.accepted, e.flushed)
  }

  ghost predicate InLine(net: Net) {
    forall j :: 0 <= j < |net.ports| ==> PortInLine(net.ports[j], net.pending)
  }

  ghost predicate DueSoon(pending: seq<Packet>, limit: nat) {
    forall k :: 0 <= k < |pending| ==> pending[k].d.due <= limit
  }

  ghost predicate Prompt(net: Net, latency: nat) {
    InLine(net) && DueSoon(net.pending, net.clock + latency * MS)
  }

  lemma LastPosition(ps: seq<Packet>, p: Packet)
    requires DueSoon(ps, p.d.due)
    ensures Position(ps, p.d.due) == |ps| && Insert(ps, p) == ps + [p]
  {
    PositionUnique(ps, p.d.due, |ps|);
    assert ps[..|ps|] == ps && ps[|ps|..] == [];
  }

  lemma EnqueuePrompt(net: Net, d: Datagram, latency: nat)
    requires Core(net) && Prompt(net, latency) && d.due == net.clock + latency * MS
    ensures Prompt(Enqueue(net, d), latency)
  {
    hide Insert, Position, Line, For, OwnLine, PendingOk, Without, Find;
    var n, i := Enqueue(net, d), Find(net.ports, d.dest);
    if i < |net.ports| {
      var p := Packet(d, net.nextId, net.ports[i].binding);
      LastPosition(net.pending, p);
      forall j | 0 <= j < |n.ports| ensures PortInLine(n.ports[j], n.pending) {
        EnqueueEffect(net, d, j);
        assert PortInLine(net.ports[j], net.pending);
        if j == i {
          assert PortOk(net.ports[i], net.pending, net.nextId, net.nextBinding);
          LineAppends(net.ports[i], p, net.pending);
          FlushedWasAccepted(net.ports[i], net.pending, net.nextId, net.nextBinding);
          WithoutLast(net.ports[i].accepted, p, net.ports[i].flushed);
        }
      }
    }
  }

  /** Only what was enqueued can have been flushed. */
  lemma FlushedWasAccepted(e: Port, pending: seq<Packet>, id: nat, b: nat)
    requires PortOk(e, pending, id, b)
    ensures forall f :: f in e.flushed ==> f in e.accepted && f.id < id
  {
    hide Line, For;
    forall f | f in e.flushed ensures f in e.accepted && f.id < id {
      assert f in multiset(e.flushed) && f in multiset(e.accepted);
    }
  }

  lemma LineAppends(e: Port, p: Packet, pending: seq<Packet>)
    requires p.d.dest == e.addr && DueSoon(pending, p.d.due)
    ensures Line(Grown(e, p), Insert(pending, p)) == Line(e, pending) + [p]
  {
    hide For, Insert, Position;
    LastPosition(pending, p);
    ForAppend(pending, [p], e.addr);
    ForOne(p, e.addr);
  }

  lemma {:induction false} EnqueueAllPrompt(net: Net, ds: seq<Datagram>, latency: nat)
    requires Core(net) && Prompt(net, latency) && forall d :: d in ds ==> d.due == net.clock + latency * MS
    ensures Core(EnqueueAll(net, ds)) && Prompt(EnqueueAll(net, ds), latency) && EnqueueAll(net, ds).clock == net.clock
    decreases |ds|
  {
    hide Core, Prompt;
    if ds != [] {
      var n := |ds| - 1;
      EnqueueAllPrompt(net, ds[..n], latency);
      EnqueueKeeps(EnqueueAll(net, ds[..n]), ds[n]);
      EnqueuePrompt(EnqueueAll(net, ds[..n]), ds[n], latency);
    }
  }

  /** Constant latency gives every copy the same delay. */
  lemma CopiesDelay(net: Net, src: Addr, dest: Addr, payload: seq<Byte>, now: nat, r: Rolls, latency: nat)
    requires (|payload| <= MAX_DATAGRAM ==> RollsOk(net.params, |payload|, r)) && Steady(net.params, latency)
    requires NoWrap(net.params, now)
    ensures forall d :: d in Copies(net, src, dest, payload, now, r) ==> d.due == now + latency * MS
  {
    hide Refused, CopyPayload, NoWrap, CopyDue;
    var ds := Copies(net, src, dest, payload, now, r);
    if |ds| > 0 { SteadyDelay(net.params, |payload|, now, r.first, latency); }
    if |ds| > 1 { SteadyDelay(net.params, |payload|, now, r.second, latency); }
  }

  lemma SteadyDelay(p: Params, len: nat, now: nat, c: CopyRoll, latency: nat)
    requires NoWrap(p, now) && CopyOk(p, len, c) && c.made && Steady(p, latency)
    ensures CopyDue(now, c) == now + latency * MS
  {
    DueFits(p, len, now, c);
  }

  lemma PromptLater(net: Net, m: Net, latency: nat)
    requires Prompt(net, latency) && net.clock <= m.clock && net.ports == m.ports && net.pending == m.pending
    ensures Prompt(m, latency)
  {
    hide Line;
  }

  lemma SendPrompt(net: Net, src: Addr, dest: Addr, payload: seq<Byte>, now: nat, r: Rolls, latency: nat)
    requires Core(net) && Prompt(net, latency) && now >= net.clock
    requires (|payload| <= MAX_DATAGRAM ==> RollsOk(net.params, |payload|, r)) && Steady(net.params, latency)
    requires NoWrap(net.params, now)
    ensures Prompt(Send(net, src, dest, payload, now, r), latency)
  {
    hide Core, Prompt, Send, EnqueueAll, Steady, RollsOk, Refused, CopyPayload, CopyDue, NoWrap;
    var n, ds := Send(net, src, dest, payload, now, r), Copies(net, src, dest, payload, now, r);
    var m := net.(clock := n.clock);
    SendIsEnqueues(net, src, dest, payload, now, r);
    CoreOfLists(net, m);
    PromptLater(net, m, latency);
    CopiesDelay(net, src, dest, payload, now, r, latency);
    assert |payload| > MAX_DATAGRAM ==> ds == [];
    EnqueueAllPrompt(m, ds, latency);
    PromptLater(EnqueueAll(m, ds), n, latency);
  }

  lemma {:induction false} MatureAllPrompt(net: Net, now: nat, latency: nat)
    requires Core(net) && Prompt(net, latency)
    ensures Prompt(MatureAll(net, now), latency)
    decreases |net.pending|
  {
    hide Core, Prompt, Mature;
    if HasDue(net, now) {
      MatureShape(net);
      MatureKeeps(net);
      MaturePrompt(net, latency);
      MatureAllPrompt(Mature(net), now, latency);
    }
  }

  lemma MaturePrompt(net: Net, latency: nat)
    requires Core(net) && Prompt(net, latency) && net.pending != []
    ensures Prompt(Mature(net), latency)
  {
    hide Core, Line, Mature;
    var n := Mature(net);
    MatureShape(net);
    forall j | 0 <= j < |n.ports| ensures PortInLine(n.ports[j], n.pending) {
      MatureLine(net, j);
    }
  }

  lemma BindPrompt(net: Net, a: Addr, made: bool, latency: nat)
    requires Core(net) && Prompt(net, latency)
    ensures Prompt(Bind(net, a, made), latency)
  {
    hide Core, Bind, Line;
    var n := Bind(net, a, made);
    BindClock(net, a, made);
    forall j | 0 <= j < |n.ports| ensures PortInLine(n.ports[j], n.pending) {
      BindEffect(net, a, made, j);
    }
  }

  lemma ClosePrompt(net: Net, a: Addr, latency: nat)
    requires Core(net) && Prompt(net, latency)
    ensures Prompt(Close(net, a), latency)
  {
    hide Core, Line, NotFor;
    var n := Close(net, a);
    NotForMembers(net.pending, a);
    forall j | 0 <= j < |n.ports| ensures PortInLine(n.ports[j], n.pending) {
      CloseEffect(net, a, j);
    }
  }

  lemma RecvPrompt(net: Net, a: Addr, cap: nat, latency: nat)
    requires Core(net) && Prompt(net, latency)
    ensures Prompt(Recv(net, a, cap), latency)
  {
    hide Core, Line;
    var n := Recv(net, a, cap);
    forall j | 0 <= j < |n.ports| ensures PortInLine(n.ports[j], n.pending) {
      RecvEffect(net, a, cap, j);
    }
  }

  /** A flush leaves what was received: nothing received is among what it throws away. */
  lemma FlushedPort(e: Port, pending: seq<Packet>, id: nat, b: nat)
    requires PortOk(e, pending, id, b) && PortInLine(e, pending)
    ensures PortInLine(Emptied(e, pending), [])
  {
    hide For, PortOk, Without;
    var tail := e.ready + For(pending, e.addr);
    assert Line(e, pending) == e.got + tail;
    FlushPort(e, pending, id, b);
    assert e.flushed + e.ready + For(pending, e.addr) == e.flushed + tail;
    WithoutMore(e.accepted, e.flushed, tail);
    WithoutConcat(e.got, tail, tail);
    WithoutAll(tail, tail);
    ReceivedOnce(e, pending, id, b);
    WithoutNone(e.got, tail);
  }

  lemma ReceivedOnce(e: Port, pending: seq<Packet>, id: nat, b: nat)
    requires PortOk(e, pending, id, b)
    ensures forall p :: p in e.got ==> p !in e.ready + For(pending, e.addr)
  {
    hide For, PortOk;
    forall p | p in e.got ensures p !in e.ready + For(pending, e.addr) {
      EachOnce(e, pending, id, b, p);
      assert multiset(e.got)[p] > 0;
      assert p in e.ready ==> multiset(e.ready)[p] > 0;
      assert p in For(pending, e.addr) ==> multiset(For(pending, e.addr))[p] > 0;
    }
  }

  lemma FlushPrompt(net: Net, latency: nat)
    requires Core(net) && Prompt(net, latency)
    ensures Prompt(Flush(net), latency)
  {
    hide PortOk, Line, Without, For;
    var n := Flush(net);
    forall j | 0 <= j < |n.ports| ensures PortInLine(n.ports[j], n.pending) {
      assert PortInLine(net.ports[j], net.pending);
      FlushedPort(net.ports[j], net.pending, net.nextId, net.nextBinding);
    }
  }

  lemma ApplyPrompt(net: Net, ev: Event, latency: nat)
    requires Core(net) && Prompt(net, latency) && OnTime(net, ev) && Legal(net, ev) && Steady(net.params, latency)
    ensures Prompt(Apply(net, ev), latency)
  {
    hide Core, Prompt, Bind, Close, Send, Recv, Flush, MatureAll, RollsOk, Steady, NoWrap;
    match ev
    case DoBind(a, made) => BindPrompt(net, a, made, latency);
    case DoClose(a) => ClosePrompt(net, a, latency);
    case DoSend(src, dest, payload, now, rolls) => SendPrompt(net, src, dest, payload, now, rolls, latency);
    case DoStep(now) =>
      CoreOfLists(net, net.(clock := now));
      PromptLater(net, net.(clock := now), latency);
      MatureAllPrompt(net.(clock := now), now, latency);
    case DoRecv(a, cap) => RecvPrompt(net, a, cap, latency);
    case DoFlush => FlushPrompt(net, latency);
    case DoParams(p) => PromptLater(net, net.(params := p), latency);
  }

  lemma {:induction false} MatureAllParams(net: Net, now: nat)
    ensures MatureAll(net, now).params == net.params
    decreases |net.pending|
  {
    if HasDue(net, now) { MatureAllParams(Mature(net), now); }
  }

  /** Only set_params changes the parameters, and only to intervals that are not empty. */
  lemma ApplyParams(net: Net, ev: Event)
    ensures Apply(net, ev).params
            == if ev.DoParams? && ev.params.latMin <= ev.params.latMax && ev.params.swapMin <= ev.params.swapMax
               then ev.params else net.params
  {
    hide Enqueue, CopyDue, CopyPayload, Refused, Find, NotFor;
    match ev
    case DoStep(now) => MatureAllParams(net.(clock := now), now);
    case DoSend(src, dest, payload, now, rolls) => SendIsEnqueues(net, src, dest, payload, now, rolls);
    case _ =>
  }

  /** With one latency and no reordering, and a clock that neither goes back nor wraps: what an endpoint
      received, has ready and has on its way is what was enqueued for it, in that order, without
      what was flushed. */
  lemma {:induction false} RunIsFifo(p: Params, es: seq<Event>, latency: nat)
    requires AllOnTime(Start(p), es) && AllLegal(Start(p), es) && Steady(p, latency) && SteadyRun(es, latency)
    ensures var n := Run(Start(p), es);
            && Prompt(n, latency) && Steady(n.params, latency)
            && (forall j :: 0 <= j < |n.ports| ==>
                  n.ports[j].got + n.ports[j].ready <= Without(n.ports[j].accepted, n.ports[j].flushed))
    decreases |es|
  {
    hide Apply, Prompt, Steady, Legal, OnTime;
    if es == [] {
      assert Prompt(Start(p), latency) by { StartPrompt(p, latency); }
    } else {
      var n := |es| - 1;
      RunKeeps(p, es[..n]);
      RunIsFifo(p, es[..n], latency);
      ApplyPrompt(Run(Start(p), es[..n]), es[n], latency);
      ApplyParams(Run(Start(p), es[..n]), es[n]);
    }
    var n := Run(Start(p), es);
    forall j | 0 <= j < |n.ports|
      ensures n.ports[j].got + n.ports[j].ready <= Without(n.ports[j].accepted, n.ports[j].flushed)
    {
      PromptPrefix(n, latency, j);
    }
  }

  lemma StartPrompt(p: Params, latency: nat)
    ensures Prompt(Start(p), latency)
  {
  }

  lemma PromptPrefix(net: Net, latency: nat, j: nat)
    requires Prompt(net, latency) && j < |net.ports|
    ensures net.ports[j].got + net.ports[j].ready <= Without(net.ports[j].accepted, net.ports[j].flushed)
  {
    assert PortInLine(net.ports[j], net.pending);
  }

  /** Nothing that was enqueued is missing from the line if and only if nothing was flushed. */
  lemma NothingSkippedIff(e: Port, pending: seq<Packet>, id: nat, b: nat)
    requires PortOk(e, pending, id, b) && PortInLine(e, pending)
    ensures Line(e, pending) == e.accepted <==> e.flushed == []
  {
    hide Line, OwnLine, Numbered;
    assert |multiset(Line(e, pending))| + |multiset(e.flushed)| == |multiset(e.accepted)|;
    if e.flushed == [] {
      WithoutNone(e.accepted, []);
    }
  }

  /** What an endpoint received and has ready is a prefix of what was enqueued for it if and only
      if none of it was enqueued after a packet that was flushed. */
  lemma PrefixIff(e: Port, pending: seq<Packet>, id: nat, b: nat)
    requires PortOk(e, pending, id, b) && PortInLine(e, pending)
    ensures e.got + e.ready <= e.accepted <==>
            forall f, p :: f in e.flushed && p in e.got + e.ready ==> p.id < f.id
  {
    hide OwnLine, Without, For;
    var a := e.got + e.ready;
    assert Line(e, pending) == a + For(pending, e.addr);
    if a <= e.accepted {
      WithoutMembers(e.accepted, e.flushed);
      FlushedWasAccepted(e, pending, id, b);
      forall k | 0 <= k < |a| ensures e.accepted[k] !in e.flushed {
        assert e.accepted[k] == a[k] && a[k] in Line(e, pending);
      }
      forall f, p | f in e.flushed && p in a ensures p.id < f.id {
        var k :| 0 <= k < |e.accepted| && e.accepted[k] == f;
        var i :| 0 <= i < |a| && a[i] == p;
        assert k >= |a|;
      }
    } else if forall f, p :: f in e.flushed && p in a ==> p.id < f.id {
      LatePrefix(e.accepted, e.flushed, a, For(pending, e.addr), id);
    }
  }

  lemma {:induction false} LatePrefix(ps: seq<Packet>, out: seq<Packet>, a: seq<Packet>, rest: seq<Packet>, id: nat)
    requires Numbered(ps, id) && Without(ps, out) == a + rest
    requires forall f, p :: f in out && p in a ==> p.id < f.id
    ensures a <= ps
    decreases |ps|
  {
    if ps != [] {
      var n := |ps| - 1;
      var front, x := ps[..n], ps[n];
      assert ps == front + [x];
      if x in out {
        LatePrefix(front, out, a, rest, id);
      } else if rest != [] {
        var n, whole := |a| + |rest|, a + rest;
        assert whole == Without(front, out) + [x] && whole[..n - 1] == Without(front, out);
        assert whole[..n - 1] == a + rest[..|rest| - 1];
        LatePrefix(front, out, a, rest[..|rest| - 1], id);
      } else {
        assert a == Without(front, out) + [x];
        assert x in a;
        forall p | p in front ensures p !in out {
          assert p.id < x.id;
        }
        WithoutNone(front, out);
      }
    }
  }

  /** Over every such run: an endpoint misses nothing exactly when nothing of it was flushed, and
      has received a prefix of what was enqueued exactly until something enqueued later than a
      flushed packet becomes ready. */
  lemma RunSkipsIff(p: Params, es: seq<Event>, latency: nat, j: nat)
    requires AllOnTime(Start(p), es) && AllLegal(Start(p), es) && Steady(p, latency) && SteadyRun(es, latency)
    requires j < |Run(Start(p), es).ports|
    ensures var n := Run(Start(p), es);
            var e := n.ports[j];
            && (Line(e, n.pending) == e.accepted <==> e.flushed == [])
            && (e.got + e.ready <= e.accepted <==>
                forall f, q :: f in e.flushed && q in e.got + e.ready ==> q.id < f.id)
  {
    hide Run, AllLegal, AllOnTime, PortOk, PortInLine;
    var n := Run(Start(p), es);
    RunKeeps(p, es);
    RunIsFifo(p, es, latency);
    assert PortInLine(n.ports[j], n.pending);
    NothingSkippedIff(n.ports[j], n.pending, n.nextId, n.nextBinding);
    PrefixIff(n.ports[j], n.pending, n.nextId, n.nextBinding);
  }

  ghost predicate NoneFlushed(net: Net) {
    forall j :: 0 <= j < |net.ports| ==> net.ports[j].flushed == []
  }

  lemma {:induction false} MatureAllNoneFlushed(net: Net, now: nat)
    requires NoneFlushed(net)
    ensures NoneFlushed(MatureAll(net, now))
    decreases |net.pending|
  {
    if HasDue(net, now) { MatureAllNoneFlushed(Mature(net), now); }
  }

  lemma EnqueueNoneFlushed(net: Net, d: Datagram)
    requires NoneFlushed(net)
    ensures NoneFlushed(Enqueue(net, d))
  {
    hide Insert;
  }

  lemma {:induction false} EnqueueAllNoneFlushed(net: Net, ds: seq<Datagram>)
    requires NoneFlushed(net)
    ensures NoneFlushed(EnqueueAll(net, ds))
    decreases |ds|
  {
    hide Enqueue;
    if ds != [] {
      EnqueueAllNoneFlushed(net, ds[..|ds| - 1]);
      EnqueueNoneFlushed(EnqueueAll(net, ds[..|ds| - 1]), ds[|ds| - 1]);
    }
  }

  /** Only a flush adds to what was flushed. */
  lemma ApplyNoneFlushed(net: Net, ev: Event)
    requires NoneFlushed(net) && !ev.DoFlush?
    ensures NoneFlushed(Apply(net, ev))
  {
    hide Send, MatureAll, EnqueueAll, Copies, NotFor;
    match ev
    case DoSend(src, dest, payload, now, rolls) =>
      var m := net.(clock := Send(net, src, dest, payload, now, rolls).clock);
      SendIsEnqueues(net, src, dest, payload, now, rolls);
      EnqueueAllNoneFlushed(m, Copies(net, src, dest, payload, now, rolls));
    case DoStep(now) => MatureAllNoneFlushed(net.(clock := now), now);
    case _ =>
  }

  lemma {:induction false} RunNoneFlushed(p: Params, es: seq<Event>)
    requires forall i :: 0 <= i < |es| ==> !es[i].DoFlush?
    ensures NoneFlushed(Run(Start(p), es))
    decreases |es|
  {
    hide Apply;
    if es != [] {
      RunNoneFlushed(p, es[..|es| - 1]);
      ApplyNoneFlushed(Run(Start(p), es[..|es| - 1]), es[|es| - 1]);
    }
  }

  /** Without a call of flush, nothing enqueued is ever missing, and what an endpoint received is a
      prefix of what was enqueued for it. */
  lemma NoFlushNoSkip(p: Params, es: seq<Event>, latency: nat, j: nat)
    requires AllOnTime(Start(p), es) && AllLegal(Start(p), es) && Steady(p, latency) && SteadyRun(es, latency)
    requires forall i :: 0 <= i < |es| ==> !es[i].DoFlush?
    requires j < |Run(Start(p), es).ports|
    ensures var n := Run(Start(p), es);
            var e := n.ports[j];
            Line(e, n.pending) == e.accepted && e.got + e.ready <= e.accepted
  {
    hide Run, AllLegal, AllOnTime, Line;
    RunNoneFlushed(p, es);
    RunSkipsIff(p, es, latency, j);
  }

  const HERE := Addr(1, 1)
  const PLAIN := Params(0, 0, 0, 0, 0, 0, 0, 0, 0)
  const EMPTY := DoSend(HERE, HERE, [], 0, Rolls(false, AT_ONCE, false, AT_ONCE))
  const AT_ONCE := CopyRoll(0, true, None, None)

  /** Bind, send, flush, send, step, receive. */
  ghost function FlushedRun(): seq<Event> {
    [DoBind(HERE, true)] + [EMPTY] + [DoFlush] + [EMPTY] + [DoStep(0)] + [DoRecv(HERE, 0)]
  }

  /** A packet that a flush throws away is skipped: the first one received is the second one
      that was enqueued. */
  lemma FlushSkips()
    ensures AllOnTime(Start(PLAIN), FlushedRun()) && AllLegal(Start(PLAIN), FlushedRun())
    ensures Steady(PLAIN, 0) && SteadyRun(FlushedRun(), 0)
    ensures var ports := Run(Start(PLAIN), FlushedRun()).ports;
            && |ports| == 1 && |ports[0].accepted| == 2 && |ports[0].got| == 1
            && ports[0].got[0] == ports[0].accepted[1] != ports[0].accepted[0]
            && !(ports[0].got <= ports[0].accepted)
  {
    hide Run, AllLegal, AllOnTime, Apply, Legal, OnTime;
    var n0, es1 := Start(PLAIN), [DoBind(HERE, true)];
    var es2 := es1 + [EMPTY];
    var es3 := es2 + [DoFlush];
    var es4 := es3 + [EMPTY];
    var es5 := es4 + [DoStep(0)];
    NoEvents(n0);
    assert [] + es1 == es1;
    RunLast(n0, [], DoBind(HERE, true));
    var n1 := FirstBound();
    RunLast(n0, es1, EMPTY);
    var n2 := SentEmpty(n1);
    RunLast(n0, es2, DoFlush);
    var n3 := FlushedOne(n2);
    RunLast(n0, es3, EMPTY);
    var n4 := SentEmpty(n3);
    RunLast(n0, es4, DoStep(0));
    RunLast(n0, es5, DoRecv(HERE, 0));
    var n6 := SteppedAndReceived(n4);
    assert FlushedRun() == es5 + [DoRecv(HERE, 0)];
  }

  lemma FirstBound() returns (n: Net)
    ensures n == Apply(Start(PLAIN), DoBind(HERE, true))
    ensures Legal(Start(PLAIN), DoBind(HERE, true)) && OnTime(Start(PLAIN), DoBind(HERE, true))
    ensures n.ports == [Port(HERE, [], 0, 0, [], [], [])] && n.pending == [] && n.params == PLAIN && n.clock == 0
  {
    n := Apply(Start(PLAIN), DoBind(HERE, true));
  }

  lemma FlushedOne(net: Net) returns (n: Net)
    requires |net.ports| == 1 && net.ports[0].addr == HERE && |net.pending| == 1 && net.pending[0].d.dest == HERE
    requires net.ports[0].ready == [] && net.ports[0].flushed == []
    ensures n == Apply(net, DoFlush) && Legal(net, DoFlush) && OnTime(net, DoFlush)
    ensures n.ports == [net.ports[0].(inFlight := 0, flushed := net.pending)]
    ensures n.pending == [] && n.clock == net.clock && n.params == net.params && n.nextId == net.nextId
  {
    n := Apply(net, DoFlush);
    assert net.pending == [net.pending[0]];
    ForOne(net.pending[0], HERE);
  }

  lemma SteppedAndReceived(net: Net) returns (n: Net)
    requires |net.ports| == 1 && net.ports[0].addr == HERE && net.ports[0].ready == []
    requires |net.pending| == 1 && net.pending[0].d.dest == HERE && net.pending[0].d.due == 0
    requires net.pending[0].d.payload == [] && net.clock == 0
    ensures n == Apply(Apply(net, DoStep(0)), DoRecv(HERE, 0))
    ensures Legal(net, DoStep(0)) && OnTime(net, DoStep(0))
    ensures var m := Apply(net, DoStep(0)); Legal(m, DoRecv(HERE, 0)) && OnTime(m, DoRecv(HERE, 0))
    ensures |n.ports| == 1 && n.ports[0].accepted == net.ports[0].accepted
    ensures n.ports[0].got == net.ports[0].got + net.pending
  {
    var m := Mature(net.(clock := 0));
    FindUnique(net.ports, HERE, 0);
    assert net.pending == [net.pending[0]];
    assert MatureAll(m, 0) == m;
    FindUnique(m.ports, HERE, 0);
    n := Apply(m, DoRecv(HERE, 0));
  }

  lemma NoEvents(net: Net)
    ensures Run(net, []) == net && AllLegal(net, []) && AllOnTime(net, [])
  {
  }

  /** One empty datagram is enqueued at once for the only endpoint. */
  lemma SentEmpty(net: Net) returns (n: Net)
    requires |net.ports| == 1 && net.ports[0].addr == HERE && net.pending == [] && net.params == PLAIN
    requires net.clock == 0
    ensures n == Apply(net, EMPTY) && Legal(net, EMPTY) && OnTime(net, EMPTY)
    ensures var e, p := net.ports[0], Packet(Datagram(HERE, HERE, 0, []), net.nextId, net.ports[0].binding);
            && n.pending == [p] && n.ports == [e.(accepted := e.accepted + [p])]
            && n.nextId == net.nextId + 1 && n.clock == 0 && n.params == PLAIN
  {
    n := Apply(net, EMPTY);
    var e, p := net.ports[0], Packet(Datagram(HERE, HERE, 0, []), net.nextId, net.ports[0].binding);
    FindUnique(net.ports, HERE, 0);
    PositionUnique([], 0, 0);
    assert Insert([], p) == [p];
  }

  /* Rebinding */

  /** Endpoints bound from a moment on hold only packets sent from that moment on. */
  ghost predicate PortYoung(e: Port, pending: seq<Packet>, b: nat, id: nat) {
    e.binding >= b ==> forall p :: p in Line(e, pending) ==> p.id >= id
  }

  ghost predicate Young(net: Net, b: nat, id: nat) {
    && b <= net.nextBinding && id <= net.nextId
    && (forall j :: 0 <= j < |net.ports| ==> PortYoung(net.ports[j], net.pending, b, id))
  }

  lemma YoungSame(n: Net, m: Net, b: nat, id: nat)
    requires Young(n, b, id) && SameLists(n, m)
    ensures Young(m, b, id)
  {
    hide PortYoung;
  }

  lemma EnqueueYoung(net: Net, d: Datagram, b: nat, id: nat)
    requires Core(net) && Young(net, b, id)
    ensures Young(Enqueue(net, d), b, id)
  {
    hide Core, Line, Insert, For, Position;
    var n, i := Enqueue(net, d), Find(net.ports, d.dest);
    forall j | 0 <= j < |n.ports| ensures PortYoung(n.ports[j], n.pending, b, id) {
      var e := net.ports[j];
      EnqueueEffect(net, d, j);
      assert PortYoung(e, net.pending, b, id);
      if j == i {
        LineGrows(e, Packet(d, net.nextId, e.binding), net.pending);
      }
    }
  }

  lemma {:induction false} EnqueueAllYoung(net: Net, ds: seq<Datagram>, b: nat, id: nat)
    requires Core(net) && Young(net, b, id)
    ensures Core(EnqueueAll(net, ds)) && Young(EnqueueAll(net, ds), b, id)
    decreases |ds|
  {
    hide Core, Young;
    if ds != [] {
      var n := |ds| - 1;
      EnqueueAllYoung(net, ds[..n], b, id);
      EnqueueKeeps(EnqueueAll(net, ds[..n]), ds[n]);
      EnqueueYoung(EnqueueAll(net, ds[..n]), ds[n], b, id);
    }
  }

  lemma {:induction false} MatureAllYoung(net: Net, now: nat, b: nat, id: nat)
    requires Core(net) && Young(net, b, id)
    ensures Young(MatureAll(net, now), b, id)
    decreases |net.pending|
  {
    hide Core, Young, Mature;
    if HasDue(net, now) {
      MatureShape(net);
      MatureKeeps(net);
      MatureYoung(net, b, id);
      MatureAllYoung(Mature(net), now, b, id);
    }
  }

  lemma MatureYoung(net: Net, b: nat, id: nat)
    requires Core(net) && Young(net, b, id) && net.pending != []
    ensures Young(Mature(net), b, id)
  {
    hide Core, Line, Mature;
    var n := Mature(net);
    MatureShape(net);
    forall j | 0 <= j < |n.ports| ensures PortYoung(n.ports[j], n.pending, b, id) {
      MatureLine(net, j);
      assert PortYoung(net.ports[j], net.pending, b, id);
    }
  }

  lemma BindYoung(net: Net, a: Addr, made: bool, b: nat, id: nat)
    requires Core(net) && Young(net, b, id)
    ensures Young(Bind(net, a, made), b, id)
  {
    hide Core, Bind, Line;
    var n := Bind(net, a, made);
    BindClock(net, a, made);
    forall j | 0 <= j < |n.ports| ensures PortYoung(n.ports[j], n.pending, b, id) {
      BindEffect(net, a, made, j);
      assert n != net && j > 0 ==> PortYoung(net.ports[j - 1], net.pending, b, id);
      assert n == net ==> PortYoung(net.ports[j], net.pending, b, id);
    }
  }

  lemma CloseYoung(net: Net, a: Addr, b: nat, id: nat)
    requires Core(net) && Young(net, b, id)
    ensures Young(Close(net, a), b, id)
  {
    hide Core, Line, NotFor;
    var n := Close(net, a);
    forall j | 0 <= j < |n.ports| ensures PortYoung(n.ports[j], n.pending, b, id) {
      CloseEffect(net, a, j);
      var i :| 0 <= i < |net.ports| && Kept(net.ports[i], net.pending, n.ports[j], n.pending);
      assert PortYoung(net.ports[i], net.pending, b, id);
    }
  }

  lemma RecvYoung(net: Net, a: Addr, cap: nat, b: nat, id: nat)
    requires Core(net) && Young(net, b, id)
    ensures Young(Recv(net, a, cap), b, id)
  {
    hide Core, Line;
    var n := Recv(net, a, cap);
    forall j | 0 <= j < |n.ports| ensures PortYoung(n.ports[j], n.pending, b, id) {
      RecvEffect(net, a, cap, j);
      assert PortYoung(net.ports[j], net.pending, b, id);
    }
  }

  lemma FlushYoung(net: Net, b: nat, id: nat)
    requires Core(net) && Young(net, b, id)
    ensures Young(Flush(net), b, id)
  {
    hide PortOk;
    var n := Flush(net);
    forall j | 0 <= j < |n.ports| ensures PortYoung(n.ports[j], n.pending, b, id) {
      FlushPort(net.ports[j], net.pending, net.nextId, net.nextBinding);
      assert PortYoung(net.ports[j], net.pending, b, id);
      assert forall p :: p in net.ports[j].got ==> p in Line(net.ports[j], net.pending);
    }
  }

  lemma ApplyYoung(net: Net, ev: Event, b: nat, id: nat)
    requires Core(net) && Young(net, b, id)
    ensures Young(Apply(net, ev), b, id)
  {
    hide Core, Young, Bind, Close, Send, Recv, Flush, MatureAll, EnqueueAll, Copies;
    match ev
    case DoBind(a, made) => BindYoung(net, a, made, b, id);
    case DoClose(a) => CloseYoung(net, a, b, id);
    case DoSend(src, dest, payload, now, rolls) =>
      var n, ds := Apply(net, ev), Copies(net, src, dest, payload, now, rolls);
      var m := net.(clock := n.clock);
      SendIsEnqueues(net, src, dest, payload, now, rolls);
      CoreOfLists(net, m);
      YoungSame(net, m, b, id);
      EnqueueAllYoung(m, ds, b, id);
      YoungSame(EnqueueAll(m, ds), n, b, id);
    case DoStep(now) =>
      CoreOfLists(net, net.(clock := now));
      YoungSame(net, net.(clock := now), b, id);
      MatureAllYoung(net.(clock := now), now, b, id);
    case DoRecv(a, cap) => RecvYoung(net, a, cap, b, id);
    case DoFlush => FlushYoung(net, b, id);
    case DoParams(p) => YoungSame(net, net.(params := p), b, id);
  }

  /** After any run `es`, whatever is bound later never holds or receives a packet that was
      enqueued during `es`, even at an address that was bound then. */
  lemma {:induction false} ReboundStartsFresh(p: Params, es: seq<Event>, later: seq<Event>)
    ensures Core(Run(Run(Start(p), es), later))
    ensures Young(Run(Run(Start(p), es), later), Run(Start(p), es).nextBinding, Run(Start(p), es).nextId)
    decreases |later|
  {
    hide Apply, Core;
    var net := Run(Start(p), es);
    RunKeeps(p, es);
    if later == [] {
      NobodyYounger(net);
    } else {
      var n := |later| - 1;
      ReboundStartsFresh(p, es, later[..n]);
      ApplyYoung(Run(net, later[..n]), later[n], net.nextBinding, net.nextId);
      ApplyKeeps(Run(net, later[..n]), later[n]);
    }
  }

  /** Every binding so far is below the next one. */
  lemma NobodyYounger(net: Net)
    requires Core(net)
    ensures Young(net, net.nextBinding, net.nextId)
  {
    forall j | 0 <= j < |net.ports| ensures PortYoung(net.ports[j], net.pending, net.nextBinding, net.nextId) {
      assert PortOk(net.ports[j], net.pending, net.nextId, net.nextBinding);
    }
  }
}
