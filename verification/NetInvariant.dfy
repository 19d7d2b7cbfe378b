/**
 What every operation of the network simulator keeps, whatever the clock does: addresses are
 unique, everything pending is for a bound endpoint, every endpoint's byte count is exact,
 and no packet is lost, repeated or delivered across a rebind.
 */
module NetInvariant {
  import opened Bits
  import opened NetModel
  import opened NetLists

  ghost predicate Unique(ports: seq<Port>) {
    forall i, j :: 0 <= i < j < |ports| ==> ports[i].addr != ports[j].addr
  }

  /** The destination is bound, by the binding the packet was sent to. */
  ghost predicate AtHome(ports: seq<Port>, p: Packet) {
    exists i :: 0 <= i < |ports| && ports[i].addr == p.d.dest && ports[i].binding == p.binding
  }

  ghost predicate PendingOk(ports: seq<Port>, pending: seq<Packet>, nextId: nat) {
    && Sorted(pending)
    && (forall k :: 0 <= k < |pending| ==> pending[k].id < nextId && AtHome(ports, pending[k]))
  }

  ghost predicate OwnLine(e: Port, line: seq<Packet>, nextId: nat) {
    forall k :: 0 <= k < |line| ==>
      line[k].d.dest == e.addr && line[k].binding == e.binding && line[k].id < nextId
  }

  /** Packets in the order of their numbers, so that no packet occurs twice. */
  ghost predicate Numbered(ps: seq<Packet>, nextId: nat) {
    && (forall i, j :: 0 <= i < j < |ps| ==> ps[i].id < ps[j].id)
    && (forall i :: 0 <= i < |ps| ==> ps[i].id < nextId)
  }

  ghost predicate PortOk(e: Port, pending: seq<Packet>, nextId: nat, nextBinding: nat) {
    && e.binding < nextBinding
    && OwnLine(e, Line(e, pending), nextId)
    && e.inFlight == Bytes(e.ready) + Bytes(For(pending, e.addr))
    && multiset(Line(e, pending)) + multiset(e.flushed) == multiset(e.accepted)
    && Numbered(e.accepted, nextId)
  }

  ghost predicate PortsOk(net: Net) {
    forall i :: 0 <= i < |net.ports| ==> PortOk(net.ports[i], net.pending, net.nextId, net.nextBinding)
  }

  ghost predicate Core(net: Net) {
    Unique(net.ports) && PendingOk(net.ports, net.pending, net.nextId) && PortsOk(net)
  }

  lemma FindIndex(ports: seq<Port>, i: nat)
    requires Unique(ports) && i < |ports|
    ensures Find(ports, ports[i].addr) == i
  {
    FindUnique(ports, ports[i].addr, i);
  }

  /** Only bound addresses have packets pending. */
  lemma PendingBound(net: Net, k: nat)
    requires Core(net) && k < |net.pending|
    ensures Find(net.ports, net.pending[k].d.dest) < |net.ports|
    ensures net.ports[Find(net.ports, net.pending[k].d.dest)].binding == net.pending[k].binding
  {
    assert AtHome(net.ports, net.pending[k]);
    var i :| 0 <= i < |net.ports| && net.ports[i].addr == net.pending[k].d.dest
             && net.ports[i].binding == net.pending[k].binding;
    FindIndex(net.ports, i);
  }

  lemma UnboundEmpty(net: Net, a: Addr)
    requires Core(net) && Find(net.ports, a) == |net.ports|
    ensures For(net.pending, a) == []
  {
    forall k | 0 <= k < |net.pending| ensures net.pending[k].d.dest != a {
      PendingBound(net, k);
    }
    ForNone(net.pending, a);
  }

  /* One endpoint */

  /** What is pending for other addresses does not matter to an endpoint. */
  lemma PortElsewhere(e: Port, ps: seq<Packet>, qs: seq<Packet>, id: nat, id': nat, b: nat, b': nat)
    requires PortOk(e, ps, id, b) && For(ps, e.addr) == For(qs, e.addr) && id <= id' && b <= b'
    ensures PortOk(e, qs, id', b')
  {
    assert Line(e, ps) == Line(e, qs);
  }

  lemma OwnLineMember(e: Port, line: seq<Packet>, id: nat, p: Packet)
    requires OwnLine(e, line, id) && p in line
    ensures p.d.dest == e.addr && p.binding == e.binding && p.id < id
  {
  }

  lemma OwnLineSame(e: Port, e': Port, line: seq<Packet>, line': seq<Packet>, id: nat)
    requires OwnLine(e, line, id) && e.addr == e'.addr && e.binding == e'.binding
    requires forall p :: p in line' ==> p in line
    ensures OwnLine(e', line', id)
  {
    forall k | 0 <= k < |line'|
      ensures line'[k].d.dest == e'.addr && line'[k].binding == e'.binding && line'[k].id < id
    {
      OwnLineMember(e, line, id, line'[k]);
    }
  }

  ghost function Grown(e: Port, p: Packet): Port {
    e.(inFlight := e.inFlight + |p.d.payload|, accepted := e.accepted + [p])
  }

  /** The line of an endpoint after a packet is enqueued for it. */
  lemma LineGrows(e: Port, p: Packet, pending: seq<Packet>)
    requires p.d.dest == e.addr
    ensures var k := Position(pending, p.d.due);
            var early, late := For(pending[..k], e.addr), For(pending[k..], e.addr);
            && For(pending, e.addr) == early + late
            && Line(e, pending) == (e.got + e.ready + early) + late
            && Line(Grown(e, p), Insert(pending, p)) == (e.got + e.ready + early) + [p] + late
  {
    hide For, Insert, Position;
    ForInsert(pending, p, e.addr);
    var k := Position(pending, p.d.due);
    var early, late := For(pending[..k], e.addr), For(pending[k..], e.addr);
    assert e.got + e.ready + (early + late) == (e.got + e.ready + early) + late;
    assert e.got + e.ready + (early + [p] + late) == (e.got + e.ready + early) + [p] + late;
  }

  lemma NumberedGrows(ps: seq<Packet>, p: Packet)
    requires Numbered(ps, p.id)
    ensures Numbered(ps + [p], p.id + 1)
  {
  }

  lemma BytesGrow(early: seq<Packet>, p: Packet, late: seq<Packet>)
    ensures Bytes(early + [p] + late) == Bytes(early + late) + |p.d.payload|
  {
    hide Bytes;
    BytesAppend(early, late);
    BytesAppend(early + [p], late);
    BytesAppend(early, [p]);
    BytesOne(p);
  }

  lemma PortGrows(e: Port, p: Packet, pending: seq<Packet>, b: nat)
    requires PortOk(e, pending, p.id, b) && p.d.dest == e.addr && p.binding == e.binding
    ensures PortOk(Grown(e, p), Insert(pending, p), p.id + 1, b)
  {
    hide Line, Position, Insert, For, OwnLine, Bytes, Numbered;
    var e', pending' := Grown(e, p), Insert(pending, p);
    NumberedGrows(e.accepted, p);
    LineGrows(e, p, pending);
    var k := Position(pending, p.d.due);
    var early, late := For(pending[..k], e.addr), For(pending[k..], e.addr);
    assert OwnLine(e', Line(e', pending'), p.id + 1) by {
      assert OwnLine(e, (e.got + e.ready + early) + late, p.id);
      OwnLineInsert(e, e.got + e.ready + early, late, p);
    }
    assert For(pending', e.addr) == early + [p] + late by { ForInsert(pending, p, e.addr); }
    BytesGrow(early, p, late);
    MultisetInsert(e.got + e.ready + early, late, p);
  }

  lemma OwnLineInsert(e: Port, ps: seq<Packet>, qs: seq<Packet>, p: Packet)
    requires OwnLine(e, ps + qs, p.id) && p.d.dest == e.addr && p.binding == e.binding
    ensures OwnLine(Grown(e, p), ps + [p] + qs, p.id + 1)
  {
    var s := ps + [p] + qs;
    forall k | 0 <= k < |s| ensures s[k].d.dest == e.addr && s[k].binding == e.binding && s[k].id < p.id + 1 {
      if k != |ps| {
        assert s[k] == (ps + qs)[if k < |ps| then k else k - 1];
      }
    }
  }

  lemma MultisetInsert<T>(ps: seq<T>, qs: seq<T>, p: T)
    ensures multiset(ps + [p] + qs) == multiset(ps + qs) + multiset{p}
  {
  }

  lemma {:induction false} NumberedDistinct(ps: seq<Packet>, id: nat, p: Packet)
    requires Numbered(ps, id)
    ensures multiset(ps)[p] <= 1
    decreases |ps|
  {
    if ps != [] {
      var n := |ps| - 1;
      var front := ps[..n];
      assert ps == front + [ps[n]];
      NumberedDistinct(front, id, p);
      if p == ps[n] {
        assert p !in front;
      }
    }
  }

  /** Of everything enqueued for an endpoint, each packet is in exactly one place, and there once. */
  lemma EachOnce(e: Port, pending: seq<Packet>, id: nat, b: nat, p: Packet)
    requires PortOk(e, pending, id, b)
    ensures multiset(e.got)[p] + multiset(e.ready)[p] + multiset(For(pending, e.addr))[p] + multiset(e.flushed)[p]
            == if p in e.accepted then 1 else 0
  {
    NumberedDistinct(e.accepted, id, p);
    assert multiset(Line(e, pending)) == multiset(e.got) + multiset(e.ready) + multiset(For(pending, e.addr));
    assert p in e.accepted <==> multiset(e.accepted)[p] > 0;
  }

  /* Operations */

  lemma EnqueueKeeps(net: Net, d: Datagram)
    requires Core(net)
    ensures Core(Enqueue(net, d))
  {
    hide Line, Position, Insert, For, PortOk, PendingOk, Find;
    var i := Find(net.ports, d.dest);
    if i < |net.ports| {
      var e, p, n := net.ports[i], Packet(d, net.nextId, net.ports[i].binding), Enqueue(net, d);
      EnqueuePending(net, d);
      PortGrows(e, p, net.pending, net.nextBinding);
      forall j | 0 <= j < |n.ports| ensures PortOk(n.ports[j], n.pending, n.nextId, n.nextBinding) {
        if j != i {
          assert n.ports[j].addr != d.dest;
          ForInsert(net.pending, p, n.ports[j].addr);
          PortElsewhere(n.ports[j], net.pending, n.pending, net.nextId, n.nextId, n.nextBinding, n.nextBinding);
        }
      }
    }
  }

  /** Endpoints keep their addresses and bindings. */
  ghost predicate SameHomes(es: seq<Port>, es': seq<Port>) {
    && |es| == |es'|
    && (forall j :: 0 <= j < |es| ==> es[j].addr == es'[j].addr && es[j].binding == es'[j].binding)
  }

  lemma HomesKept(es: seq<Port>, es': seq<Port>, p: Packet)
    requires SameHomes(es, es') && AtHome(es, p)
    ensures AtHome(es', p)
  {
    var i :| 0 <= i < |es| && es[i].addr == p.d.dest && es[i].binding == p.binding;
    assert es'[i].addr == p.d.dest && es'[i].binding == p.binding;
  }

  lemma EnqueuePending(net: Net, d: Datagram)
    requires Core(net) && Find(net.ports, d.dest) < |net.ports|
    ensures var n := Enqueue(net, d); SameHomes(net.ports, n.ports) && PendingOk(n.ports, n.pending, n.nextId)
  {
    hide Sorted, PortsOk, AtHome, For;
    var i, n := Find(net.ports, d.dest), Enqueue(net, d);
    var p := Packet(d, net.nextId, net.ports[i].binding);
    InsertSorted(net.pending, p);
    forall k | 0 <= k < |n.pending| ensures n.pending[k].id < n.nextId && AtHome(n.ports, n.pending[k]) {
      var j := Position(net.pending, d.due);
      if k == j {
        assert n.pending[k] == p;
        PortIsHome(n.ports, i, p);
      } else {
        assert n.pending[k] == net.pending[if k < j then k else k - 1];
        HomesKept(net.ports, n.ports, n.pending[k]);
      }
    }
  }

  lemma PortIsHome(ports: seq<Port>, i: nat, p: Packet)
    requires i < |ports| && ports[i].addr == p.d.dest && ports[i].binding == p.binding
    ensures AtHome(ports, p)
  {
  }

  lemma EnqueueCopyKeeps(net: Net, src: Addr, dest: Addr, payload: seq<Byte>, now: nat, c: CopyRoll)
    requires Core(net)
    ensures Core(EnqueueCopy(net, src, dest, payload, now, c))
  {
    hide Enqueue, Core;
    var d := Datagram(src, dest, CopyDue(now, c), CopyPayload(payload, c));
    EnqueueKeeps(net, d);
    CoreOfLists(Enqueue(net, d), EnqueueCopy(net, src, dest, payload, now, c));
  }

  /** The same packets in the same places; counters, clock and parameters may differ. */
  ghost predicate SameLists(n: Net, m: Net) {
    n.ports == m.ports && n.pending == m.pending && n.nextId == m.nextId && n.nextBinding == m.nextBinding
  }

  lemma CoreOfLists(n: Net, m: Net)
    requires Core(n) && SameLists(n, m)
    ensures Core(m)
  {
    hide PendingOk, PortOk, Unique;
  }

  lemma SendKeeps(net: Net, src: Addr, dest: Addr, payload: seq<Byte>, now: nat, r: Rolls)
    requires Core(net)
    ensures Core(Send(net, src, dest, payload, now, r))
  {
    hide Core, SendCopies, Refused, Find;
    var n := net.(totals := net.totals.(enqueued := net.totals.enqueued + 1), clock := now);
    CoreOfLists(net, n);
    if Send(net, src, dest, payload, now, r) == SendCopies(n, src, dest, payload, now, r) {
      SendCopiesKeeps(n, src, dest, payload, now, r);
    } else {
      CoreOfLists(net, Send(net, src, dest, payload, now, r));
    }
  }

  lemma SendCopiesKeeps(net: Net, src: Addr, dest: Addr, payload: seq<Byte>, now: nat, r: Rolls)
    requires Core(net)
    ensures Core(SendCopies(net, src, dest, payload, now, r))
  {
    hide Core, EnqueueCopy;
    var one := EnqueueCopy(net, src, dest, payload, now, r.first);
    EnqueueCopyKeeps(net, src, dest, payload, now, r.first);
    if r.dup && r.second.made {
      EnqueueCopyKeeps(one, src, dest, payload, now, r.second);
      CoreOfLists(EnqueueCopy(one, src, dest, payload, now, r.second), SendCopies(net, src, dest, payload, now, r));
    }
  }

  /** The packet moves from what is on its way to what is ready; the line stays the same. */
  lemma MatureLine(net: Net, j: nat)
    requires Core(net) && net.pending != [] && j < |net.ports|
    ensures var n, p := Mature(net), net.pending[0];
            && |n.ports| == |net.ports|
            && n.ports[j] == (if net.ports[j].addr == p.d.dest
                              then net.ports[j].(ready := net.ports[j].ready + [p]) else net.ports[j])
            && Line(n.ports[j], n.pending) == Line(net.ports[j], net.pending)
            && For(net.pending, net.ports[j].addr)
               == (if net.ports[j].addr == p.d.dest then [p] else []) + For(n.pending, net.ports[j].addr)
  {
    hide PortOk, PendingOk, Find, For, Unique;
    var p, e := net.pending[0], net.ports[j];
    PendingBound(net, 0);
    var i := Find(net.ports, p.d.dest);
    assert i == j <==> e.addr == p.d.dest by { FindIndex(net.ports, j); }
    ForHead(net.pending, e.addr);
    var rest := For(net.pending[1..], e.addr);
    if i == j {
      assert e.got + e.ready + ([p] + rest) == e.got + (e.ready + [p]) + rest;
    } else {
      assert [] + rest == rest;
    }
  }

  lemma MatureKeeps(net: Net)
    requires Core(net) && net.pending != []
    ensures Core(Mature(net)) && SameHomes(net.ports, Mature(net).ports)
  {
    hide Line, For, Sorted, Mature, PortsOk, Find, Bytes;
    var n, p := Mature(net), net.pending[0];
    MatureShape(net);
    forall j | 0 <= j < |n.ports| ensures PortOk(n.ports[j], n.pending, n.nextId, n.nextBinding) {
      MaturePort(net, j);
    }
    assert PortsOk(n) by { PortsOkFrom(n); }
    assert Sorted(n.pending) by { TailSorted(net.pending); }
    forall k | 0 <= k < |n.pending| ensures n.pending[k].id < n.nextId && AtHome(n.ports, n.pending[k]) {
      assert n.pending[k] == net.pending[k + 1];
      HomesKept(net.ports, n.ports, n.pending[k]);
    }
  }

  lemma PortsOkFrom(n: Net)
    requires forall j :: 0 <= j < |n.ports| ==> PortOk(n.ports[j], n.pending, n.nextId, n.nextBinding)
    ensures PortsOk(n)
  {
  }

  lemma TailSorted(ps: seq<Packet>)
    requires Sorted(ps) && ps != []
    ensures Sorted(ps[1..])
  {
  }

  lemma MatureShape(net: Net)
    requires Core(net) && net.pending != []
    ensures var n := Mature(net);
            && SameHomes(net.ports, n.ports) && n.pending == net.pending[1..]
            && n.nextId == net.nextId && n.nextBinding == net.nextBinding && n.totals == net.totals
            && n.clock == net.clock && n.params == net.params
  {
    hide Core, Find;
    PendingBound(net, 0);
  }

  lemma MaturePort(net: Net, j: nat)
    requires Core(net) && net.pending != [] && j < |net.ports| && j < |Mature(net).ports|
    ensures PortOk(Mature(net).ports[j], Mature(net).pending, net.nextId, net.nextBinding)
  {
    hide Line, For, Mature, Sorted, PendingOk, Bytes, Find;
    var n, p, e := Mature(net), net.pending[0], net.ports[j];
    MatureLine(net, j);
    var rest := For(n.pending, e.addr);
    assert PortOk(e, net.pending, net.nextId, net.nextBinding);
    OwnLineSame(e, n.ports[j], Line(e, net.pending), Line(e, net.pending), net.nextId);
    if e.addr == p.d.dest {
      BytesAppend(e.ready, [p]);
      BytesAppend([p], rest);
    } else {
      assert [] + rest == rest;
    }
  }

  lemma {:induction false} MatureAllKeeps(net: Net, now: nat)
    requires Core(net)
    ensures Core(MatureAll(net, now))
    decreases |net.pending|
  {
    hide Core, Mature;
    if HasDue(net, now) {
      assert |Mature(net).pending| < |net.pending| by { MatureShape(net); }
      MatureKeeps(net);
      MatureAllKeeps(Mature(net), now);
    }
  }

  /** Receiving moves a packet within the line; the byte count never has to be clamped. */
  lemma RecvPort(net: Net, a: Addr, cap: nat)
    requires Core(net) && RecvReply(net, a, cap) == Ok
    ensures var i := Find(net.ports, a);
            var e, e' := net.ports[i], Recv(net, a, cap).ports[i];
            && e.inFlight >= |e.ready[0].d.payload|
            && Line(e', net.pending) == Line(e, net.pending)
            && PortOk(e', net.pending, net.nextId, net.nextBinding)
  {
    hide For, Find, Sorted, PendingOk, Bytes;
    var i, n := Find(net.ports, a), Recv(net, a, cap);
    var e := net.ports[i];
    var p, rest, way := e.ready[0], e.ready[1..], For(net.pending, e.addr);
    assert PortOk(e, net.pending, net.nextId, net.nextBinding);
    assert e.ready == [p] + rest;
    BytesAppend([p], rest);
    BytesOne(p);
    assert (e.got + [p]) + rest + way == e.got + e.ready + way;
    OwnLineSame(e, n.ports[i], Line(e, net.pending), Line(e, net.pending), net.nextId);
  }

  lemma RecvKeeps(net: Net, a: Addr, cap: nat)
    requires Core(net)
    ensures Core(Recv(net, a, cap))
  {
    hide Line, For, Sorted, Bytes, PortOk;
    if RecvReply(net, a, cap) == Ok {
      var i, n := Find(net.ports, a), Recv(net, a, cap);
      RecvPort(net, a, cap);
      assert SameHomes(net.ports, n.ports);
      forall k | 0 <= k < |n.pending| ensures n.pending[k].id < n.nextId && AtHome(n.ports, n.pending[k]) {
        HomesKept(net.ports, n.ports, n.pending[k]);
      }
    }
  }

  lemma BindKeeps(net: Net, a: Addr, made: bool)
    requires Core(net)
    ensures Core(Bind(net, a, made))
  {
    hide For, Sorted, Line, PortOk;
    var n := Bind(net, a, made);
    if n != net {
      UnboundEmpty(net, a);
      assert PortOk(n.ports[0], n.pending, n.nextId, n.nextBinding) by {
        BornOk(n.ports[0], n.pending, n.nextId, n.nextBinding);
      }
      forall j | 0 <= j < |n.ports| ensures PortOk(n.ports[j], n.pending, n.nextId, n.nextBinding) {
        if j > 0 {
          assert n.ports[j] == net.ports[j - 1];
          PortElsewhere(n.ports[j], net.pending, n.pending, net.nextId, n.nextId, net.nextBinding, n.nextBinding);
        }
      }
      forall k | 0 <= k < |n.pending| ensures n.pending[k].id < n.nextId && AtHome(n.ports, n.pending[k]) {
        BindHomes(net, a, k);
      }
    }
  }

  lemma BornOk(e: Port, pending: seq<Packet>, id: nat, b: nat)
    requires e.binding < b && e.got == [] && e.ready == [] && e.accepted == [] && e.flushed == [] && e.inFlight == 0
    requires For(pending, e.addr) == []
    ensures PortOk(e, pending, id, b)
  {
    hide For;
    EmptyLine(e, pending);
  }

  lemma EmptyLine(e: Port, pending: seq<Packet>)
    requires e.got == [] && e.ready == [] && For(pending, e.addr) == []
    ensures Line(e, pending) == []
  {
  }

  lemma BindHomes(net: Net, a: Addr, k: nat)
    requires Core(net) && k < |net.pending| && Bind(net, a, true) != net
    ensures AtHome(Bind(net, a, true).ports, net.pending[k])
  {
    PendingBound(net, k);
    var i := Find(net.ports, net.pending[k].d.dest);
    PortIsHome(Bind(net, a, true).ports, i + 1, net.pending[k]);
  }

  /** The endpoints that stay open see nothing of a close. */
  lemma ClosePort(net: Net, a: Addr, j: nat)
    requires Core(net) && Find(net.ports, a) < |net.ports| && j < |Close(net, a).ports|
    ensures var n, i := Close(net, a), Find(net.ports, a);
            var e := n.ports[j];
            && e == net.ports[if j < i then j else j + 1]
            && e.addr != a
            && For(n.pending, e.addr) == For(net.pending, e.addr)
  {
    hide PortOk, PendingOk, For, NotFor;
    NotForSplits(net.pending, a, Close(net, a).ports[j].addr);
  }

  lemma CloseKeeps(net: Net, a: Addr)
    requires Core(net)
    ensures Core(Close(net, a))
  {
    hide For, NotFor, Sorted, Line, PortOk;
    var i, n := Find(net.ports, a), Close(net, a);
    if i < |net.ports| {
      forall j | 0 <= j < |n.ports| ensures PortOk(n.ports[j], n.pending, n.nextId, n.nextBinding) {
        ClosePort(net, a, j);
        PortElsewhere(n.ports[j], net.pending, n.pending, net.nextId, n.nextId, net.nextBinding, n.nextBinding);
      }
      NotForMembers(net.pending, a);
      NotForSorted(net.pending, a);
      forall k | 0 <= k < |n.pending| ensures n.pending[k].id < n.nextId && AtHome(n.ports, n.pending[k]) {
        var m :| 0 <= m < |net.pending| && net.pending[m] == n.pending[k];
        CloseHomes(net, a, m);
      }
    }
  }

  lemma CloseHomes(net: Net, a: Addr, k: nat)
    requires Core(net) && k < |net.pending| && net.pending[k].d.dest != a && Find(net.ports, a) < |net.ports|
    ensures AtHome(Close(net, a).ports, net.pending[k])
  {
    hide NotFor, PendingOk, PortsOk, AtHome, Unique;
    PendingBound(net, k);
    var i, h := Find(net.ports, a), Find(net.ports, net.pending[k].d.dest);
    PortIsHome(Close(net, a).ports, if h < i then h else h - 1, net.pending[k]);
  }

  lemma FlushKeeps(net: Net)
    requires Core(net)
    ensures Core(Flush(net))
  {
    hide Sorted, PortOk;
    var n := Flush(net);
    assert Sorted(n.pending) by { EmptySorted(); }
    forall j | 0 <= j < |n.ports| ensures PortOk(n.ports[j], n.pending, n.nextId, n.nextBinding) {
      FlushPort(net.ports[j], net.pending, net.nextId, net.nextBinding);
    }
  }

  /** A flushed endpoint has nothing but what it received. */
  lemma FlushPort(e: Port, pending: seq<Packet>, id: nat, b: nat)
    requires PortOk(e, pending, id, b)
    ensures Line(Emptied(e, pending), []) == e.got && PortOk(Emptied(e, pending), [], id, b)
  {
    hide For, OwnLine, Numbered;
    var e' := Emptied(e, pending);
    ForNone([], e.addr);
    assert Line(e', []) == e'.got;
    assert forall p :: p in e.got ==> p in Line(e, pending);
    OwnLineSame(e, e', Line(e, pending), e'.got, id);
  }

  lemma EmptySorted()
    ensures Sorted([])
  {
  }

  lemma ApplyKeeps(net: Net, ev: Event)
    requires Core(net)
    ensures Core(Apply(net, ev))
  {
    hide Core, Bind, Close, Send, Recv, Flush, MatureAll;
    match ev
    case DoBind(a, made) => BindKeeps(net, a, made);
    case DoClose(a) => CloseKeeps(net, a);
    case DoSend(src, dest, payload, now, rolls) => SendKeeps(net, src, dest, payload, now, rolls);
    case DoStep(now) => CoreOfLists(net, net.(clock := now)); MatureAllKeeps(net.(clock := now), now);
    case DoRecv(a, cap) => RecvKeeps(net, a, cap);
    case DoFlush => FlushKeeps(net);
    case DoParams(p) => CoreOfLists(net, net.(params := p));
  }

  /** Every reachable state is in order. */
  lemma {:induction false} RunKeeps(p: Params, es: seq<Event>)
    ensures Core(Run(Start(p), es))
    decreases |es|
  {
    hide Apply;
    if es != [] {
      var n := |es| - 1;
      RunKeeps(p, es[..n]);
      ApplyKeeps(Run(Start(p), es[..n]), es[n]);
    }
  }
}
