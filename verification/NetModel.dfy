/**
 The network simulator of cbase_netsim.c as a state machine. Besides what the program stores,
 the state carries history: numbers for packets and bindings, what each endpoint accepted and
 received, and counters that do not wrap.
 */
module NetModel {
  import opened Options
  import opened Bits
  import opened Tally

  const MAX_DATAGRAM: nat := 65535
  const MS: nat := 1_000_000
  const FX_ONE: int := 65536

  datatype Addr = Addr(ip: nat, port: nat)

  datatype Datagram = Datagram(src: Addr, dest: Addr, due: nat, payload: seq<Byte>)

  /** A copy on its way: its number in enqueue order and the binding of its destination. */
  datatype Packet = Packet(d: Datagram, id: nat, binding: nat)

  /** A bound endpoint. History: its binding, what it received, what was enqueued for it, and
      what of that a flush threw away. */
  datatype Port = Port(
    addr: Addr,
    ready: seq<Packet>,
    inFlight: nat,
    binding: nat,
    got: seq<Packet>,
    accepted: seq<Packet>,
    flushed: seq<Packet>)

  datatype Params = Params(
    drop: int, dup: int, corrupt: int,
    latMin: nat, latMax: nat,
    reorder: int, swapMin: nat, swapMax: nat,
    cap: nat)

  /** The seven counters, and three that the program does not keep. */
  datatype Totals = Totals(
    enqueued: nat, delivered: nat, dropped: nat, duplicated: nat, corrupted: nat, reordered: nat, queueFull: nat,
    flushed: nat, closedReady: nat, failed: nat)

  datatype Net = Net(
    params: Params,
    ports: seq<Port>,
    pending: seq<Packet>,
    totals: Totals,
    nextId: nat,
    nextBinding: nat,
    clock: nat)

  /* Random outcomes of one send */

  /** What is rolled for one copy; `made` says whether its allocations succeed. */
  datatype CopyRoll = CopyRoll(latency: int, made: bool, flip: Option<nat>, swap: Option<int>)

  datatype Rolls = Rolls(drop: bool, first: CopyRoll, dup: bool, second: CopyRoll)

  ghost predicate ChanceOk(p: int, hit: bool) {
    (p <= 0 ==> !hit) && (p >= FX_ONE ==> hit)
  }

  /** The cast of an unsigned 32-bit value to the signed type. */
  function Signed32(x: nat): int {
    if x % U32 < 0x8000_0000 then x % U32 else x % U32 - U32
  }

  /** A draw from the inclusive range between two casts, or its lower end when that is empty. */
  ghost predicate RangeOk(lo: nat, hi: nat, v: int) {
    if Signed32(hi) < Signed32(lo) then v == Signed32(lo) else Signed32(lo) <= v <= Signed32(hi)
  }

  ghost predicate CopyOk(p: Params, len: nat, c: CopyRoll) {
    && RangeOk(p.latMin, p.latMax, c.latency)
    && (c.made ==>
          && (if len == 0 then c.flip == None else ChanceOk(p.corrupt, c.flip.Some?))
          && (c.flip.Some? ==> c.flip.value < 8 * len)
          && ChanceOk(p.reorder, c.swap.Some?)
          && (c.swap.Some? ==> RangeOk(p.swapMin, p.swapMax, c.swap.value)))
  }

  ghost predicate RollsOk(p: Params, len: nat, r: Rolls) {
    && ChanceOk(p.drop, r.drop)
    && (!r.drop ==> CopyOk(p, len, r.first))
    && (!r.drop && r.first.made ==> ChanceOk(p.dup, r.dup))
    && (!r.drop && r.first.made && r.dup ==> CopyOk(p, len, r.second))
  }

  /* Lists */

  /** Position of the endpoint bound to an address, or the number of endpoints. */
  ghost function Find(ports: seq<Port>, a: Addr): (n: nat)
    ensures n <= |ports| && (n < |ports| ==> ports[n].addr == a)
    ensures forall i :: 0 <= i < n ==> ports[i].addr != a
  {
    if ports == [] || ports[0].addr == a then 0 else 1 + Find(ports[1..], a)
  }

  /** Where a packet with this due time goes: behind everything that is due no later. */
  ghost function Position(ps: seq<Packet>, due: nat): (k: nat)
    ensures k <= |ps|
    ensures k < |ps| ==> due < ps[k].d.due
    ensures forall i :: 0 <= i < k ==> ps[i].d.due <= due
  {
    if ps == [] || due < ps[0].d.due then 0 else 1 + Position(ps[1..], due)
  }

  ghost function Insert(ps: seq<Packet>, p: Packet): seq<Packet> {
    var k := Position(ps, p.d.due);
    ps[..k] + [p] + ps[k..]
  }

  /** The packets for one address, in list order. */
  ghost function For(ps: seq<Packet>, a: Addr): seq<Packet> {
    if ps == [] then []
    else
      var n := |ps| - 1;
      For(ps[..n], a) + if ps[n].d.dest == a then [ps[n]] else []
  }

  /** The packets for every other address. */
  ghost function NotFor(ps: seq<Packet>, a: Addr): (qs: seq<Packet>)
    ensures |qs| <= |ps|
  {
    if ps == [] then []
    else
      var n := |ps| - 1;
      NotFor(ps[..n], a) + if ps[n].d.dest == a then [] else [ps[n]]
  }

  ghost function Length(): Packet -> nat { (p: Packet) => |p.d.payload| }

  ghost function Bytes(ps: seq<Packet>): nat { Sum(ps, Length()) }

  ghost function ReadySize(): Port -> nat { (e: Port) => |e.ready| }

  /* Operations */

  /** Bit `bit` of the payload inverted. */
  ghost function Flip(payload: seq<Byte>, bit: nat): (f: seq<Byte>)
    requires bit < 8 * |payload|
    ensures |f| == |payload|
  {
    FlipFits(payload[bit / 8], bit % 8);
    payload[bit / 8 := Xor(payload[bit / 8], Pow2(bit % 8))]
  }

  lemma FlipFits(b: Byte, k: nat)
    requires k < 8
    ensures Xor(b, Pow2(k)) < 256
  {
    Pow2Values();
    Pow2Mono(k, 7);
    assert Pow2(8) == 2 * Pow2(7);
    XorBound(b, Pow2(k), 8);
  }

  ghost function CopyPayload(payload: seq<Byte>, c: CopyRoll): (f: seq<Byte>)
    ensures |f| == |payload|
  {
    if c.flip.Some? && c.flip.value < 8 * |payload| then Flip(payload, c.flip.value) else payload
  }

  /** The due time, as a 64-bit word. */
  ghost function CopyDue(now: nat, c: CopyRoll): nat {
    (now + c.latency * MS + if c.swap.Some? then c.swap.value * MS else 0) % U64
  }

  function Max(a: nat, b: nat): nat { if a < b then b else a }

  /** No bound changes its sign in the cast, and no due time passes the end of the 64-bit clock. */
  ghost predicate NoWrap(p: Params, now: nat) {
    && Max(p.latMin, p.latMax) < 0x8000_0000 && Max(p.swapMin, p.swapMax) < 0x8000_0000
    && now + Max(p.latMin, p.latMax) * MS + Max(p.swapMin, p.swapMax) * MS < U64
  }

  /** Then the due time is the exact sum, and not before the time of the send. */
  lemma DueFits(p: Params, len: nat, now: nat, c: CopyRoll)
    requires NoWrap(p, now) && CopyOk(p, len, c) && c.made
    ensures CopyDue(now, c) == now + c.latency * MS + if c.swap.Some? then c.swap.value * MS else 0
    ensures c.latency >= 0 && CopyDue(now, c) >= now
  {
    hide ChanceOk, RangeOk, Max;
    RangeBound(p.latMin, p.latMax, c.latency);
    if c.swap.Some? { RangeBound(p.swapMin, p.swapMax, c.swap.value); }
    SumFits(now, c.latency, if c.swap.Some? then c.swap.value else 0, Max(p.latMin, p.latMax), Max(p.swapMin, p.swapMax));
  }

  lemma RangeBound(lo: nat, hi: nat, v: int)
    requires Max(lo, hi) < 0x8000_0000 && RangeOk(lo, hi, v)
    ensures 0 <= v <= Max(lo, hi)
  {
    DivSmall(lo, U32);
    DivSmall(hi, U32);
  }

  lemma SumFits(now: nat, a: nat, b: nat, m: nat, n: nat)
    requires a <= m && b <= n && now + m * MS + n * MS < U64
    ensures (now + a * MS + b * MS) % U64 == now + a * MS + b * MS
  {
    DivSmall(now + a * MS + b * MS, U64);
  }

  /** The packet enters the pending list and is charged to its destination. */
  ghost function Enqueue(net: Net, d: Datagram): Net {
    var i := Find(net.ports, d.dest);
    if i == |net.ports| then net
    else
      var e := net.ports[i];
      var p := Packet(d, net.nextId, e.binding);
      net.(ports := net.ports[i := e.(inFlight := e.inFlight + |d.payload|, accepted := e.accepted + [p])],
           pending := Insert(net.pending, p), nextId := net.nextId + 1)
  }

  ghost function EnqueueCopy(net: Net, src: Addr, dest: Addr, payload: seq<Byte>, now: nat, c: CopyRoll): Net {
    var n := Enqueue(net, Datagram(src, dest, CopyDue(now, c), CopyPayload(payload, c)));
    n.(totals := n.totals.(corrupted := n.totals.corrupted + (if c.flip.Some? then 1 else 0),
                           reordered := n.totals.reordered + (if c.swap.Some? then 1 else 0)))
  }

  datatype Info = Ok | PayloadTooLarge | AllocFailed | Empty | BufTooSmall | DuplicateAddr | BadParams

  ghost function SendReply(net: Net, dest: Addr, payload: seq<Byte>, r: Rolls): Info {
    if |payload| > MAX_DATAGRAM then PayloadTooLarge
    else if Refused(net, dest, payload) || r.drop then Ok
    else if !r.first.made || (r.dup && !r.second.made) then AllocFailed
    else Ok
  }

  /** No such destination, or its queue is full. */
  ghost predicate Refused(net: Net, dest: Addr, payload: seq<Byte>) {
    var i := Find(net.ports, dest);
    i == |net.ports| || (net.params.cap != 0 && net.ports[i].inFlight + |payload| > net.params.cap)
  }

  ghost function Send(net: Net, src: Addr, dest: Addr, payload: seq<Byte>, now: nat, r: Rolls): Net {
    if |payload| > MAX_DATAGRAM then net
    else
      var t := net.totals;
      var n := net.(totals := t.(enqueued := t.enqueued + 1), clock := now);
      var t1 := n.totals;
      if Find(net.ports, dest) == |net.ports| then n.(totals := t1.(dropped := t1.dropped + 1))
      else if Refused(net, dest, payload) then n.(totals := t1.(queueFull := t1.queueFull + 1))
      else if r.drop then n.(totals := t1.(dropped := t1.dropped + 1))
      else if !r.first.made then n.(totals := t1.(failed := t1.failed + 1))
      else SendCopies(n, src, dest, payload, now, r)
  }

  ghost function SendCopies(net: Net, src: Addr, dest: Addr, payload: seq<Byte>, now: nat, r: Rolls): Net {
    var one := EnqueueCopy(net, src, dest, payload, now, r.first);
    if !r.dup || !r.second.made then one
    else
      var two := EnqueueCopy(one, src, dest, payload, now, r.second);
      two.(totals := two.totals.(duplicated := two.totals.duplicated + 1))
  }

  /** The first pending packet becomes ready, or is dropped when nobody is bound there. */
  ghost function Mature(net: Net): Net
    requires net.pending != []
  {
    var p := net.pending[0];
    var i := Find(net.ports, p.d.dest);
    var n := net.(pending := net.pending[1..]);
    if i == |net.ports| then n.(totals := n.totals.(dropped := n.totals.dropped + 1))
    else n.(ports := n.ports[i := n.ports[i].(ready := n.ports[i].ready + [p])])
  }

  ghost predicate HasDue(net: Net, now: nat) { net.pending != [] && net.pending[0].d.due <= now }

  ghost function MatureAll(net: Net, now: nat): Net
    decreases |net.pending|
  {
    if HasDue(net, now) then MatureAll(Mature(net), now) else net
  }

  ghost function Step(net: Net, now: nat): Net { MatureAll(net.(clock := now), now) }

  ghost function RecvReply(net: Net, a: Addr, cap: nat): Info {
    var i := Find(net.ports, a);
    if i == |net.ports| || net.ports[i].ready == [] then Empty
    else if |net.ports[i].ready[0].d.payload| > cap then BufTooSmall
    else Ok
  }

  ghost function Recv(net: Net, a: Addr, cap: nat): Net {
    if RecvReply(net, a, cap) != Ok then net
    else
      var i := Find(net.ports, a);
      var e := net.ports[i];
      var len := |e.ready[0].d.payload|;
      net.(ports := net.ports[i := e.(ready := e.ready[1..], got := e.got + [e.ready[0]],
                                      inFlight := if e.inFlight >= len then e.inFlight - len else 0)],
           totals := net.totals.(delivered := net.totals.delivered + 1))
  }

  ghost function Bind(net: Net, a: Addr, made: bool): Net {
    if Find(net.ports, a) < |net.ports| || !made then net
    else net.(ports := [Port(a, [], 0, net.nextBinding, [], [], [])] + net.ports, nextBinding := net.nextBinding + 1)
  }

  ghost function Close(net: Net, a: Addr): Net {
    var i := Find(net.ports, a);
    if i == |net.ports| then net
    else
      var t := net.totals;
      net.(ports := net.ports[..i] + net.ports[i + 1..], pending := NotFor(net.pending, a),
           totals := t.(dropped := t.dropped + (|net.pending| - |NotFor(net.pending, a)|),
                        closedReady := t.closedReady + |net.ports[i].ready|))
  }

  ghost function Emptied(e: Port, pending: seq<Packet>): Port {
    e.(ready := [], inFlight := 0, flushed := e.flushed + e.ready + For(pending, e.addr))
  }

  ghost function EmptyAll(ports: seq<Port>, pending: seq<Packet>): (es: seq<Port>)
    ensures |es| == |ports| && forall i :: 0 <= i < |es| ==> es[i] == Emptied(ports[i], pending)
  {
    seq(|ports|, i requires 0 <= i < |ports| => Emptied(ports[i], pending))
  }

  ghost function Flush(net: Net): Net {
    net.(ports := EmptyAll(net.ports, net.pending), pending := [],
         totals := net.totals.(flushed := net.totals.flushed + |net.pending| + Sum(net.ports, ReadySize())))
  }

  predicate ParamsOk(p: Params) { p.latMin <= p.latMax && p.swapMin <= p.swapMax }

  ghost function SetParams(net: Net, p: Params): Net {
    if ParamsOk(p) then net.(params := p) else net
  }

  datatype Event =
    | DoBind(addr: Addr, made: bool)
    | DoClose(addr: Addr)
    | DoSend(src: Addr, dest: Addr, payload: seq<Byte>, now: nat, rolls: Rolls)
    | DoStep(now: nat)
    | DoRecv(addr: Addr, cap: nat)
    | DoFlush
    | DoParams(params: Params)

  ghost function Apply(net: Net, e: Event): Net {
    match e
    case DoBind(a, made) => Bind(net, a, made)
    case DoClose(a) => Close(net, a)
    case DoSend(src, dest, payload, now, rolls) => Send(net, src, dest, payload, now, rolls)
    case DoStep(now) => Step(net, now)
    case DoRecv(a, cap) => Recv(net, a, cap)
    case DoFlush => Flush(net)
    case DoParams(p) => SetParams(net, p)
  }

  /** The random outcomes of a send are ones that its parameters allow. */
  ghost predicate Legal(net: Net, e: Event) {
    e.DoSend? && |e.payload| <= MAX_DATAGRAM ==> RollsOk(net.params, |e.payload|, e.rolls)
  }

  ghost function Start(p: Params): Net {
    Net(p, [], [], Totals(0, 0, 0, 0, 0, 0, 0, 0, 0, 0), 0, 0, 0)
  }

  ghost function Run(net: Net, es: seq<Event>): Net
    decreases |es|
  {
    if es == [] then net else Apply(Run(net, es[..|es| - 1]), es[|es| - 1])
  }

  ghost predicate AllLegal(net: Net, es: seq<Event>)
    decreases |es|
  {
    es == [] || (AllLegal(net, es[..|es| - 1]) && Legal(Run(net, es[..|es| - 1]), es[|es| - 1]))
  }
}
