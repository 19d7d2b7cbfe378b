/**
 The simulator object of cbase_netsim.c: endpoints, the sorted pending list, seven 32-bit
 counters and the generator, each method proved to take the step of the state machine.
 */
module NetSim {
  import opened Options
  import opened Bits
  import opened NetModel
  import opened NetLists
  import opened NetInvariant
  import Random
  import Pcg

  /* What a send rolls, as a function of the generator's state */

  datatype Rolled<T> = Rolled(value: T, state: nat)

  ghost function ChanceAt(state: nat, inc: nat, p: int): (r: Rolled<bool>)
    requires Pcg.IsState(state) && Pcg.IsInc(inc)
    ensures Pcg.IsState(r.state) && ChanceOk(p, r.value)
  {
    if p <= 0 then Rolled(false, state)
    else if p >= FX_ONE then Rolled(true, state)
    else Rolled(Pcg.Draw(state, inc, 0) < p * 0x1_0000, Pcg.StateAt(state, inc, 1))
  }

  ghost function RangeAt(state: nat, inc: nat, lo: nat, hi: nat): (r: Rolled<int>)
    requires Pcg.IsState(state) && Pcg.IsInc(inc)
    ensures Pcg.IsState(r.state) && RangeOk(lo, hi, r.value)
  {
    var a, span := Signed32(lo), Signed32(hi) - Signed32(lo) + 1;
    if span <= 0 then Rolled(a, state)
    else if span == U32 then Rolled(a + Pcg.Draw(state, inc, 0), Pcg.StateAt(state, inc, 1))
    else
      var d := Random.DrawBelow(state, inc, span);
      Rolled(a + d.value, d.state)
  }

  /** The bounds are unsigned 32-bit words. */
  ghost predicate Words(p: Params) {
    p.latMin < U32 && p.latMax < U32 && p.swapMin < U32 && p.swapMax < U32
  }

  ghost function FlipAt(state: nat, inc: nat, p: Params, len: nat): (r: Rolled<Option<nat>>)
    requires Pcg.IsState(state) && Pcg.IsInc(inc) && len <= MAX_DATAGRAM
    ensures Pcg.IsState(r.state)
    ensures if len == 0 then r.value == None else ChanceOk(p.corrupt, r.value.Some?)
    ensures r.value.Some? ==> r.value.value < 8 * len
  {
    if len == 0 then Rolled(None, state)
    else
      var hit := ChanceAt(state, inc, p.corrupt);
      if !hit.value then Rolled(None, hit.state)
      else
        var bit := Random.DrawBelow(hit.state, inc, len * 8);
        Rolled(Some(bit.value), bit.state)
  }

  ghost function SwapAt(state: nat, inc: nat, p: Params): (r: Rolled<Option<int>>)
    requires Pcg.IsState(state) && Pcg.IsInc(inc)
    ensures Pcg.IsState(r.state) && ChanceOk(p.reorder, r.value.Some?)
    ensures r.value.Some? ==> RangeOk(p.swapMin, p.swapMax, r.value.value)
  {
    var hit := ChanceAt(state, inc, p.reorder);
    if !hit.value then Rolled(None, hit.state)
    else
      var ms := RangeAt(hit.state, inc, p.swapMin, p.swapMax);
      Rolled(Some(ms.value), ms.state)
  }

  /** The rolls of one copy after its latency; nothing is drawn when the allocation fails. */
  ghost function CopyAt(state: nat, inc: nat, p: Params, len: nat, latency: int, made: bool): (r: Rolled<CopyRoll>)
    requires Pcg.IsState(state) && Pcg.IsInc(inc) && len <= MAX_DATAGRAM
    requires RangeOk(p.latMin, p.latMax, latency)
    ensures Pcg.IsState(r.state) && CopyOk(p, len, r.value) && r.value.made == made && r.value.latency == latency
  {
    if !made then Rolled(CopyRoll(latency, false, None, None), state)
    else
      var flip := FlipAt(state, inc, p, len);
      var swap := SwapAt(flip.state, inc, p);
      Rolled(CopyRoll(latency, true, flip.value, swap.value), swap.state)
  }

  /** Latency, then the copy. */
  ghost function CopyFrom(state: nat, inc: nat, p: Params, len: nat, made: bool): (r: Rolled<CopyRoll>)
    requires Pcg.IsState(state) && Pcg.IsInc(inc) && len <= MAX_DATAGRAM
    ensures Pcg.IsState(r.state) && CopyOk(p, len, r.value) && r.value.made == made
  {
    var ms := RangeAt(state, inc, p.latMin, p.latMax);
    CopyAt(ms.state, inc, p, len, ms.value, made)
  }

  const NO_COPY := CopyRoll(0, false, None, None)

  /** The rolls of a send that is not dropped. */
  ghost function CopiesAt(state: nat, inc: nat, p: Params, len: nat, made1: bool, made2: bool): (r: Rolled<Rolls>)
    requires Pcg.IsState(state) && Pcg.IsInc(inc) && len <= MAX_DATAGRAM
    ensures Pcg.IsState(r.state) && !r.value.drop
    ensures CopyOk(p, len, r.value.first) && r.value.first.made == made1
    ensures made1 ==> ChanceOk(p.dup, r.value.dup)
    ensures made1 && r.value.dup ==> CopyOk(p, len, r.value.second) && r.value.second.made == made2
  {
    var first := CopyFrom(state, inc, p, len, made1);
    if !made1 then Rolled(Rolls(false, first.value, false, NO_COPY), first.state)
    else
      var dup := ChanceAt(first.state, inc, p.dup);
      if !dup.value then Rolled(Rolls(false, first.value, false, NO_COPY), dup.state)
      else
        var second := CopyFrom(dup.state, inc, p, len, made2);
        Rolled(Rolls(false, first.value, true, second.value), second.state)
  }

  /** All rolls of a send that is not refused, in the order in which they are drawn. */
  ghost function RollsAt(state: nat, inc: nat, p: Params, len: nat, made1: bool, made2: bool): (r: Rolled<Rolls>)
    requires Pcg.IsState(state) && Pcg.IsInc(inc) && len <= MAX_DATAGRAM
    ensures Pcg.IsState(r.state) && RollsOk(p, len, r.value)
    ensures !r.value.drop ==> r.value.first.made == made1
    ensures !r.value.drop && made1 && r.value.dup ==> r.value.second.made == made2
  {
    hide CopyOk, ChanceAt, CopiesAt;
    var drop := ChanceAt(state, inc, p.drop);
    if drop.value then Rolled(Rolls(true, NO_COPY, false, NO_COPY), drop.state)
    else CopiesAt(drop.state, inc, p, len, made1, made2)
  }

  ghost function WithCorrupted(net: Net, flip: Option<nat>): Net {
    net.(totals := net.totals.(corrupted := net.totals.corrupted + if flip.Some? then 1 else 0))
  }

  ghost function WithReordered(net: Net, swap: Option<int>): Net {
    net.(totals := net.totals.(reordered := net.totals.reordered + if swap.Some? then 1 else 0))
  }

  /** What the allocator answers for one copy; the second answer counts if there is a payload. */
  datatype Allocs = Allocs(node: bool, bytes: bool)

  predicate Made(mem: Allocs, len: nat) { mem.node && (len > 0 ==> mem.bytes) }

  /* The program's lists, without history */

  datatype Endpoint = Endpoint(addr: Addr, ready: seq<Datagram>, inFlight: nat)

  ghost function Datagrams(ps: seq<Packet>): (ds: seq<Datagram>)
    ensures |ds| == |ps| && forall i :: 0 <= i < |ds| ==> ds[i] == ps[i].d
  {
    seq(|ps|, i requires 0 <= i < |ps| => ps[i].d)
  }

  ghost function Bare(e: Port): Endpoint { Endpoint(e.addr, Datagrams(e.ready), e.inFlight) }

  ghost function Bares(es: seq<Port>): (bs: seq<Endpoint>)
    ensures |bs| == |es| && forall i :: 0 <= i < |bs| ==> bs[i] == Bare(es[i])
  {
    seq(|es|, i requires 0 <= i < |es| => Bare(es[i]))
  }

  function Inc(x: nat): nat { (x + 1) % U32 }

  /** A 32-bit counter shows a total that does not wrap. */
  ghost predicate Shows(c: nat, total: nat) { c == total % U32 }

  lemma IncShows(c: nat, total: nat)
    requires Shows(c, total)
    ensures Shows(Inc(c), total + 1)
  {
  }

  class Sim {
    var info: Info
    var params: Params
    const rng: Random.Rng
    var endpoints: seq<Endpoint>
    var pending: seq<Datagram>
    var enqueued: nat
    var delivered: nat
    var dropped: nat
    var duplicated: nat
    var corrupted: nat
    var reordered: nat
    var queueFull: nat
    ghost var model: Net

    ghost predicate Lists() reads this {
      endpoints == Bares(model.ports) && pending == Datagrams(model.pending) && Core(model)
    }

    ghost predicate Counters() reads this {
      var t := model.totals;
      && Shows(enqueued, t.enqueued) && Shows(delivered, t.delivered) && Shows(dropped, t.dropped)
      && Shows(duplicated, t.duplicated) && Shows(corrupted, t.corrupted)
      && Shows(reordered, t.reordered) && Shows(queueFull, t.queueFull)
    }

    ghost predicate Valid() reads this, rng {
      Lists() && Counters() && rng.Valid() && params == model.params && Words(params)
    }

    constructor (seed: nat, p: Params)
      requires seed < U64 && Words(p)
      ensures Valid() && fresh(rng) && model == Start(p)
      ensures info == if p.latMin <= p.latMax && p.swapMin <= p.swapMax then Ok else BadParams
      ensures rng.inc == 1 && rng.state == Pcg.Step((Pcg.Step(0, 1) + seed) % U64, 1)
    {
      rng := new Random.Rng.Seed(seed, 0);
      params := p;
      endpoints, pending := [], [];
      enqueued, delivered, dropped, duplicated, corrupted, reordered, queueFull := 0, 0, 0, 0, 0, 0, 0;
      info := if ParamsOk(p) then Ok else BadParams;
      model := Start(p);
    }

    /** Position of an endpoint, or the number of endpoints. */
    method FindEndpoint(a: Addr) returns (i: nat)
      requires endpoints == Bares(model.ports)
      ensures i == Find(model.ports, a)
    {
      hide Core;
      i := 0;
      while i < |endpoints| && endpoints[i].addr != a
        invariant i <= |endpoints|
        invariant forall k :: 0 <= k < i ==> model.ports[k].addr != a
      {
        i := i + 1;
      }
      FindUnique(model.ports, a, i);
    }

    /** The same, with what the endpoint looks like. */
    method FindListed(a: Addr) returns (i: nat)
      requires Valid()
      ensures |endpoints| == |model.ports| && i == Find(model.ports, a)
      ensures i < |endpoints| ==> endpoints[i] == Bare(model.ports[i])
    {
      hide Core, Counters;
      i := FindEndpoint(a);
    }

    /** Where a node with this due time is linked in. */
    method FindSlot(due: nat) returns (k: nat)
      requires Lists()
      ensures k == Position(model.pending, due)
    {
      hide Core;
      if pending == [] || due < pending[0].due {
        k := 0;
      } else {
        var cur := 0;
        while cur + 1 < |pending| && pending[cur + 1].due <= due
          invariant cur < |pending|
          invariant forall i :: 0 <= i <= cur ==> model.pending[i].d.due <= due
        {
          cur := cur + 1;
        }
        k := cur + 1;
      }
      PositionUnique(model.pending, due, k);
    }

    method EnqueueNode(d: Datagram)
      requires Lists() && Find(model.ports, d.dest) < |model.ports|
      modifies `endpoints, `pending, `model
      ensures Lists() && model == Enqueue(old(model), d)
      ensures old(Counters()) && params == old(model).params ==> Counters() && params == model.params
    {
      hide Core, Bares, Datagrams, Enqueue, Find, Position, Shows;
      var i := FindEndpoint(d.dest);
      var k := FindSlot(d.due);
      EnqueueBare(model, d);
      EnqueueKeeps(model, d);
      var e := endpoints[i];
      endpoints := endpoints[i := e.(inFlight := e.inFlight + |d.payload|)];
      pending := pending[..k] + [d] + pending[k..];
      model := Enqueue(model, d);
    }

    method Chance(p: int) returns (hit: bool)
      requires rng.Valid()
      modifies rng`state
      ensures rng.Valid() && Rolled(hit, rng.state) == ChanceAt(old(rng.state), rng.inc, p)
    {
      hit := rng.Chance(p);
    }

    method Range(lo: nat, hi: nat) returns (v: int)
      requires rng.Valid() && lo < U32 && hi < U32
      modifies rng`state
      ensures rng.Valid() && Rolled(v, rng.state) == RangeAt(old(rng.state), rng.inc, lo, hi)
    {
      v := rng.Range(Signed32(lo), Signed32(hi));
    }

    /** One random bit of the payload may be inverted. */
    method Corrupt(payload: seq<Byte>) returns (node: seq<Byte>, ghost flip: Option<nat>)
      requires Valid() && |payload| <= MAX_DATAGRAM
      modifies rng`state, `corrupted, `model
      ensures Valid() && Rolled(flip, rng.state) == FlipAt(old(rng.state), rng.inc, params, |payload|)
      ensures node == (if flip.Some? then Flip(payload, flip.value) else payload)
      ensures model == WithCorrupted(old(model), flip)
    {
      hide ChanceAt, Lists, Counters;
      node, flip := payload, None;
      if |payload| > 0 {
        var hit := Chance(params.corrupt);
        if hit {
          var bit := rng.Below(|payload| * 8);
          flip := Some(bit);
          FlipFits(payload[bit / 8], bit % 8);
          node := payload[bit / 8 := Xor(payload[bit / 8], Pow2(bit % 8))];
          CountCorrupted();
        }
      }
    }

    /** Extra latency may push a copy behind the next one. */
    method Reorder(base: nat) returns (due: nat, ghost swap: Option<int>)
      requires Valid()
      modifies rng`state, `reordered, `model
      ensures Valid() && Rolled(swap, rng.state) == SwapAt(old(rng.state), rng.inc, params)
      ensures due == (base + if swap.Some? then swap.value * MS else 0) % U64
      ensures model == WithReordered(old(model), swap)
    {
      hide ChanceAt, RangeAt, Lists, Counters;
      due, swap := base % U64, None;
      var hit := Chance(params.reorder);
      if hit {
        var ms := Range(params.swapMin, params.swapMax);
        swap := Some(ms);
        due := (base + ms * MS) % U64;
        CountReordered();
      }
    }

    /** One copy with its corruption and reorder rolls; `mem` is what the allocator answers. */
    method EnqueueCopyOf(src: Addr, dest: Addr, payload: seq<Byte>, now: nat, ms: int, mem: Allocs)
      returns (ok: bool, ghost c: CopyRoll)
      requires Valid() && Find(model.ports, dest) < |model.ports| && |payload| <= MAX_DATAGRAM
      requires RangeOk(params.latMin, params.latMax, ms)
      modifies this`endpoints, `pending, `corrupted, `reordered, `model, rng`state
      ensures Valid() && ok == Made(mem, |payload|)
      ensures Rolled(c, rng.state) == CopyAt(old(rng.state), rng.inc, params, |payload|, ms, ok)
      ensures model == if ok then EnqueueCopy(old(model), src, dest, payload, now, c) else old(model)
    {
      hide Lists, Counters, Enqueue, Flip, FlipAt, SwapAt;
      c := CopyRoll(ms, false, None, None);
      if !mem.node { return false, c; }
      if |payload| > 0 {
        if !mem.bytes { return false, c; }
      }
      ghost var before := model;
      var node, flip := Corrupt(payload);
      var due, swap := Reorder((now + ms * MS) % U64);
      c := CopyRoll(ms, true, flip, swap);
      assert due == CopyDue(now, c) by { DueInSteps(now, c); }
      EnqueueCounted(before, src, dest, payload, now, c);
      EnqueueNode(Datagram(src, dest, due, node));
      return true, c;
    }

    /** Latency roll, then the copy. */
    method EnqueueRolled(src: Addr, dest: Addr, payload: seq<Byte>, now: nat, mem: Allocs)
      returns (ok: bool, ghost c: CopyRoll)
      requires Valid() && Find(model.ports, dest) < |model.ports| && |payload| <= MAX_DATAGRAM
      modifies this`endpoints, `pending, `corrupted, `reordered, `model, rng`state
      ensures Valid() && ok == Made(mem, |payload|)
      ensures Rolled(c, rng.state) == CopyFrom(old(rng.state), rng.inc, params, |payload|, ok)
      ensures model == if ok then EnqueueCopy(old(model), src, dest, payload, now, c) else old(model)
    {
      hide Lists, Counters, EnqueueCopy, CopyAt, RangeAt;
      var ms := Range(params.latMin, params.latMax);
      ok, c := EnqueueCopyOf(src, dest, payload, now, ms, mem);
    }

    /** The part of a send after the drop roll. */
    method SendAccepted(src: Addr, dest: Addr, payload: seq<Byte>, now: nat, mem1: Allocs, mem2: Allocs)
      returns (reply: Info, ghost r: Rolls)
      requires Valid() && Find(model.ports, dest) < |model.ports| && |payload| <= MAX_DATAGRAM
      modifies this`endpoints, `pending, `corrupted, `reordered, `duplicated, `model, rng`state
      ensures Valid()
      ensures Rolled(r, rng.state) == CopiesAt(old(rng.state), rng.inc, params, |payload|, Made(mem1, |payload|), Made(mem2, |payload|))
      ensures reply == if !Made(mem1, |payload|) || (r.dup && !Made(mem2, |payload|)) then AllocFailed else Ok
      ensures model == if Made(mem1, |payload|) then SendCopies(old(model), src, dest, payload, now, r)
                       else old(model).(totals := old(model).totals.(failed := old(model).totals.failed + 1))
    {
      hide Core, EnqueueCopy, CopyFrom, ChanceAt, Shows, Inc, Find, Bares, Datagrams;
      ghost var before := model;
      ghost var first, second := NO_COPY, NO_COPY;
      var ok: bool;
      ok, first := EnqueueRolled(src, dest, payload, now, mem1);
      if !ok {
        model := model.(totals := model.totals.(failed := model.totals.failed + 1));
        CoreOfLists(before, model);
        return AllocFailed, Rolls(false, first, false, NO_COPY);
      }
      var dup := Chance(params.dup);
      if dup {
        StaysBound(before, src, dest, payload, now, first);
        ok, second := EnqueueRolled(src, dest, payload, now, mem2);
        if !ok {
          return AllocFailed, Rolls(false, first, true, second);
        }
        CountDuplicate();
      }
      return Ok, Rolls(false, first, dup, second);
    }

    method CountDuplicate()
      requires Valid()
      modifies `duplicated, `model
      ensures Valid() && model == old(model).(totals := old(model).totals.(duplicated := old(model).totals.duplicated + 1))
    {
      hide Core, Shows, Inc;
      IncShows(duplicated, model.totals.duplicated);
      duplicated := Inc(duplicated);
      model := model.(totals := model.totals.(duplicated := model.totals.duplicated + 1));
      CoreOfLists(old(model), model);
    }

    /** A send takes the step of the state machine for the rolls that the generator gives. */
    method SendTo(src: Addr, dest: Addr, payload: seq<Byte>, now: nat, mem1: Allocs, mem2: Allocs) returns (reply: Info)
      requires Valid()
      modifies this, rng`state
      ensures Valid() && params == old(params) && info == old(info)
      ensures |payload| > MAX_DATAGRAM ==> reply == PayloadTooLarge && model == old(model) && rng.state == old(rng.state)
      ensures |payload| <= MAX_DATAGRAM ==>
                var r := RollsAt(old(rng.state), rng.inc, params, |payload|, Made(mem1, |payload|), Made(mem2, |payload|));
                && model == Send(old(model), src, dest, payload, now, r.value)
                && reply == SendReply(old(model), dest, payload, r.value)
                && rng.state == if Refused(old(model), dest, payload) then old(rng.state) else r.state
    {
      hide Lists, Counters, SendCopies, ChanceAt, CopiesAt, RollsOk;
      if |payload| > MAX_DATAGRAM { return PayloadTooLarge; }
      CountEnqueued(now);
      var i := FindListed(dest);
      if i == |endpoints| {
        CountDropped();
        return Ok;
      }
      if params.cap != 0 && endpoints[i].inFlight + |payload| > params.cap {
        CountFull();
        return Ok;
      }
      var drop := Chance(params.drop);
      if drop {
        CountDropped();
        return Ok;
      }
      ghost var r;
      reply, r := SendAccepted(src, dest, payload, now, mem1, mem2);
    }

    method CountEnqueued(now: nat)
      requires Valid()
      modifies `enqueued, `model
      ensures Valid()
      ensures model == old(model).(totals := old(model).totals.(enqueued := old(model).totals.enqueued + 1), clock := now)
    {
      hide Core, Shows, Inc;
      IncShows(enqueued, model.totals.enqueued);
      enqueued := Inc(enqueued);
      model := model.(totals := model.totals.(enqueued := model.totals.enqueued + 1), clock := now);
      CoreOfLists(old(model), model);
    }

    method CountCorrupted()
      requires Valid()
      modifies `corrupted, `model
      ensures Valid() && model == old(model).(totals := old(model).totals.(corrupted := old(model).totals.corrupted + 1))
    {
      hide Core, Shows, Inc;
      IncShows(corrupted, model.totals.corrupted);
      corrupted := Inc(corrupted);
      model := model.(totals := model.totals.(corrupted := model.totals.corrupted + 1));
      CoreOfLists(old(model), model);
    }

    method CountReordered()
      requires Valid()
      modifies `reordered, `model
      ensures Valid() && model == old(model).(totals := old(model).totals.(reordered := old(model).totals.reordered + 1))
    {
      hide Core, Shows, Inc;
      IncShows(reordered, model.totals.reordered);
      reordered := Inc(reordered);
      model := model.(totals := model.totals.(reordered := model.totals.reordered + 1));
      CoreOfLists(old(model), model);
    }

    method CountDropped()
      requires Valid()
      modifies `dropped, `model
      ensures Valid() && model == old(model).(totals := old(model).totals.(dropped := old(model).totals.dropped + 1))
    {
      hide Core, Shows, Inc;
      IncShows(dropped, model.totals.dropped);
      dropped := Inc(dropped);
      model := model.(totals := model.totals.(dropped := model.totals.dropped + 1));
      CoreOfLists(old(model), model);
    }

    method CountFull()
      requires Valid()
      modifies `queueFull, `model
      ensures Valid() && model == old(model).(totals := old(model).totals.(queueFull := old(model).totals.queueFull + 1))
    {
      hide Core, Shows, Inc;
      IncShows(queueFull, model.totals.queueFull);
      queueFull := Inc(queueFull);
      model := model.(totals := model.totals.(queueFull := model.totals.queueFull + 1));
      CoreOfLists(old(model), model);
    }

    /** The first pending node moves to the end of its endpoint's ready list; there always is one. */
    method MoveHead() returns (found: bool)
      requires Valid() && pending != []
      modifies `endpoints, `pending, `dropped, `model
      ensures Valid() && found && model == Mature(old(model)) && |pending| == |old(pending)| - 1
    {
      hide Core, Shows, Inc, Bares, Datagrams, Mature, Find;
      ghost var before := model;
      var node := pending[0];
      pending := pending[1..];
      var i := FindEndpoint(node.dest);
      found := i < |endpoints|;
      if i == |endpoints| {
        IncShows(dropped, model.totals.dropped);
        dropped := Inc(dropped);
      } else {
        endpoints := endpoints[i := endpoints[i].(ready := endpoints[i].ready + [node])];
      }
      MatureBare(before);
      PendingBound(before, 0);
      MatureShape(before);
      MatureKeeps(before);
      model := Mature(before);
    }

    /** Every datagram that is due becomes ready; the result is their number. */
    method Step(now: nat) returns (moved: nat)
      requires Valid()
      modifies `endpoints, `pending, `dropped, `model
      ensures Valid() && model == NetModel.Step(old(model), now)
      ensures moved == (|old(pending)| - |pending|) % U32
      ensures pending == [] || pending[0].due > now
    {
      hide Core, Shows, Mature;
      moved := 0;
      model := model.(clock := now);
      CoreOfLists(old(model), model);
      while pending != [] && pending[0].due <= now
        invariant Valid() && |pending| <= |old(pending)|
        invariant MatureAll(model, now) == NetModel.Step(old(model), now)
        invariant moved == (|old(pending)| - |pending|) % U32
        decreases |pending|
      {
        var found := MoveHead();
        if found {
          moved := (moved + 1) % U32;
        }
      }
    }

    /** Take the first ready datagram of an endpoint, if it fits. */
    method RecvFrom(a: Addr, cap: nat) returns (reply: Info, src: Addr, data: seq<Byte>, len: nat)
      requires Valid()
      modifies `endpoints, `delivered, `model
      ensures Valid() && reply == RecvReply(old(model), a, cap) && model == Recv(old(model), a, cap)
      ensures reply == Empty ==> len == 0
      ensures reply == BufTooSmall ==> len == |old(model).ports[Find(old(model).ports, a)].ready[0].d.payload|
      ensures reply == Ok ==>
                var d := old(model).ports[Find(old(model).ports, a)].ready[0].d;
                src == d.src && data == d.payload && len == |data|
    {
      hide Lists, Counters;
      src, data := a, [];
      var i := FindListed(a);
      if i == |endpoints| || endpoints[i].ready == [] {
        return Empty, src, data, 0;
      }
      var node := endpoints[i].ready[0];
      if |node.payload| > cap {
        return BufTooSmall, src, data, |node.payload|;
      }
      PopReady(i, a, cap);
      return Ok, node.src, node.payload, |node.payload|;
    }

    /** The head of a ready list leaves, and is counted. */
    method PopReady(i: nat, ghost a: Addr, ghost cap: nat)
      requires Valid() && RecvReply(model, a, cap) == Ok && i == Find(model.ports, a)
      modifies `endpoints, `delivered, `model
      ensures Valid() && model == Recv(old(model), a, cap)
    {
      hide Core, Shows, Inc, Bares, Datagrams, Find, Recv;
      PopBare(model, a, cap);
      RecvKeeps(model, a, cap);
      var e := endpoints[i];
      var node := e.ready[0];
      endpoints := endpoints[i := Endpoint(e.addr, e.ready[1..],
                                           if e.inFlight >= |node.payload| then e.inFlight - |node.payload| else 0)];
      IncShows(delivered, model.totals.delivered);
      delivered := Inc(delivered);
      model := Recv(model, a, cap);
    }

    /** A new endpoint goes to the front of the list. */
    method Bind(a: Addr, made: bool) returns (reply: Info)
      requires Valid()
      modifies `endpoints, `model
      ensures Valid() && model == NetModel.Bind(old(model), a, made)
      ensures reply == if Find(old(model).ports, a) < |old(model).ports| then DuplicateAddr
                       else if made then Ok else AllocFailed
    {
      hide Core, Shows;
      var i := FindEndpoint(a);
      if i < |endpoints| { return DuplicateAddr; }
      if !made { return AllocFailed; }
      endpoints := [Endpoint(a, [], 0)] + endpoints;
      BindKeeps(model, a, made);
      model := NetModel.Bind(model, a, made);
      return Ok;
    }

    /** Unlink the endpoint, and every pending datagram for its address. */
    method Close(a: Addr)
      requires Valid()
      modifies `endpoints, `pending, `dropped, `model
      ensures Valid() && model == NetModel.Close(old(model), a)
    {
      hide Core, Shows, Bares, Datagrams, Find, NotFor;
      var i := FindEndpoint(a);
      if i == |endpoints| { return; }
      ghost var before := model;
      BaresCut(model.ports, i);
      endpoints := endpoints[..i] + endpoints[i + 1..];
      Scrub(a);
      CloseKeeps(before, a);
      model := NetModel.Close(before, a);
    }

    /** Drop and count every pending datagram for an address. */
    method Scrub(a: Addr)
      requires pending == Datagrams(model.pending) && Shows(dropped, model.totals.dropped)
      modifies `pending, `dropped
      ensures pending == Datagrams(NotFor(model.pending, a))
      ensures Shows(dropped, model.totals.dropped + (|model.pending| - |NotFor(model.pending, a)|))
    {
      hide Shows, Inc, NotFor, Datagrams;
      ghost var all := model.pending;
      ScrubStart(all, a);
      var kept: seq<Datagram>, k := [], 0;
      while k < |pending|
        invariant k <= |pending| && pending == old(pending)
        invariant kept == Datagrams(NotFor(all[..k], a))
        invariant Shows(dropped, model.totals.dropped + (k - |NotFor(all[..k], a)|))
      {
        ScrubStep(all, a, k);
        if pending[k].dest == a {
          IncShows(dropped, model.totals.dropped + (k - |NotFor(all[..k], a)|));
          dropped := Inc(dropped);
        } else {
          kept := kept + [pending[k]];
        }
        k := k + 1;
      }
      assert all[..k] == all;
      pending := kept;
    }

    /** Everything pending and ready is thrown away; counters stay. */
    method Flush()
      requires Valid()
      modifies `endpoints, `pending, `model
      ensures Valid() && model == NetModel.Flush(old(model))
    {
      hide Core, Shows;
      pending := [];
      var k := 0;
      while k < |endpoints|
        invariant k <= |endpoints| == |old(endpoints)| && pending == [] && model == old(model)
        invariant forall i :: 0 <= i < k ==> endpoints[i] == Endpoint(old(endpoints)[i].addr, [], 0)
        invariant forall i :: k <= i < |endpoints| ==> endpoints[i] == old(endpoints)[i]
      {
        endpoints := endpoints[k := Endpoint(endpoints[k].addr, [], 0)];
        k := k + 1;
      }
      FlushKeeps(model);
      model := NetModel.Flush(model);
    }

    /** Malformed parameters are refused and change nothing. */
    method SetParams(p: Params) returns (reply: Info)
      requires Valid() && Words(p)
      modifies `params, `model
      ensures Valid() && model == NetModel.SetParams(old(model), p)
      ensures reply == if p.latMin <= p.latMax && p.swapMin <= p.swapMax then Ok else BadParams
      ensures params == if p.latMin <= p.latMax && p.swapMin <= p.swapMax then p else old(params)
    {
      hide Core, Shows;
      if !ParamsOk(p) { return BadParams; }
      params := p;
      model := model.(params := p);
      CoreOfLists(old(model), model);
      return Ok;
    }
  }

  lemma ScrubStart(all: seq<Packet>, a: Addr)
    ensures NotFor(all[..0], a) == [] && Datagrams(NotFor(all[..0], a)) == []
  {
  }

  lemma ScrubStep(all: seq<Packet>, a: Addr, k: nat)
    requires k < |all|
    ensures |Datagrams(all)| == |all| && Datagrams(all)[k] == all[k].d
    ensures var before, after := NotFor(all[..k], a), NotFor(all[..k + 1], a);
            && |before| <= k && |after| == |before| + (if all[k].d.dest == a then 0 else 1)
            && Datagrams(after) == Datagrams(before) + if all[k].d.dest == a then [] else [all[k].d]
  {
    assert all[..k + 1][..k] == all[..k];
  }

  lemma BaresCut(es: seq<Port>, i: nat)
    requires i < |es|
    ensures Bares(es[..i] + es[i + 1..]) == Bares(es)[..i] + Bares(es)[i + 1..]
  {
  }

  lemma EnqueueBare(net: Net, d: Datagram)
    requires Find(net.ports, d.dest) < |net.ports|
    ensures var n, i, k := Enqueue(net, d), Find(net.ports, d.dest), Position(net.pending, d.due);
            var bs, ds := Bares(net.ports), Datagrams(net.pending);
            && |bs| == |net.ports| && |ds| == |net.pending|
            && Bares(n.ports) == bs[i := bs[i].(inFlight := bs[i].inFlight + |d.payload|)]
            && Datagrams(n.pending) == ds[..k] + [d] + ds[k..]
            && n.totals == net.totals && n.params == net.params
  {
    hide Position, For;
  }

  lemma MatureBare(net: Net)
    requires net.pending != []
    ensures var n, p, i := Mature(net), net.pending[0], Find(net.ports, net.pending[0].d.dest);
            var bs, ds := Bares(net.ports), Datagrams(net.pending);
            && |bs| == |net.ports| && |ds| == |net.pending| && ds[0] == p.d
            && Datagrams(n.pending) == ds[1..]
            && (i < |net.ports| ==> Bares(n.ports) == bs[i := bs[i].(ready := bs[i].ready + [p.d])])
  {
    var p, i := net.pending[0], Find(net.ports, net.pending[0].d.dest);
    if i < |net.ports| {
      assert Datagrams(net.ports[i].ready + [p]) == Datagrams(net.ports[i].ready) + [p.d];
    }
  }

  lemma PopBare(net: Net, a: Addr, cap: nat)
    requires RecvReply(net, a, cap) == Ok
    ensures var n, i, bs := Recv(net, a, cap), Find(net.ports, a), Bares(net.ports);
            && |bs| == |net.ports| && bs[i].ready != []
            && Bares(n.ports) == bs[i := Endpoint(bs[i].addr, bs[i].ready[1..],
                                                  if bs[i].inFlight >= |bs[i].ready[0].payload|
                                                  then bs[i].inFlight - |bs[i].ready[0].payload| else 0)]
            && n == net.(ports := n.ports, totals := net.totals.(delivered := net.totals.delivered + 1))
  {
    var i := Find(net.ports, a);
    var ready := net.ports[i].ready;
    assert Datagrams(ready)[1..] == Datagrams(ready[1..]);
  }

  lemma StaysBound(net: Net, src: Addr, dest: Addr, payload: seq<Byte>, now: nat, c: CopyRoll)
    requires Find(net.ports, dest) < |net.ports|
    ensures var n := EnqueueCopy(net, src, dest, payload, now, c); Find(n.ports, dest) < |n.ports|
  {
    hide Insert, CopyDue, CopyPayload;
    var n := EnqueueCopy(net, src, dest, payload, now, c);
    FindUnique(n.ports, dest, Find(net.ports, dest));
  }

  /** Wrapping around after each addition comes to the same. */
  lemma DueInSteps(now: nat, c: CopyRoll)
    ensures CopyDue(now, c) == ((now + c.latency * MS) % U64 + if c.swap.Some? then c.swap.value * MS else 0) % U64
  {
    ModSum(now + c.latency * MS, if c.swap.Some? then c.swap.value * MS else 0, U64);
  }

  /** Counting first and enqueueing then is the same as the other way round. */
  lemma EnqueueCounted(net: Net, src: Addr, dest: Addr, payload: seq<Byte>, now: nat, c: CopyRoll)
    ensures Enqueue(WithReordered(WithCorrupted(net, c.flip), c.swap),
                    Datagram(src, dest, CopyDue(now, c), CopyPayload(payload, c)))
            == EnqueueCopy(net, src, dest, payload, now, c)
  {
    hide Insert, Find, CopyDue, CopyPayload;
  }
}
