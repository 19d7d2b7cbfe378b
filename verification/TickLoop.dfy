/**
 The fixed-timestep loop (cbase_time.c): clock readings in, whole ticks out. The clock is a
 parameter of `Advance`; everything else follows the 64-bit code, wrap-around included.
 */
module TickLoop {
  import opened Bits

  const NS: nat := 1_000_000_000
  const U32_MAX: nat := 0xFFFF_FFFF

  datatype Info = Ok | BadTickHz | TickLag

  /** The fields of cb_tick_loop_t. */
  datatype Loop = Loop(
    info: Info,
    tickNs: nat,
    maxTicks: nat,
    last: nat,
    acc: nat,
    index: nat,
    started: bool)

  datatype Step = Step(info: Info, ticks: nat, first: nat, leftover: nat)

  /** Words of their widths; with a usable tick the accumulator is less than one tick. */
  ghost predicate Words(l: Loop) {
    && l.tickNs <= NS && l.maxTicks <= U32_MAX && l.last < U64 && l.acc < U64 && l.index < U64
    && (l.tickNs > 0 ==> l.acc < l.tickNs)
  }

  /** cb_tick_loop_create: a rate above 10^9 leaves a tick of zero nanoseconds. */
  function Create(hz: nat, maxTicks: nat): Loop
    requires hz <= U32_MAX && maxTicks <= U32_MAX
  {
    Loop(if hz == 0 then BadTickHz else Ok, if hz == 0 then 0 else NS / hz, maxTicks, 0, 0, 0, false)
  }

  lemma TickIsPositiveIff(hz: nat, maxTicks: nat)
    requires hz <= U32_MAX && maxTicks <= U32_MAX
    ensures Words(Create(hz, maxTicks))
    ensures Create(hz, maxTicks).tickNs > 0 <==> 1 <= hz <= NS
    ensures hz > 0 ==> var t := Create(hz, maxTicks).tickNs; t * hz <= 1_000_000_000 < (t + 1) * hz
    ensures Create(hz, maxTicks).info == (if hz == 0 then BadTickHz else Ok)
  {
    if hz > 0 {
      var q := NS / hz;
      DivMod(NS, hz);
      MulDist(q, 1, hz);
      if q < 0 { MulLe(q, -1, hz); }
      if q > NS { MulLe(NS + 1, q, hz); MulLe(1, hz, NS + 1); }
      if hz <= NS && q < 1 { MulLe(q, 0, hz); }
      if hz > NS && q >= 1 { MulLe(1, q, hz); }
    }
  }

  /** How many of the due ticks one call runs: the cap, if any, and the 32-bit ceiling. */
  function Capped(due: nat, maxTicks: nat): nat {
    var capped := if maxTicks != 0 && due > maxTicks then maxTicks else due;
    if capped > U32_MAX then U32_MAX else capped
  }

  ghost function Elapsed(l: Loop, now: nat): nat {
    if now >= l.last then now - l.last else 0
  }

  /** The accumulator after the elapsed time has been added, as a 64-bit word. */
  ghost function Gathered(l: Loop, now: nat): nat { (l.acc + Elapsed(l, now)) % U64 }

  ghost function Due(l: Loop, now: nat): (d: nat)
    requires l.tickNs > 0
  {
    DivMod(Gathered(l, now), l.tickNs);
    NotNegative(Gathered(l, now), l.tickNs);
    Gathered(l, now) / l.tickNs
  }

  ghost function Advanced(l: Loop, now: nat): Loop {
    if !l.started then l.(started := true, last := now)
    else if l.tickNs == 0 then l.(info := BadTickHz, last := now, acc := Gathered(l, now))
    else
      var due := Due(l, now);
      l.(last := now, acc := Gathered(l, now) % l.tickNs,
         index := (l.index + Capped(due, l.maxTicks)) % U64,
         info := if Capped(due, l.maxTicks) < due then TickLag else l.info)
  }

  /** What the caller is told to run. */
  ghost function StepOf(l: Loop, now: nat): Step {
    if !l.started then Step(Ok, 0, l.index, 0)
    else if l.tickNs == 0 then Step(BadTickHz, 0, l.index, 0)
    else
      var due := Due(l, now);
      Step(if Capped(due, l.maxTicks) < due then TickLag else Ok,
           Capped(due, l.maxTicks), l.index, Gathered(l, now) % l.tickNs)
  }

  class Timer {
    var info: Info
    var tickNs: nat
    var maxTicks: nat
    var last: nat
    var acc: nat
    var index: nat
    var started: bool

    ghost function Value(): Loop reads this {
      Loop(info, tickNs, maxTicks, last, acc, index, started)
    }

    constructor (hz: nat, maxTicks: nat)
      requires hz <= U32_MAX && maxTicks <= U32_MAX
      ensures Value() == Create(hz, maxTicks) && Words(Value())
    {
      info := Ok;
      tickNs := 0;
      this.maxTicks := maxTicks;
      last, acc, index, started := 0, 0, 0, false;
      new;
      TickIsPositiveIff(hz, maxTicks);
      if hz == 0 {
        info := BadTickHz;
        return;
      }
      NotNegative(NS, hz);
      tickNs := NS / hz;
    }

    /** cb_tick_loop_advance with the clock reading `now`. */
    method Advance(now: nat) returns (step: Step)
      requires Words(Value()) && now < U64
      modifies this
      ensures Value() == Advanced(old(Value()), now)
      ensures step == StepOf(old(Value()), now)
      ensures Words(Value())
    {
      hide Capped;
      if !started {
        started := true;
        last := now;
        return Step(Ok, 0, index, 0);
      }
      var elapsed := if now >= last then now - last else 0;
      last := now;
      acc := (acc + elapsed) % U64;
      if tickNs == 0 {
        info := BadTickHz;
        return Step(BadTickHz, 0, index, 0);
      }
      NotNegative(acc, tickNs);
      DivMod(acc, tickNs);
      var ticks := acc / tickNs;
      var leftover := acc - ticks * tickNs;
      var clamped;
      ticks, clamped := Clamp(ticks);
      var first := index;
      index := (index + ticks) % U64;
      acc := leftover;
      if clamped {
        info := TickLag;
        step := Step(TickLag, ticks, first, leftover);
      } else {
        step := Step(Ok, ticks, first, leftover);
      }
    }

    /** The caller's cap, and the 32-bit ceiling. */
    method Clamp(due: nat) returns (ticks: nat, clamped: bool)
      ensures ticks == Capped(due, maxTicks) && (clamped <==> ticks < due)
    {
      ticks, clamped := due, false;
      if maxTicks != 0 && ticks > maxTicks {
        ticks := maxTicks;
        clamped := true;
      }
      if ticks > U32_MAX {
        ticks := U32_MAX;
        clamped := true;
      }
    }

    /** cb_tick_loop_alpha: the pending fraction of a tick in 1/65536ths; the cap never applies. */
    method Alpha() returns (a: nat)
      requires Words(Value())
      ensures tickNs == 0 ==> a == 0
      ensures tickNs > 0 ==> a <= 65535 && a * tickNs <= acc * 0x1_0000 < (a + 1) * tickNs
    {
      if tickNs == 0 { return 0; }
      var num := acc * 0x1_0000 % U64;
      assert num == acc * 0x1_0000;
      NotNegative(num, tickNs);
      DivMod(num, tickNs);
      var q: nat := num / tickNs;
      var cap: nat := 0x1_0000 - 1;
      AlphaFits(acc, tickNs);
      MulDist(q, 1, tickNs);
      if q > cap { q := cap; }
      a := q;
    }

    method Reset()
      modifies this
      ensures Value() == old(Value()).(info := if old(tickNs) == 0 then BadTickHz else Ok,
                                       last := 0, acc := 0, index := 0, started := false)
      ensures old(Words(Value())) ==> Words(Value())
    {
      info := if tickNs == 0 then BadTickHz else Ok;
      last, acc, index, started := 0, 0, 0, false;
    }
  }

  lemma AlphaFits(acc: nat, tickNs: nat)
    requires acc < tickNs
    ensures acc * 0x1_0000 / tickNs < 0x1_0000
  {
    var q := acc * 0x1_0000 / tickNs;
    DivMod(acc * 0x1_0000, tickNs);
    if q >= 0x1_0000 { MulLe(0x1_0000, q, tickNs); }
  }

  /* One call */

  /** The most ticks one call runs: the caller's cap, or without one the largest 32-bit number. */
  function Cap(maxTicks: nat): nat { if maxTicks == 0 then 0xFFFF_FFFF else maxTicks }

  /** A call on a running loop runs all due ticks up to the cap, keeps the rest of a tick, and reports
      and remembers a lag exactly when more were due. */
  lemma AdvanceExact(b: Loop, now: nat)
    requires Words(b) && now < U64 && b.started && b.tickNs > 0
    ensures var g, d := (b.acc + if now >= b.last then now - b.last else 0) % 0x1_0000_0000_0000_0000, Due(b, now);
            var step, e := StepOf(b, now), Advanced(b, now);
            && d * b.tickNs <= g < (d + 1) * b.tickNs
            && step.ticks == (if d > Cap(b.maxTicks) then Cap(b.maxTicks) else d) && step.first == b.index
            && step.leftover == g - d * b.tickNs == e.acc
            && step.info == (if d > Cap(b.maxTicks) then TickLag else Ok)
            && e.info == (if d > Cap(b.maxTicks) then TickLag else b.info)
            && e.index == (b.index + step.ticks) % 0x1_0000_0000_0000_0000
            && e.last == now && e.started && e.tickNs == b.tickNs && e.maxTicks == b.maxTicks
  {
    hide Capped;
    var g, d := Gathered(b, now), Due(b, now);
    DivMod(g, b.tickNs);
    MulDist(d, 1, b.tickNs);
    CappedIsMin(d, b.maxTicks);
  }

  lemma CappedIsMin(due: nat, maxTicks: nat)
    requires maxTicks <= 0xFFFF_FFFF
    ensures Capped(due, maxTicks) == if due > Cap(maxTicks) then Cap(maxTicks) else due
  {
  }

  /** The first call, and every call without a tick, runs nothing. */
  lemma AdvanceRunsNothing(b: Loop, now: nat)
    requires !b.started || b.tickNs == 0
    ensures var step, e := StepOf(b, now), Advanced(b, now);
            && step.ticks == 0 && step.first == b.index == e.index && step.leftover == 0 && e.last == now && e.started
            && step.info == (if b.started then BadTickHz else Ok)
            && e.info == (if b.started then BadTickHz else b.info)
            && (!b.started ==> e.acc == b.acc)
  {
  }

  /* Whole runs */

  /** The loop after the readings ts, taken in order. */
  ghost function After(l: Loop, ts: seq<nat>): Loop {
    if ts == [] then l else Advanced(After(l, ts[..|ts| - 1]), ts[|ts| - 1])
  }

  /** Due ticks that the caps discarded along the way. */
  ghost function Dropped(l: Loop, ts: seq<nat>): nat
    requires l.tickNs > 0
  {
    if ts == [] then 0
    else
      var before := After(l, ts[..|ts| - 1]);
      AfterKeeps(l, ts[..|ts| - 1]);
      Dropped(l, ts[..|ts| - 1]) +
      if before.started then Due(before, ts[|ts| - 1]) - Capped(Due(before, ts[|ts| - 1]), l.maxTicks) else 0
  }

  lemma {:induction false} AfterKeeps(l: Loop, ts: seq<nat>)
    ensures After(l, ts).tickNs == l.tickNs && After(l, ts).maxTicks == l.maxTicks
    ensures ts != [] ==> After(l, ts).started && After(l, ts).last == ts[|ts| - 1]
    decreases |ts|
  {
    if ts != [] { AfterKeeps(l, ts[..|ts| - 1]); }
  }

  /** A freshly created or reset loop with a usable tick. */
  ghost predicate Fresh(l: Loop) {
    0 < l.tickNs <= NS && l.maxTicks <= U32_MAX && !l.started && l.acc == 0 && l.index == 0
  }

  ghost predicate Rising(ts: seq<nat>) {
    (forall i :: 0 <= i < |ts| ==> ts[i] < U64) && forall i, j :: 0 <= i <= j < |ts| ==> ts[i] <= ts[j]
  }

  /** The first reading is the base line. */
  lemma FirstReading(l: Loop, now: nat)
    requires Fresh(l)
    ensures After(l, [now]) == l.(started := true, last := now) && Dropped(l, [now]) == 0
  {
    assert [now][..0] == [];
    assert After(l, []) == l && Dropped(l, []) == 0;
  }

  lemma LastReading(l: Loop, ts: seq<nat>)
    requires l.tickNs > 0 && |ts| > 1
    ensures var front, now := ts[..|ts| - 1], ts[|ts| - 1];
            var before := After(l, front);
            && before.tickNs == l.tickNs && before.maxTicks == l.maxTicks && before.started
            && After(l, ts) == Advanced(before, now)
            && Dropped(l, ts) == Dropped(l, front) + Due(before, now) - Capped(Due(before, now), l.maxTicks)
  {
    hide Advanced, Due, Capped;
    AfterKeeps(l, ts[..|ts| - 1]);
  }

  /** Elapsed time = ticks run + ticks dropped + the accumulator, for every frame pattern. */
  lemma {:induction false} TimeConserved(l: Loop, ts: seq<nat>)
    requires Fresh(l) && Rising(ts) && ts != []
    ensures var e := After(l, ts);
            && (e.index + Dropped(l, ts)) * l.tickNs + e.acc == ts[|ts| - 1] - ts[0]
            && e.acc < l.tickNs && e.index < U64
    decreases |ts|
  {
    hide Advanced, Due, Capped, After, Dropped;
    var n := |ts| - 1;
    var front, now := ts[..n], ts[n];
    AfterKeeps(l, front);
    if n == 0 {
      FirstReading(l, now);
      assert ts == [now] && 0 * l.tickNs == 0;
    } else {
      TimeConserved(l, front);
      LastReading(l, ts);
      assert front[0] == ts[0] && front[n - 1] == ts[n - 1];
      AdvanceConserves(After(l, front), now, Dropped(l, front), ts[0]);
    }
  }

  lemma CappedAtMost(due: nat, maxTicks: nat)
    ensures Capped(due, maxTicks) <= due
  {
  }

  lemma AdvanceConserves(b: Loop, now: nat, dropped: nat, t0: nat)
    requires b.started && b.tickNs > 0 && b.acc < b.tickNs && t0 <= b.last <= now < U64 && b.index < U64
    requires (b.index + dropped) * b.tickNs + b.acc == b.last - t0
    ensures var e, due := Advanced(b, now), Due(b, now);
            && (e.index + (dropped + due - Capped(due, b.maxTicks))) * b.tickNs + e.acc == now - t0
            && e.acc < b.tickNs && e.index == b.index + Capped(due, b.maxTicks) < U64
  {
    hide Capped;
    CappedAtMost(Due(b, now), b.maxTicks);
    var t := b.tickNs;
    MulLe(0, b.index + dropped, t);
    var g := b.acc + (now - b.last);
    DivSmall(g, U64);
    var due := Due(b, now);
    DivMod(g, t);
    var total := b.index + dropped + due;
    MulDist(b.index + dropped, due, t);
    assert total * t + g % t == now - t0;
    MulLe(1, t, total);
    DivSmall(b.index + Capped(due, b.maxTicks), U64);
  }

  /** The ticks due at the i-th reading; the first reading is only the base line. */
  ghost function DueAt(l: Loop, ts: seq<nat>, i: nat): nat
    requires i < |ts| && l.tickNs > 0
  {
    AfterKeeps(l, ts[..i]);
    if After(l, ts[..i]).started then Due(After(l, ts[..i]), ts[i]) else 0
  }

  /** Each call drops the excess over the cap and no more. */
  lemma DropsExcess(l: Loop, ts: seq<nat>)
    requires l.tickNs > 0 && l.maxTicks <= U32_MAX && ts != []
    ensures var n := |ts| - 1;
            Dropped(l, ts) - Dropped(l, ts[..n])
            == if DueAt(l, ts, n) > Cap(l.maxTicks) then DueAt(l, ts, n) - Cap(l.maxTicks) else 0
  {
    hide After, Due, Capped;
    var n := |ts| - 1;
    AfterKeeps(l, ts[..n]);
    CappedIsMin(DueAt(l, ts, n), l.maxTicks);
  }

  /** Nothing is dropped exactly when no call finds more due than the cap. */
  lemma {:induction false} NothingDroppedIff(l: Loop, ts: seq<nat>)
    requires l.tickNs > 0 && l.maxTicks <= U32_MAX
    ensures Dropped(l, ts) == 0 <==> forall i :: 0 <= i < |ts| ==> DueAt(l, ts, i) <= Cap(l.maxTicks)
    decreases |ts|
  {
    if ts != [] {
      hide After, Due, Dropped;
      var n := |ts| - 1;
      NothingDroppedIff(l, ts[..n]);
      DropsExcess(l, ts);
      forall i | 0 <= i < n ensures DueAt(l, ts, i) == DueAt(l, ts[..n], i) {
        assert ts[..n][..i] == ts[..i];
      }
    }
  }

  /** With nothing dropped the outcome depends on the two end readings only. */
  lemma FrameRateIndependent(l: Loop, ts: seq<nat>)
    requires Fresh(l) && Rising(ts) && ts != [] && Dropped(l, ts) == 0
    ensures After(l, ts).index == (ts[|ts| - 1] - ts[0]) / l.tickNs
    ensures After(l, ts).acc == (ts[|ts| - 1] - ts[0]) % l.tickNs
  {
    hide After, Dropped;
    TimeConserved(l, ts);
    DivUnique(ts[|ts| - 1] - ts[0], l.tickNs, After(l, ts).index, After(l, ts).acc);
  }

  /** Successive batches of ticks follow one another without gap or overlap. */
  lemma BatchesContiguous(l: Loop, ts: seq<nat>, now: nat)
    requires Fresh(l) && Rising(ts + [now]) && ts != []
    ensures var b := After(l, ts);
            && StepOf(b, now).first == b.index
            && After(l, ts + [now]).index == StepOf(b, now).first + StepOf(b, now).ticks
  {
    hide Advanced, StepOf, Due, Capped, Dropped;
    var all, b := ts + [now], After(l, ts);
    assert all[..|all| - 1] == ts && all[|all| - 1] == now;
    assert forall k :: 0 <= k < |ts| ==> all[k] == ts[k];
    AfterKeeps(l, ts);
    TimeConserved(l, ts);
    AdvanceConserves(b, now, Dropped(l, ts), ts[0]);
    StepFields(b, now);
  }

  lemma StepFields(b: Loop, now: nat)
    requires b.started && b.tickNs > 0
    ensures StepOf(b, now).first == b.index && StepOf(b, now).ticks == Capped(Due(b, now), b.maxTicks)
  {
  }

  /** Setting max_ticks to 0 removes the caller's cap but not the 32-bit ceiling. */
  lemma UncappedStillClamps()
    ensures var l := Create(1_000_000_000, 0).(started := true);
            l.tickNs == 1 && StepOf(l, 0x1_0000_0000).info == TickLag
            && StepOf(l, 0x1_0000_0000).ticks == U32_MAX
  {
    var l := Create(1_000_000_000, 0).(started := true);
    DivUnique(NS, 1_000_000_000, 1, 0);
    DivUnique(0x1_0000_0000, 1, 0x1_0000_0000, 0);
    assert Gathered(l, 0x1_0000_0000) == 0x1_0000_0000;
  }

  /** A call drops ticks exactly when more are due than the effective cap. */
  lemma DropsIff(b: Loop, now: nat)
    requires b.started && b.tickNs > 0 && b.maxTicks <= U32_MAX
    ensures StepOf(b, now).info == TickLag <==>
            Due(b, now) > (if b.maxTicks == 0 then U32_MAX else b.maxTicks)
    ensures StepOf(b, now).ticks <= (if b.maxTicks == 0 then U32_MAX else b.maxTicks)
  {
  }
}
