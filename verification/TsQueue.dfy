/**
 The bounded thread-safe queue of cbase_threading.c as interleaved steps of any number of
 callers: lock, loop test, wait, wakeup, re-acquisition, critical section, signal, unlock.
 */
module TsQueue {
  import opened Options
  import opened Ring
  import opened Tally

  datatype Op<T> = Push(item: T) | Pop | TryPop

  datatype Outcome<T> = Pushed | Popped(item: T) | Empty

  /** Where a call is. It holds the lock from `Test` to `Unlock`, except while it waits. */
  datatype Stage<T> =
    | Entry
    | Test
    | Parked
    | Woken
    | Body
    | Signal(out: Outcome<T>)
    | Unlock(out: Outcome<T>)
    | Done(out: Outcome<T>)

  datatype Call<T> = Call(op: Op<T>, at: Stage<T>)

  /** The queue, its lock, every call made so far, and the items moved in lock order. */
  datatype System<T> = System(
    ring: Ring<T>,
    lock: Option<nat>,
    calls: seq<Call<T>>,
    pushed: seq<T>,
    popped: seq<T>)

  datatype Event<T> =
    | Enter(op: Op<T>)
    | Acquire(i: nat)
    | Check(i: nat)
    | Spurious(i: nat)
    | Run(i: nat)
    | Notify(i: nat, target: Option<nat>)
    | Release(i: nat)

  predicate Holding<T>(at: Stage<T>) {
    at.Test? || at.Body? || at.Signal? || at.Unlock?
  }

  /** The condition the wait loop tests. */
  ghost predicate MustWait<T>(op: Op<T>, ring: Ring<T>) {
    match op
    case Push(_) => ring.count == Capacity(ring)
    case Pop => ring.count == 0
    case TryPop => false
  }

  /** Whether `waiter` waits for the signal that a push (or else a pop) sends. */
  predicate Wakes<T>(push: bool, waiter: Op<T>) {
    if push then waiter.Pop? else waiter.Push?
  }

  predicate ParkedFor<T>(push: bool, c: Call<T>) {
    c.at.Parked? && Wakes(push, c.op)
  }

  ghost predicate Enabled<T>(s: System<T>, e: Event<T>) {
    match e
    case Enter(_) => true
    case Acquire(i) => i < |s.calls| && s.lock == None && (s.calls[i].at.Entry? || s.calls[i].at.Woken?)
    case Check(i) => i < |s.calls| && s.calls[i].at.Test?
    case Spurious(i) => i < |s.calls| && s.calls[i].at.Parked?
    case Run(i) => i < |s.calls| && s.calls[i].at.Body?
    case Notify(i, target) =>
      && i < |s.calls| && s.calls[i].at.Signal?
      && match target {
         case None => forall j :: 0 <= j < |s.calls| ==> !ParkedFor(s.calls[i].op.Push?, s.calls[j])
         case Some(j) => j < |s.calls| && ParkedFor(s.calls[i].op.Push?, s.calls[j])
         }
    case Release(i) => i < |s.calls| && s.calls[i].at.Unlock?
  }

  ghost function Move<T>(s: System<T>, i: nat, at: Stage<T>): System<T>
    requires i < |s.calls|
  {
    s.(calls := s.calls[i := s.calls[i].(at := at)])
  }

  /** The loop test, and for try_pop the single test. */
  ghost function CheckStep<T>(s: System<T>, i: nat): System<T>
    requires i < |s.calls|
  {
    var op := s.calls[i].op;
    if MustWait(op, s.ring) then Move(s, i, Parked).(lock := None)
    else if op.TryPop? && s.ring.count == 0 then Move(s, i, Unlock(Empty))
    else Move(s, i, Body)
  }

  ghost function RunStep<T>(s: System<T>, i: nat): System<T>
    requires i < |s.calls| && Valid(s.ring)
    requires if s.calls[i].op.Push? then s.ring.count < Capacity(s.ring) else s.ring.count > 0
  {
    match s.calls[i].op
    case Push(x) =>
      Move(s, i, Signal(Pushed)).(ring := Enqueue(s.ring, x), pushed := s.pushed + [x])
    case _ =>
      var x := Front(s.ring);
      Move(s, i, Signal(Popped(x))).(ring := Dequeue(s.ring), popped := s.popped + [x])
  }

  ghost function Next<T>(s: System<T>, e: Event<T>): System<T>
    requires Inv(s) && Enabled(s, e)
  {
    match e
    case Enter(op) => s.(calls := s.calls + [Call(op, Entry)])
    case Acquire(i) => Move(s, i, Test).(lock := Some(i))
    case Check(i) => CheckStep(s, i)
    case Spurious(i) => Move(s, i, Woken)
    case Run(i) => RunStep(s, i)
    case Notify(i, target) =>
      var s' := Move(s, i, Unlock(s.calls[i].at.out));
      if target.Some? then Move(s', target.value, Woken) else s'
    case Release(i) => Move(s, i, Done(s.calls[i].at.out)).(lock := None)
  }

  /* Invariant */

  /** What the stage of a call says about the queue while that call holds the lock. */
  ghost predicate StageOk<T>(ring: Ring<T>, c: Call<T>) {
    && (c.at.Body? ==> if c.op.Push? then ring.count < Capacity(ring) else ring.count > 0)
    && (c.at.Parked? || c.at.Woken? ==> !c.op.TryPop?)
    && (c.at.Signal? ==> if c.op.Push? then c.at.out.Pushed? else c.at.out.Popped?)
    && (Past(c.at) ==> (c.at.out.Pushed? <==> c.op.Push?) && (c.at.out.Empty? ==> c.op.TryPop?))
  }

  /** The critical section of this call is behind it. */
  predicate Past<T>(at: Stage<T>) {
    at.Signal? || at.Unlock? || at.Done?
  }

  ghost predicate LockOk<T>(s: System<T>) {
    && (s.lock.Some? ==> s.lock.value < |s.calls|)
    && forall i :: 0 <= i < |s.calls| ==>
         (Holding(s.calls[i].at) <==> s.lock == Some(i)) && StageOk(s.ring, s.calls[i])
  }

  ghost function ParkedWeight<T>(push: bool): Call<T> -> nat {
    (c: Call<T>) => if ParkedFor(push, c) then 1 else 0
  }

  /** A call that was woken (or is testing) on this side, or that is about to send the signal. */
  predicate Serving<T>(push: bool, c: Call<T>) {
    || (Wakes(push, c.op) && (c.at.Woken? || c.at.Test? || c.at.Body?))
    || (c.at.Signal? && c.op.Push? == push)
  }

  ghost function ServingWeight<T>(push: bool): Call<T> -> nat {
    (c: Call<T>) => if Serving(push, c) then 1 else 0
  }

  /** What a push announces to consumers, and a pop to producers. */
  ghost function Offered<T>(push: bool, ring: Ring<T>): int {
    if push then ring.count else Capacity(ring) - ring.count
  }

  ghost predicate NoLostSignal<T>(s: System<T>, push: bool) {
    Sum(s.calls, ParkedWeight(push)) > 0 ==> Offered(push, s.ring) <= Sum(s.calls, ServingWeight(push))
  }

  /** Calls whose push (or pop) has taken effect. */
  ghost function PastWeight<T>(push: bool): Call<T> -> nat {
    (c: Call<T>) => if Past(c.at) && (if push then c.at.out.Pushed? else c.at.out.Popped?) then 1 else 0
  }

  ghost predicate Accounts<T>(s: System<T>) {
    && |s.pushed| == Sum(s.calls, PastWeight(true))
    && |s.popped| == Sum(s.calls, PastWeight(false))
  }

  ghost predicate Inv<T>(s: System<T>) {
    && Valid(s.ring)
    && LockOk(s)
    && s.pushed == s.popped + Contents(s.ring)
    && Accounts(s)
    && NoLostSignal(s, true)
    && NoLostSignal(s, false)
  }

  /* The invariant is kept by every step */

  lemma MoveSums<T>(s: System<T>, i: nat, at: Stage<T>, push: bool)
    requires i < |s.calls|
    ensures var c, c' := s.calls[i], s.calls[i].(at := at);
            var w, v := ParkedWeight<T>(push), ServingWeight<T>(push);
            && Sum(Move(s, i, at).calls, w) + w(c) == Sum(s.calls, w) + w(c')
            && Sum(Move(s, i, at).calls, v) + v(c) == Sum(s.calls, v) + v(c')
  {
    var c' := s.calls[i].(at := at);
    SumUpdate(s.calls, i, c', ParkedWeight(push));
    SumUpdate(s.calls, i, c', ServingWeight(push));
  }

  lemma EnterKeeps<T>(s: System<T>, op: Op<T>, push: bool)
    requires NoLostSignal(s, push)
    ensures NoLostSignal(s.(calls := s.calls + [Call(op, Entry)]), push)
  {
    var c := Call(op, Entry);
    SumAppend(s.calls, [c], ParkedWeight(push));
    SumAppend(s.calls, [c], ServingWeight(push));
    SumOne(c, ParkedWeight(push));
    SumOne(c, ServingWeight(push));
  }

  lemma MoveKeeps<T>(s: System<T>, e: Event<T>, push: bool)
    requires Inv(s) && Enabled(s, e) && (e.Acquire? || e.Spurious? || e.Release?)
    ensures NoLostSignal(Next(s, e), push)
  {
    hide Sum, Contents, Accounts, Valid;
    match e
    case Acquire(i) => MoveSums(s, i, Test, push);
    case Spurious(i) => MoveSums(s, i, Woken, push);
    case Release(i) => MoveSums(s, i, Done(s.calls[i].at.out), push);
  }

  lemma CheckKeeps<T>(s: System<T>, i: nat, push: bool)
    requires Inv(s) && Enabled(s, Check(i))
    ensures NoLostSignal(CheckStep(s, i), push)
  {
    hide Sum, Contents, Accounts, Valid;
    var op := s.calls[i].op;
    if MustWait(op, s.ring) {
      MoveSums(s, i, Parked, push);
    } else if op.TryPop? && s.ring.count == 0 {
      MoveSums(s, i, Unlock(Empty), push);
    } else {
      MoveSums(s, i, Body, push);
    }
  }

  lemma RunKeeps<T>(s: System<T>, i: nat, push: bool)
    requires Inv(s) && Enabled(s, Run(i))
    ensures NoLostSignal(RunStep(s, i), push)
  {
    hide Sum, Contents, Accounts;
    if s.calls[i].op.Push? {
      MoveSums(s, i, Signal(Pushed), push);
    } else {
      MoveSums(s, i, Signal(Popped(Front(s.ring))), push);
    }
  }

  lemma NotifyKeeps<T>(s: System<T>, i: nat, target: Option<nat>, push: bool)
    requires Inv(s) && Enabled(s, Notify(i, target))
    ensures NoLostSignal(Next(s, Notify(i, target)), push)
  {
    hide Sum, Contents, Accounts, Valid;
    var at := Unlock(s.calls[i].at.out);
    var s' := Move(s, i, at);
    MoveSums(s, i, at, push);
    if target.Some? {
      MoveSums(s', target.value, Woken, push);
    } else {
      SumPositive(s.calls, ParkedWeight(push));
    }
  }

  lemma SignalsKept<T>(s: System<T>, e: Event<T>, push: bool)
    requires Inv(s) && Enabled(s, e)
    ensures NoLostSignal(Next(s, e), push)
  {
    match e
    case Enter(op) => EnterKeeps(s, op, push);
    case Check(i) => CheckKeeps(s, i, push);
    case Run(i) => RunKeeps(s, i, push);
    case Notify(i, target) => NotifyKeeps(s, i, target, push);
    case _ => MoveKeeps(s, e, push);
  }

  lemma RingKept<T>(s: System<T>, e: Event<T>)
    requires Inv(s) && Enabled(s, e)
    ensures var s' := Next(s, e);
            && Valid(s'.ring) && Capacity(s'.ring) == Capacity(s.ring)
            && s'.pushed == s'.popped + Contents(s'.ring)
            && (!e.Run? ==> s'.ring == s.ring)
  {
    hide NoLostSignal, Accounts, Sum, Contents;
    if e.Run? {
      if s.calls[e.i].op.Push? {
        EnqueueAppends(s.ring, s.calls[e.i].op.item);
      } else {
        DequeueRemoves(s.ring);
      }
    }
  }

  lemma LockKept<T>(s: System<T>, e: Event<T>)
    requires Inv(s) && Enabled(s, e)
    ensures LockOk(Next(s, e))
  {
    hide Sum, Contents, NoLostSignal, Accounts;
    RingKept(s, e);
    var s' := Next(s, e);
    if !e.Enter? {
      assert Holding(s.calls[e.i].at) <==> s.lock == Some(e.i);
    }
    forall k | 0 <= k < |s'.calls|
      ensures (Holding(s'.calls[k].at) <==> s'.lock == Some(k)) && StageOk(s'.ring, s'.calls[k])
    {
      if k < |s.calls| {
        assert Holding(s.calls[k].at) <==> s.lock == Some(k);
      }
    }
  }

  lemma MovePast<T>(s: System<T>, i: nat, at: Stage<T>, push: bool)
    requires i < |s.calls|
    ensures Sum(Move(s, i, at).calls, PastWeight(push)) + PastWeight<T>(push)(s.calls[i])
            == Sum(s.calls, PastWeight(push)) + PastWeight<T>(push)(s.calls[i].(at := at))
  {
    SumUpdate(s.calls, i, s.calls[i].(at := at), PastWeight(push));
  }

  /** The items pushed (or popped) so far. */
  ghost function Moved<T>(s: System<T>, push: bool): seq<T> {
    if push then s.pushed else s.popped
  }

  lemma MoveCounts<T>(s: System<T>, e: Event<T>, push: bool)
    requires Inv(s) && Enabled(s, e) && (e.Acquire? || e.Spurious? || e.Release?)
    ensures Sum(Next(s, e).calls, PastWeight(push)) == Sum(s.calls, PastWeight(push))
  {
    hide Sum, Contents, NoLostSignal, Valid;
    match e
    case Acquire(i) => MovePast(s, i, Test, push);
    case Spurious(i) => MovePast(s, i, Woken, push);
    case Release(i) => MovePast(s, i, Done(s.calls[i].at.out), push);
  }

  lemma CheckCounts<T>(s: System<T>, i: nat, push: bool)
    requires Inv(s) && Enabled(s, Check(i))
    ensures Sum(CheckStep(s, i).calls, PastWeight(push)) == Sum(s.calls, PastWeight(push))
  {
    hide Sum, Contents, NoLostSignal, Valid;
    MovePast(s, i, Parked, push);
    MovePast(s, i, Unlock(Empty), push);
    MovePast(s, i, Body, push);
  }

  lemma NotifyCounts<T>(s: System<T>, i: nat, target: Option<nat>, push: bool)
    requires Inv(s) && Enabled(s, Notify(i, target))
    ensures Sum(Next(s, Notify(i, target)).calls, PastWeight(push)) == Sum(s.calls, PastWeight(push))
  {
    hide Sum, Contents, NoLostSignal, Valid;
    var at := Unlock(s.calls[i].at.out);
    MovePast(s, i, at, push);
    if target.Some? { MovePast(Move(s, i, at), target.value, Woken, push); }
  }

  lemma AccountKept<T>(s: System<T>, e: Event<T>, push: bool)
    requires Inv(s) && Enabled(s, e) && !e.Run?
    ensures Sum(Next(s, e).calls, PastWeight(push)) == Sum(s.calls, PastWeight(push))
  {
    match e
    case Enter(op) =>
      SumAppend(s.calls, [Call(op, Entry)], PastWeight(push));
      SumOne(Call(op, Entry), PastWeight(push));
    case Check(i) => CheckCounts(s, i, push);
    case Notify(i, target) => NotifyCounts(s, i, target, push);
    case _ => MoveCounts(s, e, push);
  }

  lemma RunCounts<T>(s: System<T>, i: nat, push: bool)
    requires Inv(s) && Enabled(s, Run(i))
    ensures Sum(RunStep(s, i).calls, PastWeight(push)) - |Moved(RunStep(s, i), push)|
            == Sum(s.calls, PastWeight(push)) - |Moved(s, push)|
  {
    if s.calls[i].op.Push? {
      MovePast(s, i, Signal(Pushed), push);
    } else {
      MovePast(s, i, Signal(Popped(Front(s.ring))), push);
    }
  }

  lemma AccountsKept<T>(s: System<T>, e: Event<T>)
    requires Inv(s) && Enabled(s, e)
    ensures Accounts(Next(s, e))
  {
    if e.Run? {
      RunCounts(s, e.i, true);
      RunCounts(s, e.i, false);
    } else {
      AccountKept(s, e, true);
      AccountKept(s, e, false);
    }
  }

  /** Every step of every caller keeps the invariant. */
  lemma StepKeeps<T>(s: System<T>, e: Event<T>)
    requires Inv(s) && Enabled(s, e)
    ensures Inv(Next(s, e))
    ensures Capacity(Next(s, e).ring) == Capacity(s.ring)
  {
    hide Next, NoLostSignal, LockOk, Accounts;
    RingKept(s, e);
    AccountsKept(s, e);
    LockKept(s, e);
    SignalsKept(s, e, true);
    SignalsKept(s, e, false);
  }

  /* Whole runs */

  ghost predicate Initial<T>(s: System<T>) {
    && Valid(s.ring) && s.ring.count == 0 && s.lock == None
    && s.calls == [] && s.pushed == [] && s.popped == []
  }

  /** The states a run of events goes through; events may be of any callers in any order. */
  ghost predicate Reaches<T>(s: System<T>, es: seq<Event<T>>, t: System<T>)
    requires Inv(s)
    decreases |es|
  {
    if es == [] then s == t
    else
      && Enabled(s, es[0])
      && (StepKeeps(s, es[0]); Reaches(Next(s, es[0]), es[1..], t))
  }

  lemma InitialInv<T>(s: System<T>)
    requires Initial(s)
    ensures Inv(s)
  {
  }

  lemma {:induction false} ReachesInv<T>(s: System<T>, es: seq<Event<T>>, t: System<T>)
    requires Inv(s) && Reaches(s, es, t)
    ensures Inv(t) && Capacity(t.ring) == Capacity(s.ring)
    decreases |es|
  {
    if es != [] {
      StepKeeps(s, es[0]);
      ReachesInv(Next(s, es[0]), es[1..], t);
    }
  }

  /** Pops leave in the order pushes entered, and nothing is lost or invented. */
  lemma Fifo<T>(s: System<T>, es: seq<Event<T>>, t: System<T>)
    requires Initial(s) && (InitialInv(s); Reaches(s, es, t))
    ensures Valid(t.ring) && t.pushed == t.popped + Contents(t.ring)
    ensures |t.popped| <= |t.pushed| <= |t.popped| + Capacity(s.ring)
  {
    InitialInv(s);
    ReachesInv(s, es, t);
  }

  /* What callers get */

  /** The item that a call has handed in (or out) by now. */
  ghost function Handed<T>(push: bool, c: Call<T>): multiset<T> {
    if !Past(c.at) then multiset{}
    else if push then if c.op.Push? then multiset{c.op.item} else multiset{}
    else if c.at.out.Popped? then multiset{c.at.out.item} else multiset{}
  }

  ghost function AllHanded<T>(push: bool, calls: seq<Call<T>>): multiset<T> {
    if calls == [] then multiset{}
    else AllHanded(push, calls[..|calls| - 1]) + Handed(push, calls[|calls| - 1])
  }

  lemma HandedLast<T>(push: bool, calls: seq<Call<T>>, c: Call<T>)
    ensures AllHanded(push, calls + [c]) == AllHanded(push, calls) + Handed(push, c)
  {
    assert (calls + [c])[..|calls|] == calls;
  }

  lemma Exchange<T>(a: multiset<T>, x: multiset<T>, b: multiset<T>, y: multiset<T>, z: multiset<T>)
    requires a + x == b + y
    ensures a + z + x == b + z + y
  {
    assert a + z + x == a + x + z && b + z + y == b + y + z;
  }

  lemma Cancel<T>(a: multiset<T>, b: multiset<T>, x: multiset<T>)
    requires a + x == b + x
    ensures a == b
  {
    assert a + x - x == a && b + x - x == b;
  }

  lemma {:induction false} HandedUpdate<T>(push: bool, calls: seq<Call<T>>, i: nat, c: Call<T>)
    requires i < |calls|
    ensures AllHanded(push, calls[i := c]) + Handed(push, calls[i]) == AllHanded(push, calls) + Handed(push, c)
    decreases |calls|
  {
    hide Handed;
    var n := |calls| - 1;
    if i < n {
      HandedUpdate(push, calls[..n], i, c);
      assert calls[i := c][..n] == calls[..n][i := c];
      Exchange(AllHanded(push, calls[..n][i := c]), Handed(push, calls[i]),
               AllHanded(push, calls[..n]), Handed(push, c), Handed(push, calls[n]));
    } else {
      assert calls[i := c][..n] == calls[..n];
    }
  }

  /** A call that has handed nothing new leaves the account as it was. */
  lemma HandedSame<T>(push: bool, s: System<T>, i: nat, at: Stage<T>)
    requires i < |s.calls| && Handed(push, s.calls[i].(at := at)) == Handed(push, s.calls[i])
    ensures AllHanded(push, Move(s, i, at).calls) == AllHanded(push, s.calls)
  {
    hide AllHanded, Handed;
    var c, c' := s.calls[i], s.calls[i].(at := at);
    HandedUpdate(push, s.calls, i, c');
    Cancel(AllHanded(push, Move(s, i, at).calls), AllHanded(push, s.calls), Handed(push, c));
  }

  lemma HandedNew<T>(push: bool, s: System<T>, i: nat, at: Stage<T>)
    requires i < |s.calls| && Handed(push, s.calls[i]) == multiset{}
    ensures AllHanded(push, Move(s, i, at).calls) == AllHanded(push, s.calls) + Handed(push, s.calls[i].(at := at))
  {
    hide AllHanded, Handed;
    HandedUpdate(push, s.calls, i, s.calls[i].(at := at));
  }

  ghost predicate Settled<T>(s: System<T>, push: bool) {
    multiset(if push then s.pushed else s.popped) == AllHanded(push, s.calls)
  }

  lemma StepSettles<T>(s: System<T>, e: Event<T>, push: bool)
    requires Inv(s) && Enabled(s, e) && Settled(s, push)
    ensures Settled(Next(s, e), push)
  {
    hide Inv, AllHanded, RunStep, CheckStep;
    match e
    case Enter(op) => HandedLast(push, s.calls, Call(op, Entry));
    case Check(i) => CheckSettles(s, i, push);
    case Run(i) => RunSettles(s, i, push);
    case Notify(i, target) => NotifySettles(s, i, target, push);
    case _ => MoveSettles(s, e, push);
  }

  lemma MoveSettles<T>(s: System<T>, e: Event<T>, push: bool)
    requires Inv(s) && Enabled(s, e) && (e.Acquire? || e.Spurious? || e.Release?) && Settled(s, push)
    ensures Settled(Next(s, e), push)
  {
    hide AllHanded, Inv, Handed;
    var i := e.i;
    var at := if e.Acquire? then Test else if e.Spurious? then Woken else Done(s.calls[i].at.out);
    NotYetHanded(push, s.calls[i], at);
    HandedSame(push, s, i, at);
  }

  /** Stages in front of the critical section have handed nothing; behind it the outcome stays. */
  lemma NotYetHanded<T>(push: bool, c: Call<T>, at: Stage<T>)
    ensures !Past(c.at) && !Past(at) ==> Handed(push, c.(at := at)) == Handed(push, c)
    ensures Past(c.at) && Past(at) && at.out == c.at.out ==> Handed(push, c.(at := at)) == Handed(push, c)
  {
  }

  lemma CheckSettles<T>(s: System<T>, i: nat, push: bool)
    requires Inv(s) && Enabled(s, Check(i)) && Settled(s, push)
    ensures Settled(CheckStep(s, i), push)
  {
    hide AllHanded, NoLostSignal, Accounts, Sum, Contents, Valid;
    var op := s.calls[i].op;
    if MustWait(op, s.ring) {
      HandedSame(push, s, i, Parked);
    } else if op.TryPop? && s.ring.count == 0 {
      HandedSame(push, s, i, Unlock(Empty));
    } else {
      HandedSame(push, s, i, Body);
    }
  }

  lemma NotifySettles<T>(s: System<T>, i: nat, target: Option<nat>, push: bool)
    requires Inv(s) && Enabled(s, Notify(i, target)) && Settled(s, push)
    ensures Settled(Next(s, Notify(i, target)), push)
  {
    hide AllHanded, NoLostSignal, Accounts, Sum, Contents, Valid;
    var at := Unlock(s.calls[i].at.out);
    HandedSame(push, s, i, at);
    if target.Some? { HandedSame(push, Move(s, i, at), target.value, Woken); }
  }

  lemma RunSettles<T>(s: System<T>, i: nat, push: bool)
    requires Inv(s) && Enabled(s, Run(i)) && Settled(s, push)
    ensures Settled(RunStep(s, i), push)
  {
    hide AllHanded, NoLostSignal, Accounts, Sum, Contents;
    if s.calls[i].op.Push? {
      HandedNew(push, s, i, Signal(Pushed));
    } else {
      HandedNew(push, s, i, Signal(Popped(Front(s.ring))));
    }
  }

  lemma {:induction false} ReachesSettled<T>(s: System<T>, es: seq<Event<T>>, t: System<T>, push: bool)
    requires Inv(s) && Reaches(s, es, t) && Settled(s, push)
    ensures Settled(t, push)
    decreases |es|
  {
    hide Inv, Enabled, Next, Settled;
    if es != [] {
      StepKeeps(s, es[0]);
      StepSettles(s, es[0], push);
      ReachesSettled(Next(s, es[0]), es[1..], t, push);
    }
  }

  /** The items that calls have got are exactly those popped, and the items that calls have put in
      are exactly those pushed. */
  lemma CallersGet<T>(s: System<T>, es: seq<Event<T>>, t: System<T>)
    requires Initial(s) && (InitialInv(s); Reaches(s, es, t))
    ensures multiset(t.popped) == AllHanded(false, t.calls)
    ensures multiset(t.pushed) == AllHanded(true, t.calls)
  {
    InitialInv(s);
    ReachesSettled(s, es, t, true);
    ReachesSettled(s, es, t, false);
  }

  /* What try_pop answers */

  /** The single test of try_pop: it gives up if and only if the queue is empty, and otherwise goes
      on to take the oldest item. */
  lemma TryTestsEmptiness<T>(s: System<T>, i: nat)
    requires Inv(s) && Enabled(s, Check(i)) && s.calls[i].op.TryPop?
    ensures var at := Next(s, Check(i)).calls[i].at;
            && (at == Unlock(Empty) <==> Contents(s.ring) == [])
            && (at == Body <==> Contents(s.ring) != [])
  {
    hide NoLostSignal, Accounts, Sum;
  }

  /** Waiting calls test what they need: a push room for one item, a pop one item. */
  lemma WaitTests<T>(s: System<T>, i: nat)
    requires Inv(s) && Enabled(s, Check(i)) && !s.calls[i].op.TryPop?
    ensures var at, n := Next(s, Check(i)).calls[i].at, |Contents(s.ring)|;
            && (at == Parked <==> if s.calls[i].op.Push? then n == Capacity(s.ring) else n == 0)
            && (at == Body <==> if s.calls[i].op.Push? then n < Capacity(s.ring) else n > 0)
  {
    hide NoLostSignal, Accounts, Sum;
  }

  /** A taking call hands out the oldest item, which leaves the queue. */
  lemma TakesOldest<T>(s: System<T>, i: nat)
    requires Inv(s) && Enabled(s, Run(i)) && !s.calls[i].op.Push?
    ensures Inv(Next(s, Run(i)))
    ensures var s' := Next(s, Run(i));
            && s'.calls[i].at.Signal? && s'.calls[i].at.out.Popped?
            && Contents(s.ring) == [s'.calls[i].at.out.item] + Contents(s'.ring)
  {
    hide NoLostSignal, Accounts, Sum, Contents, Dequeue, Front, Valid;
    StepKeeps(s, Run(i));
    DequeueRemoves(s.ring);
  }

  /** The state after the first n events. */
  ghost function After<T>(s: System<T>, es: seq<Event<T>>, t: System<T>, n: nat): System<T>
    requires Inv(s) && Reaches(s, es, t) && n <= |es|
    decreases |es|
  {
    if n == 0 then s
    else
      StepKeeps(s, es[0]);
      After(Next(s, es[0]), es[1..], t, n - 1)
  }

  ghost predicate SawEmpty<T>(s: System<T>, i: nat) {
    s.lock == Some(i) && s.pushed == s.popped
  }

  ghost predicate GaveUp<T>(s: System<T>, i: nat) {
    i < |s.calls| && Past(s.calls[i].at) && s.calls[i].at.out.Empty?
  }

  ghost predicate NotThrough<T>(s: System<T>, i: nat) {
    i < |s.calls| ==> !Past(s.calls[i].at)
  }

  /** A call that is through keeps its outcome. */
  lemma OutcomeStays<T>(s: System<T>, e: Event<T>, i: nat)
    requires Inv(s) && Enabled(s, e) && i < |s.calls| && Past(s.calls[i].at)
    ensures var s' := Next(s, e);
            i < |s'.calls| && Past(s'.calls[i].at) && s'.calls[i].at.out == s.calls[i].at.out
  {
    hide NoLostSignal, Accounts, Sum, Contents;
  }

  lemma {:induction false} OutcomeKept<T>(s: System<T>, es: seq<Event<T>>, t: System<T>, i: nat)
    requires Inv(s) && Reaches(s, es, t) && i < |s.calls| && Past(s.calls[i].at)
    ensures i < |t.calls| && Past(t.calls[i].at) && t.calls[i].at.out == s.calls[i].at.out
    decreases |es|
  {
    hide Inv, Enabled, Next;
    if es != [] {
      StepKeeps(s, es[0]);
      OutcomeStays(s, es[0], i);
      OutcomeKept(Next(s, es[0]), es[1..], t, i);
    }
  }

  /** A step that brings a call through: it was the test of an empty queue, or it moved an item. */
  lemma ComesThrough<T>(s: System<T>, e: Event<T>, i: nat)
    requires Inv(s) && Enabled(s, e) && NotThrough(s, i) && !NotThrough(Next(s, e), i)
    ensures Next(s, e).calls[i].at.out.Empty? ==> SawEmpty(s, i)
  {
    hide NoLostSignal, Accounts, Sum;
  }

  lemma {:induction false} GaveUpSince<T>(s: System<T>, es: seq<Event<T>>, t: System<T>, i: nat)
    requires Inv(s) && Reaches(s, es, t) && NotThrough(s, i) && GaveUp(t, i)
    ensures exists n: nat :: n <= |es| && SawEmpty(After(s, es, t, n), i)
    decreases |es|
  {
    hide Inv, Enabled, Next, SawEmpty;
    if es != [] {
      StepKeeps(s, es[0]);
      var s' := Next(s, es[0]);
      if NotThrough(s', i) {
        GaveUpSince(s', es[1..], t, i);
        var n: nat :| n <= |es[1..]| && SawEmpty(After(s', es[1..], t, n), i);
        assert After(s, es, t, n + 1) == After(s', es[1..], t, n);
      } else {
        OutcomeKept(s', es[1..], t, i);
        ComesThrough(s, es[0], i);
        assert After(s, es, t, 0) == s;
      }
    }
  }

  /** Over every run: a try_pop that reports an empty queue held the lock at a moment at which
      everything pushed had been popped. */
  lemma EmptyWasSeen<T>(s: System<T>, es: seq<Event<T>>, t: System<T>, i: nat)
    requires Initial(s) && (InitialInv(s); Reaches(s, es, t)) && GaveUp(t, i)
    ensures (InitialInv(s); exists n: nat :: n <= |es| && SawEmpty(After(s, es, t, n), i))
  {
    InitialInv(s);
    GaveUpSince(s, es, t, i);
  }

  /** The callers that have been woken on the side that a push (or a pop) serves. */
  ghost function WokenWeight<T>(push: bool): Call<T> -> nat {
    (c: Call<T>) => if c.at.Woken? && Wakes(push, c.op) then 1 else 0
  }

  ghost predicate SomeParked<T>(s: System<T>, push: bool) {
    exists i :: 0 <= i < |s.calls| && ParkedFor(push, s.calls[i])
  }

  /** With the lock free, parked consumers imply that every item already has a woken consumer
      on its way, and parked producers imply the same of every free slot. */
  lemma NoLostWakeup<T>(s: System<T>, es: seq<Event<T>>, t: System<T>, push: bool)
    requires Initial(s) && (InitialInv(s); Reaches(s, es, t))
    requires t.lock == None && SomeParked(t, push)
    ensures Offered(push, t.ring) <= Sum(t.calls, WokenWeight(push))
  {
    InitialInv(s);
    ReachesInv(s, es, t);
    SumPositive(t.calls, ParkedWeight(push));
    var i :| 0 <= i < |t.calls| && ParkedFor(push, t.calls[i]);
    assert ParkedWeight<T>(push)(t.calls[i]) > 0;
    forall k | 0 <= k < |t.calls|
      ensures ServingWeight<T>(push)(t.calls[k]) <= WokenWeight<T>(push)(t.calls[k])
    {
      assert !Holding(t.calls[k].at);
    }
    SumLe(t.calls, ServingWeight(push), WokenWeight(push));
  }

  /* Every run ends */

  /** An upper bound on the steps a call can still make without further wakeups. */
  function Rank<T>(c: Call<T>): nat {
    match c.at
    case Entry => 8
    case Woken => 7
    case Test => 6
    case Body => 5
    case Parked => 5
    case Signal(_) => 4
    case Unlock(_) => 1
    case Done(_) => 0
  }

  ghost function RankWeight<T>(): Call<T> -> nat { (c: Call<T>) => Rank(c) }

  ghost function Potential<T>(s: System<T>): nat { Sum(s.calls, RankWeight()) }

  lemma MovePotential<T>(s: System<T>, i: nat, at: Stage<T>)
    requires i < |s.calls|
    ensures Potential(Move(s, i, at)) + Rank(s.calls[i]) == Potential(s) + Rank(s.calls[i].(at := at))
  {
    SumUpdate(s.calls, i, s.calls[i].(at := at), RankWeight());
  }

  ghost function Budget<T>(e: Event<T>): nat {
    if e.Enter? then 9 else if e.Spurious? then 3 else 0
  }

  /** A step that is neither a new call nor a spurious wakeup lowers the potential. */
  lemma StepCosts<T>(s: System<T>, e: Event<T>)
    requires Inv(s) && Enabled(s, e)
    ensures Potential(Next(s, e)) + 1 <= Potential(s) + Budget(e)
  {
    hide NoLostSignal, Accounts, Contents, Sum;
    match e
    case Enter(op) =>
      SumAppend(s.calls, [Call(op, Entry)], RankWeight());
      SumOne(Call(op, Entry), RankWeight());
    case Acquire(i) => MovePotential(s, i, Test);
    case Check(i) =>
      MovePotential(s, i, Parked);
      MovePotential(s, i, Unlock(Empty));
      MovePotential(s, i, Body);
    case Spurious(i) => MovePotential(s, i, Woken);
    case Run(i) =>
      if s.calls[i].op.Push? {
        MovePotential(s, i, Signal(Pushed));
      } else {
        MovePotential(s, i, Signal(Popped(Front(s.ring))));
      }
    case Notify(i, target) =>
      var at := Unlock(s.calls[i].at.out);
      MovePotential(s, i, at);
      if target.Some? { MovePotential(Move(s, i, at), target.value, Woken); }
    case Release(i) => MovePotential(s, i, Done(s.calls[i].at.out));
  }

  ghost function BudgetWeight<T>(): Event<T> -> nat { (e: Event<T>) => Budget(e) }

  /** The length of a run is bounded by the calls made and the spurious wakeups in it. */
  lemma {:induction false} RunsEnd<T>(s: System<T>, es: seq<Event<T>>, t: System<T>)
    requires Inv(s) && Reaches(s, es, t)
    ensures |es| + Potential(t) <= Potential(s) + Sum(es, BudgetWeight())
    decreases |es|
  {
    if es != [] {
      var s' := Next(s, es[0]);
      StepKeeps(s, es[0]);
      StepCosts(s, es[0]);
      RunsEnd(s', es[1..], t);
      assert es == [es[0]] + es[1..];
      SumAppend([es[0]], es[1..], BudgetWeight());
      SumOne(es[0], BudgetWeight());
    }
  }

  /* Where runs end */

  /** Nothing can happen except new calls and spurious wakeups. */
  ghost predicate Quiet<T(!new)>(s: System<T>) {
    forall e :: Enabled(s, e) ==> e.Enter? || e.Spurious?
  }

  /** The holder of the lock always has a next step. */
  lemma HolderMoves<T>(s: System<T>) returns (e: Event<T>)
    requires LockOk(s) && s.lock.Some?
    ensures Enabled(s, e) && !e.Enter? && !e.Spurious?
  {
    var h := s.lock.value;
    var c := s.calls[h];
    assert Holding(c.at);
    if c.at.Test? {
      e := Check(h);
    } else if c.at.Body? {
      e := Run(h);
    } else if c.at.Unlock? {
      e := Release(h);
    } else if j: nat :| j < |s.calls| && ParkedFor(c.op.Push?, s.calls[j]) {
      e := Notify(h, Some(j));
    } else {
      e := Notify(h, None);
    }
  }

  lemma QuietShape<T(!new)>(s: System<T>, i: nat)
    requires Inv(s) && Quiet(s) && i < |s.calls|
    ensures s.lock == None
    ensures s.calls[i].at.Done? || s.calls[i].at.Parked?
  {
    if s.lock.Some? {
      var e := HolderMoves(s);
    } else {
      assert s.calls[i].at.Entry? || s.calls[i].at.Woken? ==> Enabled(s, Acquire(i));
      assert Holding(s.calls[i].at) <==> s.lock == Some(i);
    }
  }

  /** When a run has ended, a parked consumer means an empty queue and a parked producer a full one. */
  lemma QuietParked<T(!new)>(s: System<T>, push: bool)
    requires Inv(s) && Quiet(s) && SomeParked(s, push)
    ensures Offered(push, s.ring) == 0
  {
    SumPositive(s.calls, ParkedWeight(push));
    var i :| 0 <= i < |s.calls| && ParkedFor(push, s.calls[i]);
    assert ParkedWeight<T>(push)(s.calls[i]) > 0;
    forall k | 0 <= k < |s.calls|
      ensures ServingWeight<T>(push)(s.calls[k]) == 0
    {
      QuietShape(s, k);
    }
    SumPositive(s.calls, ServingWeight(push));
    assert NoLostSignal(s, push);
  }

  /** With room for at least one item, producers and consumers are never all left waiting. */
  lemma NeverBothParked<T(!new)>(s: System<T>, es: seq<Event<T>>, t: System<T>)
    requires Initial(s) && (InitialInv(s); Reaches(s, es, t)) && Quiet(t)
    requires Capacity(s.ring) >= 1
    ensures !(SomeParked(t, true) && SomeParked(t, false))
  {
    InitialInv(s);
    ReachesInv(s, es, t);
    if SomeParked(t, true) && SomeParked(t, false) {
      QuietParked(t, true);
      QuietParked(t, false);
    }
  }

  ghost function KindWeight<T>(push: bool): Call<T> -> nat {
    (c: Call<T>) => if (if push then c.op.Push? else c.op.Pop?) then 1 else 0
  }

  /** The calls of try_pop that got an item. */
  ghost function TriedWeight<T>(): Call<T> -> nat {
    (c: Call<T>) => if c.op.TryPop? && Past(c.at) && c.at.out.Popped? then 1 else 0
  }

  /** Calls that push (or take) unless they wait for ever. */
  ghost function WillingWeight<T>(push: bool): Call<T> -> nat {
    (c: Call<T>) =>
      if push then if c.op.Push? then 1 else 0
      else if c.op.Pop? || (c.op.TryPop? && Past(c.at) && c.at.out.Popped?) then 1 else 0
  }

  lemma QuietKinds<T(!new)>(s: System<T>, push: bool)
    requires Inv(s) && Quiet(s)
    ensures Sum(s.calls, KindWeight(push)) + (if push then 0 else Sum(s.calls, TriedWeight()))
            == Sum(s.calls, PastWeight(push)) + Sum(s.calls, ParkedWeight(!push))
  {
    forall i | 0 <= i < |s.calls|
      ensures WillingWeight<T>(push)(s.calls[i])
              == PastWeight<T>(push)(s.calls[i]) + ParkedWeight<T>(!push)(s.calls[i])
    {
      QuietShape(s, i);
      assert StageOk(s.ring, s.calls[i]);
    }
    SumPlus(s.calls, PastWeight(push), ParkedWeight(!push), WillingWeight(push));
    if push {
      SumLe(s.calls, WillingWeight(push), KindWeight(push));
      SumLe(s.calls, KindWeight(push), WillingWeight(push));
    } else {
      SumPlus(s.calls, KindWeight(push), TriedWeight(), WillingWeight(push));
    }
  }

  /** However the calls interleave, the numbers of pushes and pops that complete depend only on
      the calls made and on how many calls of try_pop got an item. */
  lemma OutcomeIsDetermined<T(!new)>(s: System<T>, es: seq<Event<T>>, t: System<T>)
    requires Initial(s) && (InitialInv(s); Reaches(s, es, t)) && Quiet(t)
    requires Capacity(s.ring) >= 1
    ensures var pushes := Sum(t.calls, KindWeight(true));
            var takers := Sum(t.calls, KindWeight(false)) + Sum(t.calls, TriedWeight());
            var room := takers + Capacity(s.ring);
            && |t.pushed| == (if pushes <= room then pushes else room)
            && |t.popped| == (if takers <= pushes then takers else pushes)
  {
    InitialInv(s);
    ReachesInv(s, es, t);
    QuietKinds(t, true);
    QuietKinds(t, false);
    NeverBothParked(s, es, t);
    if Sum(t.calls, ParkedWeight(true)) > 0 {
      ParkedExists(t, true);
      QuietParked(t, true);
    }
    if Sum(t.calls, ParkedWeight(false)) > 0 {
      ParkedExists(t, false);
      QuietParked(t, false);
    }
  }

  lemma ParkedExists<T>(s: System<T>, push: bool)
    requires Sum(s.calls, ParkedWeight(push)) > 0
    ensures SomeParked(s, push)
  {
    SumPositive(s.calls, ParkedWeight(push));
    var i :| 0 <= i < |s.calls| && ParkedWeight<T>(push)(s.calls[i]) > 0;
    assert ParkedFor(push, s.calls[i]);
  }

  /** Without room, one push and one pop wait for each other for ever. */
  lemma BothParkedWithoutRoom<T(!new)>(s: System<T>, x: T) returns (es: seq<Event<T>>, t: System<T>)
    requires Initial(s) && Capacity(s.ring) == 0
    ensures Inv(s) && Reaches(s, es, t) && Quiet(t)
    ensures SomeParked(t, true) && SomeParked(t, false)
  {
    InitialInv(s);
    assert Reaches(s, [], s);
    hide Inv, Reaches, Next;
    es, t := ParkNext(s, [], s, Push(x));
    es, t := ParkNext(s, es, t, Pop);
    assert t.calls == [Call(Push(x), Parked), Call(Pop, Parked)];
    assert ParkedFor(true, t.calls[1]) && ParkedFor(false, t.calls[0]);
  }

  /** Without room nothing ever moves: no run completes a push or a pop. */
  lemma NothingWithoutRoom<T>(s: System<T>, es: seq<Event<T>>, t: System<T>)
    requires Initial(s) && (InitialInv(s); Reaches(s, es, t)) && Capacity(s.ring) == 0
    ensures t.pushed == [] && t.popped == []
    ensures forall i :: 0 <= i < |t.calls| && Past(t.calls[i].at) ==> t.calls[i].op.TryPop? && t.calls[i].at.out.Empty?
  {
    InitialInv(s);
    ReachesInv(s, es, t);
    NothingMoves(s, es, t);
    if i :| 0 <= i < |t.calls| && Past(t.calls[i].at) && !t.calls[i].at.out.Empty? {
      SumPositive(t.calls, PastWeight(t.calls[i].at.out.Pushed?));
      assert PastWeight<T>(t.calls[i].at.out.Pushed?)(t.calls[i]) > 0;
    }
  }

  lemma {:induction false} NothingMoves<T>(s: System<T>, es: seq<Event<T>>, t: System<T>)
    requires Inv(s) && Reaches(s, es, t) && Capacity(s.ring) == 0 && s.pushed == [] && s.popped == []
    ensures t.pushed == [] && t.popped == []
    decreases |es|
  {
    if es != [] {
      StepKeeps(s, es[0]);
      NoRoom(s, es[0]);
      NothingMoves(Next(s, es[0]), es[1..], t);
    }
  }

  lemma NoRoom<T>(s: System<T>, e: Event<T>)
    requires Inv(s) && Enabled(s, e) && Capacity(s.ring) == 0
    ensures !e.Run? && Next(s, e).ring == s.ring
    ensures Next(s, e).pushed == s.pushed && Next(s, e).popped == s.popped
  {
    hide NoLostSignal, Accounts, Sum, Contents;
  }

  /** A new call that must wait enters, takes the lock and parks. */
  lemma ParkNext<T>(s: System<T>, es: seq<Event<T>>, t: System<T>, op: Op<T>)
    returns (es': seq<Event<T>>, t': System<T>)
    requires Inv(s) && Reaches(s, es, t) && Inv(t) && t.lock == None && MustWait(op, t.ring)
    ensures Inv(t') && Reaches(s, es', t')
    ensures t' == t.(calls := t.calls + [Call(op, Parked)])
  {
    hide Reaches, Inv;
    var n := |t.calls|;
    var t1, t2, t3;
    es', t1 := Extend(s, es, t, Enter(op));
    es', t2 := Extend(s, es', t1, Acquire(n));
    es', t3 := Extend(s, es', t2, Check(n));
    assert t3.calls == t.calls + [Call(op, Parked)];
    t' := t3;
  }

  /** A run followed by one more step is a run. */
  lemma {:induction false} Extend<T>(s: System<T>, es: seq<Event<T>>, t: System<T>, e: Event<T>)
    returns (es': seq<Event<T>>, t': System<T>)
    requires Inv(s) && Reaches(s, es, t) && Inv(t) && Enabled(t, e)
    ensures es' == es + [e] && t' == Next(t, e) && Inv(t') && Reaches(s, es', t')
    decreases |es|
  {
    hide Inv, Enabled, Next;
    es', t' := es + [e], Next(t, e);
    StepKeeps(t, e);
    if es == [] {
      assert Reaches(t', [], t');
    } else {
      StepKeeps(s, es[0]);
      var rest, _ := Extend(Next(s, es[0]), es[1..], t, e);
      assert es'[0] == es[0] && es'[1..] == rest;
    }
  }
}
