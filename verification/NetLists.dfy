/**
 The lists of the network simulator: the stable ordered insertion, the packets for one
 address, and the line of an endpoint: what it received, what waits there, what is on its way.
 */
module NetLists {
  import opened Bits
  import opened Tally
  import opened NetModel

  /** Earlier due, or due together and enqueued earlier. */
  ghost predicate Before(p: Packet, q: Packet) {
    p.d.due < q.d.due || (p.d.due == q.d.due && p.id < q.id)
  }

  ghost predicate Sorted(ps: seq<Packet>) {
    forall i, j :: 0 <= i < j < |ps| ==> Before(ps[i], ps[j])
  }

  ghost predicate AllBefore(ps: seq<Packet>, qs: seq<Packet>) {
    forall i, j :: 0 <= i < |ps| && 0 <= j < |qs| ==> Before(ps[i], qs[j])
  }

  lemma SortedParts(ps: seq<Packet>, qs: seq<Packet>)
    ensures Sorted(ps + qs) <==> Sorted(ps) && Sorted(qs) && AllBefore(ps, qs)
  {
    var s := ps + qs;
    if Sorted(s) {
      forall i, j | 0 <= i < j < |qs| ensures Before(qs[i], qs[j]) {
        assert qs[i] == s[|ps| + i] && qs[j] == s[|ps| + j];
      }
      forall i, j | 0 <= i < |ps| && 0 <= j < |qs| ensures Before(ps[i], qs[j]) {
        assert ps[i] == s[i] && qs[j] == s[|ps| + j];
      }
      forall i, j | 0 <= i < j < |ps| ensures Before(ps[i], ps[j]) {
        assert ps[i] == s[i] && ps[j] == s[j];
      }
    }
  }

  /** The position is the only one between those due no later and those due later. */
  lemma PositionUnique(ps: seq<Packet>, due: nat, k: nat)
    requires k <= |ps| && (k < |ps| ==> due < ps[k].d.due)
    requires forall i :: 0 <= i < k ==> ps[i].d.due <= due
    ensures Position(ps, due) == k
  {
  }

  /** The first endpoint with an address is found by its position. */
  lemma FindUnique(ports: seq<Port>, a: Addr, n: nat)
    requires n <= |ports| && (n < |ports| ==> ports[n].addr == a)
    requires forall i :: 0 <= i < n ==> ports[i].addr != a
    ensures Find(ports, a) == n
  {
  }

  /** Insertion keeps the list sorted when the new packet has the highest number. */
  lemma InsertSorted(ps: seq<Packet>, p: Packet)
    requires Sorted(ps) && forall i :: 0 <= i < |ps| ==> ps[i].id < p.id
    ensures Sorted(Insert(ps, p))
  {
    hide Sorted, AllBefore;
    var k := Position(ps, p.d.due);
    assert ps == ps[..k] + ps[k..];
    SortedParts(ps[..k], ps[k..]);
    LatePart(ps, p);
    assert AllBefore(ps[..k], [p]) by { EarlyPart(ps, p); }
    BetweenSorted(ps[..k], p, ps[k..]);
  }

  lemma LatePart(ps: seq<Packet>, p: Packet)
    requires Sorted(ps)
    ensures AllBefore([p], ps[Position(ps, p.d.due)..])
  {
    var k := Position(ps, p.d.due);
    var late := ps[k..];
    forall j | 0 <= j < |late| ensures Before(p, late[j]) {
      assert j > 0 ==> Before(ps[k], ps[k + j]);
    }
  }

  lemma EarlyPart(ps: seq<Packet>, p: Packet)
    requires forall i :: 0 <= i < |ps| ==> ps[i].id < p.id
    ensures AllBefore(ps[..Position(ps, p.d.due)], [p])
  {
  }

  lemma BetweenSorted(ps: seq<Packet>, p: Packet, qs: seq<Packet>)
    requires Sorted(ps) && Sorted(qs) && AllBefore(ps, qs) && AllBefore(ps, [p]) && AllBefore([p], qs)
    ensures Sorted(ps + [p] + qs)
  {
    SortedParts([p], qs);
    assert AllBefore(ps, [p] + qs);
    SortedParts(ps, [p] + qs);
    assert ps + [p] + qs == ps + ([p] + qs);
  }

  lemma {:induction false} ForAppend(ps: seq<Packet>, qs: seq<Packet>, a: Addr)
    ensures For(ps + qs, a) == For(ps, a) + For(qs, a)
    decreases |qs|
  {
    if qs == [] {
      assert ps + qs == ps;
    } else {
      var n := |qs| - 1;
      assert (ps + qs)[..|ps + qs| - 1] == ps + qs[..n];
      ForAppend(ps, qs[..n], a);
    }
  }

  lemma ForOne(p: Packet, a: Addr)
    ensures For([p], a) == if p.d.dest == a then [p] else []
  {
    assert [p][..0] == [];
  }

  /** The head of the list is the head for its own address. */
  lemma ForHead(ps: seq<Packet>, a: Addr)
    requires ps != []
    ensures For(ps, a) == (if ps[0].d.dest == a then [ps[0]] else []) + For(ps[1..], a)
  {
    assert ps == [ps[0]] + ps[1..];
    ForAppend([ps[0]], ps[1..], a);
    ForOne(ps[0], a);
  }

  /** For every other address insertion changes nothing. */
  lemma ForInsert(ps: seq<Packet>, p: Packet, a: Addr)
    ensures var k := Position(ps, p.d.due);
            && For(ps, a) == For(ps[..k], a) + For(ps[k..], a)
            && For(Insert(ps, p), a) == For(ps[..k], a) + (if p.d.dest == a then [p] else []) + For(ps[k..], a)
  {
    var k := Position(ps, p.d.due);
    assert ps == ps[..k] + ps[k..];
    ForAppend(ps[..k], ps[k..], a);
    ForAppend(ps[..k] + [p], ps[k..], a);
    ForAppend(ps[..k], [p], a);
    ForOne(p, a);
  }

  lemma {:induction false} ForMembers(ps: seq<Packet>, a: Addr)
    ensures forall i :: 0 <= i < |For(ps, a)| ==> For(ps, a)[i] in ps && For(ps, a)[i].d.dest == a
  {
    if ps != [] {
      var n := |ps| - 1;
      ForMembers(ps[..n], a);
      forall i | 0 <= i < |For(ps, a)| ensures For(ps, a)[i] in ps && For(ps, a)[i].d.dest == a {
        if i < |For(ps[..n], a)| {
          assert For(ps, a)[i] == For(ps[..n], a)[i];
          assert For(ps, a)[i] in ps[..n];
        } else {
          assert For(ps, a)[i] == ps[n];
        }
      }
    }
  }

  lemma {:induction false} ForNone(ps: seq<Packet>, a: Addr)
    requires forall i :: 0 <= i < |ps| ==> ps[i].d.dest != a
    ensures For(ps, a) == []
  {
    if ps != [] { ForNone(ps[..|ps| - 1], a); }
  }

  /** Scrubbing an address removes all of its packets and none of any other. */
  lemma {:induction false} NotForSplits(ps: seq<Packet>, a: Addr, b: Addr)
    ensures For(NotFor(ps, a), b) == if a == b then [] else For(ps, b)
    ensures |ps| == |For(ps, a)| + |NotFor(ps, a)|
  {
    if ps != [] {
      var n := |ps| - 1;
      var qs := NotFor(ps[..n], a);
      NotForSplits(ps[..n], a, b);
      ForAppend(qs, [ps[n]], b);
      ForOne(ps[n], b);
      if ps[n].d.dest == a {
        assert NotFor(ps, a) == qs;
      } else {
        assert NotFor(ps, a) == qs + [ps[n]];
      }
    }
  }

  lemma {:induction false} NotForMembers(ps: seq<Packet>, a: Addr)
    ensures forall i :: 0 <= i < |NotFor(ps, a)| ==> NotFor(ps, a)[i] in ps && NotFor(ps, a)[i].d.dest != a
  {
    if ps != [] {
      var n := |ps| - 1;
      var qs := NotFor(ps[..n], a);
      NotForMembers(ps[..n], a);
      forall i | 0 <= i < |NotFor(ps, a)| ensures NotFor(ps, a)[i] in ps && NotFor(ps, a)[i].d.dest != a {
        if i < |qs| {
          assert NotFor(ps, a)[i] == qs[i];
          assert qs[i] in ps[..n];
        } else {
          assert NotFor(ps, a)[i] == ps[n];
        }
      }
    }
  }

  lemma {:induction false} NotForSorted(ps: seq<Packet>, a: Addr)
    requires Sorted(ps)
    ensures Sorted(NotFor(ps, a))
  {
    if ps != [] {
      var n := |ps| - 1;
      var qs := NotFor(ps[..n], a);
      assert Sorted(ps[..n]) by {
        assert ps == ps[..n] + [ps[n]];
        SortedParts(ps[..n], [ps[n]]);
      }
      NotForSorted(ps[..n], a);
      NotForMembers(ps[..n], a);
      assert AllBefore(qs, [ps[n]]) by {
        forall i | 0 <= i < |qs| ensures Before(qs[i], ps[n]) {
          var j :| 0 <= j < n && ps[j] == qs[i];
        }
      }
      assert Sorted([ps[n]]);
      SortedParts(qs, [ps[n]]);
    }
  }

  /** Corruption changes exactly one byte, and the same flip takes it back. */
  lemma FlipUndone(payload: seq<Byte>, bit: nat)
    requires bit < 8 * |payload|
    ensures Flip(Flip(payload, bit), bit) == payload
    ensures forall i :: 0 <= i < |payload| ==> (Flip(payload, bit)[i] != payload[i] <==> i == bit / 8)
  {
    hide Xor;
    var x, m := payload[bit / 8], Pow2(bit % 8);
    FlipFits(x, bit % 8);
    XorAssoc(x, m, m);
    XorAssoc(x, x, m);
    XorSelf(m);
    XorSelf(x);
    XorSymmetric(0, m);
    XorZero(x);
    XorZero(m);
  }

  lemma XorZero(a: nat)
    ensures Xor(a, 0) == a
  {
  }

  lemma BytesAppend(ps: seq<Packet>, qs: seq<Packet>)
    ensures Bytes(ps + qs) == Bytes(ps) + Bytes(qs)
  {
    SumAppend(ps, qs, Length());
  }

  lemma BytesOne(p: Packet)
    ensures Bytes([p]) == |p.d.payload|
  {
    SumOne(p, Length());
  }

  /** Received, then ready, then pending for the endpoint. */
  ghost function Line(e: Port, pending: seq<Packet>): seq<Packet> {
    e.got + e.ready + For(pending, e.addr)
  }
}
