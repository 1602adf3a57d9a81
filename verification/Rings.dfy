/** The ring of positions of the last events of a stream. */
module Rings {
  import opened Event

  function Min(a: nat, b: nat): nat {
    if a <= b then a else b
  }

  class Ring {
    const size: nat
    const ev: array<int>
    var head: nat
    var tail: nat

    constructor (size: nat)
      requires size > 0
      ensures this.size == size && fresh(ev) && Shape()
    {
      this.size := size;
      ev := new int[size];
      head, tail := 0, 0;
    }

    ghost predicate Shape() {
      size > 0 && ev.Length == size
    }

    /** How many of k events the ring keeps. */
    function Kept(k: nat): nat
      requires size > 0
    {
      Min(k, size - 1)
    }

    /** The i-th slot after the head, going round. */
    function Slot(i: nat): nat
      reads this`head
    {
      if head + i < size then head + i else head + i - size
    }

    /** The ring after k events: the last Kept(k) of the positions p, in order, in the slots
        from head to tail. */
    ghost predicate HoldsLast(p: seq<int>, k: nat)
      reads this, ev
      requires k <= |p|
    {
      && Shape()
      && head < size
      && tail == Slot(Kept(k))
      && (k < size ==> head == 0)
      && forall i :: 0 <= i < Kept(k) ==> ev[Slot(i)] == p[k - Kept(k) + i]
    }

    /** ring_reset */
    method Reset()
      requires Shape()
      modifies this
      ensures head == 0 && tail == 0
      ensures forall p :: HoldsLast(p, 0)
    {
      head, tail := 0, 0;
    }

    /** ring_add */
    method Add(pos: int, ghost p: seq<int>, ghost k: nat)
      requires k < |p| && HoldsLast(p, k) && pos == p[k]
      modifies this, ev
      ensures HoldsLast(p, k + 1)
    {
      ghost var c := Kept(k);
      ghost var moved := if k < size - 1 then 0 else 1;
      ev[tail] := pos;
      tail := tail + 1;
      if tail >= size {
        tail := 0;
      }
      if head == tail {
        head := tail + 1;
      }
      if head >= size {
        head := 0;
      }
      forall j | 0 <= j < Kept(k + 1)
        ensures ev[Slot(j)] == p[k + 1 - Kept(k + 1) + j]
      {
        assert Slot(j) == old(Slot(j + moved));
        if j + moved < c {
          assert old(ev[Slot(j + moved)]) == p[k - c + (j + moved)];
        }
      }
    }

    /** find_destination: the slot of the newest event with a clock below the given one; or
        the first slot if the ring still holds all the events; or -1. */
    method FindDestination(b: seq<Byte>, clock: nat, ghost p: seq<int>, ghost k: nat)
      returns (r: int, died: bool, ghost d: nat)
      requires 0 < k <= |p| && HoldsLast(p, k)
      ensures !died
      ensures r == -1 <==> k >= size - 1 && forall e :: k - Kept(k) <= e < k ==> EvClock(b, p[e]) >= clock
      ensures r != -1 ==> k - Kept(k) <= d < k && r == Slot(d - (k - Kept(k)))
      ensures r != -1 ==> forall e :: d < e < k ==> EvClock(b, p[e]) >= clock
      ensures r != -1 ==> EvClock(b, p[d]) < clock || d == 0
    {
      d := 0;
      ghost var c := Kept(k);
      var nback := 0;
      var i := if tail >= 1 then tail - 1 else size - 1;
      var end := if head >= 1 then head - 1 else size - 1;
      while i != end
        invariant nback <= c
        invariant if nback < c then i == Slot(c - nback - 1) else i == end
        invariant forall e :: k - nback <= e < k ==> EvClock(b, p[e]) >= clock
        decreases c - nback
      {
        d := k - nback - 1;
        assert ev[Slot(c - nback - 1)] == p[k - c + (c - nback - 1)] == p[d];
        if EvClock(b, ev[i]) < clock {
          assert k - Kept(k) <= d < k && EvClock(b, p[d]) < clock;
          return i, false, d;
        }
        nback := nback + 1;
        i := if i == 0 then size - 1 else i - 1;
      }
      assert nback == c;
      if nback < size - 1 {
        if head != 0 || tail >= size - 1 {
          return -1, true, d;
        }
        return head, false, 0;
      }
      return -1, false, d;
    }

    /** rebuild_ring: from slot start on, the positions of the events from first to last. */
    method Rebuild(b: seq<Byte>, start: nat, first: int, last: int,
                   ghost p: seq<int>, ghost q: seq<int>, ghost d: nat, ghost k: nat)
      returns (died: bool)
      requires k < |p| == |q| && HoldsLast(p, k)
      requires k - Kept(k) <= d < k && start == Slot(d - (k - Kept(k)))
      requires first == q[d] && last == q[k]
      requires forall e :: 0 <= e < d ==> q[e] == p[e]
      requires forall e :: d <= e < k ==> q[e] + EvSize(b, q[e]) == q[e + 1] && q[e] < last
      modifies ev
      ensures !died && HoldsLast(q, k)
    {
      ghost var base := k - Kept(k);
      var pos := first;
      var i := start;
      ghost var n := d - base;
      while i != tail
        invariant d - base <= n <= Kept(k) && i == Slot(n) && pos == q[base + n]
        invariant forall j :: 0 <= j < n ==> ev[Slot(j)] == q[base + j]
        decreases Kept(k) - n
      {
        if pos >= last {
          return true;
        }
        ev[i] := pos;
        pos := pos + EvSize(b, pos);
        i := if i + 1 >= size then 0 else i + 1;
        n := n + 1;
      }
      if pos != last {
        return true;
      }
      return false;
    }

    /** ring_check: dies exactly if the clocks from slot start on go back. */
    method Check(b: seq<Byte>, start: nat, ghost p: seq<int>, ghost d: nat, ghost k: nat)
      returns (died: bool)
      requires k <= |p| && HoldsLast(p, k)
      requires k - Kept(k) <= d < k && start == Slot(d - (k - Kept(k)))
      ensures died <==> exists i :: d < i < k && EvClock(b, p[i - 1]) > EvClock(b, p[i])
    {
      ghost var base := k - Kept(k);
      var lastClock := 0;
      var i := start;
      ghost var n := d - base;
      while i != tail
        invariant d - base <= n <= Kept(k) && i == Slot(n)
        invariant lastClock == if n > d - base then EvClock(b, p[base + n - 1]) else 0
        invariant forall j :: d < j < base + n ==> EvClock(b, p[j - 1]) <= EvClock(b, p[j])
        decreases Kept(k) - n
      {
        assert ev[Slot(n)] == p[base + n];
        var clock := EvClock(b, ev[i]);
        if clock < lastClock {
          assert d < base + n < k && EvClock(b, p[base + n - 1]) > EvClock(b, p[base + n]);
          return true;
        }
        lastClock := clock;
        i := if i + 1 >= size then 0 else i + 1;
        n := n + 1;
      }
      return false;
    }
  }
}
