/** Sorting a run of variable-size records by clock: count, index, sort the index, copy. */
module SortBuf {
  import opened Event
  import opened SortSpec

  /** The records seg are stored in b from src on. */
  ghost predicate Stored(b: seq<Byte>, src: nat, seg: seq<Ev>) {
    src + |Flatten(seg)| <= |b| && b[src..src + |Flatten(seg)|] == Flatten(seg)
  }

  ghost function At(src: nat, seg: seq<Ev>, j: nat): nat
    requires j <= |seg|
  {
    src + Off(seg, j)
  }

  lemma {:induction false} StoredEvent(b: seq<Byte>, src: nat, seg: seq<Ev>, j: nat)
    requires Stored(b, src, seg) && j < |seg|
    ensures At(src, seg, j) + |seg[j]| == At(src, seg, j + 1) <= src + |Flatten(seg)|
    ensures b[At(src, seg, j)..At(src, seg, j + 1)] == seg[j]
    ensures EvSize(b, At(src, seg, j)) == |seg[j]|
    ensures EvClock(b, At(src, seg, j)) == Clock(seg[j])
  {
    hide Flatten, EvSize, EvClock, Clock;
    RecordAt(seg, j);
    var o := At(src, seg, j);
    SliceOfSlice(b, src, src + |Flatten(seg)|, Off(seg, j), Off(seg, j + 1));
    EventAt(b, o, seg[j]);
  }

  lemma {:induction false} RunEnds(src: nat, seg: seq<Ev>)
    ensures At(src, seg, 0) == src && At(src, seg, |seg|) == src + |Flatten(seg)|
    ensures forall j :: 0 <= j < |seg| ==> At(src, seg, j) < src + |Flatten(seg)|
  {
    assert seg[..0] == [];
    OffEnd(seg);
    forall j | 0 <= j < |seg| ensures At(src, seg, j) < src + |Flatten(seg)| {
      OffStrict(seg, j, |seg|);
    }
  }

  /** find_min_clock */
  method FindMinClock(b: seq<Byte>, src: nat, end: nat, ghost seg: seq<Ev>) returns (m: nat)
    requires Stored(b, src, seg) && end == src + |Flatten(seg)| && |seg| > 0
    ensures forall e :: e in seg ==> m <= Clock(e)
    ensures exists e :: e in seg && m == Clock(e)
  {
    RunEnds(src, seg);
    StoredEvent(b, src, seg, 0);
    m := EvClock(b, src);
    ghost var best := seg[0];
    var p := src;
    ghost var j := 0;
    while p < end
      invariant j <= |seg| && p == At(src, seg, j)
      invariant best in seg && m == Clock(best)
      invariant forall i :: 0 <= i < j ==> m <= Clock(seg[i])
      decreases |seg| - j
    {
      StoredEvent(b, src, seg, j);
      if EvClock(b, p) < m {
        m := EvClock(b, p);
        best := seg[j];
      }
      p := p + EvSize(b, p);
      j := j + 1;
    }
  }

  /** count_events */
  method CountEvents(b: seq<Byte>, ghost seg: seq<Ev>) returns (n: nat)
    requires b == Flatten(seg)
    ensures n == |seg|
  {
    RunEnds(0, seg);
    assert Stored(b, 0, seg);
    n := 0;
    var p := 0;
    while p < |b|
      invariant n <= |seg| && p == At(0, seg, n)
      decreases |seg| - n
    {
      StoredEvent(b, 0, seg, n);
      p := p + EvSize(b, p);
      n := n + 1;
    }
  }

  /** index_events */
  method IndexEvents(b: seq<Byte>, n: nat, ghost seg: seq<Ev>) returns (table: array<nat>)
    requires b == Flatten(seg) && n == |seg|
    ensures fresh(table) && table.Length == n
    ensures forall j :: 0 <= j < n ==> table[j] == At(0, seg, j)
  {
    RunEnds(0, seg);
    assert Stored(b, 0, seg);
    table := new nat[n];
    var p := 0;
    for i := 0 to n
      invariant p == At(0, seg, i)
      invariant forall j :: 0 <= j < i ==> table[j] == At(0, seg, j)
    {
      StoredEvent(b, 0, seg, i);
      table[i] := p;
      p := p + EvSize(b, p);
    }
  }

  /** cmp_ev compares clocks as signed numbers. */
  function SignedClock(b: seq<Byte>, x: nat): int {
    ToInt64(EvClock(b, x))
  }

  function CmpEv(c1: int, c2: int): int {
    if c1 < c2 then -1 else if c1 > c2 then 1 else 0
  }

  ghost predicate Indexed(key: nat -> int, t: seq<nat>) {
    forall i, j :: 0 <= i < j < |t| ==> CmpEv(key(t[i]), key(t[j])) <= 0
  }

  /** The C library's qsort, of which only the contract is used. */
  method Qsort(table: array<nat>, key: nat -> int)
    modifies table
    ensures Indexed(key, table[..])
    ensures multiset(table[..]) == multiset(old(table[..]))
  {
    for n := 0 to table.Length
      invariant Indexed(key, table[..n])
      invariant multiset(table[..]) == multiset(old(table[..]))
    {
      Insert(table, key, n);
    }
    assert table[..table.Length] == table[..];
  }

  /** Event i is on its way down; the other events up to n are in order. */
  ghost predicate Placing(key: nat -> int, t: seq<nat>, n: nat, i: nat) {
    n < |t| && forall x, y :: 0 <= x < y <= n && y != i ==> CmpEv(key(t[x]), key(t[y])) <= 0
  }

  lemma {:induction false} PlaceDown(key: nat -> int, t: seq<nat>, n: nat, i: nat)
    requires Placing(key, t, n, i) && 0 < i <= n && CmpEv(key(t[i - 1]), key(t[i])) > 0
    ensures Placing(key, t[i - 1 := t[i]][i := t[i - 1]], n, i - 1)
    ensures multiset(t[i - 1 := t[i]][i := t[i - 1]]) == multiset(t)
  {
  }

  lemma {:induction false} Placed(key: nat -> int, t: seq<nat>, n: nat, i: nat)
    requires n < |t| && i <= n
    ensures i == n && Indexed(key, t[..n]) ==> Placing(key, t, n, i)
    ensures Placing(key, t, n, i) && (i == 0 || CmpEv(key(t[i - 1]), key(t[i])) <= 0) ==> Indexed(key, t[..n + 1])
  {
    if Placing(key, t, n, i) && (i == 0 || CmpEv(key(t[i - 1]), key(t[i])) <= 0) {
      var u := t[..n + 1];
      forall x, y | 0 <= x < y < |u|
        ensures CmpEv(key(u[x]), key(u[y])) <= 0
      {
        if y == i && x < i - 1 {
          assert CmpEv(key(t[x]), key(t[i - 1])) <= 0;
        }
      }
    }
  }

  method Insert(table: array<nat>, key: nat -> int, n: nat)
    requires n < table.Length && Indexed(key, table[..n])
    modifies table
    ensures Indexed(key, table[..n + 1])
    ensures multiset(table[..]) == multiset(old(table[..]))
  {
    hide Placing, Indexed, CmpEv;
    var i := n;
    assert table[..][..n] == table[..n];
    Placed(key, table[..], n, n);
    while i > 0 && CmpEv(key(table[i - 1]), key(table[i])) > 0
      invariant 0 <= i <= n && Placing(key, table[..], n, i)
      invariant multiset(table[..]) == multiset(old(table[..]))
    {
      ghost var t := table[..];
      PlaceDown(key, t, n, i);
      table[i - 1], table[i] := table[i], table[i - 1];
      assert table[..] == t[i - 1 := t[i]][i := t[i - 1]];
      i := i - 1;
    }
    Placed(key, table[..], n, i);
    assert table[..][..n + 1] == table[..n + 1];
  }

  // ---------- the sorted copy ----------

  /** The event stored at an offset, if there is one. */
  function EvOf(b: seq<Byte>, x: nat): Ev {
    var n := EvSize(b, x);
    if 0 <= n && x + n <= |b| && IsEvent(b[x..x + n]) then b[x..x + n]
    else [0, 0, 0, 0, 0, 0, 0, 0, 0, 0, 0, 0]
  }

  function Listed(b: seq<Byte>, t: seq<nat>): seq<Ev> {
    SeqMap((x: nat) => EvOf(b, x), t)
  }

  lemma {:induction false} StoredIndexes(b: seq<Byte>, seg: seq<Ev>, j: nat)
    requires b == Flatten(seg) && j < |seg|
    ensures EvOf(b, At(0, seg, j)) == seg[j] && Indexes(b, At(0, seg, j))
  {
    assert Stored(b, 0, seg);
    StoredEvent(b, 0, seg, j);
  }

  /** The table of index_events lists the records in order. */
  lemma {:induction false} IndexLists(b: seq<Byte>, seg: seq<Ev>, t: seq<nat>)
    requires b == Flatten(seg) && |t| == |seg|
    requires forall j :: 0 <= j < |t| ==> t[j] == At(0, seg, j)
    ensures Listed(b, t) == seg
    ensures forall j :: 0 <= j < |t| ==> Indexes(b, t[j])
  {
    forall j | 0 <= j < |t| ensures Listed(b, t)[j] == seg[j] && Indexes(b, t[j]) {
      StoredIndexes(b, seg, j);
    }
  }

  predicate Indexes(b: seq<Byte>, x: nat) {
    && EvSize(b, x) == |EvOf(b, x)| && x + |EvOf(b, x)| <= |b|
    && b[x..x + |EvOf(b, x)|] == EvOf(b, x)
    && EvClock(b, x) == Clock(EvOf(b, x))
  }

  /** write_events */
  method WriteEvents(table: array<nat>, b: seq<Byte>) returns (buf: array<Byte>)
    requires forall i :: 0 <= i < table.Length ==> Indexes(b, table[i])
    requires |Flatten(Listed(b, table[..]))| == |b|
    ensures fresh(buf) && buf[..] == Flatten(Listed(b, table[..]))
  {
    ghost var evs := Listed(b, table[..]);
    buf := new Byte[|b|];
    var p := 0;
    for i := 0 to table.Length
      invariant p == Off(evs, i) <= buf.Length
      invariant buf[..p] == Flatten(evs[..i])
    {
      RecordAt(evs, i);
      OffStep(evs, i);
      p := CopyEvent(buf, p, b, table[i]);
    }
    OffEnd(evs);
    assert evs[..table.Length] == evs;
    assert buf[..p] == buf[..];
  }

  method CopyEvent(buf: array<Byte>, p: nat, b: seq<Byte>, x: nat) returns (q: nat)
    requires Indexes(b, x) && p + |EvOf(b, x)| <= buf.Length
    modifies buf
    ensures q == p + |EvOf(b, x)|
    ensures buf[..q] == old(buf[..p]) + EvOf(b, x)
  {
    var size := EvSize(b, x);
    forall j | 0 <= j < size {
      buf[p + j] := b[x + j];
    }
    q := p + size;
  }

  /** sort_buf: the records of the run, in clock order. */
  method SortEvents(src: seq<Byte>, ghost seg: seq<Ev>) returns (buf: array<Byte>, ghost sorted: seq<Ev>)
    requires src == Flatten(seg)
    ensures fresh(buf) && buf[..] == Flatten(sorted)
    ensures Permutes(sorted, seg)
    ensures Sorted(sorted) <==> !Mixed(seg)
  {
    var n := CountEvents(src, seg);
    var table := IndexEvents(src, n, seg);
    ghost var t0 := table[..];
    IndexLists(src, seg, t0);
    Qsort(table, (x: nat) => SignedClock(src, x));
    ghost var t := table[..];
    assert |t| == |t0|;
    SeqMapPermutes((x: nat) => EvOf(src, x), t, t0);
    sorted := Listed(src, t);
    FlattenLengthPerm(sorted, seg);
    forall i | 0 <= i < table.Length ensures Indexes(src, t[i]) {
      assert t[i] in multiset(t);
      assert t[i] in t0;
    }
    buf := WriteEvents(table, src);
    SortedByClock(src, seg, t);
  }

  lemma {:induction false} UintBelow(s: seq<Byte>)
    ensures UintOf(s) < Pow256(|s|)
  {
    if s != [] {
      UintBelow(s[1..]);
    }
  }

  /** As a signed number, a clock of the upper half is negative. */
  lemma {:induction false} SignedIs(b: seq<Byte>, x: nat)
    ensures SignedClock(b, x) == EvClock(b, x) - if EvClock(b, x) < HALF then 0 else 2 * HALF
    ensures EvClock(b, x) < 2 * HALF
  {
    UintBelow(Slice(b, x + 4, 8));
    assert Pow256(8) == 2 * HALF by {
      assert Pow256(4) == 0x1_0000_0000;
    }
  }

  /** What the signed order of two clocks says: within one half it is their order, and between
      the halves the greater clock comes first. */
  ghost predicate SignedBefore(e: Ev, f: Ev) {
    && ((Clock(e) < HALF <==> Clock(f) < HALF) ==> Clock(e) <= Clock(f))
    && (Clock(e) < HALF ==> Clock(f) < HALF)
  }

  lemma {:induction false} SignedOrder(b: seq<Byte>, x: nat, y: nat)
    requires Indexes(b, x) && Indexes(b, y) && CmpEv(SignedClock(b, x), SignedClock(b, y)) <= 0
    ensures SignedBefore(EvOf(b, x), EvOf(b, y))
  {
    hide EvClock, EvSize, SignedClock, Clock, EvOf;
    SignedIs(b, x);
    SignedIs(b, y);
  }

  lemma {:induction false} SignedListed(b: seq<Byte>, t: seq<nat>)
    requires forall i :: 0 <= i < |t| ==> Indexes(b, t[i])
    requires Indexed((x: nat) => SignedClock(b, x), t)
    ensures forall i, j :: 0 <= i < j < |t| ==> SignedBefore(Listed(b, t)[i], Listed(b, t)[j])
  {
    hide Indexes, SignedBefore, SignedClock, EvOf, CmpEv;
    var key := (x: nat) => SignedClock(b, x);
    forall i, j | 0 <= i < j < |t|
      ensures SignedBefore(Listed(b, t)[i], Listed(b, t)[j])
    {
      assert CmpEv(key(t[i]), key(t[j])) <= 0;
      SignedOrder(b, t[i], t[j]);
    }
  }

  /** The signed order is the order of the clocks exactly if they are all in the same half. */
  lemma {:induction false} SignedSorts(r: seq<Ev>)
    requires forall i, j :: 0 <= i < j < |r| ==> SignedBefore(r[i], r[j])
    ensures Sorted(r) <==> !Mixed(r)
  {
    hide Clock;
    if Mixed(r) {
      var e, f :| e in r && Clock(e) < HALF && f in r && Clock(f) >= HALF;
      var i, j :| 0 <= i < |r| && r[i] == e && 0 <= j < |r| && r[j] == f;
      assert !SignedBefore(r[i], r[j]) && Clock(r[i]) < Clock(r[j]);
    } else {
      forall i, j | 0 <= i < j < |r|
        ensures Clock(r[i]) <= Clock(r[j])
      {
        assert r[i] in r && r[j] in r && SignedBefore(r[i], r[j]);
      }
    }
  }

  lemma {:induction false} SortedByClock(b: seq<Byte>, seg: seq<Ev>, t: seq<nat>)
    requires Permutes(Listed(b, t), seg)
    requires forall i :: 0 <= i < |t| ==> Indexes(b, t[i])
    requires Indexed((x: nat) => SignedClock(b, x), t)
    ensures Sorted(Listed(b, t)) <==> !Mixed(seg)
  {
    hide Indexes, SignedBefore, SignedClock, EvOf, Indexed, Sorted;
    SignedListed(b, t);
    SignedSorts(Listed(b, t));
    PermutesMembers(Listed(b, t), seg);
  }
}
