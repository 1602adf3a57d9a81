/** When the sorter gives up: a region whose place in the stream is no longer in the ring, or
    clocks that the signed comparison puts in another order. */
module SortLimits {
  import opened Event
  import opened Writer
  import opened SortSpec

  function MinClock(seg: seq<Ev>): nat
    requires seg != []
  {
    if |seg| == 1 || Clock(seg[0]) <= MinClock(seg[1..]) then Clock(seg[0]) else MinClock(seg[1..])
  }

  lemma {:induction false} MinClockIs(seg: seq<Ev>, m: nat)
    requires seg != []
    ensures m == MinClock(seg) <==>
            (forall e :: e in seg ==> m <= Clock(e)) && (exists e :: e in seg && m == Clock(e))
  {
    MinClockBounds(seg);
    var low :| low in seg && Clock(low) == MinClock(seg);
  }

  lemma {:induction false} MinClockBounds(seg: seq<Ev>)
    requires seg != []
    ensures forall e :: e in seg ==> MinClock(seg) <= Clock(e)
    ensures exists e :: e in seg && Clock(e) == MinClock(seg)
  {
    if |seg| > 1 {
      MinClockBounds(seg[1..]);
      assert seg == [seg[0]] + seg[1..];
      var low :| low in seg[1..] && Clock(low) == MinClock(seg[1..]);
      assert low in seg && seg[0] in seg;
    } else {
      assert seg[0] in seg;
    }
  }

  /** How many events have a clock below m. */
  function CountBelow(evs: seq<Ev>, m: nat): (n: nat)
    ensures n <= |evs|
  {
    if evs == [] then 0 else (if Clock(evs[0]) < m then 1 else 0) + CountBelow(evs[1..], m)
  }

  lemma {:induction false} CountBelowConcat(a: seq<Ev>, b: seq<Ev>, m: nat)
    ensures CountBelow(a + b, m) == CountBelow(a, m) + CountBelow(b, m)
  {
    if a == [] {
      assert a + b == b;
    } else {
      assert (a + b)[1..] == a[1..] + b;
      CountBelowConcat(a[1..], b, m);
    }
  }

  lemma {:induction false} CountBelowRemove(evs: seq<Ev>, i: nat, m: nat)
    requires i < |evs|
    ensures CountBelow(evs, m) == CountBelow(RemoveAt(evs, i), m) + if Clock(evs[i]) < m then 1 else 0
  {
    assert evs == evs[..i] + ([evs[i]] + evs[i + 1..]);
    CountBelowConcat(evs[..i], [evs[i]] + evs[i + 1..], m);
    CountBelowConcat([evs[i]], evs[i + 1..], m);
    CountBelowConcat(evs[..i], evs[i + 1..], m);
  }

  lemma {:induction false} CountBelowPermutes(a: seq<Ev>, b: seq<Ev>, m: nat)
    requires Permutes(a, b)
    ensures CountBelow(a, m) == CountBelow(b, m)
    decreases |a|
  {
    if a != [] {
      assert a[0] in multiset(b);
      var i :| 0 <= i < |b| && b[i] == a[0];
      RemoveAtMultiset(a, 0);
      RemoveAtMultiset(b, i);
      CountBelowPermutes(RemoveAt(a, 0), RemoveAt(b, i), m);
      CountBelowRemove(a, 0, m);
      CountBelowRemove(b, i, m);
    }
  }

  /** In sorted events exactly the first ones are below m. */
  lemma {:induction false} CountBelowSorted(evs: seq<Ev>, m: nat)
    requires Sorted(evs)
    ensures forall i :: 0 <= i < |evs| ==> (Clock(evs[i]) < m <==> i < CountBelow(evs, m))
  {
    if evs != [] {
      var t := evs[1..];
      CountBelowSorted(t, m);
      forall i | 0 <= i < |evs|
        ensures Clock(evs[i]) < m <==> i < CountBelow(evs, m)
      {
        if i > 0 {
          assert evs[i] == t[i - 1];
          assert Clock(evs[0]) <= Clock(evs[i]);
        } else if Clock(evs[0]) >= m && t != [] {
          assert Clock(evs[0]) <= Clock(t[0]);
        }
      }
    }
  }

  /** Where the search back ends: at the newest event before event k with a clock below m, or at
      the first event. */
  function Destination(cur: seq<Ev>, k: nat, m: nat): (d: nat)
    requires k <= |cur|
    ensures d <= k
  {
    if k == 0 then 0 else if Clock(cur[k - 1]) < m then k - 1 else Destination(cur, k - 1, m)
  }

  lemma {:induction false} DestinationIs(cur: seq<Ev>, k: nat, m: nat, d: nat)
    requires d < k <= |cur| && (forall e :: d < e < k ==> Clock(cur[e]) >= m) && (Clock(cur[d]) < m || d == 0)
    ensures Destination(cur, k, m) == d
    decreases k
  {
    if d < k - 1 {
      DestinationIs(cur, k - 1, m, d);
    } else if Clock(cur[d]) >= m {
      assert Destination(cur, 0, m) == 0;
    }
  }

  /** Events in order two by two are in order. */
  lemma {:induction false} NeighboursSorted(s: seq<Ev>)
    ensures (forall i :: 0 < i < |s| ==> Clock(s[i - 1]) <= Clock(s[i])) ==> Sorted(s)
    decreases |s|
  {
    if s != [] && forall i :: 0 < i < |s| ==> Clock(s[i - 1]) <= Clock(s[i]) {
      var r, n := s[..|s| - 1], |s| - 1;
      forall i | 0 < i < |r|
        ensures Clock(r[i - 1]) <= Clock(r[i])
      {
        assert r[i - 1] == s[i - 1] && r[i] == s[i];
      }
      NeighboursSorted(r);
      forall i, j | 0 <= i < j < |s|
        ensures Clock(s[i]) <= Clock(s[j])
      {
        if j == n && i < n - 1 {
          assert Clock(r[i]) <= Clock(r[n - 1]) && Clock(s[n - 1]) <= Clock(s[n]);
        } else if j < n {
          assert Clock(r[i]) <= Clock(r[j]);
        }
      }
    }
  }

  /** Every event a ring of the given size still holds before event k is at or above the
      least clock of the region b..k. */
  ghost predicate OutOfReach(cur: seq<Ev>, b: nat, k: nat, size: nat)
    requires b < k <= |cur|
  {
    k >= size - 1 && forall e :: k - (size - 1) <= e < k ==> MinClock(cur[b..k]) <= Clock(cur[e])
  }

  /** Event k closes a region whose first place, counted in events of the stream, lies
      further back than the ring reaches. */
  predicate RefusedAt(evs: seq<Ev>, size: nat, k: nat)
    requires k < |evs|
  {
    match StateAt(evs, k)
    case X(b) => b < k && Ends(evs[k]) && CountBelow(evs[..b], MinClock(evs[b..k])) + size - 1 <= k
    case _ => false
  }

  /** The streams that cannot be sorted with a ring of the given size. */
  predicate Refuses(evs: seq<Ev>, size: nat) {
    exists k :: 0 <= k < |evs| && RefusedAt(evs, size, k)
  }

  /** Event k closes a region that the sort does not leave in order: a clock of the upper half
      has been seen, and the region or the event it is put after has a clock of the lower half. */
  ghost predicate DiesAt(evs: seq<Ev>, k: nat)
    requires k < |evs|
  {
    match StateAt(evs, k)
    case X(b) => b < k && Ends(evs[k]) && HighSeen(evs[..k]) && LowMoved(evs[..b], MinClock(evs[b..k]))
    case _ => false
  }

  ghost predicate HighSeen(evs: seq<Ev>) {
    exists e :: e in evs && Clock(e) >= HALF
  }

  /** A region with least clock m put after the given events moves a clock of the lower half: its
      own, or that of the last event below m. */
  predicate LowMoved(before: seq<Ev>, m: nat) {
    m < HALF || 0 < CountBelow(before, HALF) == CountBelow(before, m)
  }

  /** The events before event k are neither refused nor abort the sorter. */
  ghost predicate Quiet(evs: seq<Ev>, size: nat, k: nat) {
    k <= |evs| && forall j :: 0 <= j < k ==> !RefusedAt(evs, size, j) && !DiesAt(evs, j)
  }

  /** The streams on which the sorter aborts: the first region it cannot do is in reach. */
  ghost predicate Aborts(evs: seq<Ev>, size: nat) {
    exists k :: 0 <= k < |evs| && Quiet(evs, size, k) && DiesAt(evs, k) && !RefusedAt(evs, size, k)
  }

  lemma {:induction false} NextQuiet(evs: seq<Ev>, size: nat, k: nat)
    ensures Quiet(evs, size, 0)
    ensures Quiet(evs, size, |evs|) ==> !Refuses(evs, size) && !Aborts(evs, size)
    ensures k < |evs| && Quiet(evs, size, k) ==>
              if RefusedAt(evs, size, k) then Refuses(evs, size) && !Aborts(evs, size)
              else if DiesAt(evs, k) then Aborts(evs, size)
              else Quiet(evs, size, k + 1)
  {
    hide RefusedAt, DiesAt;
  }

  /** Whether a region in reach is left in order is decided by the original stream too. */
  lemma {:induction false} HalvesDecide(evs: seq<Ev>, cur: seq<Ev>, b: nat, k: nat)
    requires b < k <= |evs| == |cur| && cur[b..k] == evs[b..k]
    requires Permutes(cur[..b], evs[..b]) && Permutes(cur[..k], evs[..k]) && Sorted(cur[..b])
    ensures var m := MinClock(evs[b..k]);
            Mixed(cur[Destination(cur, k, m)..k]) <==> HighSeen(evs[..k]) && LowMoved(evs[..b], m)
  {
    hide Destination, CountBelow, MinClock, Clock, Permutes, Sorted;
    var m := MinClock(evs[b..k]);
    var d := Destination(cur, k, m);
    PermutesMembers(cur[..k], evs[..k]);
    CountBelowPermutes(cur[..b], evs[..b], m);
    CountBelowPermutes(cur[..b], evs[..b], HALF);
    MinClockBounds(cur[b..k]);
    DestinationCounted(cur, b, k, m);
    HighFromDestination(cur, b, k, m);
    LowFromDestination(cur, b, k, m);
  }

  /** The search back ends at the last event below the region. */
  lemma {:induction false} DestinationCounted(cur: seq<Ev>, b: nat, k: nat, m: nat)
    requires b < k <= |cur| && Sorted(cur[..b]) && forall e :: e in cur[b..k] ==> m <= Clock(e)
    ensures var n := CountBelow(cur[..b], m);
            Destination(cur, k, m) == if n > 0 then n - 1 else 0
    ensures forall i :: 0 <= i < k ==> (Clock(cur[i]) < m <==> i < CountBelow(cur[..b], m))
  {
    hide Destination, CountBelow, Clock, Sorted;
    CountBelowSorted(cur[..b], m);
    var n := CountBelow(cur[..b], m);
    forall i | 0 <= i < k
      ensures Clock(cur[i]) < m <==> i < n
    {
      assert if i < b then cur[..b][i] == cur[i] else cur[b..k][i - b] == cur[i];
    }
    DestinationIs(cur, k, m, if n > 0 then n - 1 else 0);
  }

  lemma {:induction false} HighFromDestination(cur: seq<Ev>, b: nat, k: nat, m: nat)
    requires b < k <= |cur| && Sorted(cur[..b]) && forall e :: e in cur[b..k] ==> m <= Clock(e)
    ensures HighSeen(cur[Destination(cur, k, m)..k]) <==> HighSeen(cur[..k])
  {
    hide Destination, CountBelow, Clock;
    DestinationCounted(cur, b, k, m);
    var d := Destination(cur, k, m);
    if HighSeen(cur[..k]) {
      var i :| 0 <= i < k && Clock(cur[i]) >= HALF;
      var j := if i < d then d else i;
      assert i < d ==> cur[..b][i] == cur[i] && cur[..b][d] == cur[d];
      assert cur[d..k][j - d] == cur[j] && Clock(cur[j]) >= HALF;
    }
    if HighSeen(cur[d..k]) {
      var e :| e in cur[d..k] && Clock(e) >= HALF;
      assert e in cur[..k];
    }
  }

  lemma {:induction false} LowFromDestination(cur: seq<Ev>, b: nat, k: nat, m: nat)
    requires b < k <= |cur| && Sorted(cur[..b]) && m == MinClock(cur[b..k])
    ensures (exists e :: e in cur[Destination(cur, k, m)..k] && Clock(e) < HALF) <==> LowMoved(cur[..b], m)
  {
    hide Destination, CountBelow, Clock, MinClock;
    MinClockBounds(cur[b..k]);
    DestinationCounted(cur, b, k, m);
    CountBelowSorted(cur[..b], HALF);
    var d := Destination(cur, k, m);
    var n := CountBelow(cur[..b], m);
    if m < HALF {
      var low :| low in cur[b..k] && Clock(low) == m;
      var i :| b <= i < k && cur[i] == low;
      assert cur[d..k][i - d] == low;
    } else if n > 0 {
      assert cur[..b][d] == cur[d] == cur[d..k][0];
      assert n < b ==> cur[..b][n] == cur[n];
    }
  }

  /** When what comes before the region is sorted, counting decides whether it is out of reach. */
  lemma {:induction false} CountDecides(evs: seq<Ev>, cur: seq<Ev>, b: nat, k: nat, size: nat)
    requires b < k <= |evs| == |cur| && size > 0 && cur[b..k] == evs[b..k]
    requires Permutes(cur[..b], evs[..b]) && Sorted(cur[..b])
    ensures OutOfReach(cur, b, k, size) <==> CountBelow(evs[..b], MinClock(evs[b..k])) + size - 1 <= k
  {
    var m := MinClock(cur[b..k]);
    var n := CountBelow(cur[..b], m);
    CountBelowPermutes(cur[..b], evs[..b], m);
    CountBelowSorted(cur[..b], m);
    MinClockBounds(cur[b..k]);
    forall e | 0 <= e < k
      ensures m <= Clock(cur[e]) <==> n <= e
    {
      if e < b {
        assert cur[..b][e] == cur[e];
      } else {
        assert cur[b..k][e - b] == cur[e];
      }
    }
    if k >= size - 1 && n + size - 1 > k {
      assert k - (size - 1) <= n - 1 < k && Clock(cur[n - 1]) < m;
    }
  }

  /** A ring with more slots than the stream has events reaches everything. */
  lemma {:induction false} LargeRing(evs: seq<Ev>, size: nat)
    requires size > |evs|
    ensures !Refuses(evs, size)
  {
  }

  // ---------- a stream that is refused ----------

  /** A bare event. */
  function Bare(clock: nat, c: char, v: char): (e: Ev)
    requires clock < Pow256(8) && c as int < 256 && v as int < 256
    ensures Clock(e) == clock && (Is(e, 'O', 'U', v) <==> c == 'U')
    ensures c != 'U' ==> !Starts(e) && !Ends(e)
  {
    var ev := NewEvent(clock, 'O', c, v);
    RecordIsEvent(ev);
    Record(ev)
  }

  /** As many events as the ring has slots, and then a region with one event from before them. */
  function LateEvent(size: nat): (evs: seq<Ev>)
    ensures |evs| == size + 3
  {
    seq<Ev>(size, _ => Bare(5, 'B', '.')) + [Bare(6, 'U', '['), Bare(1, 'B', '.'), Bare(6, 'U', ']')]
  }

  /** What the events of that stream are. */
  lemma {:induction false} LateIs(size: nat, i: nat)
    requires i < size + 3
    ensures var e := LateEvent(size)[i];
            && Clock(e) == (if i < size then 5 else if i == size + 1 then 1 else 6)
            && (i == size ==> Starts(e)) && (i == size + 2 ==> Ends(e))
            && (i != size && i != size + 2 ==> !Starts(e) && !Ends(e))
  {
    hide Bare, Clock, Is;
  }

  lemma {:induction false} LateStates(size: nat, k: nat)
    requires k <= size + 3
    ensures StateAt(LateEvent(size), k)
            == if k <= size || k == size + 3 then S else if k == size + 1 then U else X(size + 1)
  {
    hide *;
    NextState(LateEvent(size), k);
    if k > 0 {
      LateIs(size, k - 1);
      LateStates(size, k - 1);
    }
  }

  lemma {:induction false} NextState(evs: seq<Ev>, k: nat)
    requires k <= |evs|
    ensures StateAt(evs, 0) == S
    ensures k > 0 ==> StateAt(evs, k) == match StateAt(evs, k - 1)
                                         case S => if Starts(evs[k - 1]) then U else S
                                         case U => if Ends(evs[k - 1]) then S else X(k - 1)
                                         case X(b) => if Ends(evs[k - 1]) then S else X(b)
  {
  }

  lemma {:induction false} LateWellBehaved(size: nat)
    ensures var evs := LateEvent(size);
            SmallClocks(evs) && WellBehaved(evs) && AllClosed(evs)
  {
    var evs := LateEvent(size);
    hide LateEvent, Starts, Ends, Clock, StateAt;
    forall i | 0 <= i < |evs|
      ensures Clock(evs[i]) == (if i < size then 5 else if i == size + 1 then 1 else 6)
      ensures Outside(evs, i) <==> i != size + 1
    {
      LateIs(size, i);
      LateStates(size, i);
    }
    LateStates(size, |evs|);
  }

  lemma {:induction false} LateNeverAborts(size: nat, n: nat)
    ensures !Aborts(LateEvent(size), n)
  {
    hide LateEvent, WellBehaved, AllClosed, Clock, Aborts;
    LateWellBehaved(size);
    AbortsMixed(LateEvent(size), n);
  }

  lemma {:induction false} LateRegion(size: nat)
    requires size > 0
    ensures RefusedAt(LateEvent(size), size, size + 2)
  {
    var evs := LateEvent(size);
    hide LateEvent, Starts, Ends, Clock, StateAt;
    LateStates(size, size + 2);
    LateIs(size, size + 1);
    LateIs(size, size + 2);
    assert evs[size + 1..size + 2] == [evs[size + 1]];
    forall e | e in evs[..size + 1]
      ensures 1 <= Clock(e)
    {
      var i :| 0 <= i < size + 1 && evs[i] == e;
      LateIs(size, i);
    }
    NoneBelow(evs[..size + 1], 1);
  }

  /** Every ring, however large, refuses such a stream, and one with four slots more does not. */
  lemma {:induction false} LateRefused(size: nat)
    requires size > 0
    ensures var evs := LateEvent(size);
            && SmallClocks(evs) && WellBehaved(evs) && AllClosed(evs)
            && Refuses(evs, size) && !Aborts(evs, size)
            && !Refuses(evs, size + 4) && !Aborts(evs, size + 4)
  {
    hide LateEvent, RefusedAt, Aborts, SmallClocks, WellBehaved, AllClosed;
    LateWellBehaved(size);
    LateRegion(size);
    LargeRing(LateEvent(size), size + 4);
    LateNeverAborts(size, size);
    LateNeverAborts(size, size + 4);
  }

  lemma {:induction false} NoneBelow(evs: seq<Ev>, m: nat)
    requires forall e :: e in evs ==> m <= Clock(e)
    ensures CountBelow(evs, m) == 0
  {
    if evs != [] {
      NoneBelow(evs[1..], m);
    }
  }

  /** No stream with its clocks in one half of the range aborts the sorter. */
  lemma {:induction false} AbortsMixed(evs: seq<Ev>, size: nat)
    ensures Aborts(evs, size) ==> Mixed(evs)
  {
    hide DiesAt, RefusedAt, Mixed;
    if Aborts(evs, size) {
      var k :| 0 <= k < |evs| && DiesAt(evs, k);
      DeathMixes(evs, k);
    }
  }

  lemma {:induction false} DeathMixes(evs: seq<Ev>, k: nat)
    requires k < |evs| && DiesAt(evs, k)
    ensures Mixed(evs)
  {
    hide CountBelow, MinClock, Clock, LowMoved;
    var b := StateAt(evs, k).bad0;
    HighSeenAfter(evs, k);
    LowMovedAfter(evs, b, k);
  }

  lemma {:induction false} HighSeenAfter(evs: seq<Ev>, k: nat)
    requires k <= |evs| && HighSeen(evs[..k])
    ensures HighSeen(evs)
  {
  }

  lemma {:induction false} LowMovedAfter(evs: seq<Ev>, b: nat, k: nat)
    requires b < k <= |evs| && LowMoved(evs[..b], MinClock(evs[b..k]))
    ensures exists e :: e in evs && Clock(e) < HALF
  {
    MinClockBounds(evs[b..k]);
    if MinClock(evs[b..k]) >= HALF {
      SomeBelow(evs[..b], HALF);
    }
  }

  lemma {:induction false} SomeBelow(evs: seq<Ev>, m: nat)
    requires CountBelow(evs, m) > 0
    ensures exists e :: e in evs && Clock(e) < m
  {
    if Clock(evs[0]) >= m {
      SomeBelow(evs[1..], m);
    } else {
      assert evs[0] in evs;
    }
  }

  // ---------- a stream on which the sorter aborts ----------

  /** Events in order, the region among them crossing the half of the range of clocks. */
  function HighRegion(): (evs: seq<Ev>)
    ensures |evs| == 4
  {
    [Bare(1, 'B', '.'), Bare(2, 'U', '['), Bare(HALF, 'B', '.'), Bare(HALF, 'U', ']')]
  }

  lemma {:induction false} HighRegionIs()
    ensures var evs := HighRegion();
            && Clock(evs[0]) == 1 && Clock(evs[1]) == 2 && Clock(evs[2]) == Clock(evs[3]) == HALF
            && StateAt(evs, 3) == X(2) && Ends(evs[3]) && AllClosed(evs)
            && forall k :: 0 <= k < 3 ==> !StateAt(evs, k).X?
  {
    var evs := HighRegion();
    hide Bare, Clock, Is;
    NextState(evs, 1);
    NextState(evs, 2);
    NextState(evs, 3);
    NextState(evs, 4);
  }

  /** The sorter aborts on a stream that is in order already, with every ring of more than two slots. */
  lemma {:induction false} OrderedAborts(size: nat)
    requires size > 2
    ensures var evs := HighRegion();
            Sorted(evs) && WellBehaved(evs) && AllClosed(evs) && !Refuses(evs, size) && Aborts(evs, size)
  {
    var evs := HighRegion();
    hide HighRegion, StateAt, Clock, Starts, Ends;
    HighRegionIs();
    assert evs[2..3] == [evs[2]];
    assert evs[..2] == [evs[0], evs[1]];
    assert CountBelow(evs[..2], HALF) == 2;
    assert evs[..3][2] == evs[2];
    assert DiesAt(evs, 3);
    assert !RefusedAt(evs, size, 3);
    assert Quiet(evs, size, 3);
  }
}
