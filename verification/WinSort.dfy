/** stream_winsort: one pass over a stream that merges every region of unsorted events back
    into the sorted part, looking back no further than the ring reaches. */
module WinSort {
  import opened Event
  import opened Streams
  import opened SortSpec
  import opened Rings
  import opened SortBuf
  import opened SortLimits

  ghost function Positions(evs: seq<Ev>): (p: seq<int>)
    ensures |p| == |evs| + 1
    ensures forall i :: 0 <= i <= |evs| ==> p[i] == Pos(evs, i)
  {
    seq<int>(|evs| + 1, i requires 0 <= i <= |evs| => Pos(evs, i))
  }

  lemma {:induction false} FileSlice(b: seq<Byte>, evs: seq<Ev>, i: nat, j: nat)
    requires Holds(b, evs) && i <= j <= |evs|
    ensures Pos(evs, i) <= Pos(evs, j) <= |b|
    ensures Pos(evs, j) == Pos(evs, i) + |Flatten(evs[i..j])|
    ensures b[Pos(evs, i)..Pos(evs, j)] == Flatten(evs[i..j])
    ensures Stored(b, Pos(evs, i), evs[i..j])
  {
    assert evs[..j] == evs[..i] + evs[i..j];
    FlattenConcat(evs[..i], evs[i..j]);
    FlattenSplit(evs, j);
    var f := b[STREAM_HEADER_SIZE..];
    assert b[Pos(evs, i)..Pos(evs, j)] == f[Off(evs, i)..Off(evs, j)];
  }

  lemma {:induction false} HeaderKept(b: seq<Byte>, c: seq<Byte>)
    requires CheckHeader(b) && |c| >= STREAM_HEADER_SIZE
    requires c[..STREAM_HEADER_SIZE] == b[..STREAM_HEADER_SIZE]
    ensures CheckHeader(c)
  {
    var h := b[..STREAM_HEADER_SIZE];
    assert c[..4] == c[..STREAM_HEADER_SIZE][..4] == b[..4];
    assert b[0..0 + |h|] == h && c[0..0 + |h|] == h;
    SliceLocal(b, 0, h, 4, 4);
    SliceLocal(c, 0, h, 4, 4);
  }

  /** Writing the sorted run over the old one keeps the file well formed. */
  lemma {:induction false} FileSplice(b: seq<Byte>, c: seq<Byte>, cur: seq<Ev>, d: nat, k: nat, seg: seq<Ev>)
    requires Holds(b, cur) && d <= k <= |cur| && Permutes(seg, cur[d..k])
    requires |c| == |b| && Pos(cur, d) <= Pos(cur, k) <= |b|
    requires c == b[..Pos(cur, d)] + Flatten(seg) + b[Pos(cur, k)..]
    ensures Holds(c, Splice(cur, d, seg))
  {
    SpliceFlatten(cur, d, k, seg);
    ReplaceMiddle(b, c, STREAM_HEADER_SIZE, Flatten(cur[..d]), Flatten(cur[d..k]), Flatten(seg), Flatten(cur[k..]));
    HeaderKept(b, c);
  }

  lemma {:induction false} ReplaceMiddle(b: seq<Byte>, c: seq<Byte>, h: nat, pre: seq<Byte>, mid: seq<Byte>,
                                         seg: seq<Byte>, post: seq<Byte>)
    requires h <= |b| && b[h..] == pre + mid + post
    requires c == b[..h + |pre|] + seg + b[h + |pre| + |mid|..]
    ensures |c| >= h && c[..h] == b[..h] && c[h..] == pre + seg + post
  {
    assert b[..h + |pre|] == b[..h] + b[h..][..|pre|];
    assert b[h + |pre| + |mid|..] == b[h..][|pre| + |mid|..];
    assert b[h..][..|pre|] == pre;
    assert b[h..][|pre| + |mid|..] == post;
  }

  /** write_stream: the file and its mapping are one buffer. */
  method WriteStream(buf: array<Byte>, dst: nat, src: array<Byte>)
    requires dst + src.Length <= buf.Length && buf != src
    modifies buf
    ensures buf[..] == old(buf[..dst]) + src[..] + old(buf[dst + src.Length..])
  {
    forall i | 0 <= i < src.Length {
      buf[dst + i] := src[i];
    }
  }

  /** The outcome of a plan: done, refused, or aborted by one of the checks. */
  datatype Outcome = Ok | Failed | Died

  /** What one plan guarantees for the region b..k of the records cur. */
  ghost predicate PlanDone(cur: seq<Ev>, r: seq<Ev>, b: nat, k: nat)
    requires b <= k <= |cur|
  {
    && |r| == |cur| && r[k..] == cur[k..]
    && Permutes(r[..k], cur[..k])
    && (Sorted(cur[..b]) ==> Sorted(r[..k]))
  }

  /** execute_sort_plan for the region of events b..k. */
  method ExecuteSortPlan(buf: array<Byte>, ring: Ring, bad0: nat, next: nat,
                         ghost cur: seq<Ev>, ghost b: nat, ghost k: nat)
    returns (ret: Outcome, ghost r: seq<Ev>)
    requires Holds(buf[..], cur) && b < k < |cur| && bad0 == Pos(cur, b) && next == Pos(cur, k)
    requires ring.HoldsLast(Positions(cur), k) && buf as object != ring.ev
    modifies buf, ring.ev
    ensures Holds(buf[..], r) && |r| == |cur| && r[k..] == cur[k..] && Permutes(r[..k], cur[..k])
    ensures ret.Ok? ==> ring.HoldsLast(Positions(r), k) && PlanDone(cur, r, b, k)
    ensures ret.Failed? ==> r == cur && buf[..] == old(buf[..])
    ensures ret.Failed? <==> OutOfReach(cur, b, k, ring.size)
    ensures ret.Died? <==> !OutOfReach(cur, b, k, ring.size) && Mixed(cur[Destination(cur, k, MinClock(cur[b..k]))..k])
  {
    r := cur;
    var src := buf[..];
    FileSlice(src, cur, b, k);
    EventInFile(src, cur, b);
    var clock0 := EvClock(src, bad0);
    var minClock := FindMinClock(src, bad0, next, cur[b..k]);
    assert clock0 == Clock(cur[b..k][0]);
    if minClock < clock0 {
      clock0 := minClock;
    }
    MinClockIs(cur[b..k], clock0);
    var i0, died, d := ring.FindDestination(src, clock0, Positions(cur), k);
    if died {
      return Died, r;
    }
    Reached(src, cur, b, k, ring.size, clock0);
    if i0 < 0 {
      return Failed, r;
    }
    DestinationSuits(src, cur, d, b, k, clock0);
    DestinationFound(src, cur, d, k, clock0);
    ret, r := Inject(buf, ring, i0, next, cur, d, b, k);
  }

  /** The clocks the search reads are those of the records. */
  lemma {:induction false} Reached(src: seq<Byte>, cur: seq<Ev>, b: nat, k: nat, size: nat, m: nat)
    requires Holds(src, cur) && b < k < |cur| && m == MinClock(cur[b..k])
    ensures OutOfReach(cur, b, k, size) <==>
            k >= size - 1 && forall e :: k - (size - 1) <= e < k ==> EvClock(src, Positions(cur)[e]) >= m
  {
    if k >= size - 1 && size > 0 {
      forall e | k - (size - 1) <= e < k
        ensures EvClock(src, Positions(cur)[e]) == Clock(cur[e])
      {
        EventInFile(src, cur, e);
      }
    }
  }

  /** The rest of execute_sort_plan: sort everything from the destination on, write it
      back, and rebuild the positions that no longer hold. */
  method Inject(buf: array<Byte>, ring: Ring, i0: nat, next: nat,
                ghost cur: seq<Ev>, ghost d: nat, ghost b: nat, ghost k: nat)
    returns (ret: Outcome, ghost r: seq<Ev>)
    requires Holds(buf[..], cur) && d <= b < k < |cur| && next == Pos(cur, k)
    requires ring.HoldsLast(Positions(cur), k) && buf as object != ring.ev
    requires k - ring.Kept(k) <= d && i0 == ring.Slot(d - (k - ring.Kept(k)))
    requires Sorted(cur[..b]) ==> Suits(cur, d, b, k)
    modifies buf, ring.ev
    ensures Holds(buf[..], r) && |r| == |cur| && r[k..] == cur[k..] && Permutes(r[..k], cur[..k])
    ensures ret.Ok? ==> ring.HoldsLast(Positions(r), k) && PlanDone(cur, r, b, k)
    ensures !ret.Failed? && (ret.Died? <==> Mixed(cur[d..k]))
  {
    var src := buf[..];
    ghost var p := Positions(cur);
    var first := ring.ev[i0];
    assert first == p[k - ring.Kept(k) + (d - (k - ring.Kept(k)))] == Pos(cur, d);
    r := SortInto(buf, first, next, cur, d, b, k);
    PositionsAfter(buf[..], cur, r, d, k);
    var died := ring.Rebuild(buf[..], i0, first, next, p, Positions(r), d, k);
    SegmentInOrder(buf[..], r, d, k);
    died := ring.Check(buf[..], i0, Positions(r), d, k);
    if died {
      return Died, r;
    }
    return Ok, r;
  }

  method SortInto(buf: array<Byte>, first: nat, next: nat,
                  ghost cur: seq<Ev>, ghost d: nat, ghost b: nat, ghost k: nat)
    returns (ghost r: seq<Ev>)
    requires Holds(buf[..], cur) && d <= b < k < |cur| && first == Pos(cur, d) && next == Pos(cur, k)
    requires Sorted(cur[..b]) ==> Suits(cur, d, b, k)
    modifies buf
    ensures Holds(buf[..], r) && |r| == |cur| && r[k..] == cur[k..] && Permutes(r[..k], cur[..k])
    ensures forall i :: 0 <= i <= d || k <= i <= |cur| ==> Off(r, i) == Off(cur, i)
    ensures Sorted(r[d..k]) <==> !Mixed(cur[d..k])
    ensures Sorted(r[d..k]) ==> PlanDone(cur, r, b, k)
  {
    var src := buf[..];
    FileSlice(src, cur, d, k);
    var sortedBuf, seg := SortEvents(src[first..next], cur[d..k]);
    SpliceBytes(cur, d, k, seg);
    WriteStream(buf, first, sortedBuf);
    FileSplice(src, buf[..], cur, d, k, seg);
    r := Splice(cur, d, seg);
    PlanEffect(cur, d, b, k, seg);
  }

  /** The destination found by scanning the ring is right for the region. */
  lemma {:induction false} DestinationSuits(src: seq<Byte>, cur: seq<Ev>, d: nat, b: nat, k: nat, m: nat)
    requires Holds(src, cur) && b < k < |cur| && d < k
    requires forall e :: e in cur[b..k] ==> m <= Clock(e)
    requires forall e :: d < e < k ==> EvClock(src, Positions(cur)[e]) >= m
    requires EvClock(src, Positions(cur)[d]) < m || d == 0
    ensures d <= b
    ensures Sorted(cur[..b]) ==> Suits(cur, d, b, k)
  {
    forall e | b <= e < k ensures m <= Clock(cur[e]) {
      assert cur[e] == cur[b..k][e - b];
    }
    EventInFile(src, cur, d);
    if d > 0 && Sorted(cur[..b]) {
      FoundSuits(cur, d, b, k, m);
    }
  }

  lemma {:induction false} DestinationFound(src: seq<Byte>, cur: seq<Ev>, d: nat, k: nat, m: nat)
    requires Holds(src, cur) && d < k < |cur|
    requires forall e :: d < e < k ==> EvClock(src, Positions(cur)[e]) >= m
    requires EvClock(src, Positions(cur)[d]) < m || d == 0
    ensures d == Destination(cur, k, m)
  {
    forall e | d <= e < k
      ensures EvClock(src, Positions(cur)[e]) == Clock(cur[e])
    {
      EventInFile(src, cur, e);
    }
    DestinationIs(cur, k, m, d);
  }

  lemma {:induction false} PlanEffect(cur: seq<Ev>, d: nat, b: nat, k: nat, seg: seq<Ev>)
    requires d <= b < k < |cur| && Permutes(seg, cur[d..k])
    requires Sorted(cur[..b]) ==> Suits(cur, d, b, k)
    ensures var r := Splice(cur, d, seg);
            && |r| == |cur| && r[k..] == cur[k..] && Permutes(r[..k], cur[..k]) && r[d..k] == seg
            && (Sorted(seg) ==> PlanDone(cur, r, b, k))
  {
    SpliceBytes(cur, d, k, seg);
    if Sorted(seg) && Sorted(cur[..b]) {
      PlanSorts(cur, d, b, k, seg);
    }
  }

  /** The positions of the events after a splice: as before up to d, then one after the
      other, and as before from k on. */
  lemma {:induction false} PositionsAfter(b: seq<Byte>, cur: seq<Ev>, r: seq<Ev>, d: nat, k: nat)
    requires Holds(b, r) && |r| == |cur| && d < k < |cur|
    requires forall i :: 0 <= i <= d || k <= i <= |cur| ==> Off(r, i) == Off(cur, i)
    ensures forall e :: 0 <= e <= d || k <= e <= |cur| ==> Positions(r)[e] == Positions(cur)[e]
    ensures var q := Positions(r);
            forall e :: d <= e < k ==> q[e] + EvSize(b, q[e]) == q[e + 1] && q[e] < q[k]
  {
    var q := Positions(r);
    forall e | d <= e < k ensures q[e] + EvSize(b, q[e]) == q[e + 1] && q[e] < q[k] {
      EventInFile(b, r, e);
      OffStrict(r, e, k);
    }
  }

  /** Looking at neighbours tells whether the segment is sorted. */
  lemma {:induction false} SegmentInOrder(b: seq<Byte>, r: seq<Ev>, d: nat, k: nat)
    requires Holds(b, r) && d < k < |r|
    ensures Sorted(r[d..k]) <==>
              forall i :: d < i < k ==> EvClock(b, Positions(r)[i - 1]) <= EvClock(b, Positions(r)[i])
  {
    var s := r[d..k];
    forall i | d <= i < k
      ensures EvClock(b, Positions(r)[i]) == Clock(s[i - d])
    {
      EventInFile(b, r, i);
    }
    NeighboursSorted(s);
    if forall i :: d < i < k ==> EvClock(b, Positions(r)[i - 1]) <= EvClock(b, Positions(r)[i]) {
      forall i | 0 < i < |s|
        ensures Clock(s[i - 1]) <= Clock(s[i])
      {
        assert EvClock(b, Positions(r)[d + i - 1]) <= EvClock(b, Positions(r)[d + i]);
      }
    }
  }

  // ---------- the pass over the stream ----------

  /** Up to where the records are sorted in a given region state before event k. */
  ghost function SortedUpTo(st: Region, k: nat): nat {
    match st
    case X(b) => b
    case _ => k
  }

  /** The records cur are those of evs, permuted before event k but for the open region, and
      sorted as far as the region state says if only events inside regions come late. */
  ghost predicate Progress(evs: seq<Ev>, cur: seq<Ev>, k: nat) {
    && k <= |evs| == |cur| && cur[k..] == evs[k..]
    && Permutes(cur[..k], evs[..k])
    && (StateAt(evs, k).X? ==>
        var b := StateAt(evs, k).bad0; b < k && cur[b..] == evs[b..] && Permutes(cur[..b], evs[..b]))
    && (WellBehaved(evs) ==> Sorted(cur[..SortedUpTo(StateAt(evs, k), k)]))
  }

  lemma {:induction false} RestKept(evs: seq<Ev>, cur: seq<Ev>, k: nat)
    requires k <= |evs| == |cur| && cur[k..] == evs[k..] && Permutes(cur[..k], evs[..k])
    ensures Permutes(cur, evs)
    ensures forall i, j :: 0 <= i <= j <= |cur| && Mixed(cur[i..j]) ==> Mixed(evs)
  {
    assert cur == cur[..k] + cur[k..] && evs == evs[..k] + evs[k..];
    PermutesMembers(cur, evs);
    forall i, j | 0 <= i <= j <= |cur| && Mixed(cur[i..j])
      ensures Mixed(evs)
    {
      var e, f :| e in cur[i..j] && Clock(e) < HALF && f in cur[i..j] && Clock(f) >= HALF;
      assert e in cur && f in cur;
    }
  }

  /** The state after event k when no plan runs. */
  lemma {:induction false} ProgressQuiet(evs: seq<Ev>, cur: seq<Ev>, k: nat)
    requires Progress(evs, cur, k) && k < |evs|
    requires !(StateAt(evs, k).X? && Ends(evs[k]))
    ensures Progress(evs, cur, k + 1)
  {
    OneMore(evs, cur, k);
    if WellBehaved(evs) && Outside(evs, k) {
      OutsideExtends(evs, cur, k);
    }
  }

  lemma {:induction false} OneMore(evs: seq<Ev>, cur: seq<Ev>, k: nat)
    requires k < |evs| == |cur| && cur[k..] == evs[k..] && Permutes(cur[..k], evs[..k])
    ensures cur[k] == evs[k] && cur[k + 1..] == evs[k + 1..] && Permutes(cur[..k + 1], evs[..k + 1])
  {
    assert cur[k..][0] == evs[k..][0];
    assert cur[k + 1..] == cur[k..][1..] && evs[k + 1..] == evs[k..][1..];
    assert cur[..k + 1] == cur[..k] + [cur[k]] && evs[..k + 1] == evs[..k] + [evs[k]];
  }

  /** The state after event k when it closes a region and its plan succeeds. */
  lemma {:induction false} ProgressPlan(evs: seq<Ev>, cur: seq<Ev>, r: seq<Ev>, k: nat)
    requires Progress(evs, cur, k) && k < |evs|
    requires StateAt(evs, k).X? && Ends(evs[k])
    requires PlanDone(cur, r, StateAt(evs, k).bad0, k)
    ensures Progress(evs, r, k + 1)
  {
    RestKept(evs, cur, k);
    OneMore(evs, r, k);
    if WellBehaved(evs) {
      OutsideExtends(evs, r, k);
    }
  }

  /** How the plan at event k ends is decided by the original stream. */
  lemma {:induction false} PlanDecided(evs: seq<Ev>, cur: seq<Ev>, k: nat, size: nat)
    requires Progress(evs, cur, k) && k < |evs| && StateAt(evs, k).X? && Ends(evs[k]) && size > 0
    ensures var b := StateAt(evs, k).bad0;
            WellBehaved(evs) ==>
              && (OutOfReach(cur, b, k, size) <==> RefusedAt(evs, size, k))
              && (Mixed(cur[Destination(cur, k, MinClock(cur[b..k]))..k]) <==> DiesAt(evs, k))
  {
    hide CountBelow, MinClock, Clock, OutOfReach, Mixed, HighSeen, LowMoved, Sorted, WellBehaved;
    var b := StateAt(evs, k).bad0;
    assert cur[b..k] == cur[b..][..k - b] && evs[b..k] == evs[b..][..k - b];
    if WellBehaved(evs) {
      CountDecides(evs, cur, b, k, size);
      HalvesDecide(evs, cur, b, k);
    }
  }

  /** The stream stays on event k when the records before it are permuted. */
  lemma {:induction false} StaysOnEvent(cur: seq<Ev>, r: seq<Ev>, k: nat)
    requires |r| == |cur| && k <= |cur| && Permutes(r[..k], cur[..k])
    ensures Pos(r, k) == Pos(cur, k)
  {
    FlattenLengthPerm(r[..k], cur[..k]);
  }

  /** The character of a region state, and where the region starts. */
  ghost predicate Matches(st: char, bad0: nat, reg: Region, cur: seq<Ev>, k: nat)
    requires k <= |cur|
  {
    match reg
    case S => st == 'S'
    case U => st == 'U'
    case X(b) => st == 'X' && b < k && bad0 == Pos(cur, b)
  }

  /** The loop body of stream_winsort, for event k. */
  method OneEvent(buf: array<Byte>, ring: Ring, ev: nat, st: char, bad0: nat,
                  ghost evs: seq<Ev>, ghost cur: seq<Ev>, ghost k: nat)
    returns (ret: Outcome, st': char, bad0': nat, ghost r: seq<Ev>)
    requires Holds(buf[..], cur) && Progress(evs, cur, k) && k < |evs| && ev == Pos(cur, k)
    requires ring.HoldsLast(Positions(cur), k) && buf as object != ring.ev
    requires Matches(st, bad0, StateAt(evs, k), cur, k)
    modifies buf, ring, ring.ev
    ensures Holds(buf[..], r) && Permutes(r, evs)
    ensures ret.Ok? ==> Progress(evs, r, k + 1) && Pos(r, k) == Pos(cur, k)
    ensures ret.Ok? ==> ring.HoldsLast(Positions(r), k + 1)
    ensures ret.Ok? ==> Matches(st', bad0', StateAt(evs, k + 1), r, k + 1)
    ensures WellBehaved(evs) ==> (ret.Failed? <==> RefusedAt(evs, ring.size, k))
    ensures WellBehaved(evs) ==> (ret.Died? <==> DiesAt(evs, k) && !RefusedAt(evs, ring.size, k))
    ensures ret.Failed? ==> |evs| >= ring.size
    ensures ret.Died? ==> Mixed(evs)
  {
    r, st', bad0' := cur, st, bad0;
    EventInFile(buf[..], cur, k);
    OneMore(evs, cur, k);
    RestKept(evs, cur, k);
    if st == 'X' && HasMcv(buf[..], ev, 'O', 'U', ']') {
      PlanDecided(evs, cur, k, ring.size);
      ret, r := ExecuteSortPlan(buf, ring, bad0, ev, cur, StateAt(evs, k).bad0, k);
      RestKept(cur, r, k);
      if !ret.Ok? {
        return;
      }
      StaysOnEvent(cur, r, k);
      ProgressPlan(evs, cur, r, k);
      st' := 'S';
    } else {
      ProgressQuiet(evs, cur, k);
      if st == 'S' && HasMcv(buf[..], ev, 'O', 'U', '[') {
        st' := 'U';
      } else if st == 'U' {
        if HasMcv(buf[..], ev, 'O', 'U', ']') {
          st' := 'S';
        } else {
          st', bad0' := 'X', ev;
        }
      }
    }
    ring.Add(ev, Positions(r), k);
    ret := Ok;
  }

  /** stream_winsort. The records end as a permutation of the original ones in the same
      file, whatever happens, and no internal check aborts when all clocks are in one half of
      the range. If nothing outside the regions comes late, the first region the sorter cannot do
      decides: out of reach of the ring it is refused, and in reach it aborts. If there is no such
      region and all regions are closed, the stream is sorted. */
  method StreamWinsort(s: Stream, ring: Ring, ghost evs: seq<Ev>) returns (ret: Outcome, ghost cur: seq<Ev>)
    requires ring.Shape() && s.buf as object != ring.ev && s.unsorted
    requires Holds(s.buf[..], evs)
    requires if |evs| == 0 then !s.active else Before(s.buf[..], s.State(), evs, 0)
    modifies s`offset, s`cur, s`active, s`lastclock, s`deltaclock, s.buf, ring, ring.ev
    ensures Holds(s.buf[..], cur) && Permutes(cur, evs)
    ensures ret.Died? ==> Mixed(evs)
    ensures ret.Failed? ==> |evs| == 0 || |evs| >= ring.size
    ensures |evs| == 0 ==> ret.Failed?
    ensures |evs| > 0 && WellBehaved(evs) ==>
              (ret.Failed? <==> Refuses(evs, ring.size) && !Aborts(evs, ring.size))
    ensures WellBehaved(evs) ==> (ret.Died? <==> Aborts(evs, ring.size))
    ensures ret.Ok? ==> AtEnd(s.buf[..], s.State())
    ensures ret.Ok? && WellBehaved(evs) && AllClosed(evs) ==> Sorted(cur)
  {
    hide Progress, Matches, WellBehaved, Quiet, Refuses, RefusedAt, Aborts, DiesAt, Mixed, Sorted, StateAt;
    cur := evs;
    ring.Reset();
    var bad0 := 0;
    var st := 'S';
    ghost var k := 0;
    ProgressStart(evs);
    NextQuiet(evs, ring.size, k);
    while true
      invariant Holds(s.buf[..], cur) && s.unsorted
      invariant k <= |evs| == |cur| && Progress(evs, cur, k)
      invariant if |evs| == 0 then !s.active else Before(s.buf[..], s.State(), cur, k)
      invariant ring.HoldsLast(Positions(cur), k)
      invariant Matches(st, bad0, StateAt(evs, k), cur, k)
      invariant WellBehaved(evs) ==> Quiet(evs, ring.size, k)
      decreases |evs| - k
    {
      NextQuiet(evs, ring.size, k);
      var step := NextEvent(s, cur, k);
      if step != 0 {
        ProgressKept(evs, cur, k);
        return if step < 0 then Failed else Ok, cur;
      }
      ret, st, bad0, cur := OneEvent(s.buf, ring, s.cur.addr, st, bad0, evs, cur, k);
      if !ret.Ok? {
        return;
      }
      k := k + 1;
    }
  }

  lemma {:induction false} ProgressStart(evs: seq<Ev>)
    ensures Progress(evs, evs, 0) && Matches('S', 0, StateAt(evs, 0), evs, 0)
  {
  }

  lemma {:induction false} ProgressKept(evs: seq<Ev>, cur: seq<Ev>, k: nat)
    requires Progress(evs, cur, k)
    ensures Permutes(cur, evs)
    ensures k == |evs| && WellBehaved(evs) && AllClosed(evs) ==> Sorted(cur)
  {
    RestKept(evs, cur, k);
    assert cur[..|evs|] == cur;
  }

  method NextEvent(s: Stream, ghost cur: seq<Ev>, ghost k: nat) returns (step: int)
    requires Holds(s.buf[..], cur) && k <= |cur| && s.unsorted
    requires if |cur| == 0 then !s.active else Before(s.buf[..], s.State(), cur, k)
    modifies s`offset, s`cur, s`active, s`lastclock, s`deltaclock
    ensures if |cur| == 0 then step == -1
            else if k == |cur| then step == 1 && AtEnd(s.buf[..], s.State())
            else step == 0 && OnEvent(s.buf[..], s.State(), cur, k)
  {
    if |cur| > 0 {
      StepWellFormed(s.buf[..], s.State(), cur, k);
    }
    step := s.StepStream();
  }

  lemma {:induction false} SortedStep(evs: seq<Ev>, k: nat)
    ensures 0 < k < |evs| ==> (Sorted(evs[..k + 1]) <==> Sorted(evs[..k]) && Clock(evs[k - 1]) <= Clock(evs[k]))
    ensures 0 < |evs| ==> Sorted(evs[..1])
  {
    if 0 < k < |evs| {
      var a, b := evs[..k + 1], evs[..k];
      assert a == b + [evs[k]];
      if Sorted(a) {
        assert Clock(a[k - 1]) <= Clock(a[k]);
      }
      if Sorted(b) && Clock(evs[k - 1]) <= Clock(evs[k]) {
        forall i, j | 0 <= i < j < |a|
          ensures Clock(a[i]) <= Clock(a[j])
        {
          if j == k && i < k - 1 {
            assert Clock(b[i]) <= Clock(b[k - 1]);
          }
        }
      }
    }
  }

  /** stream_check: succeeds exactly on a stream in order. */
  method StreamCheck(s: Stream, ghost evs: seq<Ev>) returns (ret: int)
    requires Holds(s.buf[..], evs) && s.unsorted
    requires if |evs| == 0 then !s.active else Before(s.buf[..], s.State(), evs, 0)
    modifies s`offset, s`cur, s`active, s`lastclock, s`deltaclock
    ensures ret == 0 <==> evs != [] && Sorted(evs)
  {
    ghost var k := 0;
    var step := NextEvent(s, evs, k);
    if step < 0 {
      return -1;
    }
    if step != 0 {
      return 0;
    }
    EventInFile(s.buf[..], evs, 0);
    SortedStep(evs, 0);
    var lastClock := EvClock(s.buf[..], s.cur.addr);
    var backjump := false;
    k := 1;
    while true
      invariant 1 <= k <= |evs| && Before(s.buf[..], s.State(), evs, k) && lastClock == Clock(evs[k - 1])
      invariant backjump <==> !Sorted(evs[..k])
      decreases |evs| - k
    {
      step := NextEvent(s, evs, k);
      if step != 0 {
        break;
      }
      EventInFile(s.buf[..], evs, k);
      SortedStep(evs, k);
      var curClock := EvClock(s.buf[..], s.cur.addr);
      if curClock < lastClock {
        backjump := true;
      }
      lastClock := curClock;
      k := k + 1;
    }
    assert evs[..k] == evs;
    return if step < 0 || backjump then -1 else 0;
  }
}
