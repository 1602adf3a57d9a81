/** What the player promises: an interleaving of the streams, each in its own order, by
    non-decreasing corrected clock. */
module PlayerSpec {
  import opened Event
  import opened Streams

  /** Event number idx of a stream. */
  datatype Output = Output(stream: nat, idx: nat)

  function Count(out: seq<Output>, s: nat): nat {
    if out == [] then 0
    else Count(out[..|out| - 1], s) + (if out[|out| - 1].stream == s then 1 else 0)
  }

  lemma {:induction false} CountSnoc(out: seq<Output>, o: Output, s: nat)
    ensures Count(out + [o], s) == Count(out, s) + (if o.stream == s then 1 else 0)
  {
    assert (out + [o])[..|out|] == out;
  }

  /** Every stream comes out in its own order, without gaps or repetitions. */
  ghost predicate InOrder(out: seq<Output>) {
    forall j :: 0 <= j < |out| ==> out[j].idx == Count(out[..j], out[j].stream)
  }

  lemma {:induction false} InOrderSnoc(out: seq<Output>, o: Output)
    requires InOrder(out) && o.idx == Count(out, o.stream)
    ensures InOrder(out + [o])
  {
    var r := out + [o];
    forall j | 0 <= j < |r| ensures r[j].idx == Count(r[..j], r[j].stream) {
      assert r[..j] == out[..j];
      if j == |out| {
        assert out[..j] == out;
      }
    }
  }

  lemma {:induction false} CountMonotone(out: seq<Output>, s: nat, i: nat, j: nat)
    requires i <= j <= |out|
    ensures Count(out[..i], s) <= Count(out[..j], s)
  {
    if i < j {
      CountMonotone(out, s, i, j - 1);
      assert out[..j] == out[..j - 1] + [out[j - 1]];
      CountSnoc(out[..j - 1], out[j - 1], s);
    }
  }

  /** The events of stream s come out exactly once each, in order. */
  lemma {:induction false} ExactlyOnce(out: seq<Output>, s: nat, e: nat)
    requires InOrder(out) && e < Count(out, s)
    ensures Output(s, e) in out
    ensures forall i, j :: 0 <= i < |out| && 0 <= j < |out| && out[i] == out[j] == Output(s, e) ==> i == j
  {
    var n := |out| - 1;
    assert out == out[..n] + [out[n]];
    if out[n] == Output(s, e) {
    } else {
      assert e < Count(out[..n], s) by {
        if out[n].stream == s {
          assert out[n].idx == Count(out[..n], s);
        }
      }
      forall j | 0 <= j < n ensures out[..n][j].idx == Count(out[..n][..j], out[..n][j].stream) {
        assert out[..n][..j] == out[..j];
      }
      ExactlyOnce(out[..n], s, e);
    }
    forall i, j | 0 <= i < |out| && 0 <= j < |out| && out[i] == out[j] == Output(s, e) ensures i == j {
      DifferentIndex(out, i, j);
    }
  }

  lemma {:induction false} DifferentIndex(out: seq<Output>, i: nat, j: nat)
    requires InOrder(out) && i < |out| && j < |out| && out[i] == out[j]
    ensures i == j
  {
    if i < j {
      EarlierIsLess(out, i, j);
    } else if j < i {
      EarlierIsLess(out, j, i);
    }
  }

  /** Two outputs of one stream: the earlier one has the smaller index. */
  lemma {:induction false} EarlierIsLess(out: seq<Output>, i: nat, j: nat)
    requires InOrder(out) && i < j < |out| && out[i].stream == out[j].stream
    ensures out[i].idx < out[j].idx
  {
    var s := out[i].stream;
    assert out[..i + 1] == out[..i] + [out[i]];
    CountSnoc(out[..i], out[i], s);
    CountMonotone(out, s, i + 1, j);
  }

  // ---------- the state of the merge ----------

  /** The fixed part: the files, their events, and the clock offsets. */
  datatype Input = Input(files: seq<seq<Byte>>, evs: seq<seq<Ev>>, offsets: seq<int>, unsorted: bool) {
    ghost predicate Valid() {
      && |files| == |evs| == |offsets|
      && forall i :: 0 <= i < |files| ==> Holds(files[i], evs[i])
    }

    ghost function ClockOf(o: Output): int {
      if Has(o) then ToInt64(Clock(evs[o.stream][o.idx])) + offsets[o.stream] else 0
    }

    ghost predicate Has(o: Output) {
      o.stream < |evs| && o.stream < |offsets| && o.idx < |evs[o.stream]|
    }

    ghost predicate SortedOut(out: seq<Output>) {
      && (forall j :: 0 <= j < |out| ==> Has(out[j]))
      && forall i, j :: 0 <= i < j < |out| ==> ClockOf(out[i]) <= ClockOf(out[j])
    }
  }

  /** The variable part: the stream fields, how many events each stream has loaded, which
      streams wait in the heap, and the current one. */
  datatype State = State(ss: seq<StreamState>, loaded: seq<nat>, waiting: set<nat>, cur: int)

  /** Stream i is on the last event it loaded. */
  ghost predicate HasLoaded(inp: Input, ss: seq<StreamState>, loaded: seq<nat>, i: nat)
  {
    && inp.Valid() && |ss| == |loaded| == |inp.files| && i < |ss|
    && 0 < loaded[i] <= |inp.evs[i]|
    && OnEvent(inp.files[i], ss[i], inp.evs[i], loaded[i] - 1)
    && ss[i].lastclock == inp.ClockOf(Output(i, loaded[i] - 1))
  }

  ghost predicate Finished(inp: Input, ss: seq<StreamState>, loaded: seq<nat>, i: nat)
  {
    && inp.Valid() && |ss| == |loaded| == |inp.files| && i < |ss|
    && loaded[i] == |inp.evs[i]| && !ss[i].active
  }

  ghost predicate Shape(inp: Input, st: State) {
    && inp.Valid()
    && |st.ss| == |st.loaded| == |inp.files|
    && -1 <= st.cur < |st.ss| && st.cur !in st.waiting
    && forall i :: 0 <= i < |st.ss| ==> st.ss[i].unsorted == inp.unsorted && st.ss[i].clockOffset == inp.offsets[i]
  }

  /** Streams that wait or are current are on an event; the others have given all. */
  ghost predicate Streaming(inp: Input, st: State, n: nat)
  {
    && Shape(inp, st) && n <= |st.ss|
    && (forall i :: i in st.waiting ==> i < n)
    && forall i :: 0 <= i < n ==>
         if i in st.waiting then HasLoaded(inp, st.ss, st.loaded, i)
         else Finished(inp, st.ss, st.loaded, i) || (i == st.cur && HasLoaded(inp, st.ss, st.loaded, i))
  }

  /** What has come out is what was loaded and does not wait. */
  ghost predicate Accounted(inp: Input, st: State, out: seq<Output>)
  {
    && Shape(inp, st)
    && InOrder(out)
    && (forall j :: 0 <= j < |out| ==> inp.Has(out[j]))
    && forall i :: 0 <= i < |st.ss| ==>
         Count(out, i) == st.loaded[i] - (if i in st.waiting && st.loaded[i] > 0 then 1 else 0)
  }

  /** In sorted mode: the output is sorted, and nothing that waits is earlier than it. */
  ghost predicate Merging(inp: Input, st: State, out: seq<Output>, last: int)
  {
    && Shape(inp, st)
    && inp.SortedOut(out)
    && (forall j :: 0 <= j < |out| ==> inp.ClockOf(out[j]) <= last)
    && (out != [] ==> forall i :: i in st.waiting && i < |st.ss| ==> last <= st.ss[i].lastclock)
    && (st.cur >= 0 && st.ss[st.cur].active ==> last <= st.ss[st.cur].lastclock)
  }

  // ---------- stepping one stream ----------

  /** Stream i can be stepped: it is about to load event loaded[i], or has given all. */
  ghost predicate Ready(inp: Input, ss: seq<StreamState>, loaded: seq<nat>, i: nat)
  {
    && inp.Valid() && |ss| == |loaded| == |inp.files| && i < |ss|
    && loaded[i] <= |inp.evs[i]|
    && (if ss[i].active then Before(inp.files[i], ss[i], inp.evs[i], loaded[i]) else loaded[i] == |inp.evs[i]|)
    && (loaded[i] > 0 && ss[i].active ==> ss[i].lastclock == inp.ClockOf(Output(i, loaded[i] - 1)))
  }

  /** The next event of stream i goes back in time. */
  ghost predicate Refused(inp: Input, ss: seq<StreamState>, loaded: seq<nat>, i: nat) {
    && inp.Valid() && |ss| == |loaded| == |inp.files| && i < |ss|
    && ss[i].active && loaded[i] < |inp.evs[i]| && !inp.unsorted
    && inp.ClockOf(Output(i, loaded[i])) < ss[i].lastclock
  }

  /** What stepping stream i may do: load its next event, which then waits; find its end; or
      refuse an event that goes back in time. */
  ghost predicate Stepped(inp: Input, a: State, b: State, i: nat, t: StreamState, ret: int) {
    && Shape(inp, a) && i < |a.ss| && Ready(inp, a.ss, a.loaded, i)
    && t.unsorted == a.ss[i].unsorted && t.clockOffset == a.ss[i].clockOffset
    && (if Refused(inp, a.ss, a.loaded, i) then
          ret == -1
        else if !a.ss[i].active || a.loaded[i] == |inp.evs[i]| then
          ret == 1 && b == a.(ss := a.ss[i := t]) && Finished(inp, b.ss, b.loaded, i)
          && t.lastclock == a.ss[i].lastclock
        else
          ret == 0 && b == Enter(a, i, t) && HasLoaded(inp, b.ss, b.loaded, i)
          && (!inp.unsorted ==> a.ss[i].lastclock <= t.lastclock))
  }

  /** What stream_step does to a stream that is ready. */
  lemma {:induction false} StepReady(inp: Input, st: State, i: nat)
    requires Shape(inp, st) && i < |st.ss| && Ready(inp, st.ss, st.loaded, i) && st.ss[i].active
    ensures var (t, ret) := Step(inp.files[i], st.ss[i]);
            && Stepped(inp, st, if ret == 0 then Enter(st, i, t) else st.(ss := st.ss[i := t]), i, t, ret)
            && -1 <= ret <= 1
  {
    StepWellFormed(inp.files[i], st.ss[i], inp.evs[i], st.loaded[i]);
  }

  /** Every stream starts at zero or later and never goes back. */
  ghost predicate Monotone(inp: Input) {
    forall i, k :: 0 <= i < |inp.evs| && 0 <= k < |inp.evs[i]| ==>
      (if k == 0 then 0 else inp.ClockOf(Output(i, k - 1))) <= inp.ClockOf(Output(i, k))
  }

  // ---------- the merge step by step ----------

  /** Event k of stream i enters the heap. */
  function Enter(st: State, i: nat, t: StreamState): State {
    if i >= |st.ss| || i >= |st.loaded| then st
    else State(st.ss[i := t], st.loaded[i := st.loaded[i] + 1], st.waiting + {i}, if st.cur == i then -1 else st.cur)
  }

  function Leave(st: State, i: nat): State {
    State(st.ss, st.loaded, st.waiting - {i}, i)
  }

  lemma {:induction false} EnterKeeps(inp: Input, st: State, i: nat, t: StreamState, out: seq<Output>, n: nat)
    requires Shape(inp, st) && i < |st.ss| && i !in st.waiting && n <= |st.ss|
    requires t.unsorted == st.ss[i].unsorted && t.clockOffset == st.ss[i].clockOffset
    requires HasLoaded(inp, st.ss[i := t], st.loaded[i := st.loaded[i] + 1], i)
    requires Streaming(inp, st, n) && i <= n && Accounted(inp, st, out)
    ensures Shape(inp, Enter(st, i, t))
    ensures Streaming(inp, Enter(st, i, t), if i == n then n + 1 else n)
    ensures Accounted(inp, Enter(st, i, t), out)
  {
    var r := Enter(st, i, t);
    forall j | 0 <= j < n && j != i
      ensures HasLoaded(inp, r.ss, r.loaded, j) == HasLoaded(inp, st.ss, st.loaded, j)
      ensures Finished(inp, r.ss, r.loaded, j) == Finished(inp, st.ss, st.loaded, j)
    {
    }
  }

  lemma {:induction false} EndKeeps(inp: Input, st: State, i: nat, t: StreamState, out: seq<Output>, n: nat)
    requires Shape(inp, st) && i < |st.ss| && i !in st.waiting && n <= |st.ss|
    requires t.unsorted == st.ss[i].unsorted && t.clockOffset == st.ss[i].clockOffset
    requires Finished(inp, st.ss[i := t], st.loaded, i)
    requires Streaming(inp, st, n) && i <= n && Accounted(inp, st, out)
    ensures var r := st.(ss := st.ss[i := t]);
            && Shape(inp, r) && Streaming(inp, r, if i == n then n + 1 else n) && Accounted(inp, r, out)
  {
    var r := st.(ss := st.ss[i := t]);
    forall j | 0 <= j < n && j != i
      ensures HasLoaded(inp, r.ss, r.loaded, j) == HasLoaded(inp, st.ss, st.loaded, j)
      ensures Finished(inp, r.ss, r.loaded, j) == Finished(inp, st.ss, st.loaded, j)
    {
    }
  }

  lemma {:induction false} LeaveStreams(inp: Input, st: State, i: nat)
    requires Shape(inp, st) && i in st.waiting && i < |st.ss| && Streaming(inp, st, |st.ss|) && Idle(inp, st)
    ensures HasLoaded(inp, st.ss, st.loaded, i)
    ensures Shape(inp, Leave(st, i)) && Streaming(inp, Leave(st, i), |st.ss|)
  {
    hide HasLoaded, Finished;
  }

  /** The event at the top of the heap goes out. */
  lemma {:induction false} LeaveKeeps(inp: Input, st: State, i: nat, out: seq<Output>)
    requires Shape(inp, st) && i in st.waiting && i < |st.ss|
    requires Streaming(inp, st, |st.ss|) && Accounted(inp, st, out) && Idle(inp, st)
    ensures st.loaded[i] > 0
    ensures var r, o := Leave(st, i), Output(i, st.loaded[i] - 1);
            && Shape(inp, r) && Streaming(inp, r, |r.ss|) && Accounted(inp, r, out + [o])
  {
    LeaveStreams(inp, st, i);
    var r, o := Leave(st, i), Output(i, st.loaded[i] - 1);
    hide Streaming;
    InOrderSnoc(out, o);
    forall j | 0 <= j < |r.ss|
      ensures Count(out + [o], j) == r.loaded[j] - (if j in r.waiting && r.loaded[j] > 0 then 1 else 0)
    {
      CountSnoc(out, o, j);
    }
  }

  /** The output stays sorted when the earliest waiting event goes out; in particular its
      clock is not before the last one. */
  lemma {:induction false} LeaveMerges(inp: Input, st: State, i: nat, out: seq<Output>, last: int)
    requires Shape(inp, st) && i in st.waiting && i < |st.ss|
    requires Streaming(inp, st, |st.ss|) && Merging(inp, st, out, last)
    requires forall j :: j in st.waiting && j < |st.ss| ==> st.ss[i].lastclock <= st.ss[j].lastclock
    ensures st.loaded[i] > 0
    ensures out != [] ==> last <= st.ss[i].lastclock
    ensures Shape(inp, Leave(st, i))
    ensures Merging(inp, Leave(st, i), out + [Output(i, st.loaded[i] - 1)], st.ss[i].lastclock)
  {
    var o := Output(i, st.loaded[i] - 1);
    assert HasLoaded(inp, st.ss, st.loaded, i);
    var r := out + [o];
    forall j | 0 <= j < |r| ensures inp.Has(r[j]) && inp.ClockOf(r[j]) <= st.ss[i].lastclock {
    }
    forall j, k | 0 <= j < k < |r| ensures inp.ClockOf(r[j]) <= inp.ClockOf(r[k]) {
    }
  }

  /** When nothing waits, everything has come out. */
  lemma {:induction false} NothingWaits(inp: Input, st: State, out: seq<Output>)
    requires Shape(inp, st) && Streaming(inp, st, |st.ss|) && Accounted(inp, st, out)
    requires st.waiting == {} && (st.cur == -1 || Finished(inp, st.ss, st.loaded, st.cur))
    ensures forall i :: 0 <= i < |st.ss| ==> Count(out, i) == |inp.evs[i]|
  {
  }

  lemma {:induction false} EnterMerges(inp: Input, st: State, i: nat, t: StreamState, out: seq<Output>, last: int)
    requires Shape(inp, st) && i < |st.ss| && i == st.cur && st.ss[i].active && Shape(inp, Enter(st, i, t))
    requires Merging(inp, st, out, last) && st.ss[i].lastclock <= t.lastclock
    ensures Merging(inp, Enter(st, i, t), out, last)
  {
  }

  lemma {:induction false} EndMerges(inp: Input, st: State, i: nat, t: StreamState, out: seq<Output>, last: int)
    requires Shape(inp, st) && i < |st.ss| && i == st.cur && !t.active && Shape(inp, st.(ss := st.ss[i := t]))
    requires Merging(inp, st, out, last)
    ensures Merging(inp, st.(ss := st.ss[i := t]), out, last)
  {
  }

  /** The current stream can be stepped, and a refusal means that it goes back in time. */
  lemma {:induction false} CurrentReady(inp: Input, st: State)
    requires Shape(inp, st) && Streaming(inp, st, |st.ss|) && st.cur >= 0
    ensures Ready(inp, st.ss, st.loaded, st.cur)
    ensures Refused(inp, st.ss, st.loaded, st.cur) ==> !Monotone(inp) && !inp.unsorted
  {
    var i := st.cur;
    if Refused(inp, st.ss, st.loaded, i) {
      assert HasLoaded(inp, st.ss, st.loaded, i);
      var k := st.loaded[i];
      assert inp.ClockOf(Output(i, k - 1)) > inp.ClockOf(Output(i, k));
    }
  }

  // ---------- the merge with its clocks ----------

  datatype Clocks = Clocks(first: bool, firstclock: int, lastclock: int, deltaclock: int)

  /** update_clocks on the four clock fields. */
  function Updated(cl: Clocks, sclock: int): Clocks {
    var f := if cl.first then sclock else cl.firstclock;
    Clocks(false, f, sclock, sclock - f)
  }

  /** Between two calls of the player. */
  ghost predicate MergeOk(inp: Input, st: State, out: seq<Output>, cl: Clocks) {
    && Streaming(inp, st, |st.ss|)
    && Accounted(inp, st, out)
    && (cl.first <==> out == [])
    && (!inp.unsorted ==> Merging(inp, st, out, cl.lastclock))
    && (!cl.first ==> cl.deltaclock == cl.lastclock - cl.firstclock)
    && (out != [] ==> cl.firstclock == inp.ClockOf(out[0]) && cl.lastclock == inp.ClockOf(out[|out| - 1]))
  }

  /** No stream is on an event unless it waits. */
  ghost predicate Idle(inp: Input, st: State) {
    st.cur == -1 || (st.cur >= 0 && Finished(inp, st.ss, st.loaded, st.cur))
  }

  ghost predicate Earliest(st: State, i: nat) {
    i in st.waiting && i < |st.ss| && forall j :: j in st.waiting && j < |st.ss| ==>
        st.ss[i].lastclock <= st.ss[j].lastclock
  }

  /** Stepping the current stream keeps everything, and fails only on a stream that goes
      back in time. */
  lemma {:induction false} StepCurrentKeeps(inp: Input, st: State, b: State, t: StreamState, ret: int,
                                            out: seq<Output>, cl: Clocks)
    requires MergeOk(inp, st, out, cl) && st.cur >= 0 && Stepped(inp, st, b, st.cur, t, ret)
    ensures ret == -1 <==> Refused(inp, st.ss, st.loaded, st.cur)
    ensures ret == -1 ==> !Monotone(inp) && !inp.unsorted
    ensures ret != -1 ==> MergeOk(inp, b, out, cl) && Idle(inp, b)
    ensures ret != -1 ==> if b.cur == -1 then st.cur in b.waiting else b.cur == st.cur
  {
    var i, n := st.cur, |st.ss|;
    CurrentReady(inp, st);
    hide Ready, Streaming, Accounted, Merging, Monotone, Finished, HasLoaded, Refused;
    if ret == 0 {
      EnterKeeps(inp, st, i, t, out, n);
      assert b == Enter(st, i, t);
      if !inp.unsorted {
        assert st.ss[i].active by { ActiveStep(inp, st, b, i, t); }
        EnterMerges(inp, st, i, t, out, cl.lastclock);
      }
    } else if ret == 1 {
      EndKeeps(inp, st, i, t, out, n);
      if !inp.unsorted {
        FinishedInactive(inp, b, i);
        EndMerges(inp, st, i, t, out, cl.lastclock);
      }
    }
  }

  lemma {:induction false} FinishedInactive(inp: Input, b: State, i: nat)
    requires Finished(inp, b.ss, b.loaded, i)
    ensures i < |b.ss| && !b.ss[i].active
  {
  }

  lemma {:induction false} ActiveStep(inp: Input, a: State, b: State, i: nat, t: StreamState)
    requires Stepped(inp, a, b, i, t, 0)
    ensures a.ss[i].active
  {
  }

  lemma {:induction false} WaitingLoaded(inp: Input, st: State, i: nat)
    requires Streaming(inp, st, |st.ss|) && i in st.waiting && i < |st.ss|
    ensures Shape(inp, st) && i < |st.loaded| && st.loaded[i] > 0
    ensures var o := Output(i, st.loaded[i] - 1); inp.Has(o) && st.ss[i].lastclock == inp.ClockOf(o)
  {
    assert HasLoaded(inp, st.ss, st.loaded, i);
    hide Finished, Input.ClockOf;
  }

  /** Taking the earliest waiting event keeps everything. In sorted mode its clock is not
      before the last one, so update_clocks accepts it. */
  lemma {:induction false} PopKeeps(inp: Input, st: State, i: nat, out: seq<Output>, cl: Clocks)
    requires MergeOk(inp, st, out, cl) && Idle(inp, st) && Earliest(st, i)
    ensures st.loaded[i] > 0
    ensures var c, o := st.ss[i].lastclock, Output(i, st.loaded[i] - 1);
            && inp.Has(o) && c == inp.ClockOf(o)
            && MergeOk(inp, Leave(st, i), out + [o], Updated(cl, c))
            && (!inp.unsorted && !cl.first ==> cl.lastclock <= c)
  {
    hide Streaming, Accounted, Merging, Finished, Idle, Input.ClockOf, Input.Has;
    hide HasLoaded, Leave, Shape;
    WaitingLoaded(inp, st, i);
    LeaveKeeps(inp, st, i, out);
    if !inp.unsorted {
      LeaveMerges(inp, st, i, out, cl.lastclock);
    }
  }

  /** Everything is out. */
  ghost predicate Complete(inp: Input, out: seq<Output>) {
    && |inp.evs| == |inp.files|
    && forall i :: 0 <= i < |inp.evs| ==> Count(out, i) == |inp.evs[i]|
  }

  lemma {:induction false} PopNothing(inp: Input, st: State, out: seq<Output>, cl: Clocks)
    requires MergeOk(inp, st, out, cl) && Idle(inp, st) && st.waiting == {}
    ensures Complete(inp, out)
  {
    NothingWaits(inp, st, out);
  }

  /** What a whole run gives: each event of each stream exactly once, each stream in its
      order and, in sorted mode, by corrected clock. */
  lemma {:induction false} WholeMerge(inp: Input, st: State, out: seq<Output>, cl: Clocks)
    requires MergeOk(inp, st, out, cl) && Complete(inp, out)
    ensures forall j :: 0 <= j < |out| ==> inp.Has(out[j])
    ensures forall i, e :: 0 <= i < |inp.evs| && 0 <= e < |inp.evs[i]| ==> Output(i, e) in out
    ensures forall j, k :: 0 <= j < k < |out| && out[j].stream == out[k].stream ==> out[j].idx < out[k].idx
    ensures !inp.unsorted ==> forall j, k :: 0 <= j < k < |out| ==> inp.ClockOf(out[j]) <= inp.ClockOf(out[k])
  {
    forall i, e | 0 <= i < |inp.evs| && 0 <= e < |inp.evs[i]| ensures Output(i, e) in out {
      ExactlyOnce(out, i, e);
    }
    forall j, k | 0 <= j < k < |out| && out[j].stream == out[k].stream ensures out[j].idx < out[k].idx {
      EarlierIsLess(out, j, k);
    }
  }

  // ---------- the start ----------

  const MAX_GATE := 3600 * 1000 * 1000 * 1000

  /** All streams from n on are still at their start. */
  ghost predicate Fresh(inp: Input, st: State, n: nat) {
    && Shape(inp, st) && n <= |st.ss|
    && forall i :: n <= i < |st.ss| ==> FreshStream(inp, st, i)
  }

  ghost predicate FreshStream(inp: Input, st: State, i: nat)
    requires Shape(inp, st) && i < |st.ss|
  {
    && st.loaded[i] == 0 && i !in st.waiting && st.ss[i].lastclock == 0
    && (if st.ss[i].active then Before(inp.files[i], st.ss[i], inp.evs[i], 0) else inp.evs[i] == [])
  }

  /** While the streams are loaded one after the other: the first n are done. */
  ghost predicate Starting(inp: Input, st: State, n: nat) {
    && st.cur == -1 && Fresh(inp, st, n) && Streaming(inp, st, n) && Accounted(inp, st, [])
    && (forall i :: 0 <= i < n ==> (i in st.waiting <==> inp.evs[i] != []))
    && (forall i :: i in st.waiting ==> st.loaded[i] == 1)
  }

  lemma {:induction false} StartReady(inp: Input, st: State, n: nat)
    requires Starting(inp, st, n) && n < |st.ss|
    ensures Ready(inp, st.ss, st.loaded, n) && n !in st.waiting
    ensures Refused(inp, st.ss, st.loaded, n) <==> NegativeStart(inp, n)
  {
    assert FreshStream(inp, st, n);
  }

  /** In sorted mode a stream whose first corrected clock is negative is refused. */
  ghost predicate NegativeStart(inp: Input, i: nat) {
    i < |inp.evs| && inp.evs[i] != [] && !inp.unsorted && inp.ClockOf(Output(i, 0)) < 0
  }

  lemma {:induction false} StartKeeps(inp: Input, st: State, b: State, n: nat, t: StreamState, ret: int)
    requires Starting(inp, st, n) && n < |st.ss| && Stepped(inp, st, b, n, t, ret) && ret != -1
    ensures Starting(inp, b, n + 1)
  {
    assert FreshStream(inp, st, n);
    if ret == 0 {
      EnterKeeps(inp, st, n, t, [], n);
    } else {
      EndKeeps(inp, st, n, t, [], n);
    }
    forall i | n + 1 <= i < |b.ss| ensures FreshStream(inp, b, i) {
      assert FreshStream(inp, st, i);
    }
  }

  /** Once all streams are loaded, the merge can begin. */
  lemma {:induction false} StartedMerge(inp: Input, st: State)
    requires Starting(inp, st, |st.ss|)
    ensures MergeOk(inp, st, [], Clocks(true, 0, 0, 0))
    ensures forall i :: 0 <= i < |st.ss| && inp.evs[i] != [] ==>
              i in st.waiting && st.ss[i].lastclock == inp.ClockOf(Output(i, 0))
  {
  }

  /** The stream of the trace that gives the reference clock: the first with events. */
  ghost predicate Leads(inp: Input, i: nat) {
    i < |inp.evs| && inp.evs[i] != [] && forall k :: 0 <= k < i ==> inp.evs[k] == []
  }

  /** Stream j starts too far from stream i. */
  ghost predicate TooFar(inp: Input, i: nat, j: nat) {
    && j < |inp.evs| && inp.evs[j] != []
    && var d := inp.ClockOf(Output(i, 0)) - inp.ClockOf(Output(j, 0));
       d > MAX_GATE || -d > MAX_GATE
  }

  ghost predicate FarApart(inp: Input) {
    exists i, j :: Leads(inp, i) && TooFar(inp, i, j)
  }

  /** In sorted mode the player does not start if a stream begins before time zero, or too
      far from the first one. */
  ghost predicate Unplayable(inp: Input) {
    !inp.unsorted && ((exists i :: NegativeStart(inp, i)) || FarApart(inp))
  }

  /** The clock of the event a stream is on, as the clock gate reads it. */
  lemma {:induction false} GateClock(inp: Input, st: State, i: nat)
    requires Starting(inp, st, |st.ss|) && i < |st.ss|
    ensures st.ss[i].active && st.ss[i].cur != Null <==> inp.evs[i] != []
    ensures inp.evs[i] != [] ==> CorrectedClock(inp.files[i], st.ss[i], st.ss[i].cur.addr) == inp.ClockOf(Output(i, 0))
  {
    if i in st.waiting {
      assert HasLoaded(inp, st.ss, st.loaded, i);
      EventInFile(inp.files[i], inp.evs[i], 0);
    } else {
      assert Finished(inp, st.ss, st.loaded, i);
    }
  }
}
