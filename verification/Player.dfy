/** The player: a k-way merge of the streams through the pointer heap. */
module Player {
  import opened Sequences
  import opened Event
  import opened Streams
  import opened Heap
  import opened PlayerSpec

  /** What the heap compares: the last clock of a stream; the stream is found from it. */
  datatype Key = Key(clock: int, stream: nat)

  /** stream_cmp: the opposite order, so the heap has the earliest stream on top. */
  function StreamCmp(a: Key, b: Key): int {
    if a.clock < b.clock then 1 else if a.clock > b.clock then -1 else 0
  }

  lemma {:induction false} StreamCmpPreorder()
    ensures Preorder(StreamCmp)
  {
  }

  /** The heap holds exactly the nodes of the waiting streams, keyed by their last clock. */
  ghost predicate Mirrors(ns: seq<Node<Key>>, nodes: seq<Node<Key>>, st: State)
    reads nodes
  {
    MirrorsBy(ns, nodes, Keys(Nodes(nodes)), st)
  }

  ghost predicate MirrorsBy(ns: seq<Node<Key>>, nodes: seq<Node<Key>>, ks: map<Node<Key>, Key>, st: State) {
    && (forall i :: i in st.waiting ==>
          i < |nodes| && i < |st.ss| && nodes[i] in ns && nodes[i] in ks && ks[nodes[i]] == Key(st.ss[i].lastclock, i))
    && (forall n :: n in ns ==>
          n in ks && ks[n].stream in st.waiting && ks[n].stream < |nodes| && nodes[ks[n].stream] == n)
  }

  /** The node of stream i joins the heap. */
  lemma {:induction false} MirrorsPush(ns: seq<Node<Key>>, ms: seq<Node<Key>>, nodes: seq<Node<Key>>,
                                       ks: map<Node<Key>, Key>, ls: map<Node<Key>, Key>, st: State, st': State, i: nat)
    requires MirrorsBy(ns, nodes, ks, st) && NoDup(nodes) && i < |nodes|
    requires |st.ss| == |st'.ss| && i < |st.ss| && i !in st.waiting && st'.waiting == st.waiting + {i}
    requires forall j :: 0 <= j < |st.ss| && j != i ==> st'.ss[j] == st.ss[j]
    requires ls == ks[nodes[i] := Key(st'.ss[i].lastclock, i)] && Nodes(ms) == Nodes(ns) + {nodes[i]}
    ensures MirrorsBy(ms, nodes, ls, st')
  {
    assert forall n :: n in ms <==> n in Nodes(ms);
    assert forall n :: n in ns <==> n in Nodes(ns);
  }

  /** The streams are the abstract ones; those from n on have not been told yet whether
      unsorted events are allowed. */
  ghost predicate StreamsAre(inp: Input, streams: seq<Stream>, ss: seq<StreamState>, n: nat)
    reads streams, set s | s in streams :: s.buf
  {
    && |streams| == |inp.files| == |ss|
    && forall i :: 0 <= i < |streams| ==>
         && streams[i].buf[..] == inp.files[i]
         && (if i < n then ss[i] == streams[i].State()
             else !streams[i].unsorted && ss[i] == streams[i].State().(unsorted := inp.unsorted))
  }

  ghost function Files(streams: seq<Stream>): seq<seq<Byte>>
    reads streams, set s | s in streams :: s.buf
  {
    seq(|streams|, i requires 0 <= i < |streams| reads streams, set s | s in streams :: s.buf => streams[i].buf[..])
  }

  ghost function Offsets(streams: seq<Stream>): seq<int>
    reads streams
  {
    seq(|streams|, i requires 0 <= i < |streams| reads streams => streams[i].clockOffset)
  }

  ghost function States(streams: seq<Stream>, unsorted: bool): seq<StreamState>
    reads streams
  {
    seq(|streams|, i requires 0 <= i < |streams| reads streams => streams[i].State().(unsorted := unsorted))
  }

  /** What taking the next event does to the output and the clocks: it appends the next
      event of the new current stream, at its corrected clock. In sorted mode that clock is
      not before the last one. At the end everything is out. */
  ghost predicate Took(inp: Input, out0: seq<Output>, cl0: Clocks, out: seq<Output>, cl: Clocks, stream: int,
                       ret: int) {
    if ret == 1 then
      out == out0 && cl == cl0 && Complete(inp, out)
    else
      && ret == 0 && |out| == |out0| + 1 && out == out0 + [out[|out0|]]
      && var o := out[|out0|];
         && inp.Has(o) && o.stream == stream && cl == Updated(cl0, inp.ClockOf(o))
         && (!inp.unsorted && !cl0.first ==> cl0.lastclock <= cl.lastclock)
  }

  class Player {
    const heap: Heap<Key>
    const streams: seq<Stream>
    const nodes: seq<Node<Key>>
    const unsorted: bool
    var stream: int
    var firstEvent: bool
    var firstclock: int
    var lastclock: int
    var deltaclock: int
    var nprocessed: nat
    ghost const inp: Input
    ghost var st: State
    ghost var out: seq<Output>

    ghost predicate Fixed() {
      inp.unsorted == unsorted && |nodes| == |streams| && NoDup(streams) && NoDup(nodes)
    }

    ghost predicate HeapIs()
      reads this`st, heap, heap.ns, nodes
    {
      heap.Valid(StreamCmp) && Mirrors(heap.ns, nodes, st)
    }

    /** The objects behind the abstract state. */
    ghost predicate Objects(n: nat)
      reads this`st, heap, heap.ns, streams, nodes, set s | s in streams :: s.buf
    {
      && Fixed()
      && HeapIs()
      && StreamsAre(inp, streams, st.ss, n)
    }

    ghost function ClocksOf(): Clocks
      reads this
    {
      Clocks(firstEvent, firstclock, lastclock, deltaclock)
    }

    /** Between two calls of the player. */
    ghost predicate Valid()
      reads this, heap, heap.ns, streams, nodes, set s | s in streams :: s.buf
    {
      && Objects(|streams|)
      && st.cur == stream
      && MergeOk(inp, st, out, ClocksOf())
    }

    /** The current stream has been put back; the next one has not been taken. */
    ghost predicate Between()
      reads this, heap, heap.ns, streams, nodes, set s | s in streams :: s.buf
    {
      && Objects(|streams|)
      && (if st.cur == -1 then stream == -1 || stream in st.waiting else st.cur == stream)
      && MergeOk(inp, st, out, ClocksOf()) && Idle(inp, st)
    }

    /** The player before player_init loads the streams; each stream was just loaded from
        its file, with its clock offset, and nodes[i] is the heap node inside stream i. */
    constructor (streams: seq<Stream>, nodes: seq<Node<Key>>, unsorted: bool, ghost evs: seq<seq<Ev>>)
      requires |streams| == |nodes| == |evs| && NoDup(streams) && NoDup(nodes)
      requires forall i :: 0 <= i < |streams| ==>
                 && Holds(streams[i].buf[..], evs[i])
                 && streams[i].State() == Loaded(streams[i].buf[..]).(clockOffset := streams[i].clockOffset)
      ensures this.streams == streams && this.nodes == nodes && this.unsorted == unsorted
      ensures fresh(heap) && Objects(0) && Starting(inp, st, 0)
      ensures stream == -1 && out == [] && ClocksOf() == Clocks(true, 0, 0, 0)
      ensures inp.evs == evs && |inp.files| == |inp.offsets| == |streams|
      ensures forall i :: 0 <= i < |streams| ==>
                inp.files[i] == streams[i].buf[..] && inp.offsets[i] == streams[i].clockOffset
    {
      StreamCmpPreorder();
      heap := new Heap(StreamCmp);
      this.streams, this.nodes, this.unsorted := streams, nodes, unsorted;
      stream := -1;
      firstEvent := true;
      firstclock, lastclock, deltaclock := 0, 0, 0;
      nprocessed := 0;
      inp := Input(Files(streams), evs, Offsets(streams), unsorted);
      st := State(States(streams, unsorted), seq(|streams|, i => 0), {}, -1);
      out := [];
      new;
      InitialState(inp, st);
    }

    lemma {:induction false} HeapOwns()
      requires HeapIs()
      ensures forall n :: n in heap.ns ==> n in nodes
    {
    }

    lemma {:induction false} NotInHeap(i: nat)
      requires HeapIs() && Fixed() && i < |nodes| && i !in st.waiting
      ensures nodes[i] !in heap.ns && nodes[i] in nodes
      ensures forall n :: n in heap.ns ==> n in nodes
    {
    }

    /** Puts the node of stream i in the heap, with the last clock of the stream. */
    method Reinsert(i: nat, clock: int, ghost st': State)
      requires HeapIs() && Fixed()
      requires i < |nodes| && |st.ss| == |st'.ss| && i < |st.ss| && i !in st.waiting
      requires st'.waiting == st.waiting + {i} && st'.ss[i].lastclock == clock
      requires forall j :: 0 <= j < |st.ss| && j != i ==> st'.ss[j] == st.ss[j]
      modifies this`st, heap, nodes
      ensures st == st' && HeapIs()
    {
      hide NoDup, Preorder, IsHeap, MirrorsBy;
      var node := nodes[i];
      NotInHeap(i);
      ghost var ns0, ks := heap.ns, Keys(Nodes(nodes));
      node.key := Key(clock, i);
      heap.Insert(node, StreamCmp);
      assert Keys(Nodes(nodes)) == ks[node := Key(clock, i)];
      MirrorsPush(ns0, heap.ns, nodes, ks, Keys(Nodes(nodes)), st, st', i);
      st := st';
    }

    /** stream_step on stream i, seen from the player. */
    method StepOne(s: Stream, i: nat, ghost ss: seq<StreamState>, ghost n: nat) returns (ret: int, ghost t: StreamState)
      requires StreamsAre(inp, streams, ss, n) && NoDup(streams) && i < |streams| && s == streams[i] && i < n
      modifies s`offset, s`cur, s`active, s`lastclock, s`deltaclock
      ensures StreamsAre(inp, streams, ss[i := t], n) && (t, ret) == Step(inp.files[i], ss[i])
      ensures s.lastclock == t.lastclock
    {
      hide Step;
      assert streams[i].buf[..] == inp.files[i] && streams[i].State() == ss[i];
      ret := s.StepStream();
      t := s.State();
    }

    lemma {:induction false} ActiveIs(s: Stream, i: nat, n: nat)
      requires StreamsAre(inp, streams, st.ss, n) && i < |streams| && s == streams[i]
      ensures i < |st.ss| && s.active == st.ss[i].active
    {
    }

    lemma {:induction false} HeapOther(a: State, b: State, i: nat, t: StreamState)
      requires heap.Valid(StreamCmp) && Mirrors(heap.ns, nodes, a) && i !in a.waiting && i < |a.ss|
      requires b == a.(ss := a.ss[i := t])
      ensures Mirrors(heap.ns, nodes, b)
    {
    }

    /** step_stream */
    method StepStreamAt(s: Stream, i: nat, ghost n: nat) returns (ret: int, ghost t: StreamState)
      requires Objects(n) && i < |streams| && s == streams[i] && i < n
      requires Shape(inp, st) && i !in st.waiting && Ready(inp, st.ss, st.loaded, i)
      modifies this`nprocessed, this`st, heap, s`offset, s`cur, s`active, s`lastclock, s`deltaclock, nodes
      ensures ret != -1 ==> Objects(n)
      ensures Stepped(inp, old(st), st, i, t, ret) && -1 <= ret <= 1
    {
      hide Ready, Finished, HasLoaded, Mirrors, Step, Preorder, IsHeap, NoDup, Shape, Stepped;
      ActiveIs(s, i, n);
      hide StreamsAre;
      ghost var st0 := st;
      t := st.ss[i];
      if !s.active {
        InactiveStepped(inp, st, i);
        return 1, t;
      }
      StepReady(inp, st, i);
      ret, t := StepOne(s, i, st.ss, n);
      if ret != 0 {
        HeapOther(st0, st0.(ss := st0.ss[i := t]), i, t);
        st := st0.(ss := st0.ss[i := t]);
        return;
      }
      ghost var st1 := Enter(st0, i, t);
      assert i < |st0.loaded| by { ShapeLoaded(inp, st0); }
      assert st1.ss == st0.ss[i := t];
      Reinsert(i, s.lastclock, st1);
      nprocessed := nprocessed + 1;
    }

    /** The first part of player_step: the current stream goes back to the heap. */
    method StepCurrent(s: Stream) returns (ret: int)
      requires Valid() && 0 <= stream < |streams| && s == streams[stream]
      modifies this`nprocessed, this`st, heap, s`offset, s`cur, s`active, s`lastclock, s`deltaclock, nodes
      ensures ret < 0 <==> Refused(inp, old(st.ss), old(st.loaded), old(st.cur))
      ensures ret < 0 ==> !Monotone(inp) && !unsorted
      ensures ret >= 0 ==> Between()
    {
      hide Objects, MergeOk, Idle, Monotone, Stepped, Ready, Shape, Refused;
      ghost var i, st0, cl := stream, st, ClocksOf();
      CurrentOk(inp, st, out, cl);
      UnsortedIs(|streams|);
      ghost var t;
      ret, t := StepStreamAt(s, stream, |streams|);
      StepCurrentKeeps(inp, st0, st, t, ret, out, cl);
    }

    /** The rest of player_step: the earliest stream leaves the heap. */
    method PopNext() returns (ret: int)
      requires Between()
      modifies this`stream, this`firstEvent, this`firstclock, this`lastclock, this`deltaclock
      modifies this`st, this`out, heap, nodes
      ensures Valid() && Took(inp, old(out), old(ClocksOf()), out, ClocksOf(), stream, ret)
      ensures ret == 0 || ret == 1
    {
      hide MergeOk, Idle, Earliest, Objects, Took;
      ghost var cl, st0, out0 := ClocksOf(), st, out;
      ghost var i: nat;
      var node;
      node, i := PopEarliest();
      if node == null {
        TookNothing(inp, st, out, cl, stream);
        return 1;
      }
      TookOne(inp, st0, i, out0, cl);
      ClockIs(st, i);
      assert unsorted == inp.unsorted by { UnsortedIs(|streams|); }
      ret := UpdateClocks(streams[node.key.stream].lastclock);
      stream := node.key.stream;
      out := out0 + [Output(i, st0.loaded[i] - 1)];
    }

    /** heap_pop_max, seen from the player. */
    method PopEarliest() returns (node: Node?<Key>, ghost i: nat)
      requires Objects(|streams|)
      modifies this`st, heap, nodes
      ensures Objects(|streams|)
      ensures node == null ==> st == old(st) && st.waiting == {}
      ensures node != null ==> Earliest(old(st), i) && node.key.stream == i < |streams| && st == Leave(old(st), i)
    {
      hide StreamsAre, NoDup, Preorder, IsHeap, MirrorsBy, Earliest;
      ghost var ns0, ks := heap.ns, Keys(Nodes(nodes));
      HeapOwns();
      node := heap.PopMax(StreamCmp);
      i := 0;
      assert Keys(Nodes(nodes)) == ks;
      if node == null {
        MirrorsEmpty(nodes, ks, st);
        return;
      }
      MirrorsPop(ns0, heap.ns, nodes, st, node);
      i := node.key.stream;
      st := Leave(st, i);
    }

    /** update_clocks */
    method UpdateClocks(sclock: int) returns (ret: int)
      modifies this`firstEvent, this`firstclock, this`lastclock, this`deltaclock
      ensures ret == -1 <==> !unsorted && !old(firstEvent) && sclock < old(lastclock)
      ensures ret == 0 || ret == -1
      ensures ret == 0 ==> ClocksOf() == Updated(old(ClocksOf()), sclock)
    {
      if firstEvent {
        firstEvent := false;
        firstclock := sclock;
        lastclock := sclock;
      }
      if sclock < lastclock {
        if !unsorted {
          return -1;
        }
      }
      lastclock := sclock;
      deltaclock := lastclock - firstclock;
      return 0;
    }

    /** player_step. It fails exactly when the next event of the current stream goes back in
        time, which needs a stream that is not sorted; in particular the
        backwards jump of update_clocks never happens in sorted mode. The new output is the
        next event of its stream and, in sorted mode, no earlier than any before it. At the
        end every event of every stream is out. */
    method PlayerStep() returns (ret: int)
      requires Valid()
      modifies this`stream, this`firstEvent, this`firstclock, this`lastclock, this`deltaclock, this`nprocessed
      modifies this`st, this`out, heap, nodes
      modifies streams`offset, streams`cur, streams`active, streams`lastclock, streams`deltaclock
      ensures ret == -1 <==> old(stream) != -1 && Refused(inp, old(st.ss), old(st.loaded), old(st.cur))
      ensures ret == -1 ==> !Monotone(inp) && !unsorted
      ensures ret != -1 ==> Valid() && Took(inp, old(out), old(ClocksOf()), out, ClocksOf(), stream, ret)
    {
      hide Objects, MergeOk, Monotone, Took, Refused;
      if stream != -1 {
        CurrentInRange(|streams|);
        var r := StepCurrent(streams[stream]);
        if r < 0 {
          return -1;
        }
      }
      ret := PopNext();
    }

    lemma {:induction false} CurrentInRange(n: nat)
      requires Objects(n) && MergeOk(inp, st, out, ClocksOf())
      ensures -1 <= st.cur < |streams|
    {
    }

    lemma {:induction false} UnsortedIs(n: nat)
      requires Objects(n)
      ensures unsorted == inp.unsorted
    {
    }

    lemma {:induction false} ClockIs(st0: State, i: nat)
      requires Objects(|streams|) && i < |streams| && st0.ss == st.ss
      ensures i < |st0.ss| && streams[i].lastclock == st0.ss[i].lastclock
    {
    }

    lemma {:induction false} StreamIs(i: nat, n: nat)
      requires Objects(n) && i < n && i < |streams|
      ensures i < |st.ss| && i < |inp.files| && streams[i].State() == st.ss[i] && streams[i].buf[..] == inp.files[i]
    {
    }

    /** check_clock_gate: the streams that have events must start within an hour of the
        first of them. */
    method CheckClockGate() returns (ret: int)
      requires Objects(|streams|) && Starting(inp, st, |streams|)
      ensures ret == 0 || ret == -1
      ensures ret == -1 <==> FarApart(inp)
    {
      hide Objects, Starting, Step;
      var t0, first, n := 0, true, 0;
      ret := 0;
      ghost var lead := 0;
      while n < |streams|
        invariant n <= |streams|
        invariant first <==> forall k :: 0 <= k < n && k < |inp.evs| ==> inp.evs[k] == []
        invariant !first ==> Leads(inp, lead) && t0 == inp.ClockOf(Output(lead, 0))
        invariant ret == 0 || ret == -1
        invariant ret == -1 <==> !first && exists j :: 0 <= j < n && TooFar(inp, lead, j)
      {
        var s := streams[n];
        StreamIs(n, |streams|);
        AllLoaded(inp, st, |streams|);
        GateClock(inp, st, n);
        if s.active {
          if s.cur.At? {
            var sclock := CorrectedClock(s.buf[..], s.State(), s.cur.addr);
            if first {
              first, t0, lead := false, sclock, n;
            }
            var delta := if t0 - sclock < 0 then sclock - t0 else t0 - sclock;
            if delta > MAX_GATE {
              assert TooFar(inp, lead, n);
              ret := -1;
            }
          }
        }
        n := n + 1;
      }
      AllLoaded(inp, st, |streams|);
      GateDecides(inp, first, lead);
    }

    lemma {:induction false} StreamsApart(n: nat)
      requires n < |streams| && NoDup(streams)
      ensures forall i :: 0 <= i < |streams| && i != n ==> streams[i] != streams[n]
    {
    }

    /** Stream n is told whether unsorted events are allowed. */
    method TellUnsorted(s: Stream, n: nat)
      requires n < |streams| && s == streams[n] && StreamsAre(inp, streams, st.ss, n) && inp.unsorted == unsorted
      requires forall i :: 0 <= i < |streams| && i != n ==> streams[i] != s
      modifies s`unsorted
      ensures StreamsAre(inp, streams, st.ss, n + 1)
    {
      assert st.ss[n] == s.State().(unsorted := inp.unsorted) && !s.unsorted;
      if unsorted {
        s.AllowUnsorted();
      }
      assert st.ss[n] == s.State();
      forall i | 0 <= i < |streams|
        ensures streams[i].buf[..] == inp.files[i]
        ensures if i < n + 1 then st.ss[i] == streams[i].State()
                else !streams[i].unsorted && st.ss[i] == streams[i].State().(unsorted := inp.unsorted)
      {
        assert i != n ==> streams[i].State() == old(streams[i].State());
      }
    }

    /** Loading stream n at the start. */
    method InitStream(n: nat) returns (ret: int)
      requires Objects(n) && Starting(inp, st, n) && n < |streams|
      modifies this`nprocessed, this`st, heap, nodes
      modifies streams`offset, streams`cur, streams`active, streams`lastclock, streams`deltaclock, streams`unsorted
      ensures ret < 0 <==> NegativeStart(inp, n)
      ensures ret >= 0 ==> Objects(n + 1) && Starting(inp, st, n + 1)
    {
      hide Starting, HeapIs, Stepped, Ready, NegativeStart, Refused, NoDup;
      ghost var st0 := st;
      var s := streams[n];
      StartOk(inp, st, n, |streams|);
      StreamsApart(n);
      hide Shape, StreamsAre;
      TellUnsorted(s, n);
      ghost var t;
      ret, t := StepStreamAt(s, n, n + 1);
      StartMoves(inp, st0, st, n, t, ret);
    }

    /** player_init: it loads the first event of every stream, and succeeds unless the
        streams cannot be played in order. */
    method PlayerInit() returns (ret: int)
      requires Objects(0) && Starting(inp, st, 0)
      requires stream == -1 && out == [] && ClocksOf() == Clocks(true, 0, 0, 0)
      modifies this`nprocessed, this`st, heap, nodes
      modifies streams`offset, streams`cur, streams`active, streams`lastclock, streams`deltaclock, streams`unsorted
      ensures ret == 0 || ret == -1
      ensures ret == -1 <==> Unplayable(inp)
      ensures ret == 0 ==> Valid()
    {
      hide Objects, Starting, MergeOk, NegativeStart, FarApart;
      UnsortedIs(0);
      var n := 0;
      while n < |streams|
        invariant n <= |streams|
        invariant Objects(n) && Starting(inp, st, n)
        invariant forall i :: 0 <= i < n ==> !NegativeStart(inp, i)
      {
        var r := InitStream(n);
        if r < 0 {
          NegativeSorted(inp, n);
          return -1;
        }
        n := n + 1;
      }
      AllLoaded(inp, st, |streams|);
      AllStarted(inp, n);
      if !unsorted {
        var gate := CheckClockGate();
        if gate != 0 {
          return -1;
        }
      }
      return 0;
    }

    lemma {:induction false} AllLoaded(inp: Input, st: State, n: nat)
      requires Objects(n) && inp == this.inp && st == this.st && n == |streams| && Starting(inp, st, n)
      ensures n == |st.ss| == |inp.evs| && MergeOk(inp, st, [], Clocks(true, 0, 0, 0)) && st.cur == -1
    {
      StartedMerge(inp, st);
    }
  }

  lemma {:induction false} GateDecides(inp: Input, first: bool, lead: nat)
    requires first <==> forall k :: 0 <= k < |inp.evs| ==> inp.evs[k] == []
    requires !first ==> Leads(inp, lead)
    ensures FarApart(inp) <==> !first && exists j :: 0 <= j < |inp.evs| && TooFar(inp, lead, j)
  {
    hide TooFar;
    forall i | Leads(inp, i) ensures !first && i == lead {
    }
    if j :| 0 <= j < |inp.evs| && !first && TooFar(inp, lead, j) {
      assert FarApart(inp);
    }
    if FarApart(inp) {
      var i, j :| Leads(inp, i) && TooFar(inp, i, j);
      TooFarIn(inp, i, j);
    }
  }

  lemma {:induction false} TooFarIn(inp: Input, i: nat, j: nat)
    requires TooFar(inp, i, j)
    ensures j < |inp.evs|
  {
  }

  lemma {:induction false} NegativeSorted(inp: Input, i: nat)
    requires NegativeStart(inp, i)
    ensures !inp.unsorted
  {
  }

  lemma {:induction false} AllStarted(inp: Input, n: nat)
    requires n == |inp.evs| && forall i :: 0 <= i < n ==> !NegativeStart(inp, i)
    ensures !exists i :: NegativeStart(inp, i)
  {
  }

  lemma {:induction false} StartOk(inp: Input, st: State, i: nat, n: nat)
    requires Starting(inp, st, i) && i < n == |inp.files|
    ensures Shape(inp, st) && i < |st.ss| && i !in st.waiting && Ready(inp, st.ss, st.loaded, i)
  {
    StartReady(inp, st, i);
  }

  lemma {:induction false} StartMoves(inp: Input, st: State, b: State, i: nat, t: StreamState, ret: int)
    requires Starting(inp, st, i) && i < |st.ss| && Stepped(inp, st, b, i, t, ret)
    ensures ret < 0 <==> NegativeStart(inp, i)
    ensures ret >= 0 ==> Starting(inp, b, i + 1)
  {
    StartReady(inp, st, i);
    if ret != -1 {
      StartKeeps(inp, st, b, i, t, ret);
    }
  }

  lemma {:induction false} InitialState(inp: Input, st: State)
    requires inp.Valid() && |st.ss| == |st.loaded| == |inp.files| && st.waiting == {} && st.cur == -1
    requires forall i :: 0 <= i < |st.loaded| ==> st.loaded[i] == 0
    requires forall i :: 0 <= i < |st.ss| ==>
               st.ss[i] == Loaded(inp.files[i]).(clockOffset := inp.offsets[i], unsorted := inp.unsorted)
    ensures Starting(inp, st, 0)
  {
    forall i | 0 <= i < |st.ss| ensures FreshStream(inp, st, i) {
      FileEnd(inp.files[i], inp.evs[i]);
      if inp.evs[i] != [] {
        OffStrict(inp.evs[i], 0, |inp.evs[i]|);
      }
      assert inp.evs[i][..0] == [];
    }
  }

  lemma {:induction false} ShapeLoaded(inp: Input, st: State)
    requires Shape(inp, st)
    ensures |st.ss| == |st.loaded|
  {
  }

  lemma {:induction false} InactiveStepped(inp: Input, st: State, i: nat)
    requires Shape(inp, st) && i < |st.ss| && Ready(inp, st.ss, st.loaded, i) && !st.ss[i].active
    ensures Stepped(inp, st, st, i, st.ss[i], 1)
  {
    assert st == st.(ss := st.ss[i := st.ss[i]]);
  }

  /** The current stream is one that can be stepped. */
  lemma {:induction false} CurrentOk(inp: Input, st: State, out: seq<Output>, cl: Clocks)
    requires MergeOk(inp, st, out, cl) && st.cur >= 0
    ensures Shape(inp, st) && st.cur !in st.waiting && Ready(inp, st.ss, st.loaded, st.cur)
  {
    CurrentReady(inp, st);
  }

  lemma {:induction false} TookNothing(inp: Input, st: State, out: seq<Output>, cl: Clocks, stream: int)
    requires MergeOk(inp, st, out, cl) && Idle(inp, st) && st.waiting == {}
    ensures Took(inp, out, cl, out, cl, stream, 1)
  {
    PopNothing(inp, st, out, cl);
  }

  lemma {:induction false} TookOne(inp: Input, st: State, i: nat, out: seq<Output>, cl: Clocks)
    requires MergeOk(inp, st, out, cl) && Idle(inp, st) && Earliest(st, i)
    ensures i < |st.ss| && i < |st.loaded| && st.loaded[i] > 0
    ensures var c, o := st.ss[i].lastclock, Output(i, st.loaded[i] - 1);
            && MergeOk(inp, Leave(st, i), out + [o], Updated(cl, c))
            && Took(inp, out, cl, out + [o], Updated(cl, c), i, 0)
            && (!inp.unsorted && !cl.first ==> cl.lastclock <= c)
  {
    PopKeeps(inp, st, i, out, cl);
  }

  lemma {:induction false} MirrorsEmpty(nodes: seq<Node<Key>>, ks: map<Node<Key>, Key>, st: State)
    requires MirrorsBy([], nodes, ks, st)
    ensures st.waiting == {}
  {
  }

  /** The node that leaves the heap is that of an earliest waiting stream. */
  lemma {:induction false} MirrorsPop(ns: seq<Node<Key>>, ms: seq<Node<Key>>, nodes: seq<Node<Key>>, st: State,
                                      node: Node<Key>)
    requires Mirrors(ns, nodes, st) && NoDup(nodes) && node in ns && Nodes(ms) == Nodes(ns) - {node}
    requires forall n :: n in ns ==> StreamCmp(n.key, node.key) <= 0
    ensures var i := node.key.stream;
            Earliest(st, i) && i < |nodes| && Mirrors(ms, nodes, Leave(st, i))
  {
    var i := node.key.stream;
    assert forall n :: n in ms <==> n in Nodes(ms);
    assert forall n :: n in ns <==> n in Nodes(ns);
    forall j | j in st.waiting ensures st.ss[i].lastclock <= st.ss[j].lastclock {
      assert nodes[j] in ns;
    }
  }
}
