/** Connecting a system: its channels, the multiplexers that track them, and the first state. */
module Connect {
  import opened Division
  import opened Chans
  import opened BaySpec
  import opened BayFlow
  import opened Bays
  import opened BayRuns
  import opened Sched
  import opened ThreadEvents

  /** How a channel of a thread is tracked: as it is, while running, or while active. */
  datatype Mode = Any | OnRunning | OnActive

  /** The channels a model has for each thread: whether each is a stack, allows duplicates,
      and how it is tracked. */
  datatype Spec = Spec(stack: seq<bool>, dup: seq<bool>, modes: seq<Mode>)
  {
    ghost predicate Valid() {
      |stack| == |dup| == |modes|
    }
  }

  /** The numbers of threads and CPUs, and the channels of the models. */
  datatype System = System(n: nat, m: nat, spec: Spec)
  {
    function Width(): nat {
      |spec.stack|
    }

    /** The first channel of the models, of the thread tracks, of the CPU tracks, and the end. */
    function Inputs(): nat {
      CpuChan(n, m, 0)
    }

    function Tracks(): nat {
      Inputs() + Cell(Width(), n, 0)
    }

    function CpuTracks(): nat {
      Tracks() + Cell(Width(), n, 0)
    }

    function Size(): nat {
      CpuTracks() + Cell(Width(), m, 0)
    }

    /** Channel i of the models for thread t, its track, and its track for CPU c. */
    function InChan(t: nat, i: nat): nat {
      Inputs() + Cell(Width(), t, i)
    }

    function Track(t: nat, i: nat): nat {
      Tracks() + Cell(Width(), t, i)
    }

    function CpuTrack(c: nat, i: nat): nat {
      CpuTracks() + Cell(Width(), c, i)
    }
  }

  // ---------- channels ----------

  /** thread_init_end, cpu_init_end, the init_chan of the models, and track_init */
  function FirstChan(y: System, x: nat): Chan
    requires y.spec.Valid()
  {
    if x < y.Inputs() then NewChan(false).(ignoreDup := x >= ThChan(y.n, 0) || x % TH_CHANS == 1)
    else if x < y.Tracks() && y.Width() > 0 then
      var i := (x - y.Inputs()) % y.Width();
      NewChan(y.spec.stack[i]).(allowDup := y.spec.dup[i])
    else NewChan(false)
  }

  function FirstChans(y: System): (r: seq<Chan>)
    requires y.spec.Valid()
    ensures |r| == y.Size() && forall x :: 0 <= x < |r| ==> r[x] == FirstChan(y, x)
  {
    seq(y.Size(), x requires 0 <= x < y.Size() => FirstChan(y, x))
  }

  /** Outputs of multiplexers are one level above all the other channels. */
  function Levels(y: System): (r: seq<nat>)
    ensures forall x: nat :: x < y.Size() ==> Level(r, x) == if x < y.Tracks() then 0 else 1
  {
    seq(y.Size(), x => if x < y.Tracks() then 0 else 1)
  }

  /** Every channel has its own place: those of the models after those of threads and CPUs, then the
      tracks of the threads, then those of the CPUs. */
  lemma {:induction false} Places(y: System, t: nat, i: nat, u: nat, j: nat)
    requires i < y.Width() && j < y.Width()
    ensures y.InChan(t, i) == y.InChan(u, j) || y.Track(t, i) == y.Track(u, j) || y.CpuTrack(t, i) == y.CpuTrack(u, j)
            ==> t == u && i == j
    ensures y.InChan(t, i) >= TH_CHANS * y.n + CPU_CHANS * y.m
    ensures t < y.n ==> y.InChan(t, i) < y.Tracks() <= y.Track(t, i) < y.CpuTracks()
    ensures t < y.m ==> y.CpuTracks() <= y.CpuTrack(t, i) < y.Size()
  {
    if Cell(y.Width(), t, i) == Cell(y.Width(), u, j) {
      Quotient(y.Width(), t, i, u, j);
    }
    if t < y.n {
      CellWithin(y.Width(), t, i, y.n);
    }
    if t < y.m {
      CellWithin(y.Width(), t, i, y.m);
    }
  }

  /** A channel of a model starts empty, of the kind its model says. */
  lemma {:induction false} ModelChan(y: System, t: nat, i: nat)
    requires y.spec.Valid() && t < y.n && i < y.Width()
    ensures var c := FirstChan(y, y.InChan(t, i));
            && c.stack == y.spec.stack[i] && c.allowDup == y.spec.dup[i] && !c.dirtyWrite && !c.ignoreDup
            && Held(c) == (if c.stack then [] else [Null]) && c.last == Null && !c.dirty
  {
    Places(y, t, i, t, i);
    Divided(Cell(y.Width(), t, i), y.Width(), t, i);
  }

  // ---------- multiplexers ----------

  /** track_connect_thread, for one channel */
  function ThreadMux(y: System, t: nat, i: nat): Mux
    requires i < |y.spec.modes|
  {
    Mux(ThChan(t, 2), y.Track(t, i), [y.InChan(t, i)], v => ThreadSelect(1, y.spec.modes[i].OnActive?, v), Null)
  }

  /** connect_cpu, for one channel */
  function CpuMux(y: System, c: nat, i: nat): Mux {
    Mux(CpuChan(y.n, c, 3), y.CpuTrack(c, i), CpuInputs(y, i), v => DefaultSelect(y.n, v), Null)
  }

  /** Channel i of every thread. */
  function CpuInputs(y: System, i: nat): (r: seq<nat>)
    ensures |r| == y.n && forall t :: 0 <= t < y.n ==> r[t] == y.InChan(t, i)
  {
    seq(y.n, t requires 0 <= t < y.n => y.InChan(t, i))
  }

  /** The muxes of the first k channels of thread t. */
  function ThreadRow(y: System, t: nat, k: nat): seq<Mux>
    requires k <= |y.spec.modes|
  {
    if k == 0 then []
    else ThreadRow(y, t, k - 1) + if y.spec.modes[k - 1].Any? then [] else [ThreadMux(y, t, k - 1)]
  }

  function ThreadRows(y: System, t: nat): seq<Mux> {
    if t == 0 then [] else ThreadRows(y, t - 1) + ThreadRow(y, t - 1, |y.spec.modes|)
  }

  function CpuRow(y: System, c: nat, k: nat): seq<Mux> {
    if k == 0 then [] else CpuRow(y, c, k - 1) + [CpuMux(y, c, k - 1)]
  }

  function CpuRows(y: System, c: nat): seq<Mux> {
    if c == 0 then [] else CpuRows(y, c - 1) + CpuRow(y, c - 1, y.Width())
  }

  /** model_thread_connect and model_cpu_connect */
  function Muxes(y: System): seq<Mux> {
    ThreadRows(y, y.n) + CpuRows(y, y.m)
  }

  // ---------- the network is layered ----------

  /** A mux from sources to a track, with a null default and a key that it never refuses. */
  ghost predicate MuxOk(y: System, x: Mux) {
    && WiredMux(x, y.Size()) && LayeredMux(x, Levels(y)) && y.Tracks() <= x.output && x.def == Null
    && x.choose(Null).Nothing? && Tracking(y, x)
  }

  ghost predicate ByState(x: Mux, t: nat, active: bool) {
    x.select == ThChan(t, 2) && forall v :: x.choose(v) == ThreadSelect(1, active, v)
  }

  ghost predicate ByThread(y: System, x: Mux, c: nat) {
    x.select == CpuChan(y.n, c, 3) && forall v :: x.choose(v) == DefaultSelect(y.n, v)
  }

  /** The key is the state of a thread, or the running thread of a CPU. */
  ghost predicate Tracking(y: System, x: Mux) {
    (exists t, active :: 0 <= t < y.n && ByState(x, t, active)) || (exists c :: 0 <= c < y.m && ByThread(y, x, c))
  }

  /** Muxes with rising outputs from lo up to hi. */
  ghost predicate Rising(y: System, w: seq<Mux>, lo: nat, hi: nat) {
    && lo <= hi
    && (forall m :: 0 <= m < |w| ==> MuxOk(y, w[m]) && lo <= w[m].output < hi)
    && (forall m, x :: 0 <= m < x < |w| ==> w[m].output < w[x].output)
  }

  lemma {:induction false} RisingThen(y: System, v: seq<Mux>, w: seq<Mux>, lo: nat, mid: nat, hi: nat)
    ensures Rising(y, v, lo, mid) && Rising(y, w, mid, hi) ==> Rising(y, v + w, lo, hi)
  {
    hide MuxOk;
  }

  lemma {:induction false} ThreadMuxOk(y: System, t: nat, i: nat)
    requires y.spec.Valid() && t < y.n && i < y.Width()
    ensures MuxOk(y, ThreadMux(y, t, i))
  {
    CellWithin(y.Width(), t, i, y.n);
    hide Cell;
    var x := ThreadMux(y, t, i);
    assert x.select < y.Inputs();
    assert ByState(x, t, y.spec.modes[i].OnActive?);
  }

  lemma {:induction false} CpuMuxOk(y: System, c: nat, i: nat)
    requires y.spec.Valid() && c < y.m && i < y.Width() && y.n > 0
    ensures MuxOk(y, CpuMux(y, c, i))
  {
    var x := CpuMux(y, c, i);
    forall t | 0 <= t < y.n
      ensures y.Inputs() <= x.inputs[t] < y.Tracks()
    {
      CellWithin(y.Width(), t, i, y.n);
    }
    CellWithin(y.Width(), c, i, y.m);
    hide Cell;
    assert x.select < y.Inputs();
    assert ByThread(y, x, c);
  }

  lemma {:induction false} ThreadRowRises(y: System, t: nat, k: nat)
    requires y.spec.Valid() && t < y.n && k <= y.Width()
    ensures Rising(y, ThreadRow(y, t, k), y.Track(t, 0), y.Track(t, k))
    ensures forall i :: 0 <= i < k && !y.spec.modes[i].Any? ==> ThreadMux(y, t, i) in ThreadRow(y, t, k)
  {
    hide MuxOk, Rising, Cell, ThreadMux;
    NoneRises(y, y.Track(t, 0));
    if k > 0 {
      ThreadRowRises(y, t, k - 1);
      var v, w := ThreadRow(y, t, k - 1), if y.spec.modes[k - 1].Any? then [] else [ThreadMux(y, t, k - 1)];
      OneThreadMux(y, t, k - 1);
      RisingThen(y, v, w, y.Track(t, 0), y.Track(t, k - 1), y.Track(t, k));
    }
  }

  lemma {:induction false} NoneRises(y: System, lo: nat)
    ensures Rising(y, [], lo, lo)
  {
  }

  lemma {:induction false} OneThreadMux(y: System, t: nat, i: nat)
    requires y.spec.Valid() && t < y.n && i < y.Width()
    ensures Rising(y, if y.spec.modes[i].Any? then [] else [ThreadMux(y, t, i)], y.Track(t, i), y.Track(t, i + 1))
  {
    ThreadMuxOk(y, t, i);
    hide MuxOk;
  }

  lemma {:induction false} RowEnds(y: System, t: nat)
    ensures t > 0 ==> y.Track(t, 0) == y.Track(t - 1, y.Width()) && y.CpuTrack(t, 0) == y.CpuTrack(t - 1, y.Width())
    ensures y.Track(0, 0) == y.Tracks() && y.CpuTrack(0, 0) == y.CpuTracks()
    ensures Rising(y, [], y.Tracks(), y.Tracks()) && Rising(y, [], y.CpuTracks(), y.CpuTracks())
  {
  }

  lemma {:induction false} ThreadRowsRise(y: System, t: nat)
    requires y.spec.Valid() && t <= y.n
    ensures Rising(y, ThreadRows(y, t), y.Tracks(), y.Track(t, 0))
    ensures forall u, i :: 0 <= u < t && 0 <= i < y.Width() && !y.spec.modes[i].Any? ==>
              ThreadMux(y, u, i) in ThreadRows(y, t)
  {
    hide MuxOk, Rising, Cell, ThreadRow, ThreadMux;
    RowEnds(y, t);
    if t > 0 {
      ThreadRowsRise(y, t - 1);
      ThreadRowRises(y, t - 1, y.Width());
      RisingThen(y, ThreadRows(y, t - 1), ThreadRow(y, t - 1, y.Width()), y.Tracks(), y.Track(t - 1, 0), y.Track(t, 0));
    }
  }

  lemma {:induction false} CpuRowRises(y: System, c: nat, k: nat)
    requires y.spec.Valid() && c < y.m && k <= y.Width() && y.n > 0
    ensures Rising(y, CpuRow(y, c, k), y.CpuTrack(c, 0), y.CpuTrack(c, k))
    ensures forall i :: 0 <= i < k ==> CpuMux(y, c, i) in CpuRow(y, c, k)
  {
    if k > 0 {
      CpuRowRises(y, c, k - 1);
      CpuMuxOk(y, c, k - 1);
      assert y.CpuTrack(c, k) == y.CpuTrack(c, k - 1) + 1;
      hide MuxOk;
      assert Rising(y, [CpuMux(y, c, k - 1)], y.CpuTrack(c, k - 1), y.CpuTrack(c, k));
      RisingThen(y, CpuRow(y, c, k - 1), [CpuMux(y, c, k - 1)], y.CpuTrack(c, 0), y.CpuTrack(c, k - 1),
                 y.CpuTrack(c, k));
    }
  }

  lemma {:induction false} CpuRowsRise(y: System, c: nat)
    requires y.spec.Valid() && c <= y.m && y.n > 0
    ensures Rising(y, CpuRows(y, c), y.CpuTracks(), y.CpuTrack(c, 0))
    ensures forall u, i :: 0 <= u < c && 0 <= i < y.Width() ==> CpuMux(y, u, i) in CpuRows(y, c)
  {
    hide MuxOk, Rising, Cell, CpuRow, CpuMux;
    RowEnds(y, c);
    if c > 0 {
      CpuRowsRise(y, c - 1);
      CpuRowRises(y, c - 1, y.Width());
      RisingThen(y, CpuRows(y, c - 1), CpuRow(y, c - 1, y.Width()), y.CpuTracks(), y.CpuTrack(c - 1, 0),
                 y.CpuTrack(c, 0));
    }
  }

  /** The network of a connected system is wired as mux_init asks, each output has one mux, and
      lies one level above what the mux listens to. */
  lemma {:induction false} Connected(y: System)
    requires y.spec.Valid() && y.n > 0
    ensures Wired(Muxes(y), y.Size()) && Layered(Muxes(y), Levels(y)) && OneDriver(Muxes(y))
    ensures forall m :: 0 <= m < |Muxes(y)| ==> MuxOk(y, Muxes(y)[m])
    ensures forall t, i :: 0 <= t < y.n && 0 <= i < y.Width() && !y.spec.modes[i].Any? ==>
              ThreadMux(y, t, i) in Muxes(y)
    ensures forall c, i :: 0 <= c < y.m && 0 <= i < y.Width() ==> CpuMux(y, c, i) in Muxes(y)
  {
    hide *;
    AllRise(y);
    RisingNetwork(y, Muxes(y));
    AllMuxes(y);
  }

  lemma {:induction false} AllRise(y: System)
    requires y.spec.Valid() && y.n > 0
    ensures Rising(y, Muxes(y), y.Tracks(), y.Size())
  {
    ThreadRowsRise(y, y.n);
    CpuRowsRise(y, y.m);
    RisingThen(y, ThreadRows(y, y.n), CpuRows(y, y.m), y.Tracks(), y.CpuTracks(), y.Size());
    hide Rising, ThreadRows, CpuRows, ThreadMux, CpuMux;
  }

  lemma {:induction false} AllMuxes(y: System)
    requires y.spec.Valid() && y.n > 0
    ensures forall t, i :: 0 <= t < y.n && 0 <= i < y.Width() && !y.spec.modes[i].Any? ==>
              ThreadMux(y, t, i) in Muxes(y)
    ensures forall c, i :: 0 <= c < y.m && 0 <= i < y.Width() ==> CpuMux(y, c, i) in Muxes(y)
  {
    ThreadRowsRise(y, y.n);
    CpuRowsRise(y, y.m);
    hide Rising, ThreadRows, CpuRows, ThreadMux, CpuMux;
  }

  lemma {:induction false} RisingNetwork(y: System, w: seq<Mux>)
    requires Rising(y, w, y.Tracks(), y.Size())
    ensures Wired(w, y.Size()) && Layered(w, Levels(y)) && OneDriver(w)
    ensures forall m :: 0 <= m < |w| ==> MuxOk(y, w[m])
  {
    hide WiredMux, LayeredMux, Tracking;
  }

  // ---------- the first state ----------

  /** No output is a channel of the models, of a thread or of a CPU. */
  lemma {:induction false} SourceChans(y: System, w: seq<Mux>)
    requires y.spec.Valid() && forall m :: 0 <= m < |w| ==> MuxOk(y, w[m])
    ensures forall x :: 0 <= x < y.Tracks() ==> OutputProps(w, FirstChans(y))[x] == FirstChan(y, x)
    ensures Props(OutputProps(w, FirstChans(y)), Levels(y), y.n, y.m)
  {
    hide WiredMux, LayeredMux;
    forall x | 0 <= x < y.Tracks()
      ensures OutputProps(w, FirstChans(y))[x] == FirstChan(y, x)
    {
      assert FirstChans(y)[x] == FirstChan(y, x);
    }
  }

  lemma {:induction false} AllNull(y: System, w: seq<Mux>)
    requires y.spec.Valid()
    ensures var r := OutputProps(w, FirstChans(y));
            forall x :: 0 <= x < y.Size() ==> r[x].last == Null && Read(r[x]) == Null && !r[x].dirty
  {
    forall x | 0 <= x < y.Size()
      ensures FirstChan(y, x).last == Null && Read(FirstChan(y, x)) == Null && !FirstChan(y, x).dirty
    {
    }
  }

  lemma {:induction false} FirstOutputs(y: System, w: seq<Mux>)
    requires y.spec.Valid() && forall m :: 0 <= m < |w| ==> MuxOk(y, w[m])
    ensures forall m :: 0 <= m < |w| ==> w[m].output < y.Size() && !FirstChans(y)[w[m].output].stack
  {
    forall m | 0 <= m < |w|
      ensures w[m].output < y.Size() && !FirstChans(y)[w[m].output].stack
    {
      assert MuxOk(y, w[m]);
    }
  }

  /** Before anything is written the network is underway. */
  lemma {:induction false} FirstUnderway(y: System, w: seq<Mux>, b: Bay)
    requires y.spec.Valid() && Layered(w, Levels(y)) && forall m :: 0 <= m < |w| ==> MuxOk(y, w[m])
    requires Struct(w, b, {}) && b.phase == Ready && b.dirty == [] && Flows(w, Levels(y), b, {}, 0)
    requires b.chans == OutputProps(w, FirstChans(y))
    ensures Underway(w, Levels(y), b, {})
  {
    hide Struct, Flows, OutputProps, FirstChans, MuxOk, Asleep;
    AllNull(y, w);
    AllAsleep(y, w, b);
  }

  lemma {:induction false} AllAsleep(y: System, w: seq<Mux>, b: Bay)
    requires y.spec.Valid() && forall m :: 0 <= m < |w| ==> MuxOk(y, w[m])
    requires b.chans == OutputProps(w, FirstChans(y))
    ensures forall m :: 0 <= m < |w| ==> Asleep(w, b, m)
  {
    AllNull(y, w);
    hide OutputProps, FirstChan, FirstChans, LayeredMux, Tracking, Levels;
    forall m | 0 <= m < |w|
      ensures Asleep(w, b, m)
    {
      assert MuxOk(y, w[m]);
    }
  }

  /** A system of the given threads and CPUs with all its channels and multiplexers, ready for
      its first event. */
  method ConnectSystem(looms: seq<Loom>, threads: seq<Thread>, cpus: seq<Cpu>, spec: Spec) returns (emu: Emu)
    requires spec.Valid() && |threads| > 0 && LoomsOk(looms, State(threads, cpus))
    requires forall t :: 0 <= t < |threads| ==>
      threads[t].state.Unknown? && threads[t].cpu == -1 && !threads[t].isRunning && !threads[t].isActive
    requires forall c :: 0 <= c < |cpus| ==> cpus[c] == Cpu(cpus[c].loom, cpus[c].isVirtual, [], 0, 0, 0, -1, -1)
    ensures fresh(emu) && fresh(emu.bay) && emu.Valid() && emu.S() == State(threads, cpus) && emu.looms == looms
    ensures var y := System(|threads|, |cpus|, spec);
            emu.bay.muxes == Muxes(y) && emu.lv == Levels(y) && |emu.bay.chans| == y.Size()
            && forall x :: 0 <= x < y.Tracks() ==> emu.bay.chans[x] == FirstChan(y, x)
  {
    var y := System(|threads|, |cpus|, spec);
    Connected(y);
    var w := Muxes(y);
    hide Muxes, MuxOk, OutputProps, FirstChan, Levels;
    FirstOutputs(y, w);
    SourceChans(y, w);
    AllNull(y, w);
    assert OutputProps([], FirstChans(y)) == FirstChans(y) by {
      NoOutputs(FirstChans(y));
    }
    AllNull(y, []);
    var bay := new PatchBay(w, FirstChans(y));
    assert bay.Settled(Levels(y));
    FirstUnderway(y, w, bay.State());
    hide Underway, Flows, Struct;
    emu := new Emu(bay, looms, threads, cpus, Levels(y));
  }

  lemma {:induction false} NoOutputs(chans: seq<Chan>)
    ensures OutputProps([], chans) == chans
  {
  }

  // ---------- what the columns of the trace show ----------

  /** After every successful propagation, the track of channel i for CPU c shows that channel of
      the unique running thread of the CPU, and null if no thread or several run there. */
  lemma {:induction false} CpuColumn(y: System, looms: seq<Loom>, s: State, chans: seq<Chan>, c: nat, i: nat)
    requires y.spec.Valid() && |chans| == y.Size() && |s.threads| == y.n > 0 && |s.cpus| == y.m && c < y.m
             && i < y.Width()
    requires After(looms, s, Reads(chans)) && AllMuxesReflect(Muxes(y), chans)
    ensures y.CpuTrack(c, i) < |chans| && forall t :: 0 <= t < y.n ==> y.InChan(t, i) < |chans|
    ensures var on := On(s, c, IsRunning());
            if |on| == 1 then
              exists t :: on == {t} && t < y.n && Read(chans[y.CpuTrack(c, i)]) == Read(chans[y.InChan(t, i)])
            else Read(chans[y.CpuTrack(c, i)]) == Null
  {
    Connected(y);
    var w := Muxes(y);
    hide Muxes;
    var x := CpuMux(y, c, i);
    var m :| 0 <= m < |w| && w[m] == x;
    assert MuxOk(y, w[m]);
    forall v
      ensures x.choose(v) == DefaultSelect(y.n, v)
    {
    }
    TrackShows(looms, s, w, chans, m, c);
    forall t | 0 <= t < y.n
      ensures y.InChan(t, i) < |chans|
    {
      assert x.inputs[t] == y.InChan(t, i);
    }
  }

  /** In a connected system no select function refuses its key, whatever the events were: a
      propagation fails only if the trace refuses a value. */
  lemma {:induction false} NeverRefuses(y: System, looms: seq<Loom>, s: State, chans: seq<Chan>)
    requires y.spec.Valid() && |chans| == y.Size() && |s.threads| == y.n > 0 && |s.cpus| == y.m
    requires After(looms, s, Reads(chans))
    ensures !SomeFails(Muxes(y), chans)
  {
    Connected(y);
    hide Muxes, WiredMux, LayeredMux;
    forall m | 0 <= m < |Muxes(y)| && Muxes(y)[m].select < |chans|
      ensures !Muxes(y)[m].choose(Read(chans[Muxes(y)[m].select])).Fails?
    {
      assert MuxOk(y, Muxes(y)[m]);
      NotRefused(y, looms, s, chans, Muxes(y)[m]);
    }
  }

  lemma {:induction false} NotRefused(y: System, looms: seq<Loom>, s: State, chans: seq<Chan>, x: Mux)
    requires |s.threads| == y.n && |s.cpus| == y.m && After(looms, s, Reads(chans)) && Tracking(y, x)
             && x.select < |chans|
    ensures !x.choose(Read(chans[x.select])).Fails?
  {
    assert Reads(chans)[x.select] == Read(chans[x.select]);
    if t, active :| 0 <= t < y.n && ByState(x, t, active) {
      assert ThreadShown(s, Reads(chans), t);
    } else {
      var c :| 0 <= c < y.m && ByThread(y, x, c);
      assert CpuShown(s, Reads(chans), c);
    }
  }

  /** The track of channel i for thread t shows the channel while the thread is running (or active). */
  lemma {:induction false} ThreadColumn(y: System, looms: seq<Loom>, s: State, chans: seq<Chan>, t: nat, i: nat)
    requires y.spec.Valid() && |chans| == y.Size() && |s.threads| == y.n && |s.cpus| == y.m && t < y.n && i < y.Width()
    requires After(looms, s, Reads(chans)) && AllMuxesReflect(Muxes(y), chans) && !y.spec.modes[i].Any?
    ensures y.Track(t, i) < |chans| && y.InChan(t, i) < |chans|
    ensures var st := s.threads[t].state;
            Read(chans[y.Track(t, i)])
            == if (if y.spec.modes[i].OnActive? then Active(st) else st.Running?)
              then Read(chans[y.InChan(t, i)]) else Null
  {
    Connected(y);
    var w := Muxes(y);
    hide Muxes;
    var x := ThreadMux(y, t, i);
    var m :| 0 <= m < |w| && w[m] == x;
    assert MuxOk(y, w[m]);
    assert x.inputs[0] == y.InChan(t, i);
    ThreadTrackShows(looms, s, w, chans, m, t, y.spec.modes[i].OnActive?);
  }
}
