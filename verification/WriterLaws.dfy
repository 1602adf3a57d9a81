/** What every run of the event buffer writes, and that the stream reader reads it back. */
module WriterLaws {
  import opened Event
  import opened Streams
  import opened Writer
  import opened EventBuffer

  // ---------- one call ----------

  /** The records that follow an event that forced a flush; n is the size of the buffer
      after that event, tick the number of its first clock reading. */
  function FlushTrail(clk: nat -> nat, n: nat, tick: nat): seq<Item> {
    var pre, post := OpenAt(Tick(clk, tick)), CloseAt(Tick(clk, tick + 1));
    var pre', post' := OpenAt(Tick(clk, tick + 2)), CloseAt(Tick(clk, tick + 3));
    if n + 2 * EV_HEADER_SIZE < MAX_EV_BUF then [pre, post]
    else if n + EV_HEADER_SIZE < MAX_EV_BUF then [pre, post, pre', post']
    else [pre, pre', post', post]
  }

  lemma {:induction false} AddSimple(clk: nat -> nat, w: Log, x: Item)
    requires Fits(w, |x.ev|)
    ensures Add(clk, w, x) == Appended(w, x)
    ensures |Bytes(Appended(w, x).buf)| == |Bytes(w.buf)| + |x.ev|
    ensures Appended(w, x).All() == w.All() + [x] && Appended(w, x).ticks == w.ticks
    ensures forall n: nat :: Fits(Appended(w, x), n) <==> Fits(w, |x.ev| + n)
  {
    BytesConcat(w.buf, [x]);
    BytesOne(x);
  }

  lemma {:induction false} FlushedAll(w: Log, x: Item)
    ensures Flushed(w).All() == w.All()
    ensures Appended(Flushed(w), x).All() == w.All() + [x]
    ensures |Bytes(Appended(Flushed(w), x).buf)| == |x.ev| && Appended(Flushed(w), x).ticks == w.ticks + 2
    ensures forall n: nat :: Fits(Appended(Flushed(w), x), n) <==> |x.ev| + n < MAX_EV_BUF
  {
    BufferOfOne(Appended(Flushed(w), x), x);
  }

  /** Two marks in a buffer with room for both. */
  lemma {:induction false} MarksFit(clk: nat -> nat, w: Log, t0: nat, t1: nat)
    requires t0 < Pow256(8) && t1 < Pow256(8) && Fits(w, 2 * EV_HEADER_SIZE)
    ensures AddFlushEvents(clk, w, t0, t1).All() == w.All() + [OpenAt(t0), CloseAt(t1)]
    ensures AddFlushEvents(clk, w, t0, t1).ticks == w.ticks
    ensures |Bytes(AddFlushEvents(clk, w, t0, t1).buf)| == |Bytes(w.buf)| + 2 * EV_HEADER_SIZE
  {
    AddSimple(clk, w, OpenAt(t0));
    var a := Appended(w, OpenAt(t0));
    AddSimple(clk, a, CloseAt(t1));
  }

  /** A mark that does not fit is followed by the marks of its own flush. */
  lemma {:induction false} MarkFlushes(clk: nat -> nat, w: Log, x: Item)
    requires |x.ev| == EV_HEADER_SIZE && !Fits(w, |x.ev|)
    ensures Add(clk, w, x).All() == w.All() + [x, OpenAt(Tick(clk, w.ticks)), CloseAt(Tick(clk, w.ticks + 1))]
    ensures Add(clk, w, x).ticks == w.ticks + 2
    ensures Fits(Add(clk, w, x), EV_HEADER_SIZE)
  {
    var a := Appended(Flushed(w), x);
    FlushedAll(w, x);
    MarksFit(clk, a, Tick(clk, w.ticks), Tick(clk, w.ticks + 1));
    AddAfterFlushIs(clk, w, x, AddFlushEvents(clk, a, Tick(clk, w.ticks), Tick(clk, w.ticks + 1)));
  }

  /** Room for one mark only: the second one flushes, after the first. */
  lemma {:induction false} SecondMarkFlushes(clk: nat -> nat, w: Log, t0: nat, t1: nat)
    requires t0 < Pow256(8) && t1 < Pow256(8)
    requires Fits(w, EV_HEADER_SIZE) && !Fits(w, 2 * EV_HEADER_SIZE)
    ensures AddFlushEvents(clk, w, t0, t1).All() == w.All() + [OpenAt(t0), CloseAt(t1),
              OpenAt(Tick(clk, w.ticks)), CloseAt(Tick(clk, w.ticks + 1))]
    ensures AddFlushEvents(clk, w, t0, t1).ticks == w.ticks + 2
  {
    hide Add, Bytes, Appended, Tick, Fits;
    AddSimple(clk, w, OpenAt(t0));
    MarkFlushes(clk, Appended(w, OpenAt(t0)), CloseAt(t1));
  }

  /** Room for no mark: the first one flushes, and its own marks come before the second. */
  lemma {:induction false} FirstMarkFlushes(clk: nat -> nat, w: Log, t0: nat, t1: nat)
    requires t0 < Pow256(8) && t1 < Pow256(8) && !Fits(w, EV_HEADER_SIZE)
    ensures AddFlushEvents(clk, w, t0, t1).All() == w.All() + [OpenAt(t0),
              OpenAt(Tick(clk, w.ticks)), CloseAt(Tick(clk, w.ticks + 1)), CloseAt(t1)]
    ensures AddFlushEvents(clk, w, t0, t1).ticks == w.ticks + 2
  {
    MarkFlushes(clk, w, OpenAt(t0));
    AddSimple(clk, Add(clk, w, OpenAt(t0)), CloseAt(t1));
  }

  lemma {:induction false} FlushEventsTrail(clk: nat -> nat, w: Log, tick: nat)
    requires w.ticks == tick + 2
    ensures var r := AddFlushEvents(clk, w, Tick(clk, tick), Tick(clk, tick + 1));
            && r.All() == w.All() + FlushTrail(clk, |Bytes(w.buf)|, tick)
            && r.ticks == tick + (if Fits(w, 2 * EV_HEADER_SIZE) then 2 else 4)
  {
    if Fits(w, 2 * EV_HEADER_SIZE) {
      MarksFit(clk, w, Tick(clk, tick), Tick(clk, tick + 1));
    } else if Fits(w, EV_HEADER_SIZE) {
      SecondMarkFlushes(clk, w, Tick(clk, tick), Tick(clk, tick + 1));
    } else {
      FirstMarkFlushes(clk, w, Tick(clk, tick), Tick(clk, tick + 1));
    }
  }

  /** The exact effect of emitting one event, for every event size and buffer level. */
  lemma {:induction false} AddExact(clk: nat -> nat, w: Log, x: Item)
    requires |x.ev| < MAX_EV_BUF
    ensures Add(clk, w, x).All()
            == w.All() + [x] + (if |Bytes(w.buf)| + |x.ev| < MAX_EV_BUF then [] else FlushTrail(clk, |x.ev|, w.ticks))
    ensures Add(clk, w, x).ticks == w.ticks + (
              if |Bytes(w.buf)| + |x.ev| < MAX_EV_BUF then 0
                else if |x.ev| + 2 * EV_HEADER_SIZE < MAX_EV_BUF then 2 else 4)
  {
    hide Add, Bytes, FlushTrail, Flushed, Appended, AddFlushEvents, Tick;
    if Fits(w, |x.ev|) {
      AddSimple(clk, w, x);
    } else {
      var a := Appended(Flushed(w), x);
      FlushedAll(w, x);
      FlushEventsTrail(clk, a, w.ticks);
      AddAfterFlushIs(clk, w, x, AddFlushEvents(clk, a, Tick(clk, w.ticks), Tick(clk, w.ticks + 1)));
    }
  }

  lemma {:induction false} FlushExact(clk: nat -> nat, w: Log)
    ensures Flush(clk, w).All() == w.All() + FlushTrail(clk, 0, w.ticks)
    ensures Flush(clk, w).ticks == w.ticks + 2
  {
    BytesEmpty();
    assert Flushed(w).All() == w.All();
    FlushEventsTrail(clk, Flushed(w), w.ticks);
  }

  // ---------- every run ----------

  datatype Op = Emit(ev: Ev) | FlushNow

  predicate Accepted(op: Op) {
    op.Emit? ==> |op.ev| < MAX_EV_BUF
  }

  function RunOp(clk: nat -> nat, w: Log, op: Op): Log
    requires Accepted(op)
  {
    match op
    case Emit(ev) => Add(clk, w, User(ev))
    case FlushNow => Flush(clk, w)
  }

  function Run(clk: nat -> nat, ops: seq<Op>): (w: Log)
    requires forall op | op in ops :: Accepted(op)
    ensures |Bytes(w.buf)| < MAX_EV_BUF
  {
    BytesEmpty();
    if ops == [] then Log([], [], 0)
    else RunOp(clk, Run(clk, ops[..|ops| - 1]), ops[|ops| - 1])
  }

  /** The events of a run, in the order of the calls. */
  function Emitted(ops: seq<Op>): seq<Ev> {
    if ops == [] then []
    else
      Emitted(ops[..|ops| - 1]) + EmittedBy(ops[|ops| - 1])
  }

  function UserEvents(items: seq<Item>): seq<Ev> {
    if items == [] then []
    else (if items[0].User? then [items[0].ev] else []) + UserEvents(items[1..])
  }

  lemma {:induction false} UserEventsConcat(a: seq<Item>, b: seq<Item>)
    ensures UserEvents(a + b) == UserEvents(a) + UserEvents(b)
  {
    if a == [] {
      assert a + b == b;
    } else {
      assert (a + b)[1..] == a[1..] + b;
      UserEventsConcat(a[1..], b);
    }
  }

  lemma {:induction false} NoUserEvents(items: seq<Item>)
    requires forall x | x in items :: !x.User?
    ensures UserEvents(items) == []
  {
    if items != [] {
      NoUserEvents(items[1..]);
    }
  }

  function EmittedBy(op: Op): seq<Ev> {
    if op.Emit? then [op.ev] else []
  }

  function Head(op: Op): seq<Item> {
    match op
    case Emit(ev) => [User(ev)]
    case FlushNow => []
  }

  function Trail(clk: nat -> nat, w: Log, op: Op): seq<Item>
    requires Accepted(op)
  {
    match op
    case Emit(ev) => if Fits(w, |ev|) then [] else FlushTrail(clk, |ev|, w.ticks)
    case FlushNow => FlushTrail(clk, 0, w.ticks)
  }

  lemma {:induction false} OpShape(clk: nat -> nat, w: Log, op: Op)
    requires Accepted(op)
    ensures RunOp(clk, w, op).All() == w.All() + Head(op) + Trail(clk, w, op)
    ensures RunOp(clk, w, op).ticks == w.ticks + |Trail(clk, w, op)|
  {
    match op
    case Emit(ev) => AddExact(clk, w, User(ev));
    case FlushNow => FlushExact(clk, w);
  }

  lemma {:induction false} OpKeepsEvents(clk: nat -> nat, w: Log, op: Op)
    requires Accepted(op)
    ensures UserEvents(RunOp(clk, w, op).All()) == UserEvents(w.All()) + EmittedBy(op)
  {
    OpShape(clk, w, op);
    HeadEvents(op);
    TrailEvents(clk, w, op);
    hide RunOp, Trail, UserEvents, Head, Fits;
    UserEventsConcat(w.All() + Head(op), Trail(clk, w, op));
    UserEventsConcat(w.All(), Head(op));
  }

  lemma {:induction false} HeadEvents(op: Op)
    ensures UserEvents(Head(op)) == EmittedBy(op)
  {
    if op.Emit? {
      assert Head(op)[1..] == [];
    }
  }

  lemma {:induction false} TrailEvents(clk: nat -> nat, w: Log, op: Op)
    requires Accepted(op)
    ensures UserEvents(Trail(clk, w, op)) == []
  {
    hide Tick;
    NoUserEvents(Trail(clk, w, op));
  }

  /** No event is lost, duplicated or reordered, whatever the sizes and the flushes. */
  lemma {:induction false} NothingLost(clk: nat -> nat, ops: seq<Op>)
    requires forall op | op in ops :: Accepted(op)
    ensures UserEvents(Run(clk, ops).All()) == Emitted(ops)
  {
    if ops != [] {
      var n := |ops| - 1;
      NothingLost(clk, ops[..n]);
      OpKeepsEvents(clk, Run(clk, ops[..n]), ops[n]);
    } else {
      BytesEmpty();
    }
  }

  /** The marks are events of the flush, OF[ before and OF] after it, without payload. */
  ghost predicate MarksNamed(items: seq<Item>) {
    forall x :: x in items && !x.User? ==> |x.ev| == 12 && Is(x.ev, 'O', 'F', if x.Open? then '[' else ']')
  }

  lemma {:induction false} RunMarks(clk: nat -> nat, ops: seq<Op>)
    requires forall op | op in ops :: Accepted(op)
    ensures MarksNamed(Run(clk, ops).All())
  {
    if ops == [] {
      BytesEmpty();
    } else {
      var w, op := Run(clk, ops[..|ops| - 1]), ops[|ops| - 1];
      RunMarks(clk, ops[..|ops| - 1]);
      OpShape(clk, w, op);
      TrailNamed(clk, w, op);
      hide RunOp, Trail, Is, OpenAt, CloseAt, Fits;
    }
  }

  lemma {:induction false} TrailNamed(clk: nat -> nat, w: Log, op: Op)
    requires Accepted(op)
    ensures MarksNamed(Trail(clk, w, op))
  {
    hide Is, Tick, OpenAt, CloseAt;
  }

  // ---------- flush events come in pairs ----------

  predicate Paired(items: seq<Item>) {
    if items == [] then true
    else if items[0].User? then Paired(items[1..])
    else items[0].Open? && |items| >= 2 && items[1].Close? && Paired(items[2..])
  }

  lemma {:induction false} PairedConcat(a: seq<Item>, b: seq<Item>)
    requires Paired(a)
    ensures Paired(a + b) <==> Paired(b)
  {
    if a == [] {
      assert a + b == b;
    } else if a[0].User? {
      assert (a + b)[1..] == a[1..] + b;
      PairedConcat(a[1..], b);
    } else {
      assert (a + b)[2..] == a[2..] + b;
      PairedConcat(a[2..], b);
    }
  }

  lemma {:induction false} OnePair(a: Item, b: Item)
    requires a.Open? && b.Close?
    ensures Paired([a, b])
  {
    assert [a, b][2..] == [];
  }

  lemma {:induction false} TrailPaired(clk: nat -> nat, n: nat, tick: nat)
    ensures Paired(FlushTrail(clk, n, tick)) <==> n + EV_HEADER_SIZE < MAX_EV_BUF
  {
    var t := FlushTrail(clk, n, tick);
    if n + EV_HEADER_SIZE < MAX_EV_BUF {
      OnePair(t[0], t[1]);
      if |t| == 4 {
        OnePair(t[2], t[3]);
        PairedConcat([t[0], t[1]], [t[2], t[3]]);
        assert t == [t[0], t[1]] + [t[2], t[3]];
      } else {
        assert t == [t[0], t[1]];
      }
    }
  }

  /** The marks of a flush stay in pairs exactly when the event that forced it leaves room
      for one more event header. */
  lemma {:induction false} AddPairedExactly(clk: nat -> nat, w: Log, ev: Ev)
    requires |ev| < MAX_EV_BUF && Paired(w.All())
    ensures Paired(Add(clk, w, User(ev)).All()) <==>
            |Bytes(w.buf)| + |ev| < MAX_EV_BUF || |ev| + EV_HEADER_SIZE < MAX_EV_BUF
  {
    hide Add, FlushTrail, Tick, Paired, Bytes;
    AddExact(clk, w, User(ev));
    var trail := if Fits(w, |ev|) then [] else FlushTrail(clk, |ev|, w.ticks);
    assert w.All() + [User(ev)] + trail == w.All() + ([User(ev)] + trail);
    PairedConcat(w.All(), [User(ev)] + trail);
    PairedUser(ev, trail);
    TrailPaired(clk, |ev|, w.ticks);
  }

  lemma {:induction false} PairedUser(ev: Ev, t: seq<Item>)
    ensures Paired([User(ev)] + t) <==> Paired(t)
    ensures Paired([])
  {
    assert ([User(ev)] + t)[1..] == t;
  }

  // ---------- flush events are in clock order ----------

  /** The clocks of the flush marks, in stream order. */
  function MarkClocks(items: seq<Item>): seq<nat> {
    if items == [] then []
    else (if items[0].User? then [] else [Clock(items[0].ev)]) + MarkClocks(items[1..])
  }

  lemma {:induction false} MarkClocksConcat(a: seq<Item>, b: seq<Item>)
    ensures MarkClocks(a + b) == MarkClocks(a) + MarkClocks(b)
  {
    if a == [] {
      assert a + b == b;
    } else {
      assert (a + b)[1..] == a[1..] + b;
      MarkClocksConcat(a[1..], b);
    }
  }

  predicate NonDecreasing(c: seq<nat>) {
    forall i, j :: 0 <= i < j < |c| ==> c[i] <= c[j]
  }

  ghost predicate Monotone(clk: nat -> nat) {
    forall i: nat, j: nat :: i <= j ==> Tick(clk, i) <= Tick(clk, j)
  }

  lemma {:induction false} MarkClock(v: char, t: nat)
    requires t < Pow256(8) && (v as int) < 256
    ensures Clock(MarkEvent(v, t)) == t
  {
    RecordIsEvent(NewEvent(t, 'O', 'F', v));
  }

  lemma {:induction false} MarkClocksTwo(a: Item, b: Item)
    requires !a.User? && !b.User?
    ensures MarkClocks([a, b]) == [Clock(a.ev), Clock(b.ev)]
  {
    assert [a, b][1..] == [b];
    assert [b][1..] == [];
    assert MarkClocks([b]) == [Clock(b.ev)] + MarkClocks([b][1..]);
  }

  function TrailClocks(clk: nat -> nat, n: nat, tick: nat): seq<nat> {
    var a, b, c, d := Tick(clk, tick), Tick(clk, tick + 1), Tick(clk, tick + 2), Tick(clk, tick + 3);
    if n + 2 * EV_HEADER_SIZE < MAX_EV_BUF then [a, b]
    else if n + EV_HEADER_SIZE < MAX_EV_BUF then [a, b, c, d]
    else [a, c, d, b]
  }

  lemma {:induction false} TrailClocksAre(clk: nat -> nat, n: nat, tick: nat)
    ensures MarkClocks(FlushTrail(clk, n, tick)) == TrailClocks(clk, n, tick)
  {
    MarkClock('[', Tick(clk, tick));
    MarkClock(']', Tick(clk, tick + 1));
    MarkClock('[', Tick(clk, tick + 2));
    MarkClock(']', Tick(clk, tick + 3));
    var t := FlushTrail(clk, n, tick);
    MarkClocksTwo(t[0], t[1]);
    if |t| == 4 {
      MarkClocksTwo(t[2], t[3]);
      MarkClocksConcat([t[0], t[1]], [t[2], t[3]]);
      assert t == [t[0], t[1]] + [t[2], t[3]];
    } else {
      assert t == [t[0], t[1]];
    }
  }

  /** The marks of one flush are in clock order exactly when they are in pairs, or the
      clock stood still during the nested flush. */
  lemma {:induction false} TrailOrderedExactly(clk: nat -> nat, n: nat, tick: nat)
    requires Monotone(clk)
    ensures NonDecreasing(MarkClocks(FlushTrail(clk, n, tick))) <==>
            n + EV_HEADER_SIZE < MAX_EV_BUF || Tick(clk, tick + 1) == Tick(clk, tick + 3)
  {
    TrailClocksAre(clk, n, tick);
    hide Tick, MarkClocks, FlushTrail;
    assert Tick(clk, tick) <= Tick(clk, tick + 1) <= Tick(clk, tick + 2) <= Tick(clk, tick + 3);
    var t := TrailClocks(clk, n, tick);
    assert n + EV_HEADER_SIZE >= MAX_EV_BUF ==> t[2] == Tick(clk, tick + 3) && t[3] == Tick(clk, tick + 1);
  }

  predicate LeavesRoom(op: Op) {
    Accepted(op) && (op.Emit? ==> |op.ev| + EV_HEADER_SIZE < MAX_EV_BUF)
  }

  ghost predicate Ordered(clk: nat -> nat, w: Log) {
    && Paired(w.All())
    && NonDecreasing(MarkClocks(w.All()))
    && forall i :: 0 <= i < |MarkClocks(w.All())| ==> MarkClocks(w.All())[i] <= Tick(clk, w.ticks)
  }

  lemma {:induction false} AppendOrdered(c: seq<nat>, t: seq<nat>, bound: nat, last: nat)
    requires NonDecreasing(c) && NonDecreasing(t) && bound <= last
    requires forall i :: 0 <= i < |c| ==> c[i] <= bound
    requires forall i :: 0 <= i < |t| ==> bound <= t[i] <= last
    ensures NonDecreasing(c + t)
    ensures forall i :: 0 <= i < |c + t| ==> (c + t)[i] <= last
  {
  }

  lemma {:induction false} OpPaired(clk: nat -> nat, w: Log, op: Op)
    requires Paired(w.All()) && LeavesRoom(op)
    ensures Paired(RunOp(clk, w, op).All())
  {
    OpShape(clk, w, op);
    assert Head(op) == [] || Head(op)[1..] == [];
    PairedConcat(w.All(), Head(op));
    PairedConcat(w.All() + Head(op), Trail(clk, w, op));
    TrailPaired(clk, if op.Emit? then |op.ev| else 0, w.ticks);
  }

  lemma {:induction false} OpMarkClocks(clk: nat -> nat, w: Log, op: Op)
    requires Accepted(op)
    ensures MarkClocks(RunOp(clk, w, op).All()) == MarkClocks(w.All()) + MarkClocks(Trail(clk, w, op))
  {
    OpShape(clk, w, op);
    assert Head(op) == [] || Head(op)[1..] == [];
    MarkClocksConcat(w.All(), Head(op));
    MarkClocksConcat(w.All() + Head(op), Trail(clk, w, op));
  }

  lemma {:induction false} TrailBounds(clk: nat -> nat, w: Log, op: Op)
    requires Monotone(clk) && LeavesRoom(op)
    ensures var c := MarkClocks(Trail(clk, w, op));
            && NonDecreasing(c)
            && forall i :: 0 <= i < |c| ==> Tick(clk, w.ticks) <= c[i] <= Tick(clk, w.ticks + |Trail(clk, w, op)|)
  {
    if Trail(clk, w, op) != [] {
      var n := if op.Emit? then |op.ev| else 0;
      assert Trail(clk, w, op) == FlushTrail(clk, n, w.ticks);
      hide Trail, FlushTrail, Tick, MarkClocks, Monotone, Fits, TrailClocks;
      TrailClocksAre(clk, n, w.ticks);
      ClocksWithin(clk, n, w.ticks);
    }
  }

  lemma {:induction false} ClocksWithin(clk: nat -> nat, n: nat, tick: nat)
    requires Monotone(clk) && n + EV_HEADER_SIZE < MAX_EV_BUF
    ensures var c := TrailClocks(clk, n, tick);
            && NonDecreasing(c)
            && forall i :: 0 <= i < |c| ==> Tick(clk, tick) <= c[i] <= Tick(clk, tick + |FlushTrail(clk, n, tick)|)
  {
    hide Tick;
    var t := tick;
    assert Tick(clk, t) <= Tick(clk, t + 1) <= Tick(clk, t + 2) <= Tick(clk, t + 3) <= Tick(clk, t + 4);
  }

  lemma {:induction false} OpOrdered(clk: nat -> nat, w: Log, op: Op)
    requires Monotone(clk) && Ordered(clk, w) && LeavesRoom(op)
    ensures Ordered(clk, RunOp(clk, w, op))
  {
    OpPaired(clk, w, op);
    OpShape(clk, w, op);
    OpMarkClocks(clk, w, op);
    TrailBounds(clk, w, op);
    var last := w.ticks + |Trail(clk, w, op)|;
    assert Tick(clk, w.ticks) <= Tick(clk, last);
    AppendOrdered(MarkClocks(w.All()), MarkClocks(Trail(clk, w, op)), Tick(clk, w.ticks), Tick(clk, last));
  }

  /** In any run whose events leave room for one event header, every flush is recorded by
      pairs OF[ OF], in clock order over the whole stream. */
  lemma {:induction false} RunOrdered(clk: nat -> nat, ops: seq<Op>)
    requires Monotone(clk) && forall op | op in ops :: Accepted(op) && LeavesRoom(op)
    ensures Ordered(clk, Run(clk, ops))
  {
    BytesEmpty();
    if ops != [] {
      RunOrdered(clk, ops[..|ops| - 1]);
      OpOrdered(clk, Run(clk, ops[..|ops| - 1]), ops[|ops| - 1]);
    }
  }

  /** Twice an event that fills the buffer: the marks of the second one nest, out of clock
      order. */
  lemma {:induction false} HugeEventNests(clk: nat -> nat, w: Log, ev: Ev)
    requires Tick(clk, 1) != Tick(clk, 3) && Monotone(clk)
    requires |ev| == MAX_EV_BUF - 1 && w == Log([], [User(ev)], 0)
    ensures Paired(w.All())
    ensures !Paired(Add(clk, w, User(ev)).All())
    ensures !NonDecreasing(MarkClocks(Add(clk, w, User(ev)).All()))
  {
    BytesOne(User(ev));
    assert w.All() == [User(ev)] && [User(ev)][1..] == [];
    AddPairedExactly(clk, w, ev);
    assert RunOp(clk, w, Emit(ev)) == Add(clk, w, User(ev));
    OpMarkClocks(clk, w, Emit(ev));
    assert MarkClocks(w.All()) == [];
    var trail := FlushTrail(clk, |ev|, w.ticks);
    assert Trail(clk, w, Emit(ev)) == trail;
    assert [] + MarkClocks(trail) == MarkClocks(trail);
    assert MarkClocks(Add(clk, w, User(ev)).All()) == MarkClocks(trail);
    TrailOrderedExactly(clk, |ev|, w.ticks);
  }

  /** Such an event exists. */
  lemma {:induction false} HugeJumbo() returns (ev: Ev)
    ensures ev == JumboRecord(NewEvent(0, 'V', 'Y', 'c'), Zeros(MAX_EV_BUF - 17))
    ensures |ev| == MAX_EV_BUF - 1
  {
    ev := JumboRecord(NewEvent(0, 'V', 'Y', 'c'), Zeros(MAX_EV_BUF - 17));
  }

  function Zeros(n: nat): (s: seq<Byte>)
    ensures |s| == n
  {
    seq<Byte>(n, i => 0)
  }

  // ---------- the reader decodes what the writer wrote ----------

  /** The stream file of a run, once the buffer is written too. */
  function File(w: Log): seq<Byte> {
    StreamHeader() + Bytes(w.disk) + Bytes(w.buf)
  }

  lemma {:induction false} FileHolds(w: Log)
    ensures Holds(File(w), Evs(w.All()))
  {
    BytesConcat(w.disk, w.buf);
    var b := File(w);
    assert b == StreamHeader() + Bytes(w.All());
    assert b[STREAM_HEADER_SIZE..] == Bytes(w.All());
    assert b[..4] == MAGIC;
    assert Slice(b, 4, 4) == UintBytes(STREAM_VERSION, 4);
    Pow4();
    UintRoundTrip(STREAM_VERSION, 4);
  }

  lemma {:induction false} HeaderChecked(b: seq<Byte>, evs: seq<Ev>)
    requires Holds(b, evs)
    ensures CheckHeader(b)
  {
  }

  lemma {:induction false} FirstBefore(b: seq<Byte>, evs: seq<Ev>)
    requires Holds(b, evs) && evs != []
    ensures Before(b, Loaded(b).(unsorted := true), evs, 0)
    ensures ClocksAccepted(Loaded(b).(unsorted := true), evs)
  {
    EventInFile(b, evs, 0);
  }

  /** Writer and reader are inverse: over the file of any run, the reader loads the
      emitted events and the flush marks one by one, then stops on the last byte. */
  lemma {:induction false} ReaderDecodesWriter(clk: nat -> nat, ops: seq<Op>, k: nat)
    requires forall op | op in ops :: Accepted(op)
    ensures var items := Run(clk, ops).All();
            var b := File(Run(clk, ops));
            var s := Loaded(b).(unsorted := true);
            && CheckHeader(b)
            && UserEvents(items) == Emitted(ops)
            && (k < |items| ==>
                  var t := StepMany(b, s, k + 1);
                  && Step(b, StepMany(b, s, k)).1 == 0
                  && 0 <= t.offset && t.offset + |items[k].ev| <= |b|
                  && b[t.offset..t.offset + |items[k].ev|] == items[k].ev)
            && (k == |items| > 0 ==>
                  Step(b, StepMany(b, s, k)).1 == 1 && AtEnd(b, StepMany(b, s, k + 1)))
  {
    var w := Run(clk, ops);
    var evs := Evs(w.All());
    var b := File(w);
    var s := Loaded(b).(unsorted := true);
    NothingLost(clk, ops);
    FileHolds(w);
    HeaderChecked(b, evs);
    hide Run, File, Step, StepMany, Holds, CheckHeader;
    if |evs| > 0 && k <= |evs| {
      FirstBefore(b, evs);
      hide Loaded;
      if k < |evs| {
        ReadsAll(b, s, evs, k);
      } else {
        ReadsToTheEnd(b, s, evs);
      }
    }
  }
}
