/** Whole runs of the patch bay: writes of source channels, then a propagation. */
module BayRuns {
  import opened Wrappers
  import opened Chans
  import opened BaySpec
  import opened BayFlow
  import opened Bays
  import opened Prvs

  /** Between events: a channel that is not dirty holds its last flushed value; and a mux
      whose select was never propagated still shows its default, with a null key. */
  ghost predicate Quiet(w: seq<Mux>, b: Bay, live: set<nat>) {
    && (forall c :: 0 <= c < |b.chans| && !b.chans[c].dirty ==> b.chans[c].last == Read(b.chans[c]))
    && (forall m :: 0 <= m < |w| && m !in live ==> Asleep(w, b, m))
  }

  ghost predicate Asleep(w: seq<Mux>, b: Bay, m: nat)
    requires m < |w|
  {
    && w[m].select < |b.chans| && b.chans[w[m].select].last == Null
    && w[m].output < |b.chans| && Read(b.chans[w[m].output]) == w[m].def
  }

  ghost predicate Underway(w: seq<Mux>, lv: seq<nat>, b: Bay, live: set<nat>) {
    && Struct(w, b, live) && b.phase == Ready
    && Flows(w, lv, b, live, 0) && (forall c :: c in b.dirty ==> Level(lv, c) == 0)
    && Quiet(w, b, live)
  }

  /** The values of all channels. */
  ghost function Reads(chans: seq<Chan>): seq<Value> {
    seq(|chans|, c requires 0 <= c < |chans| => Read(chans[c]))
  }

  // ---------- writing source channels ----------

  /** chan_set, chan_push and chan_pop */
  datatype ChanOp = SetOp(value: Value) | PushOp(value: Value) | PopOp(value: Value)

  function EffectOf(c: Chan, op: ChanOp): Effect {
    match op
    case SetOp(v) => Set(c, v)
    case PushOp(v) => Push(c, v)
    case PopOp(v) => Pop(c, v)
  }

  /** What a channel holds: one value, or a stack with its top at the end. */
  function Held(c: Chan): seq<Value> {
    if c.stack then c.values else [c.single]
  }

  /** What a write should leave of it; None where the contents do not allow the write. */
  function HeldAfter(held: seq<Value>, op: ChanOp): Option<seq<Value>> {
    match op
    case SetOp(v) => Some([v])
    case PushOp(v) => if |held| < MAX_CHAN_STACK then Some(held + [v]) else None
    case PopOp(v) => if held != [] && held[|held| - 1] == v then Some(held[..|held| - 1]) else None
  }

  /** A value that repeats the last flushed one, on a channel that cares. */
  predicate Repeats(c: Chan, op: ChanOp) {
    !op.PopOp? && !c.allowDup && c.last == op.value
  }

  /** The write can be done or ignored: the kind of channel fits, it is not already written
      unless it takes several writes, and the value is no refused duplicate. */
  predicate Writable(c: Chan, op: ChanOp) {
    && c.stack == !op.SetOp? && (c.dirty ==> c.dirtyWrite)
    && if Repeats(c, op) then c.ignoreDup else HeldAfter(Held(c), op).Some?
  }

  /** From b to d only channels in cs were written: what was written is dirty, nothing else joined
      the dirty list, and nothing left it. */
  ghost predicate OnlyWrote(b: Bay, d: Bay, cs: set<nat>) {
    && |d.chans| == |b.chans|
    && (forall x :: 0 <= x < |b.chans| && x !in cs ==> d.chans[x] == b.chans[x])
    && (forall x :: 0 <= x < |b.chans| && !d.chans[x].dirty ==> d.chans[x] == b.chans[x])
    && (forall x :: x in b.dirty ==> x in d.dirty) && (forall x :: x in d.dirty ==> x in b.dirty || x in cs)
  }

  lemma {:induction false} OnlyWroteThen(a: Bay, b: Bay, d: Bay, m: set<nat>, n: set<nat>)
    ensures OnlyWrote(a, b, m) && OnlyWrote(b, d, n) ==> OnlyWrote(a, d, m + n)
  {
  }

  /** Writing channels keeps the trace in step: what is written is dirty. */
  lemma {:induction false} WroteSynced(cs: seq<PrvChan>, seen: seq<Option<Value>>, b: Bay, d: Bay, m: set<nat>)
    ensures OnlyWrote(b, d, m) && Synced(cs, seen, b.chans) ==> Synced(cs, seen, d.chans)
  {
  }

  lemma {:induction false} OnlyWroteDirty(b: Bay, d: Bay, cs: set<nat>)
    requires OnlyWrote(b, d, cs)
    ensures forall x :: x in d.dirty ==> x in b.dirty || x in cs
    ensures forall x :: x in b.dirty ==> x in d.dirty
  {
  }

  lemma {:induction false} OnlyWroteMore(a: Bay, b: Bay, m: set<nat>, n: set<nat>)
    ensures OnlyWrote(a, b, m) && m <= n ==> OnlyWrote(a, b, n)
    ensures OnlyWrote(a, a, m)
  {
  }

  /** Any write of a source channel keeps the network underway. It succeeds exactly when the
      channel is writable; then, unless it is an ignored duplicate, the channel holds what the
      write says. When it fails, and in all other channels, nothing changes. */
  lemma {:induction false} WriteKeeps(w: seq<Mux>, lv: seq<nat>, b: Bay, live: set<nat>, c: nat, op: ChanOp)
    requires Underway(w, lv, b, live) && c < |b.chans| && Level(lv, c) == 0
    ensures var (d, ret) := Apply(b, c, EffectOf(b.chans[c], op));
            && Underway(w, lv, d, live) && |d.chans| == |b.chans| && (ret == 0 || ret == -1)
            && (ret == 0 <==> Writable(b.chans[c], op))
            && (if ret == -1 || Repeats(b.chans[c], op) then d == b
                else HeldAfter(Held(b.chans[c]), op) == Some(Held(d.chans[c])) && c in d.dirty)
            && OnlyWrote(b, d, {c}) && SameProps(b.chans[c], d.chans[c])
  {
    var e := EffectOf(b.chans[c], op);
    EffectIs(b.chans[c], op);
    hide EffectOf, HeldAfter;
    ApplyKeeps(w, b, live, c, e);
    SourceWrite(w, lv, b, live, c, e);
    QuietWrite(w, lv, b, live, c, e);
  }

  /** The operation of the bay. */
  method WriteChan(bay: PatchBay, c: nat, op: ChanOp) returns (ret: int)
    requires c < |bay.chans|
    modifies bay`chans, bay`dirty
    ensures (bay.State(), ret) == Apply(old(bay.State()), c, EffectOf(old(bay.chans[c]), op))
  {
    hide Apply;
    match op {
      case SetOp(v) => ret := bay.ChanSet(c, v);
      case PushOp(v) => ret := bay.ChanPush(c, v);
      case PopOp(v) => ret := bay.ChanPop(c, v);
    }
  }

  /** Writing leaves the kind and the properties of a channel. */
  predicate SameProps(a: Chan, b: Chan) {
    b.stack == a.stack && b.dirtyWrite == a.dirtyWrite && b.allowDup == a.allowDup && b.ignoreDup == a.ignoreDup
  }

  lemma {:induction false} EffectIs(c: Chan, op: ChanOp)
    ensures var e := EffectOf(c, op);
            && (e.Fail? <==> !Writable(c, op))
            && (e.Ignored? <==> Writable(c, op) && Repeats(c, op))
            && (e.Write? ==> HeldAfter(Held(c), op) == Some(Held(e.chan)) && SameProps(c, e.chan)
                             && e.chan.dirty == c.dirty && e.chan.last == c.last && (c.dirty ==> c.dirtyWrite))
  {
  }

  lemma {:induction false} QuietWrite(w: seq<Mux>, lv: seq<nat>, b: Bay, live: set<nat>, c: nat, e: Effect)
    requires Underway(w, lv, b, live) && c < |b.chans| && Level(lv, c) == 0
    requires e.Write? ==> e.chan.dirty == b.chans[c].dirty && e.chan.last == b.chans[c].last
    ensures Quiet(w, Apply(b, c, e).0, live)
  {
    var d := Apply(b, c, e).0;
    forall m | 0 <= m < |w| && m !in live
      ensures Asleep(w, d, m)
    {
      assert LayeredMux(w[m], lv);
      assert Asleep(w, b, m);
    }
  }

  /** A pop of what was pushed, after the push was propagated, gives back the stack. */
  lemma {:induction false} PopUndoesPush(c: Chan, v: Value)
    requires Push(c, v).Write?
    ensures var d := Flushed(Push(c, v).chan); Pop(d, v).Write? && Held(Pop(d, v).chan) == Held(c)
  {
    assert (c.values + [v])[..|c.values|] == c.values;
  }

  /** Setting a source channel that takes one write: if it succeeds the channel holds the value. */
  lemma {:induction false} PutKeeps(w: seq<Mux>, lv: seq<nat>, b: Bay, live: set<nat>, c: nat, v: Value)
    requires Underway(w, lv, b, live) && c < |b.chans| && Level(lv, c) == 0 && !b.chans[c].stack
             && !b.chans[c].dirtyWrite
    ensures var (d, ret) := Apply(b, c, Set(b.chans[c], v));
            && (ret == 0 ==> Reads(d.chans) == Reads(b.chans)[c := v])
            && (!b.chans[c].allowDup ==> (ret == 0 <==>
                                            c !in b.dirty && (b.chans[c].ignoreDup || v != Read(b.chans[c]))))
  {
    WriteKeeps(w, lv, b, live, c, SetOp(v));
    var (d, ret) := Apply(b, c, Set(b.chans[c], v));
    assert c in b.dirty <==> b.chans[c].dirty;
    if ret == 0 {
      assert Held(d.chans[c]) == [v];
      assert Reads(d.chans) == Reads(b.chans)[c := v];
    }
  }

  /** After a successful propagation every mux whose select function maps null to no input
      shows what the wiring says, whether its select was ever propagated or not. */
  lemma {:induction false} AllReflect(w: seq<Mux>, lv: seq<nat>, b: Bay, d: Bay, live0: set<nat>, live: set<nat>,
                                      touched: seq<nat>)
    requires Underway(w, lv, b, live0) && Struct(w, d, live) && d.phase == Ready && d.dirty == []
    requires Propagated(w, b, d.chans, touched) && LiveFrom(w, live0, live, touched)
    requires Flows(w, lv, d, live, 0) && NetRight(w, d.chans, live, touched)
    ensures Underway(w, lv, d, live)
    ensures forall m :: 0 <= m < |w| && w[m].choose(Null).Nothing? && WiredMux(w[m], |d.chans|) ==>
              Reflects(w, d.chans, m)
  {
    forall m | 0 <= m < |w| && m !in live
      ensures Asleep(w, d, m) && Read(d.chans[w[m].select]) == Null
    {
      assert Asleep(w, b, m);
      assert WiredMux(w[m], |b.chans|);
      assert w[m].select !in touched && w[m].output !in touched;
    }
    forall m | 0 <= m < |w| && w[m].choose(Null).Nothing? && WiredMux(w[m], |d.chans|) ensures Reflects(w, d.chans, m) {
      if m !in live {
        assert Asleep(w, d, m);
      }
    }
  }
}
