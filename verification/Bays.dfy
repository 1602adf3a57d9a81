/** The patch bay itself: its operations change the channels and lists in place. */
module Bays {
  import opened Wrappers
  import opened Sequences
  import opened Chans
  import opened BaySpec
  import opened BayFlow
  import opened Prvs

  /** The callback after cb in a list: cur->next. */
  function Next(l: seq<Cb>, cb: Cb): seq<Cb>
    requires cb in l
    ensures |Next(l, cb)| <= 1
  {
    if l[0] == cb then (if |l| > 1 then [l[1]] else []) else Next(l[1..], cb)
  }

  lemma {:induction false} NextIs(done: seq<Cb>, rest: seq<Cb>)
    requires rest != [] && NoDup(done + rest)
    ensures rest[0] in done + rest && Next(done + rest, rest[0]) == Head(rest[1..])
  {
    if done == [] {
      assert done + rest == rest;
    } else {
      assert (done + rest)[1..] == done[1..] + rest;
      assert done + rest == [done[0]] + (done[1..] + rest);
      NoDupSplit([done[0]], done[1..] + rest);
      NextIs(done[1..], rest);
      assert done[0] in [done[0]];
    }
  }

  function Head(l: seq<Cb>): seq<Cb>
    ensures |Head(l)| <= 1
  {
    if l == [] then [] else [l[0]]
  }

  /** Every registered channel of the trace that has been seen shows its current value, if
      it is not dirty. */
  ghost predicate Synced(cs: seq<PrvChan>, seen: seq<Option<Value>>, chans: seq<Chan>) {
    |seen| == |cs| && forall i :: 0 <= i < |cs| && cs[i].chan < |chans| && !chans[cs[i].chan].dirty && seen[i].Some? ==>
      seen[i].value == Read(chans[cs[i].chan])
  }

  /** Some select function refuses the current key of its mux. */
  ghost predicate SomeFails(w: seq<Mux>, chans: seq<Chan>) {
    exists m :: 0 <= m < |w| && w[m].select < |chans| && w[m].choose(Read(chans[w[m].select])).Fails?
  }

  /** A mux becomes live only when its select channel is dirty. */
  ghost predicate LiveFrom(w: seq<Mux>, live0: set<nat>, live: set<nat>, dirty: seq<nat>) {
    live0 <= live && forall m :: m in live && m !in live0 ==> m < |w| && w[m].select in dirty
  }

  /** What running the callback at the head of rest gives, while propagating channel c, the
      k-th of the dirty list. */
  ghost predicate Ran(w: seq<Mux>, lv: seq<nat>, k: nat, c: nat, flows: bool, b: Bay, live0: set<nat>, rest: seq<Cb>,
                      d: Bay, live: set<nat>, cb: Cb, ret: int, done': seq<Cb>, rest': seq<Cb>)
  {
    && Walking(w, d, live, c, done', [cb] + rest')
    && (Selects(rest') < Selects(rest) || (Selects(rest') == Selects(rest) && |rest'| < |rest|))
    && Extends(w, b, d) && LiveFrom(w, live0, live, d.dirty) && k < |d.dirty| && d.dirty[k] == c
    && (ret == -1 ==> SomeFails(w, d.chans))
    && (flows && ret == 0 ==> Flowing(w, lv, d, live, k, rest'))
  }

  lemma {:induction false} RanSelect(w: seq<Mux>, lv: seq<nat>, b: Bay, live: set<nat>, k: nat, c: nat, done: seq<Cb>,
                                     rest: seq<Cb>,
                                     m: nat, flows: bool)
    requires Walking(w, b, live, c, done, rest) && rest != [] && rest[0] == Select(m)
    requires k < |b.dirty| && b.dirty[k] == c && (flows ==> Flowing(w, lv, b, live, k, rest))
    ensures m < |w| == |b.selected| && |b.chans| == |b.cbs| && WiredMux(w[m], |b.chans|)
            && b.selected[m] < |w[m].inputs|
    ensures var (d, ret) := RunSelect(w, b, m);
            Ran(w, lv, k, c, flows, b, live, rest, d, live + {m}, Select(m), ret,
                Without(done, m, b.selected[m]), RestAfter(w, b, c, m, rest))
            && (ret == 0 || ret == -1) && d.phase == b.phase
  {
    WalkSelect(w, b, live, c, done, rest, m);
    SelectOutcome(w, b, live, k, m);
    if flows {
      FlowSelect(w, lv, b, live, k, c, done, rest, m);
    }
    hide Struct, RunSelect, Flowing, RestAfter, Without, Walking, LiveFrom, SomeFails, Extends, WiredMux;
  }

  lemma {:induction false} SelectOutcome(w: seq<Mux>, b: Bay, live: set<nat>, k: nat, m: nat)
    requires Struct(w, b, live) && b.phase == Propagating && m < |w| && k < |b.dirty| && b.dirty[k] == w[m].select
    ensures m < |w| == |b.selected| && |b.chans| == |b.cbs| && WiredMux(w[m], |b.chans|)
            && b.selected[m] < |w[m].inputs|
    ensures var (d, ret) := RunSelect(w, b, m);
            && Extends(w, b, d) && LiveFrom(w, live, live + {m}, d.dirty) && k < |d.dirty| && d.dirty[k] == b.dirty[k]
            && (ret == -1 ==> SomeFails(w, d.chans)) && (ret == 0 || ret == -1) && d.phase == b.phase
  {
    SelectKeeps(w, b, live, m);
    SelectExtends(w, b, live, m);
    hide Struct, RunSelect;
    assert b.dirty[k] in b.dirty;
  }

  lemma {:induction false} RanInput(w: seq<Mux>, lv: seq<nat>, b: Bay, live: set<nat>, k: nat, c: nat, done: seq<Cb>,
                                    rest: seq<Cb>,
                                    m: nat, i: nat, flows: bool)
    requires Walking(w, b, live, c, done, rest) && rest != [] && rest[0] == Input(m, i)
    requires k < |b.dirty| && b.dirty[k] == c && (flows ==> Flowing(w, lv, b, live, k, rest))
    ensures m < |w| && WiredMux(w[m], |b.chans|) && i < |w[m].inputs|
    ensures var (d, ret) := RunInput(w, b, m, i);
            Ran(w, lv, k, c, flows, b, live, rest, d, live, Input(m, i), ret, done, rest[1..])
            && ret == 0 && d.phase == b.phase
  {
    WalkInput(w, b, live, c, done, rest, m, i);
    if flows {
      FlowInput(w, lv, b, live, k, c, done, rest, m, i);
    }
    hide Struct, RunInput, Flowing;
    assert rest == [Input(m, i)] + rest[1..];
  }

  class PatchBay {
    const muxes: seq<Mux>
    var phase: Phase
    var chans: seq<Chan>
    var dirty: seq<nat>
    var cbs: seq<seq<Cb>>
    var enabled: set<Cb>
    var selected: seq<int>
    /** The muxes whose select channel has been propagated. */
    ghost var live: set<nat>

    ghost function State(): Bay
      reads this
    {
      Bay(phase, chans, dirty, cbs, enabled, selected)
    }

    ghost predicate Valid()
      reads this
    {
      phase == Ready && Struct(muxes, State(), live)
    }

    /** In a layered network only sources are written between propagations, and every mux is
        right, or a channel it looks at waits. */
    ghost predicate Settled(lv: seq<nat>)
      reads this
    {
      && Flows(muxes, lv, State(), live, 0)
      && forall c :: c in dirty ==> Level(lv, c) == 0
    }

    /** The bay once all channels are registered and all muxes made: mux_init lets the
        outputs be written many times and enables the select callbacks; no input is
        enabled, and mux->selected is 0. */
    constructor (muxes: seq<Mux>, chans: seq<Chan>)
      requires Wired(muxes, |chans|)
      requires forall c :: 0 <= c < |chans| ==> !chans[c].dirty
      requires forall m :: 0 <= m < |muxes| ==> !chans[muxes[m].output].stack
      ensures this.muxes == muxes && Valid() && dirty == [] && live == {} && this.chans == OutputProps(muxes, chans)
      ensures forall c :: 0 <= c < |chans| ==> Read(this.chans[c]) == Read(chans[c])
      ensures forall lv :: Layered(muxes, lv) && OneDriver(muxes) ==> Settled(lv)
    {
      this.muxes := muxes;
      phase := Ready;
      this.chans := OutputProps(muxes, chans);
      dirty, enabled, live := [], {}, {};
      cbs := seq(|chans|, i => []);
      selected := seq(|muxes|, i => 0);
      new;
      hide OutputProps;
      InitialLists(muxes, State());
      var m := 0;
      while m < |muxes|
        invariant m <= |muxes| && phase == Ready && dirty == [] && live == {}
        invariant this.chans == OutputProps(muxes, chans) && selected == seq(|muxes|, i => 0)
        invariant CbsExact(muxes, State()) && forall cb :: cb in enabled <==> cb.Select? && cb.mux < m
      {
        assert WiredMux(muxes[m], |chans|);
        ghost var b := State();
        EnabledExact(muxes, b, Select(m));
        EnableCb(Select(m));
        m := m + 1;
      }
      InitialBay(muxes, chans, State());
    }

    /** bay_enable_cb */
    method EnableCb(cb: Cb)
      requires IsCb(muxes, cb) && ChanOf(muxes, cb) < |cbs|
      modifies this`cbs, this`enabled
      ensures State() == Enable(muxes, old(State()), cb)
    {
      if cb in enabled {
        return;
      }
      enabled := enabled + {cb};
      var c := if cb.Select? then muxes[cb.mux].select else muxes[cb.mux].inputs[cb.index];
      cbs := cbs[c := cbs[c] + [cb]];
    }

    /** bay_disable_cb */
    method DisableCb(cb: Cb)
      requires IsCb(muxes, cb) && ChanOf(muxes, cb) < |cbs|
      modifies this`cbs, this`enabled
      ensures State() == Disable(muxes, old(State()), cb)
    {
      if cb !in enabled {
        return;
      }
      enabled := enabled - {cb};
      var c := if cb.Select? then muxes[cb.mux].select else muxes[cb.mux].inputs[cb.index];
      cbs := cbs[c := Delete(cbs[c], cb)];
    }

    /** set_dirty and the dirty callback */
    method MakeDirty(c: nat) returns (ret: int)
      requires c < |chans|
      modifies this`chans, this`dirty
      ensures (State(), ret) == SetDirty(old(State()), c)
      ensures chans == old(chans)[c := old(chans[c]).(dirty := true)]
      ensures if old(chans[c]).dirty then ret == (if chans[c].dirtyWrite then 0 else -1) && dirty == old(dirty)
              else if phase == Emitting || phase == Flushing then ret == -1 && dirty == old(dirty)
              else ret == 0 && dirty == old(dirty) + [c]
    {
      if chans[c].dirty {
        return if chans[c].dirtyWrite then 0 else -1;
      }
      chans := chans[c := chans[c].(dirty := true)];
      if phase != Ready && phase != Propagating {
        return -1;
      }
      dirty := dirty + [c];
      return 0;
    }

    /** chan_set */
    method ChanSet(c: nat, v: Value) returns (ret: int)
      requires c < |chans|
      modifies this`chans, this`dirty
      ensures (State(), ret) == Apply(old(State()), c, Set(old(chans[c]), v))
    {
      var x := chans[c];
      if x.stack {
        return -1;
      }
      if x.dirty && !x.dirtyWrite {
        return -1;
      }
      if !x.allowDup {
        if x.last == v {
          return if x.ignoreDup then 0 else -1;
        }
      }
      chans := chans[c := x.(single := v)];
      ret := MakeDirty(c);
    }

    /** chan_push */
    method ChanPush(c: nat, v: Value) returns (ret: int)
      requires c < |chans|
      modifies this`chans, this`dirty
      ensures (State(), ret) == Apply(old(State()), c, Push(old(chans[c]), v))
    {
      var x := chans[c];
      if !x.stack {
        return -1;
      }
      if x.dirty && !x.dirtyWrite {
        return -1;
      }
      if !x.allowDup {
        if x.last == v {
          return if x.ignoreDup then 0 else -1;
        }
      }
      if |x.values| >= MAX_CHAN_STACK {
        return -1;
      }
      chans := chans[c := x.(values := x.values + [v])];
      ret := MakeDirty(c);
    }

    /** chan_pop */
    method ChanPop(c: nat, expected: Value) returns (ret: int)
      requires c < |chans|
      modifies this`chans, this`dirty
      ensures (State(), ret) == Apply(old(State()), c, Pop(old(chans[c]), expected))
    {
      var x := chans[c];
      if !x.stack {
        return -1;
      }
      if x.dirty && !x.dirtyWrite {
        return -1;
      }
      if x.values == [] {
        return -1;
      }
      if x.values[|x.values| - 1] != expected {
        return -1;
      }
      chans := chans[c := x.(values := x.values[..|x.values| - 1])];
      ret := MakeDirty(c);
    }

    /** cb_select */
    method CbSelect(m: nat) returns (ret: int)
      requires m < |muxes| == |selected| && |chans| == |cbs| && WiredMux(muxes[m], |chans|)
               && selected[m] < |muxes[m].inputs|
      modifies this`chans, this`dirty, this`cbs, this`enabled, this`selected
      ensures (State(), ret) == RunSelect(muxes, old(State()), m)
    {
      var x := muxes[m];
      var key := Read(chans[x.select]);
      if selected[m] >= 0 {
        DisableCb(Input(m, selected[m]));
        selected := selected[m := -1];
      }
      var pick := x.choose(key);
      if pick.Fails? {
        return -1;
      }
      if pick.Picks? {
        EnableCb(Input(m, pick.index));
        selected := selected[m := pick.index];
      }
      var outValue := x.def;
      if pick.Picks? {
        outValue := Read(chans[x.inputs[pick.index]]);
      }
      ret := ChanSet(x.output, outValue);
    }

    /** cb_input */
    method CbInput(m: nat, i: nat) returns (ret: int)
      requires m < |muxes| && WiredMux(muxes[m], |chans|) && i < |muxes[m].inputs|
      modifies this`chans, this`dirty
      ensures (State(), ret) == RunInput(muxes, old(State()), m, i)
    {
      var outValue := Read(chans[muxes[m].inputs[i]]);
      ret := ChanSet(muxes[m].output, outValue);
    }

    /** One callback of the list of channel c. */
    method RunCallback(cb: Cb, ghost c: nat, ghost done: seq<Cb>, ghost rest: seq<Cb>, ghost lv: seq<nat>,
                       ghost k: nat, ghost flows: bool)
      returns (ret: int, ghost done': seq<Cb>, ghost rest': seq<Cb>)
      requires Walking(muxes, State(), live, c, done, rest) && rest != [] && rest[0] == cb
      requires k < |dirty| && dirty[k] == c && (flows ==> Flowing(muxes, lv, State(), live, k, rest))
      modifies this`chans, this`dirty, this`cbs, this`enabled, this`selected, this`live
      ensures ret == 0 || ret == -1
      ensures Ran(muxes, lv, k, c, flows, old(State()), old(live), rest, State(), live, cb, ret, done', rest')
    {
      hide Flowing, Ran, Walking;
      ghost var b, live0 := State(), live;
      match cb {
        case Select(m) =>
          RanSelect(muxes, lv, b, live, k, c, done, rest, m, flows);
          done', rest' := Without(done, m, selected[m]), RestAfter(muxes, b, c, m, rest);
          hide RunSelect, Without, RestAfter, WiredMux;
          ret := CbSelect(m);
          live := live + {m};
        case Input(m, i) =>
          RanInput(muxes, lv, b, live, k, c, done, rest, m, i, flows);
          hide RunInput, WiredMux;
          done', rest' := done, rest[1..];
          ret := CbInput(m, i);
      }
    }

    /** propagate_chan in the dirty phase */
    method PropagateChan(c: nat, ghost lv: seq<nat>, ghost k: nat, ghost flows: bool) returns (ret: int)
      requires phase == Propagating && Struct(muxes, State(), live) && k < |dirty| && dirty[k] == c
      requires flows ==> Flows(muxes, lv, State(), live, k)
      modifies this`chans, this`dirty, this`cbs, this`enabled, this`selected, this`live
      ensures ret == 0 || ret == -1
      ensures Struct(muxes, State(), live) && phase == Propagating
      ensures Extends(muxes, old(State()), State()) && LiveFrom(muxes, old(live), live, dirty)
      ensures ret == -1 ==> SomeFails(muxes, chans)
      ensures flows && ret == 0 ==> Flows(muxes, lv, State(), live, k + 1)
    {
      if flows {
        FlowStarts(muxes, lv, State(), live, k);
      }
      assert c in dirty;
      hide Flows, Flowing, Selects, SomeFails, Struct, LiveFrom, Extends;
      LiveSame(muxes, live, dirty);
      ExtendsSame(muxes, State());
      ghost var done, rest := [], cbs[c];
      var cur := Head(cbs[c]);
      while cur != []
        invariant Walking(muxes, State(), live, c, done, rest) && cur == Head(rest)
        invariant Extends(muxes, old(State()), State()) && LiveFrom(muxes, old(live), live, dirty)
        invariant k < |dirty| && dirty[k] == c
        invariant flows ==> Flowing(muxes, lv, State(), live, k, rest)
        decreases Selects(rest), |rest|
      {
        var cb := cur[0];
        ghost var b, live0 := State(), live;
        ghost var done', rest';
        ret, done', rest' := RunCallback(cb, c, done, rest, lv, k, flows);
        ExtendsTrans(muxes, old(State()), b, State());
        LiveTrans(muxes, old(live), live0, b.dirty, live, dirty);
        if ret != 0 {
          return -1;
        }
        WalkNoDup(muxes, State(), live, c, done', [cb] + rest');
        NextIs(done', [cb] + rest');
        cur := Next(cbs[c], cb);
        done, rest := done' + [cb], rest';
        assert done' + ([cb] + rest') == done + rest;
      }
      if flows {
        FlowEnds(muxes, lv, State(), live, k);
      }
      return 0;
    }

    /** The dirty phase: it ends for any wiring, since no channel is on the list twice. */
    method DirtyPhase(ghost lv: seq<nat>, ghost flows: bool) returns (ret: int)
      requires phase == Propagating && Struct(muxes, State(), live)
      requires flows ==> Flows(muxes, lv, State(), live, 0)
      modifies this`chans, this`dirty, this`cbs, this`enabled, this`selected, this`live
      ensures ret == 0 || ret == -1
      ensures Struct(muxes, State(), live) && phase == Propagating
      ensures Extends(muxes, old(State()), State()) && LiveFrom(muxes, old(live), live, dirty)
      ensures ret == -1 ==> SomeFails(muxes, chans)
      ensures flows && ret == 0 ==> Flows(muxes, lv, State(), live, |dirty|)
    {
      hide Flows, SomeFails, Struct, LiveFrom, Extends;
      LiveSame(muxes, live, dirty);
      ExtendsSame(muxes, State());
      var k := 0;
      while k < |dirty|
        invariant k <= |dirty| && Struct(muxes, State(), live) && phase == Propagating
        invariant Extends(muxes, old(State()), State()) && LiveFrom(muxes, old(live), live, dirty)
        invariant |chans| == |old(chans)| && (flows ==> Flows(muxes, lv, State(), live, k))
        decreases |old(chans)| - k
      {
        ghost var b, live0 := State(), live;
        AtMostAll(muxes, b, live);
        ret := PropagateChan(dirty[k], lv, k, flows);
        ExtendsTrans(muxes, old(State()), b, State());
        LiveTrans(muxes, old(live), live0, b.dirty, live, dirty);
        if ret != 0 {
          return -1;
        }
        k := k + 1;
      }
      return 0;
    }

    /** The emit phase: every dirty channel is written to the trace. */
    method EmitPhase(prv: Prv) returns (ret: int)
      requires prv.Valid() && NoDup(dirty) && forall c :: c in dirty ==> c < |chans|
      modifies prv`channels, prv`lines, prv`seen, prv`logs
      ensures ret == 0 || ret == -1
      ensures ret == -1 <==> Refused(old(prv.channels), chans, dirty)
      ensures SameRegs(old(prv.channels), prv.channels)
      ensures ret == 0 ==> prv.Valid() && Offered(prv.channels, old(prv.seen), prv.seen, chans, dirty)
      ensures ret == 0 ==> AddedAt(old(prv.lines), prv.lines, prv.time)
    {
      hide Emitted, EmittedBy, AddedAt, NewLines;
      ghost var lines0 := prv.lines;
      AddedThen(lines0, lines0, lines0, prv.time);
      ghost var cs0, seen0 := prv.channels, prv.seen;
      EmittedNone(cs0, seen0, chans);
      prv.SeenLength();
      var k := 0;
      while k < |dirty|
        invariant k <= |dirty| && prv.Valid() && Emitted(cs0, prv.channels, seen0, prv.seen, chans, dirty[..k])
        invariant AddedAt(lines0, prv.lines, prv.time)
      {
        ghost var lines1 := prv.lines;
        ghost var cs1, seen1, done := prv.channels, prv.seen, dirty[..k];
        assert dirty[..k + 1] == done + [dirty[k]];
        assert dirty[k] in dirty;
        var r := prv.EmitChan(dirty[k], Read(chans[dirty[k]]));
        AddedThen(lines0, lines1, prv.lines, prv.time);
        EmittedOne(cs0, cs1, prv.channels, seen0, seen1, prv.seen, chans, dirty, k, r);
        if r != 0 {
          return -1;
        }
        k := k + 1;
      }
      assert dirty[..k] == dirty;
      EmittedAll(cs0, prv.channels, seen0, prv.seen, chans, dirty);
      return 0;
    }

    /** chan_flush */
    method ChanFlush(c: nat) returns (ret: int)
      requires c < |chans|
      modifies this`chans
      ensures ret == if old(chans[c]).dirty then 0 else -1
      ensures chans == if ret == 0 then old(chans)[c := Flushed(old(chans[c]))] else old(chans)
    {
      if !chans[c].dirty {
        return -1;
      }
      chans := chans[c := chans[c].(last := Read(chans[c]))];
      chans := chans[c := chans[c].(dirty := false)];
      return 0;
    }

    /** The flush phase never fails: what is on the list is dirty, once. */
    method FlushPhase() returns (ret: int)
      requires DirtyExact(State())
      modifies this`chans
      ensures ret == 0 && AllFlushed(old(chans), chans, dirty)
    {
      var k := 0;
      while k < |dirty|
        invariant k <= |dirty| && AllFlushed(old(chans), chans, dirty[..k])
      {
        assert dirty[..k + 1] == dirty[..k] + [dirty[k]];
        assert dirty[k] !in dirty[..k] && dirty[k] in dirty;
        var r := ChanFlush(dirty[k]);
        if r != 0 {
          return -1;
        }
        k := k + 1;
      }
      assert dirty[..k] == dirty;
      return 0;
    }

    /** bay_propagate. For any wiring it ends. If it succeeds, the channels that were dirty
        at some point (touched) are flushed, and each of them that is registered in the trace
        was offered its value. It fails only if some select function refuses its key or the
        trace refuses a value. In a layered network moreover the dirty list stays in level
        order, and every mux whose select has ever been propagated is right. */
    method Propagate(prv: Prv, ghost lv: seq<nat>) returns (ret: int, ghost touched: seq<nat>)
      requires Valid() && prv.Valid()
      modifies this`phase, this`chans, this`dirty, this`cbs, this`enabled, this`selected, this`live
      modifies prv`channels, prv`lines, prv`seen, prv`logs
      ensures ret == 0 || ret == -1
      ensures ret == -1 ==> SomeFails(muxes, chans) || Refused(old(prv.channels), chans, touched)
      ensures ret == -1 ==> SourcesKept(muxes, old(chans), chans)
      ensures SameRegs(old(prv.channels), prv.channels)
      ensures ret == 0 ==> Valid() && prv.Valid() && dirty == []
      ensures ret == 0 ==> Propagated(muxes, old(State()), chans, touched) && LiveFrom(muxes, old(live), live, touched)
      ensures ret == 0 ==> !Refused(old(prv.channels), chans, touched)
      ensures ret == 0 ==> Offered(prv.channels, old(prv.seen), prv.seen, chans, touched)
      ensures ret == 0 ==> AddedAt(old(prv.lines), prv.lines, prv.time)
      ensures ret == 0 && old(Settled(lv)) ==>
                Settled(lv) && LevelOrder(lv, touched, |touched|) && NetRight(muxes, chans, live, touched)
    {
      hide Flows, SomeFails, LiveFrom, Extends, Refused, Offered, Struct, AddedAt;
      ghost var b0, flows := State(), Settled(lv);
      touched := dirty;
      phase := Propagating;
      PhaseOnly(muxes, lv, b0, State(), live);
      ret := DirtyPhase(lv, flows);
      SourcesStay(muxes, b0, State());
      if ret != 0 {
        return;
      }
      touched := dirty;
      ghost var b1 := State();
      phase := Emitting;
      StructDirty(muxes, b1, live);
      ret := EmitPhase(prv);
      if ret != 0 {
        return;
      }
      phase := Flushing;
      ret := FlushPhase();
      if ret != 0 {
        return;
      }
      dirty := [];
      phase := Ready;
      FlushKeeps(muxes, b1, State(), live);
      OfferedFlushed(prv.channels, old(prv.seen), prv.seen, b1.chans, chans, touched);
      RefusedFlushed(old(prv.channels), b1.chans, chans, touched);
      PropagatedIs(muxes, b0, b1, chans, touched);
      if flows {
        SettledAgain(muxes, lv, b1, State(), live);
      }
    }
  }

  /** What a successful propagation does to the channels: the dirty ones and those they
      reach are flushed, the others untouched; only outputs take new values. */
  ghost predicate Propagated(w: seq<Mux>, b: Bay, chans: seq<Chan>, touched: seq<nat>) {
    && |chans| == |b.chans| && b.dirty <= touched && NoDup(touched)
    && forall c :: 0 <= c < |chans| ==>
         && !chans[c].dirty
         && (Source(w, c) && c in touched ==> chans[c] == Flushed(b.chans[c]))
         && (if c in touched then chans[c].last == Read(chans[c]) else chans[c] == b.chans[c])
  }

  /** The channels that are no output are as they were. */
  ghost predicate SourcesKept(w: seq<Mux>, old': seq<Chan>, chans: seq<Chan>) {
    |chans| == |old'| && forall c :: 0 <= c < |chans| && Source(w, c) ==> chans[c] == old'[c]
  }

  lemma {:induction false} SourcesStay(w: seq<Mux>, b: Bay, d: Bay)
    requires Extends(w, b.(phase := Propagating), d)
    ensures SourcesKept(w, b.chans, d.chans)
  {
  }

  /** Every mux whose select has been propagated shows what the wiring says, and those whose
      select or output was just propagated are among them. */
  ghost predicate NetRight(w: seq<Mux>, chans: seq<Chan>, live: set<nat>, touched: seq<nat>) {
    forall m :: 0 <= m < |w| && WiredMux(w[m], |chans|) ==>
      (w[m].select in touched || w[m].output in touched ==> m in live) && (m in live ==> Reflects(w, chans, m))
  }

  lemma {:induction false} PhaseOnly(w: seq<Mux>, lv: seq<nat>, b: Bay, d: Bay, live: set<nat>)
    requires d == b.(phase := d.phase)
    ensures Struct(w, b, live) ==> Struct(w, d, live)
    ensures Flows(w, lv, b, live, 0) ==> Flows(w, lv, d, live, 0)
  {
    if Struct(w, b, live) {
      assert DirtyExact(d);
      ChansOnly(w, b, d, live);
    }
    if Flows(w, lv, b, live, 0) {
      forall m | m in live ensures Fine(w, d, m, Elems(d.dirty[0..]), []) {
        assert Fine(w, b, m, Elems(b.dirty[0..]), []);
      }
    }
  }

  lemma {:induction false} StructDirty(w: seq<Mux>, b: Bay, live: set<nat>)
    requires Struct(w, b, live)
    ensures DirtyExact(b)
  {
  }

  lemma {:induction false} PropagatedIs(w: seq<Mux>, b0: Bay, b1: Bay, chans: seq<Chan>, touched: seq<nat>)
    requires Extends(w, b0.(phase := Propagating), b1) && DirtyExact(b1) && touched == b1.dirty
             && AllFlushed(b1.chans, chans, touched)
    ensures Propagated(w, b0, chans, touched)
  {
  }

  lemma {:induction false} FlushKeeps(w: seq<Mux>, b: Bay, d: Bay, live: set<nat>)
    requires Struct(w, b, live) && AllFlushed(b.chans, d.chans, b.dirty) && d.dirty == []
    requires d.cbs == b.cbs && d.enabled == b.enabled && d.selected == b.selected
    ensures Struct(w, d, live)
  {
    ChansOnly(w, b, d, live);
  }

  lemma {:induction false} OfferedFlushed(cs: seq<PrvChan>, seen0: seq<Option<Value>>, seen: seq<Option<Value>>,
                                          chans: seq<Chan>,
                                          chans': seq<Chan>, dirty: seq<nat>)
    requires Offered(cs, seen0, seen, chans, dirty) && AllFlushed(chans, chans', dirty)
    ensures Offered(cs, seen0, seen, chans', dirty)
  {
  }

  lemma {:induction false} RefusedFlushed(cs: seq<PrvChan>, chans: seq<Chan>, chans': seq<Chan>, dirty: seq<nat>)
    requires AllFlushed(chans, chans', dirty) && !Refused(cs, chans, dirty)
    ensures !Refused(cs, chans', dirty)
  {
    hide Refuses;
    forall i | 0 <= i < |cs| && cs[i].chan < |chans| ensures Read(chans[cs[i].chan]) == Read(chans'[cs[i].chan]) {
    }
  }

  /** After the flush, every live mux is still right: flushing changes no value. */
  lemma {:induction false} SettledAgain(w: seq<Mux>, lv: seq<nat>, b: Bay, d: Bay, live: set<nat>)
    requires Struct(w, b, live) && Flows(w, lv, b, live, |b.dirty|) && AllFlushed(b.chans, d.chans, b.dirty)
    requires d.dirty == [] && d.selected == b.selected
    ensures Flows(w, lv, d, live, 0) && LevelOrder(lv, b.dirty, |b.dirty|) && NetRight(w, d.chans, live, b.dirty)
  {
    AllRight(w, lv, b, live);
    forall c | 0 <= c < |b.chans| ensures Read(d.chans[c]) == Read(b.chans[c]) {
    }
    forall m | m in live ensures Right(w, d, m) && Fine(w, d, m, Elems(d.dirty[0..]), []) {
      assert Right(w, b, m);
    }
    forall m | 0 <= m < |w| && WiredMux(w[m], |d.chans|) && m in live ensures Reflects(w, d.chans, m) {
      RightReflects(w, d, m);
    }
  }

  /** The channels on the list are flushed, the others untouched. */
  ghost predicate AllFlushed(old': seq<Chan>, chans: seq<Chan>, dirty: seq<nat>) {
    |chans| == |old'| && forall c :: 0 <= c < |chans| ==> chans[c] == if c in dirty then Flushed(old'[c]) else old'[c]
  }

  /** The channels in done have been emitted, the others not. */
  ghost predicate Emitted(cs0: seq<PrvChan>, cs: seq<PrvChan>, seen0: seq<Option<Value>>, seen: seq<Option<Value>>,
                          chans: seq<Chan>, done: seq<nat>) {
    && SameRegs(cs0, cs)
    && (forall i :: 0 <= i < |cs| && cs[i].chan !in done ==> cs[i] == cs0[i])
    && !Refused(cs0, chans, done)
    && Offered(cs, seen0, seen, chans, done)
  }

  lemma {:induction false} EmittedNone(cs: seq<PrvChan>, seen: seq<Option<Value>>, chans: seq<Chan>)
    ensures |seen| == |cs| ==> Emitted(cs, cs, seen, seen, chans, [])
  {
  }

  lemma {:induction false} EmittedOne(cs0: seq<PrvChan>, cs1: seq<PrvChan>, cs2: seq<PrvChan>,
                                      seen0: seq<Option<Value>>,
                                      seen1: seq<Option<Value>>, seen2: seq<Option<Value>>, chans: seq<Chan>,
                                        dirty: seq<nat>, k: nat, ret: int)
    requires k < |dirty| && NoDup(dirty) && dirty[k] < |chans| && Emitted(cs0, cs1, seen0, seen1, chans, dirty[..k])
    requires EmittedBy(cs1, cs2, seen1, seen2, dirty[k], Read(chans[dirty[k]]), ret)
    ensures SameRegs(cs0, cs2)
    ensures if ret == 0 then Emitted(cs0, cs2, seen0, seen2, chans, dirty[..k + 1])
            else ret == -1 && Refused(cs0, chans, dirty)
  {
    var c, v, done := dirty[k], Read(chans[dirty[k]]), dirty[..k];
    assert dirty[..k + 1] == done + [c];
    assert c !in done;
    hide Refuses, Read;
    if ret == -1 {
      var i :| 0 <= i < |cs1| && Refuses(cs1[i], c, v);
      assert cs1[i].chan == c by { RefusesChan(cs1[i], c, v); }
      assert Refuses(cs0[i], cs0[i].chan, v) && cs0[i].chan in dirty;
    }
  }

  lemma {:induction false} RefusesChan(r: PrvChan, c: nat, v: Value)
    requires Refuses(r, c, v)
    ensures r.chan == c
  {
  }

  lemma {:induction false} EmittedAll(cs0: seq<PrvChan>, cs: seq<PrvChan>, seen0: seq<Option<Value>>,
                                      seen: seq<Option<Value>>, chans: seq<Chan>, dirty: seq<nat>)
    requires Emitted(cs0, cs, seen0, seen, chans, dirty)
    ensures SameRegs(cs0, cs)
    ensures !Refused(cs0, chans, dirty) && Offered(cs, seen0, seen, chans, dirty)
  {
  }

  /** Some registered channel on the dirty list cannot be written. */
  ghost predicate Refused(cs: seq<PrvChan>, chans: seq<Chan>, dirty: seq<nat>) {
    exists i :: 0 <= i < |cs| && cs[i].chan in dirty && cs[i].chan < |chans|
      && Refuses(cs[i], cs[i].chan, Read(chans[cs[i].chan]))
  }

  /** The registered channels on the dirty list have been offered their current value. */
  ghost predicate Offered(cs: seq<PrvChan>, seen0: seq<Option<Value>>, seen: seq<Option<Value>>, chans: seq<Chan>,
                          dirty: seq<nat>) {
    && |seen| == |cs| == |seen0|
    && forall i :: 0 <= i < |cs| ==>
         seen[i] == if cs[i].chan in dirty && cs[i].chan < |chans| then Some(Read(chans[cs[i].chan])) else seen0[i]
  }

  lemma {:induction false} AtMostAll(w: seq<Mux>, b: Bay, live: set<nat>)
    requires Struct(w, b, live)
    ensures |b.dirty| <= |b.chans|
  {
    Pigeons(b.dirty, |b.chans|);
  }

  lemma {:induction false} Pigeons(l: seq<nat>, n: nat)
    requires NoDup(l) && forall x :: x in l ==> x < n
    ensures |l| <= n
  {
    if l == [] {
      return;
    }
    assert l[0] in l;
    if n - 1 in l {
      var i :| 0 <= i < |l| && l[i] == n - 1;
      var r := l[..i] + l[i + 1..];
      forall x | x in r ensures x < n - 1 {
        var j :| 0 <= j < |r| && r[j] == x;
        var y := if j < i then j else j + 1;
        assert x == l[y] && l[y] in l && l[y] != l[i];
      }
      assert NoDup(r);
      Pigeons(r, n - 1);
    } else {
      Pigeons(l, n - 1);
    }
  }

  lemma {:induction false} LiveSame(w: seq<Mux>, live: set<nat>, dirty: seq<nat>)
    ensures LiveFrom(w, live, live, dirty)
  {
  }

  lemma {:induction false} LiveTrans(w: seq<Mux>, live0: set<nat>, live1: set<nat>, dirty1: seq<nat>, live2: set<nat>,
                                     dirty2: seq<nat>)
    requires LiveFrom(w, live0, live1, dirty1) && LiveFrom(w, live1, live2, dirty2) && dirty1 <= dirty2
    ensures LiveFrom(w, live0, live2, dirty2)
  {
  }

  lemma {:induction false} ExtendsSame(w: seq<Mux>, b: Bay)
    ensures Extends(w, b, b)
  {
  }

  lemma {:induction false} WalkNoDup(w: seq<Mux>, b: Bay, live: set<nat>, c: nat, done: seq<Cb>, rest: seq<Cb>)
    requires Walking(w, b, live, c, done, rest)
    ensures NoDup(done + rest)
  {
    assert ListExact(w, b, c);
  }

  lemma {:induction false} ExtendsTrans(w: seq<Mux>, a: Bay, b: Bay, d: Bay)
    requires Extends(w, a, b) && Extends(w, b, d)
    ensures Extends(w, a, d) && b.dirty <= d.dirty && |d.chans| == |a.chans|
  {
  }

  /** mux_init: the output channels take several writes and duplicates. */
  function OutputProps(w: seq<Mux>, chans: seq<Chan>): (r: seq<Chan>)
    ensures |r| == |chans|
    ensures forall c :: 0 <= c < |chans| ==>
      r[c] == (if exists m :: 0 <= m < |w| && w[m].output == c then chans[c].(dirtyWrite := true, allowDup := true)
               else chans[c])
  {
    if w == [] then chans
    else
      var r := OutputProps(w[..|w| - 1], chans);
      var o := w[|w| - 1].output;
      if o < |r| then r[o := r[o].(dirtyWrite := true, allowDup := true)] else r
  }

  lemma {:induction false} InitialLists(w: seq<Mux>, b: Bay)
    requires b.cbs == seq(|b.chans|, i => []) && b.enabled == {}
    ensures CbsExact(w, b)
  {
  }

  lemma {:induction false} InitialBay(w: seq<Mux>, chans: seq<Chan>, b: Bay)
    requires Wired(w, |chans|) && (forall c :: 0 <= c < |chans| ==> !chans[c].dirty)
    requires forall m :: 0 <= m < |w| ==> !chans[w[m].output].stack
    requires b.chans == OutputProps(w, chans) && b.selected == seq(|w|, i => 0) && b.dirty == []
    requires CbsExact(w, b) && forall cb :: cb in b.enabled <==> cb.Select? && cb.mux < |w|
    ensures Struct(w, b, {}) && forall c :: 0 <= c < |chans| ==> Read(b.chans[c]) == Read(chans[c])
    ensures forall lv :: Layered(w, lv) && OneDriver(w) ==> Flows(w, lv, b, {}, 0)
  {
    hide CbsExact;
    assert DirtyExact(b);
    forall x | 0 <= x < |w| ensures MuxExact(w, b, {}, x) {
      assert WiredMux(w[x], |chans|);
    }
  }

  lemma {:induction false} EnabledExact(w: seq<Mux>, b: Bay, cb: Cb)
    requires CbsExact(w, b) && IsCb(w, cb) && ChanOf(w, cb) < |b.cbs| && cb !in b.enabled
    ensures CbsExact(w, Enable(w, b, cb))
  {
    var d, x := Enable(w, b, cb), ChanOf(w, cb);
    forall c | 0 <= c < |d.cbs| ensures ListExact(w, d, c) {
      assert ListExact(w, b, c);
      if c == x {
        NoDupSnoc(b.cbs[c], [cb]);
      }
    }
  }

  /** Writing a source channel between propagations, whatever the effect, keeps a layered
      network settled. */
  lemma {:induction false} SourceWrite(w: seq<Mux>, lv: seq<nat>, b: Bay, live: set<nat>, c: nat, e: Effect)
    requires Struct(w, b, live) && b.phase == Ready && c < |b.chans| && Level(lv, c) == 0
    requires Flows(w, lv, b, live, 0) && forall x :: x in b.dirty ==> Level(lv, x) == 0
    ensures var d := Apply(b, c, e).0;
            (e.Write? ==> e.chan.dirty == b.chans[c].dirty) ==>
            Flows(w, lv, d, live, 0) && forall x :: x in d.dirty ==> Level(lv, x) == 0
  {
    var d := Apply(b, c, e).0;
    if e.Write? && e.chan.dirty == b.chans[c].dirty {
      assert d.dirty == if b.chans[c].dirty then b.dirty else b.dirty + [c];
      assert Elems(d.dirty[0..]) == Elems(b.dirty[0..]) + {c} by {
        assert b.dirty[0..] == b.dirty && d.dirty[0..] == d.dirty;
        assert b.chans[c].dirty ==> c in b.dirty;
      }
      forall m | m in live ensures Fine(w, d, m, Elems(d.dirty[0..]), []) {
        assert Fine(w, b, m, Elems(b.dirty[0..]), []);
        assert LayeredMux(w[m], lv);
        FineOther(w, b, d, m, c, Elems(b.dirty[0..]), [], []);
      }
      forall m | 0 <= m < |w| && w[m].output in d.dirty ensures m in live {
        assert LayeredMux(w[m], lv);
      }
    }
  }

  /** In a new trace nothing has been offered; and a channel that is registered is not offered
      before it is dirty. */
  lemma {:induction false} SyncedStart(cs: seq<PrvChan>, seen: seq<Option<Value>>, chans: seq<Chan>, c: PrvChan)
    ensures Synced([], [], chans)
    ensures Synced(cs, seen, chans) ==> Synced(cs + [c], seen + [None], chans)
  {
  }

  /** What a reader of the lines finds: for every channel that was offered and is not dirty, zero
      if it is null, and otherwise its current number, or one more if the flags ask for the next; no
      number is shown as zero unless they allow it. */
  ghost predicate TraceShows(lines: seq<Line>, cs: seq<PrvChan>, seen: seq<Option<Value>>, chans: seq<Chan>) {
    |seen| == |cs| && forall i :: 0 <= i < |cs| && seen[i].Some? && cs[i].chan < |chans| && !chans[cs[i].chan].dirty ==>
      var shown := Replay(lines, cs[i].rowBase1, cs[i].typ);
      match Read(chans[cs[i].chan])
      case Null => shown == Some(0)
      case Int(n) => shown == Some(if cs[i].flags.next then n + 1 else n) && (shown == Some(0) ==> cs[i].flags.zero)
      case Double(_) => false
  }

  lemma {:induction false} SyncedShows(lines: seq<Line>, cs: seq<PrvChan>, seen: seq<Option<Value>>, chans: seq<Chan>)
    requires AllShow(lines, cs, seen) && Synced(cs, seen, chans)
    ensures TraceShows(lines, cs, seen, chans)
  {
    forall i | 0 <= i < |cs| && seen[i].Some? && cs[i].chan < |chans| && !chans[cs[i].chan].dirty
      ensures Shows(lines, cs[i], seen[i]) && seen[i].value == Read(chans[cs[i].chan])
    {
    }
  }

  /** Between propagations the trace shows, for every channel it has been offered, the value
      the channel was last flushed with. */
  lemma {:induction false} TraceSynced(w: seq<Mux>, cs: seq<PrvChan>, seen0: seq<Option<Value>>,
                                       seen: seq<Option<Value>>, b: Bay, chans: seq<Chan>, touched: seq<nat>)
    requires Propagated(w, b, chans, touched) && Offered(cs, seen0, seen, chans, touched) && DirtyExact(b)
    requires Synced(cs, seen0, b.chans)
    ensures Synced(cs, seen, chans)
    ensures forall i :: 0 <= i < |cs| && cs[i].chan in touched && cs[i].chan < |chans| ==>
              seen[i] == Some(Read(chans[cs[i].chan]))
  {
    forall i | 0 <= i < |cs| && cs[i].chan < |chans| && seen[i].Some? ensures seen[i].value == Read(chans[cs[i].chan]) {
      var c := cs[i].chan;
      if c !in touched && b.chans[c].dirty {
        assert false;
      }
    }
  }
}
