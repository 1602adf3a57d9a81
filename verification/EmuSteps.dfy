/** emu_step on events of any model: the event, and then the propagation into the trace. */
module EmuSteps {
  import opened Wrappers
  import opened Chans
  import opened Prvs
  import opened BaySpec
  import opened Bays
  import opened BayRuns
  import opened Sched
  import opened ThreadEvents

  /** A thread event, an affinity event of the thread itself or for another one, or an event of
      another model, which writes some of its own channels. */
  datatype Event =
    | ThreadEv(v: char, t: nat, size: int, index: int)
    | SetEv(t: nat, size: int, index: int)
    | RemoteEv(t: nat, size: int, index: int, tid: int)
    | ModelEv(writes: seq<Write>)

  datatype Write = Write(chan: nat, op: ChanOp)

  /** The event is of one of n threads; a model writes sources that are its own, from first on. */
  ghost predicate EventOk(e: Event, n: nat, first: nat, nchans: nat, lv: seq<nat>) {
    match e
    case ModelEv(writes) =>
      forall i :: 0 <= i < |writes| ==> first <= writes[i].chan < nchans && Level(lv, writes[i].chan) == 0
    case _ => e.t < n
  }

  ghost predicate Fits(emu: Emu, e: Event)
    reads emu, emu.bay
  {
    EventOk(e, |emu.threads|, CpuChan(|emu.threads|, |emu.cpus|, 0), |emu.bay.chans|, emu.lv)
  }

  /** The channels a model event writes. */
  ghost function Written(writes: seq<Write>): set<nat> {
    set i | 0 <= i < |writes| :: writes[i].chan
  }

  /** The writes of a model up to the first that fails. */
  function RunWrites(b: Bay, writes: seq<Write>): (Bay, int) {
    if writes == [] then (b, 0)
    else
      var (d, ret) := RunWrites(b, writes[..|writes| - 1]);
      var x := writes[|writes| - 1];
      if ret != 0 || x.chan >= |d.chans| then (d, -1) else Apply(d, x.chan, EffectOf(d.chans[x.chan], x.op))
  }

  /** The event is accepted in this state of threads, CPUs and channels. */
  ghost predicate Accepted(looms: seq<Loom>, s: State, b: Bay, e: Event) {
    match e
    case ThreadEv(v, t, size, index) => Accepts(looms, s, v, t, size, index)
    case SetEv(t, size, index) => CanSet(looms, s, t, size, index)
    case RemoteEv(t, size, index, tid) => t < |s.threads| && CanRemote(looms, s, t, size, index, tid)
    case ModelEv(writes) => RunWrites(b, writes).1 == 0
  }

  /** What an accepted event does to threads and CPUs. */
  ghost predicate Effects(looms: seq<Loom>, s: State, r: State, e: Event) {
    match e
    case ThreadEv(v, t, size, index) =>
      && Follows(s, r, t, v, CpuOf(s, t))
      && (v == 'x' ==> Placed(looms, s, r, t, index, t))
    case SetEv(t, size, index) => Became(s, r, t, StateOf(s, t), CpuOf(r, t)) && Placed(looms, s, r, t, index, t)
    case RemoteEv(t, size, index, tid) =>
      exists x: nat :: Wanted(s.threads, t, tid, x)
        && Became(s, r, x, StateOf(s, x), CpuOf(r, x)) && Placed(looms, s, r, t, index, x)
    case ModelEv(_) => r == s
  }

  /** Thread x is on the CPU that the index means in the loom of thread t. */
  ghost predicate Placed(looms: seq<Loom>, s: State, r: State, t: nat, index: int, x: nat) {
    t < |s.threads| && s.threads[t].loom < |looms| && Means(looms[s.threads[t].loom], index, CpuOf(r, x))
  }

  lemma {:induction false} FailedWrites(b: Bay, writes: seq<Write>, i: nat)
    requires i <= |writes| && RunWrites(b, writes[..i]).1 != 0
    ensures RunWrites(b, writes).1 != 0
    decreases |writes| - i
  {
    if i < |writes| {
      assert writes[..i + 1][..i] == writes[..i];
      hide Apply, EffectOf;
      FailedWrites(b, writes, i + 1);
    } else {
      assert writes[..i] == writes;
    }
  }

  lemma {:induction false} NextWrite(b: Bay, writes: seq<Write>, i: nat)
    requires i < |writes| && RunWrites(b, writes[..i]).1 == 0 && writes[i].chan < |RunWrites(b, writes[..i]).0.chans|
    ensures var d := RunWrites(b, writes[..i]).0;
            RunWrites(b, writes[..i + 1]) == Apply(d, writes[i].chan, EffectOf(d.chans[writes[i].chan], writes[i].op))
  {
    assert writes[..i + 1][..i] == writes[..i];
    hide Apply, EffectOf;
  }

  /** What the thread or model event leaves, before the propagation. */
  ghost predicate Done(emu: Emu)
    reads emu, emu.bay
  {
    emu.BayOk() && After(emu.looms, emu.S(), emu.R())
  }

  /** The writes of a model, one after the other. */
  method WriteAll(emu: Emu, writes: seq<Write>) returns (ret: int)
    requires Done(emu) && Fits(emu, ModelEv(writes))
    modifies emu.bay`chans, emu.bay`dirty
    ensures (ret == 0 || ret == -1) && Done(emu)
    ensures ret == 0 <==> RunWrites(old(emu.bay.State()), writes).1 == 0
    ensures ret == 0 ==> emu.bay.State() == RunWrites(old(emu.bay.State()), writes).0
    ensures OnlyWrote(old(emu.bay.State()), emu.bay.State(), Written(writes))
  {
    hide OnlyWrote, Done, RunWrites, Apply, EffectOf;
    ghost var b0 := emu.bay.State();
    NoWrites(b0);
    assert writes[..0] == [];
    NothingWritten(b0);
    var i := 0;
    while i < |writes|
      invariant 0 <= i <= |writes| && Done(emu) && OnlyWrote(b0, emu.bay.State(), Written(writes))
      invariant |emu.bay.chans| == |old(emu.bay.chans)| && RunWrites(b0, writes[..i]) == (emu.bay.State(), 0)
    {
      ghost var b1 := emu.bay.State();
      NextWrite(b0, writes, i);
      ret := WriteOne(emu, writes[i].chan, writes[i].op);
      assert writes[i].chan in Written(writes);
      assert Written(writes) + {writes[i].chan} == Written(writes);
      OnlyWroteThen(b0, b1, emu.bay.State(), Written(writes), {writes[i].chan});
      if ret != 0 {
        FailedWrites(b0, writes, i + 1);
        return -1;
      }
      i := i + 1;
    }
    assert writes[..i] == writes;
    return 0;
  }

  lemma {:induction false} NoWrites(b: Bay)
    ensures RunWrites(b, []) == (b, 0)
  {
  }

  method WriteOne(emu: Emu, c: nat, op: ChanOp) returns (ret: int)
    requires Done(emu) && CpuChan(|emu.threads|, |emu.cpus|, 0) <= c < |emu.bay.chans| && Level(emu.lv, c) == 0
    modifies emu.bay`chans, emu.bay`dirty
    ensures (ret == 0 || ret == -1) && Done(emu) && |emu.bay.chans| == |old(emu.bay.chans)|
    ensures (emu.bay.State(), ret) == Apply(old(emu.bay.State()), c, EffectOf(old(emu.bay.chans[c]), op))
    ensures OnlyWrote(old(emu.bay.State()), emu.bay.State(), {c})
  {
    ret := emu.ModelWrite(c, op);
  }

  /** No event makes threads or CPUs. */
  lemma {:induction false} SameSizes(looms: seq<Loom>, s: State, v: char, t: nat, size: int, index: int, c: int)
    ensures var r := Following(looms, s, v, t, size, index); |r.threads| == |s.threads| && |r.cpus| == |s.cpus|
    ensures |Migrate(s, t, c).threads| == |s.threads| && |Migrate(s, t, c).cpus| == |s.cpus|
  {
  }

  lemma {:induction false} LoomThere(looms: seq<Loom>, s: State)
    requires LoomsOk(looms, s)
    ensures forall t :: 0 <= t < |s.threads| ==> s.threads[t].loom < |looms|
  {
  }

  /** model_event */
  method ModelEvent(emu: Emu, e: Event) returns (ret: int, ghost cs: set<nat>)
    requires emu.Valid() && Fits(emu, e)
    modifies emu`threads, emu`cpus, emu.bay`chans, emu.bay`dirty
    ensures (ret == 0 || ret == -1) && (ret == 0 ==> Done(emu))
    ensures ret == 0 <==> Accepted(emu.looms, old(emu.S()), old(emu.bay.State()), e)
    ensures OnlyWrote(old(emu.bay.State()), emu.bay.State(), cs)
    ensures ret == 0 ==> Effects(emu.looms, old(emu.S()), emu.S(), e)
    ensures ret == 0 ==> |emu.threads| == |old(emu.threads)| && |emu.cpus| == |old(emu.cpus)|
  {
    NothingWritten(emu.bay.State());
    ghost var s := emu.S();
    hide OnlyWrote, EventChans, Following, Migrate, FindThread, Accepts, CanSet, CanRemote, RunWrites;
    hide Follows, Became, Means, Wanted;
    LoomThere(emu.looms, s);
    match e {
      case ThreadEv(v, t, size, index) =>
        cs := EventChans(emu.S(), t, LoomOf(emu.looms, emu.S(), t, index));
        ret := emu.ThreadEvent(v, t, size, index);
        SameSizes(emu.looms, s, v, t, size, index, 0);
      case SetEv(t, size, index) =>
        cs := EventChans(emu.S(), t, LoomOf(emu.looms, emu.S(), t, index));
        ret := emu.AffinitySet(t, size, index);
        SameSizes(emu.looms, s, 'C', t, size, index, LoomOf(emu.looms, s, t, index));
      case RemoteEv(t, size, index, tid) =>
        ghost var x := FindThread(emu.threads, t, tid);
        cs := if x < 0 then {} else EventChans(emu.S(), x, LoomOf(emu.looms, emu.S(), t, index));
        ret := emu.AffinityRemote(t, size, index, tid);
        if ret == 0 {
          SameSizes(emu.looms, s, 'C', x, size, index, LoomOf(emu.looms, s, t, index));
        }
      case ModelEv(writes) =>
        cs := Written(writes);
        ret := WriteAll(emu, writes);
    }
  }

  /** Every channel whose contents are not what they were is among those touched. */
  ghost predicate WritesTouched(old': seq<Chan>, chans: seq<Chan>, touched: seq<nat>) {
    |chans| == |old'| && forall x :: 0 <= x < |chans| && x !in touched ==> chans[x] == old'[x]
  }

  lemma {:induction false} AllTouched(w: seq<Mux>, b0: Bay, b1: Bay, chans: seq<Chan>, cs: set<nat>, touched: seq<nat>)
    requires OnlyWrote(b0, b1, cs) && DirtyExact(b1) && b1.dirty <= touched && Untouched(b1.chans, chans, touched)
    ensures WritesTouched(b0.chans, chans, touched)
  {
  }

  /** emu_step after the next event was taken. If it succeeds, the system is ready for the next
      event, every tracking channel shows what it should, and replaying the trace gives the
      current value of every registered channel that was ever dirty. */
  method EmuStep(emu: Emu, prv: Prv, e: Event) returns (ret: int, ghost touched: seq<nat>)
    requires emu.Valid() && emu.InSync(prv) && Fits(emu, e)
    modifies emu`threads, emu`cpus, emu.bay`chans, emu.bay`dirty
    modifies emu.bay`phase, emu.bay`cbs, emu.bay`enabled, emu.bay`selected, emu.bay`live
    modifies prv`channels, prv`lines, prv`seen, prv`logs
    ensures ret == 0 || ret == -1
    ensures ret == 0 ==> Accepted(emu.looms, old(emu.S()), old(emu.bay.State()), e)
                         && !Refused(old(prv.channels), emu.bay.chans, touched)
    ensures ret == 0 ==> Effects(emu.looms, old(emu.S()), emu.S(), e)
    ensures ret == -1 ==>
              || !Accepted(emu.looms, old(emu.S()), old(emu.bay.State()), e)
              || SomeFails(emu.bay.muxes, emu.bay.chans) || Refused(old(prv.channels), emu.bay.chans, touched)
    ensures ret == 0 ==> emu.Valid() && emu.InSync(prv) && AllMuxesReflect(emu.bay.muxes, emu.bay.chans)
    ensures ret == 0 ==> TraceShows(prv.lines, prv.channels, prv.seen, emu.bay.chans)
    ensures ret == 0 ==> SameRegs(old(prv.channels), prv.channels) && |prv.seen| == |old(prv.seen)|
    ensures ret == 0 ==> AddedAt(old(prv.lines), prv.lines, prv.time)
    ensures ret == 0 ==> Offered(prv.channels, old(prv.seen), prv.seen, emu.bay.chans, touched)
    ensures ret == 0 ==> WritesTouched(old(emu.bay.chans), emu.bay.chans, touched)
    ensures ret == 0 ==> |emu.bay.chans| == |old(emu.bay.chans)|
                         && |emu.threads| == |old(emu.threads)| && |emu.cpus| == |old(emu.cpus)|
  {
    ghost var b0 := emu.bay.State();
    ghost var cs;
    touched := [];
    ret, cs := ModelEvent(emu, e);
    if ret != 0 {
      return;
    }
    WroteSynced(prv.channels, prv.seen, b0, emu.bay.State(), cs);
    ghost var b1 := emu.bay.State();
    DirtyOf(emu.bay.muxes, emu.lv, b1, emu.bay.live);
    ret, touched := emu.PropagateEvent(prv);
    if ret == 0 {
      AllTouched(emu.bay.muxes, b0, b1, emu.bay.chans, cs, touched);
    }
  }

  // ---------- runs ----------

  /** Every registered channel whose contents are not the same as at the start was offered to the trace. */
  ghost predicate Followed(chans0: seq<Chan>, chans: seq<Chan>, cs: seq<PrvChan>, seen: seq<Option<Value>>) {
    && |chans| == |chans0| && |seen| == |cs|
    && forall i :: 0 <= i < |cs| && cs[i].chan < |chans| && chans[cs[i].chan] != chans0[cs[i].chan] ==> seen[i].Some?
  }

  lemma {:induction false} FollowedOn(chans0: seq<Chan>, b: seq<Chan>, chans: seq<Chan>, cs: seq<PrvChan>,
                                      cs': seq<PrvChan>, seen: seq<Option<Value>>, seen': seq<Option<Value>>,
                                      touched: seq<nat>)
    requires Followed(chans0, b, cs, seen) && SameRegs(cs, cs') && WritesTouched(b, chans, touched)
    requires Offered(cs', seen, seen', chans, touched)
    ensures Followed(chans0, chans, cs', seen')
  {
    hide Read;
    forall i | 0 <= i < |cs'| && cs'[i].chan < |chans| && chans[cs'[i].chan] != chans0[cs'[i].chan]
      ensures seen'[i].Some?
    {
      assert SameReg(cs[i], cs'[i]);
    }
  }

  /** A new trace is in step with any system. */
  method OpenTrace(emu: Emu, nrows: int) returns (prv: Prv)
    ensures fresh(prv) && emu.InSync(prv) && prv.channels == [] && prv.lines == [] && prv.time == 0
  {
    prv := new Prv(nrows);
    SyncedStart([], [], emu.bay.chans, PrvChan(0, 0, 0, 0, Flags(false, false, false, false, false), false, Null));
  }

  /** Events one after the other, each at its time. If they succeed, replaying the trace gives the
      current value of every registered channel that is not as it was at the start. */
  method RunEvents(emu: Emu, prv: Prv, times: seq<int>, es: seq<Event>) returns (ret: int)
    requires emu.Valid() && emu.InSync(prv) && |times| == |es| && forall k :: 0 <= k < |es| ==> Fits(emu, es[k])
    modifies emu`threads, emu`cpus, emu.bay`chans, emu.bay`dirty
    modifies emu.bay`phase, emu.bay`cbs, emu.bay`enabled, emu.bay`selected, emu.bay`live
    modifies prv`channels, prv`lines, prv`seen, prv`logs, prv`time
    ensures ret == 0 || ret == -1
    ensures ret == 0 ==> emu.Valid() && emu.InSync(prv) && SameRegs(old(prv.channels), prv.channels)
    ensures ret == 0 ==> TraceShows(prv.lines, prv.channels, prv.seen, emu.bay.chans)
    ensures ret == 0 ==> Followed(old(emu.bay.chans), emu.bay.chans, prv.channels, prv.seen)
    ensures ret == 0 && es != [] ==> AllMuxesReflect(emu.bay.muxes, emu.bay.chans)
  {
    hide AllMuxesReflect, TraceShows, EventOk, Followed;
    ghost var chans0 := emu.bay.chans;
    ghost var n, m, c := |emu.threads|, |emu.cpus|, |emu.bay.chans|;
    ghost var cs := prv.channels;
    TraceIs(emu, prv);
    var k := 0;
    while k < |es|
      invariant 0 <= k <= |es| && emu.Valid() && emu.InSync(prv) && SameRegs(cs, prv.channels)
      invariant |emu.threads| == n && |emu.cpus| == m && |emu.bay.chans| == c
      invariant TraceShows(prv.lines, prv.channels, prv.seen, emu.bay.chans)
      invariant Followed(chans0, emu.bay.chans, prv.channels, prv.seen)
      invariant k > 0 ==> AllMuxesReflect(emu.bay.muxes, emu.bay.chans)
    {
      assert EventOk(es[k], n, CpuChan(n, m, 0), c, emu.lv);
      ret := OneEvent(emu, prv, times[k], es[k], cs, chans0);
      if ret != 0 {
        return -1;
      }
      k := k + 1;
    }
    return 0;
  }

  /** The trace advances to the time of the event, and the event is emulated. */
  method OneEvent(emu: Emu, prv: Prv, time: int, e: Event, ghost cs: seq<PrvChan>, ghost chans0: seq<Chan>)
    returns (ret: int)
    requires emu.Valid() && emu.InSync(prv) && Fits(emu, e) && SameRegs(cs, prv.channels)
    requires Followed(chans0, emu.bay.chans, prv.channels, prv.seen)
    modifies emu`threads, emu`cpus, emu.bay`chans, emu.bay`dirty
    modifies emu.bay`phase, emu.bay`cbs, emu.bay`enabled, emu.bay`selected, emu.bay`live
    modifies prv`channels, prv`lines, prv`seen, prv`logs, prv`time
    ensures ret == 0 || ret == -1
    ensures ret == 0 ==> emu.Valid() && emu.InSync(prv) && AllMuxesReflect(emu.bay.muxes, emu.bay.chans)
    ensures ret == 0 ==> TraceShows(prv.lines, prv.channels, prv.seen, emu.bay.chans) && SameRegs(cs, prv.channels)
    ensures ret == 0 ==> Followed(chans0, emu.bay.chans, prv.channels, prv.seen)
    ensures ret == 0 ==> |emu.bay.chans| == |old(emu.bay.chans)|
                         && |emu.threads| == |old(emu.threads)| && |emu.cpus| == |old(emu.cpus)|
  {
    hide AllMuxesReflect, TraceShows, Followed, Offered, WritesTouched, Accepted, Refused;
    ret := prv.Advance(time);
    if ret != 0 {
      return -1;
    }
    ghost var b, cs1, seen := emu.bay.chans, prv.channels, prv.seen;
    ghost var touched;
    ret, touched := EmuStep(emu, prv, e);
    if ret == 0 {
      FollowedOn(chans0, b, emu.bay.chans, cs1, prv.channels, seen, prv.seen, touched);
    }
  }

  lemma {:induction false} TraceIs(emu: Emu, prv: Prv)
    requires emu.InSync(prv)
    ensures TraceShows(prv.lines, prv.channels, prv.seen, emu.bay.chans)
    ensures Followed(emu.bay.chans, emu.bay.chans, prv.channels, prv.seen)
  {
    prv.Facts();
    SyncedShows(prv.lines, prv.channels, prv.seen, emu.bay.chans);
  }
}
