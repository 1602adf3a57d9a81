/** The thread and affinity events, with the channels that follow them. */
module ThreadEvents {
  import opened Wrappers
  import opened Sequences
  import opened Chans
  import opened BaySpec
  import opened BayFlow
  import opened Bays
  import opened BayRuns
  import opened Prvs
  import opened Sched
  import opened SchedGuards

  /** The CPUs of a loom, and its virtual CPU. */
  datatype Loom = Loom(cpus: seq<nat>, vcpu: nat)

  /** loom_get_cpu: -1 if there is none. */
  function LoomCpu(l: Loom, index: int): int {
    if index == -1 then l.vcpu
    else if 0 <= index < |l.cpus| then l.cpus[index]
    else -1
  }

  // ---------- where the channels are ----------

  const TH_CHANS := 3
  const CPU_CHANS := 5

  /** Channel k of thread t: its CPU, its tid while active, its state. */
  function ThChan(t: nat, k: nat): nat { TH_CHANS * t + k }

  /** Channel k of CPU c after those of n threads: number of running threads, pid, tid,
      running thread, active thread. */
  function CpuChan(n: nat, c: nat, k: nat): nat { TH_CHANS * n + CPU_CHANS * c + k }

  /** All of them are single channels, sources of the network; those of the CPUs and the
      tid of the threads ignore duplicates, the others refuse them. */
  ghost predicate Props(chans: seq<Chan>, lv: seq<nat>, n: nat, m: nat) {
    && CpuChan(n, m, 0) <= |chans|
    && forall i :: 0 <= i < CpuChan(n, m, 0) ==>
         && !chans[i].stack && !chans[i].dirtyWrite && !chans[i].allowDup && Level(lv, i) == 0
         && chans[i].ignoreDup == (i >= ThChan(n, 0) || i % TH_CHANS == 1)
  }

  // ---------- what they show ----------

  function OptInt(i: int): Value {
    if i < 0 then Null else Int(i)
  }

  ghost predicate ThreadShown(s: State, r: seq<Value>, t: nat)
    requires t < |s.threads|
  {
    var th := s.threads[t];
    && ThChan(t, 2) < |r|
    && r[ThChan(t, 0)] == OptInt(th.cpu)
    && r[ThChan(t, 1)] == (if th.isActive then Int(th.tid) else Null)
    && r[ThChan(t, 2)] == (match th.state
                          case Unknown => Null
                          case Running => Int(1)
                          case Paused => Int(2)
                          case Dead => Int(3)
                          case Cooling => Int(4)
                          case Warming => Int(5))
  }

  ghost predicate CpuShown(s: State, r: seq<Value>, c: nat)
    requires c < |s.cpus|
  {
    var x, n := s.cpus[c], |s.threads|;
    && CpuChan(n, c, 4) < |r| && x.thRunning < n && x.thActive < n
    && (r[CpuChan(n, c, 0)] == Int(x.nrunning) || (r[CpuChan(n, c, 0)] == Null && x.nrunning == 0))
    && r[CpuChan(n, c, 1)] == (if x.thRunning < 0 then Null else Int(s.threads[x.thRunning].pid))
    && r[CpuChan(n, c, 2)] == (if x.thRunning < 0 then Null else Int(s.threads[x.thRunning].tid))
    && r[CpuChan(n, c, 3)] == OptInt(x.thRunning)
    && r[CpuChan(n, c, 4)] == OptInt(x.thActive)
  }

  ghost predicate AllShown(s: State, r: seq<Value>) {
    && (forall t :: 0 <= t < |s.threads| ==> ThreadShown(s, r, t))
    && (forall c :: 0 <= c < |s.cpus| ==> CpuShown(s, r, c))
  }

  lemma {:induction false} SetStateShown(s: State, r: seq<Value>, t: nat, st: ThState)
    requires AllShown(s, r) && t < |s.threads| && !st.Unknown?
    ensures ThChan(t, 2) < |r|
    ensures var tid := if Active(st) then Int(s.threads[t].tid) else Null;
            AllShown(SetState(s, t, st), r[ThChan(t, 2) := Int(Code(st))][ThChan(t, 1) := tid])
  {
    assert ThreadShown(s, r, t);
    var tid := if Active(st) then Int(s.threads[t].tid) else Null;
    var q, r' := SetState(s, t, st), r[ThChan(t, 2) := Int(Code(st))][ThChan(t, 1) := tid];
    forall x | 0 <= x < |q.threads| ensures ThreadShown(q, r', x) {
      assert ThreadShown(s, r, x);
    }
    forall c | 0 <= c < |q.cpus| ensures CpuShown(q, r', c) {
      assert CpuShown(s, r, c);
    }
  }

  lemma {:induction false} SetCpuShown(s: State, r: seq<Value>, t: nat, c: int)
    requires AllShown(s, r) && t < |s.threads|
    ensures ThChan(t, 0) < |r| && AllShown(SetCpu(s, t, c), r[ThChan(t, 0) := OptInt(c)])
  {
    assert ThreadShown(s, r, t);
    var q, r' := SetCpu(s, t, c), r[ThChan(t, 0) := OptInt(c)];
    forall x | 0 <= x < |q.threads| ensures ThreadShown(q, r', x) {
      assert ThreadShown(s, r, x);
    }
    forall c | 0 <= c < |q.cpus| ensures CpuShown(q, r', c) {
      assert CpuShown(s, r, c);
    }
  }

  /** What the lists of threads are does not show. */
  lemma {:induction false} ListsShown(s: State, q: State, r: seq<Value>)
    requires AllShown(s, r) && q.threads == s.threads && |q.cpus| == |s.cpus|
    requires forall c :: 0 <= c < |s.cpus| ==>
      (q.cpus[c].nrunning == s.cpus[c].nrunning && q.cpus[c].thRunning == s.cpus[c].thRunning
       && q.cpus[c].thActive == s.cpus[c].thActive)
    ensures AllShown(q, r)
  {
    forall x | 0 <= x < |q.threads| ensures ThreadShown(q, r, x) {
      assert ThreadShown(s, r, x);
    }
    forall c | 0 <= c < |q.cpus| ensures CpuShown(q, r, c) {
      assert CpuShown(s, r, c);
    }
  }

  /** The channels after cpu_update of CPU c. */
  function UpdatedReads(s: State, r: seq<Value>, c: nat): seq<Value>
    requires c < |s.cpus| && CpuChan(|s.threads|, c, 4) < |r|
  {
    var n := |s.threads|;
    var u := Update(s, c).cpus[c];
    var known := 0 <= u.thRunning < n;
    r[CpuChan(n, c, 2) := if known then Int(s.threads[u.thRunning].tid) else Null]
     [CpuChan(n, c, 1) := if known then Int(s.threads[u.thRunning].pid) else Null]
     [CpuChan(n, c, 3) := OptInt(u.thRunning)]
     [CpuChan(n, c, 0) := Int(u.nrunning)]
     [CpuChan(n, c, 4) := OptInt(u.thActive)]
  }

  lemma {:induction false} UpdateShown(s: State, r: seq<Value>, c: nat)
    requires AllShown(s, r) && c < |s.cpus| && forall t :: t in s.cpus[c].threads ==> t < |s.threads|
    ensures CpuChan(|s.threads|, c, 4) < |r| && AllShown(Update(s, c), UpdatedReads(s, r, c))
  {
    hide CountOf, LastOf;
    assert CpuShown(s, r, c);
    var q, r' := Update(s, c), UpdatedReads(s, r, c);
    forall x | 0 <= x < |q.threads| ensures ThreadShown(q, r', x) {
      assert ThreadShown(s, r, x);
    }
    forall x | 0 <= x < |q.cpus| ensures CpuShown(q, r', x) {
      UpdatedCpu(s, r, c, x);
    }
  }

  lemma {:induction false} UpdatedCpu(s: State, r: seq<Value>, c: nat, x: nat)
    requires c < |s.cpus| && x < |s.cpus| && CpuShown(s, r, c) && CpuShown(s, r, x)
    ensures CpuShown(Update(s, c), UpdatedReads(s, r, c), x)
  {
    hide CountOf, LastOf;
    LastIn(s.threads, s.cpus[c].threads, IsRunning());
    LastIn(s.threads, s.cpus[c].threads, IsActive());
  }

  lemma {:induction false} LastIn(ths: seq<Thread>, l: seq<nat>, p: ThState -> bool)
    ensures -1 <= LastOf(ths, l, p) < |ths|
    ensures CountOf(ths, l, p) > 0 ==> LastOf(ths, l, p) >= 0
  {
    if l != [] {
      LastIn(ths, l[..|l| - 1], p);
    }
  }

  // ---------- steps ----------

  /** A step that writes the channels in new': it succeeds exactly if its guard holds and
      none of them is dirty, and then it reaches the target, shown by the channels. Whether it
      succeeds or not, it writes no other channel. */
  ghost predicate Step(guard: bool, target: State, new': set<nat>, b0: Bay, s: State, b: Bay, ret: int) {
    && (ret == 0 || ret == -1)
    && (ret == 0 <==> guard && Clean(new', b0.dirty))
    && (ret == 0 ==> s == target && AllShown(s, Reads(b.chans)))
    && |s.threads| == |target.threads| && |s.cpus| == |target.cpus|
    && OnlyWrote(b0, b, new')
  }

  ghost predicate Clean(cs: set<nat>, dirty: seq<nat>) {
    forall c :: c in cs ==> c !in dirty
  }

  /** Two steps on different channels make one. */
  lemma {:induction false} StepThen(g1: bool, t1: State, n1: set<nat>, b0: Bay, s1: State, b1: Bay,
                                    g2: bool, t2: State, n2: set<nat>, s2: State, b2: Bay, ret: int)
    ensures Step(g1, t1, n1, b0, s1, b1, 0) && Step(g2, t2, n2, b1, s2, b2, ret) && n1 !! n2 ==>
              Step(g1 && g2, t2, n1 + n2, b0, s2, b2, ret)
  {
    OnlyWroteThen(b0, b1, b2, n1, n2);
    if OnlyWrote(b0, b1, n1) && n1 !! n2 {
      assert Clean(n2, b1.dirty) <==> Clean(n2, b0.dirty);
    }
    hide AllShown;
  }

  lemma {:induction false} StepGives(g1: bool, t1: State, n1: set<nat>, b0: Bay, s1: State, b1: Bay)
    ensures Step(g1, t1, n1, b0, s1, b1, 0) ==> s1 == t1 && AllShown(s1, Reads(b1.chans))
  {
  }

  lemma {:induction false} StepSizes(g1: bool, t1: State, n1: set<nat>, b0: Bay, s1: State, b1: Bay, ret: int)
    ensures Step(g1, t1, n1, b0, s1, b1, ret) ==>
              (ret == 0 || ret == -1) && OnlyWrote(b0, b1, n1)
              && |s1.threads| == |t1.threads| && |s1.cpus| == |t1.cpus|
  {
  }

  lemma {:induction false} StepFalse(g1: bool, t1: State, n1: set<nat>, b0: Bay, s1: State, b1: Bay, ret: int)
    ensures Step(g1, t1, n1, b0, s1, b1, ret) && !g1 ==> ret == -1
  {
  }

  /** If the first of two steps fails, both do. */
  lemma {:induction false} StepFails(g1: bool, t1: State, n1: set<nat>, b0: Bay, s1: State, b1: Bay,
                                     g2: bool, t2: State, n2: set<nat>, ret: int)
    ensures ret != 0 && Step(g1, t1, n1, b0, s1, b1, ret) && |t2.threads| == |t1.threads|
            && |t2.cpus| == |t1.cpus| ==>
              Step(g1 && g2, t2, n1 + n2, b0, s1, b1, ret)
  {
    OnlyWroteMore(b0, b1, n1, n1 + n2);
  }

  // ---------- the emulator ----------

  class Emu {
    const bay: PatchBay
    const looms: seq<Loom>
    var threads: seq<Thread>
    var cpus: seq<Cpu>
    ghost const lv: seq<nat>

    ghost function S(): State
      reads this
    {
      State(threads, cpus)
    }

    ghost function R(): seq<Value>
      reads bay
    {
      Reads(bay.chans)
    }

    ghost predicate BayOk()
      reads this, bay
    {
      Underway(bay.muxes, lv, bay.State(), bay.live) && Props(bay.chans, lv, |threads|, |cpus|)
    }

    /** Once the system is connected: no thread has run, and the channels are null. */
    constructor (bay: PatchBay, looms: seq<Loom>, threads: seq<Thread>, cpus: seq<Cpu>, ghost lv: seq<nat>)
      requires Underway(bay.muxes, lv, bay.State(), bay.live) && Props(bay.chans, lv, |threads|, |cpus|)
      requires forall i :: 0 <= i < CpuChan(|threads|, |cpus|, 0) ==> Read(bay.chans[i]) == Null
      requires forall t :: 0 <= t < |threads| ==>
        threads[t].state.Unknown? && threads[t].cpu == -1 && !threads[t].isRunning && !threads[t].isActive
      requires forall c :: 0 <= c < |cpus| ==>
        (cpus[c] == Cpu(cpus[c].loom, cpus[c].isVirtual, [], 0, 0, 0, -1, -1))
      ensures this.bay == bay && this.looms == looms && this.threads == threads && this.cpus == cpus && this.lv == lv
      ensures BayOk() && Ok(S()) && AllShown(S(), R())
    {
      this.bay, this.looms, this.threads, this.cpus, this.lv := bay, looms, threads, cpus, lv;
      new;
      forall t | 0 <= t < |threads| ensures ThreadShown(S(), R(), t) {
      }
      forall c | 0 <= c < |cpus| ensures CpuShown(S(), R(), c) {
      }
    }

    /** chan_set on a channel of a thread or CPU. */
    method Put(i: nat, v: Value) returns (ret: int)
      requires BayOk() && i < CpuChan(|threads|, |cpus|, 0)
      modifies bay`chans, bay`dirty
      ensures BayOk() && (ret == 0 || ret == -1)
      ensures ret == 0 ==> R() == old(R())[i := v]
      ensures ret == 0 <==> i !in old(bay.dirty) && (i >= ThChan(|threads|, 0) || i % TH_CHANS == 1 || v != old(R())[i])
      ensures OnlyWrote(old(bay.State()), bay.State(), {i})
    {
      PutKeeps(bay.muxes, lv, bay.State(), bay.live, i, v);
      WriteKeeps(bay.muxes, lv, bay.State(), bay.live, i, SetOp(v));
      hide Underway, HeldAfter, Writable, Repeats, Held;
      ret := bay.ChanSet(i, v);
    }

    /** thread_set_state */
    method ThreadSetState(t: nat, st: ThState) returns (ret: int)
      requires BayOk() && AllShown(S(), R()) && t < |threads| && !st.Unknown?
      modifies this`threads, bay`chans, bay`dirty
      ensures BayOk()
      ensures Step(CpuOf(old(S()), t) != -1
                   && StateOf(old(S()), t) != st, SetState(old(S()), t, st), {ThChan(t, 1), ThChan(t, 2)},
                   old(bay.State()), S(), bay.State(), ret)
    {
      hide Underway, AllShown;
      ThreadRead(S(), R(), t);
      SetStateShown(S(), R(), t, st);
      CodeIs(threads[t].state, st);
      ChanKinds(|threads|, t);
      var th := threads[t];
      if th.cpu == -1 {
        return -1;
      }
      threads := threads[t := th.(state := st, isRunning := st.Running?, isActive := Active(st))];
      ret := Put(ThChan(t, 2), Int(Code(st)));
      if ret != 0 {
        return -1;
      }
      ret := Put(ThChan(t, 1), if Active(st) then Int(th.tid) else Null);
    }

    /** The channel of the CPU of a thread takes a new value. */
    method PutCpu(t: nat, c: int) returns (ret: int)
      requires BayOk() && AllShown(S(), R()) && t < |threads|
      modifies this`threads, bay`chans, bay`dirty
      ensures BayOk()
      ensures Step(OptInt(c) != OptInt(CpuOf(old(S()), t)), SetCpu(old(S()), t, c), {ThChan(t, 0)},
                   old(bay.State()), S(), bay.State(), ret)
    {
      hide Underway, AllShown;
      ThreadRead(S(), R(), t);
      SetCpuShown(S(), R(), t, c);
      ChanKinds(|threads|, t);
      threads := threads[t := threads[t].(cpu := c)];
      ret := Put(ThChan(t, 0), OptInt(c));
    }

    /** thread_set_cpu */
    method ThreadSetCpu(t: nat, c: nat) returns (ret: int)
      requires BayOk() && AllShown(S(), R()) && t < |threads| && threads[t].cpu >= -1
      modifies this`threads, bay`chans, bay`dirty
      ensures BayOk()
      ensures Step(CpuOf(old(S()), t) == -1, SetCpu(old(S()), t, c), {ThChan(t, 0)}, old(bay.State()), S(),
                   bay.State(), ret)
    {
      if threads[t].cpu != -1 {
        return -1;
      }
      ret := PutCpu(t, c);
    }

    /** thread_unset_cpu */
    method ThreadUnsetCpu(t: nat) returns (ret: int)
      requires BayOk() && AllShown(S(), R()) && t < |threads| && threads[t].cpu >= -1
      modifies this`threads, bay`chans, bay`dirty
      ensures BayOk()
      ensures Step(CpuOf(old(S()), t) != -1, SetCpu(old(S()), t, -1), {ThChan(t, 0)}, old(bay.State()), S(),
                   bay.State(), ret)
    {
      if threads[t].cpu == -1 {
        return -1;
      }
      ret := PutCpu(t, -1);
    }

    /** thread_migrate_cpu: the channel refuses the CPU the thread is already on. */
    method ThreadMigrateCpu(t: nat, c: nat) returns (ret: int)
      requires BayOk() && AllShown(S(), R()) && t < |threads| && threads[t].cpu >= -1
      modifies this`threads, bay`chans, bay`dirty
      ensures BayOk()
      ensures Step(CpuOf(old(S()), t) != -1 && CpuOf(old(S()), t) != c, SetCpu(old(S()), t, c), {ThChan(t, 0)},
                   old(bay.State()), S(), bay.State(), ret)
    {
      if threads[t].cpu == -1 {
        return -1;
      }
      ret := PutCpu(t, c);
    }

    /** The loop of cpu_update. */
    method CountThreads(l: seq<nat>) returns (running: nat, active: nat, thRunning: int, thActive: int)
      requires forall t :: t in l ==> t < |threads|
      ensures running == CountOf(threads, l, IsRunning()) && thRunning == LastOf(threads, l, IsRunning())
      ensures active == CountOf(threads, l, IsActive()) && thActive == LastOf(threads, l, IsActive())
    {
      running, active, thRunning, thActive := 0, 0, -1, -1;
      var k := 0;
      while k < |l|
        invariant k <= |l|
        invariant running == CountOf(threads, l[..k], IsRunning()) && thRunning == LastOf(threads, l[..k], IsRunning())
        invariant active == CountOf(threads, l[..k], IsActive()) && thActive == LastOf(threads, l[..k], IsActive())
      {
        assert l[k] in l;
        var th := threads[l[k]];
        ghost var done := l[..k + 1];
        assert done[..|done| - 1] == l[..k] && done[|done| - 1] == l[k];
        if th.state == Running {
          thRunning := l[k];
          running := running + 1;
          thActive := l[k];
          active := active + 1;
        } else if th.state == Cooling || th.state == Warming {
          thActive := l[k];
          active := active + 1;
        }
        k := k + 1;
      }
      assert l[..k] == l;
    }

    /** The five chan_set of cpu_update. */
    method PutCpuChans(c: nat, tid: Value, pid: Value, run: Value, nrun: Value, act: Value) returns (ret: int)
      requires BayOk() && c < |cpus|
      modifies bay`chans, bay`dirty
      ensures BayOk() && (ret == 0 || ret == -1)
      ensures CpuChan(|threads|, c, 4) < |old(R())|
      ensures ret == 0 ==> R() == old(R())[CpuChan(|threads|, c, 2) := tid][CpuChan(|threads|, c, 1) := pid]
                                          [CpuChan(|threads|, c, 3) := run][CpuChan(|threads|, c, 0) := nrun]
                                          [CpuChan(|threads|, c, 4) := act]
      ensures ret == 0 <==> forall i :: i in CpuChans(|threads|, c) ==> i !in old(bay.dirty)
      ensures OnlyWrote(old(bay.State()), bay.State(), CpuChans(|threads|, c))
    {
      hide Underway, OnlyWrote;
      var n := |threads|;
      ghost var all, b0 := CpuChans(n, c), bay.State();
      assert forall i :: i in all <==> CpuChan(n, c, 0) <= i <= CpuChan(n, c, 4);
      NothingWritten(b0);
      ret := PutOne(CpuChan(n, c, 2), tid, all, b0);
      if ret != 0 {
        return -1;
      }
      ret := PutOne(CpuChan(n, c, 1), pid, all, b0);
      if ret != 0 {
        return -1;
      }
      ret := PutOne(CpuChan(n, c, 3), run, all, b0);
      if ret != 0 {
        return -1;
      }
      ret := PutOne(CpuChan(n, c, 0), nrun, all, b0);
      if ret != 0 {
        return -1;
      }
      ret := PutOne(CpuChan(n, c, 4), act, all, b0);
    }

    /** One of several channels that are written one after the other. */
    method PutOne(i: nat, v: Value, ghost all: set<nat>, ghost b0: Bay) returns (ret: int)
      requires BayOk() && CpuChan(|threads|, 0, 0) <= i < CpuChan(|threads|, |cpus|, 0) && i in all
      requires OnlyWrote(b0, bay.State(), all)
      modifies bay`chans, bay`dirty
      ensures BayOk() && (ret == 0 || ret == -1) && OnlyWrote(b0, bay.State(), all)
      ensures ret == 0 ==> R() == old(R())[i := v]
      ensures ret == 0 <==> i !in old(bay.dirty)
      ensures forall x :: x in bay.dirty ==> x in old(bay.dirty) || x == i
      ensures forall x :: x in old(bay.dirty) ==> x in bay.dirty
    {
      hide Underway, Props;
      ghost var b1 := bay.State();
      ret := Put(i, v);
      OnlyWroteDirty(b1, bay.State(), {i});
      assert all + {i} == all;
      hide OnlyWrote;
      OnlyWroteThen(b0, b1, bay.State(), all, {i});
    }

    /** cpu_update */
    method CpuUpdate(c: nat) returns (ret: int)
      requires BayOk() && AllShown(S(), R()) && c < |cpus| && forall t :: t in cpus[c].threads ==> t < |threads|
      modifies this`cpus, bay`chans, bay`dirty
      ensures BayOk()
      ensures Step(!Oversubscribed(old(S()), c), Update(old(S()), c), CpuChans(|threads|, c), old(bay.State()), S(),
                   bay.State(), ret)
    {
      hide Underway, AllShown, CountOf, LastOf;
      UpdateShown(S(), R(), c);
      var running, active, thRunning, thActive := CountThreads(cpus[c].threads);
      cpus := cpus[c := cpus[c].(nrunning := running, nactive := active)];
      if cpus[c].nrunning > 1 && !cpus[c].isVirtual {
        return -1;
      }
      LastIn(threads, cpus[c].threads, IsRunning());
      LastIn(threads, cpus[c].threads, IsActive());
      var tidRunning, pidRunning, gidRunning := Null, Null, Null;
      if running == 1 {
        cpus := cpus[c := cpus[c].(thRunning := thRunning)];
        tidRunning, pidRunning, gidRunning := Int(threads[thRunning].tid), Int(threads[thRunning].pid), Int(thRunning);
      } else {
        cpus := cpus[c := cpus[c].(thRunning := -1)];
      }
      var gidActive := Null;
      if active == 1 {
        cpus := cpus[c := cpus[c].(thActive := thActive)];
        gidActive := Int(thActive);
      } else {
        cpus := cpus[c := cpus[c].(thActive := -1)];
      }
      assert cpus == Update(old(S()), c).cpus;
      ret := PutCpuChans(c, tidRunning, pidRunning, gidRunning, Int(running), gidActive);
    }

    /** cpu_add_thread */
    method CpuAddThread(c: nat, t: nat) returns (ret: int)
      requires BayOk() && AllShown(S(), R()) && c < |cpus| && t < |threads| && forall x :: x in cpus[c].threads ==>
                 x < |threads|
      modifies this`cpus, bay`chans, bay`dirty
      ensures BayOk()
      ensures Step(!Has(old(S()), c, t)
                   && !Oversubscribed(Append(old(S()), c, t), c), Update(Append(old(S()), c, t), c),
                   CpuChans(|threads|, c), old(bay.State()), S(), bay.State(), ret)
    {
      hide Underway, Update, Oversubscribed, CpuChans;
      if t in cpus[c].threads {
        return -1;
      }
      ListsShown(S(), Append(S(), c, t), R());
      hide AllShown;
      cpus := cpus[c := cpus[c].(threads := cpus[c].threads + [t], nthreads := cpus[c].nthreads + 1)];
      ret := CpuUpdate(c);
    }

    /** cpu_remove_thread */
    method CpuRemoveThread(c: nat, t: nat) returns (ret: int)
      requires BayOk() && AllShown(S(), R()) && c < |cpus| && t < |threads| && NoDup(cpus[c].threads)
      requires forall x :: x in cpus[c].threads ==> x < |threads|
      modifies this`cpus, bay`chans, bay`dirty
      ensures BayOk()
      ensures Step(Has(old(S()), c, t) && !Oversubscribed(Drop(old(S()), c, t), c), Update(Drop(old(S()), c, t), c),
                   CpuChans(|threads|, c), old(bay.State()), S(), bay.State(), ret)
    {
      hide Underway, Update, Oversubscribed, CpuChans;
      if t !in cpus[c].threads {
        return -1;
      }
      RemoveIs(cpus[c].threads, t);
      ListsShown(S(), Drop(S(), c, t), R());
      hide AllShown, NoDup;
      cpus := cpus[c := cpus[c].(threads := Remove(cpus[c].threads, t), nthreads := cpus[c].nthreads - 1)];
      ret := CpuUpdate(c);
    }

    /** What every event finds: a consistent system, shown by its channels, none of them dirty. */
    ghost predicate Valid()
      reads this, bay
    {
      BayOk() && Ok(S()) && AllShown(S(), R()) && bay.dirty == [] && LoomsOk(looms, S())
    }

    /** The first two steps of pre_thread_execute. */
    method SetCpuAndRun(t: nat, c: nat) returns (ret: int)
      requires BayOk() && AllShown(S(), R()) && t < |threads| && threads[t].cpu >= -1
      modifies this`threads, bay`chans, bay`dirty
      ensures BayOk()
      ensures Step(CpuOf(old(S()), t) == -1
                   && StateOf(old(S()), t) != Running, SetState(SetCpu(old(S()), t, c), t, Running), ThChans(t),
                   old(bay.State()), S(), bay.State(), ret)
    {
      hide BayOk, AllShown, ThChan, Step;
      ghost var s0, b0 := S(), bay.State();
      ghost var t1, n1, n2 := SetCpu(s0, t, c), {ThChan(t, 0)}, {ThChan(t, 1), ThChan(t, 2)};
      assert n1 + n2 == ThChans(t);
      Apart(|threads|, t, c);
      ret := ThreadSetCpu(t, c);
      ghost var s1, b1 := S(), bay.State();
      if ret != 0 {
        StepFails(CpuOf(s0, t) == -1, t1, n1, b0, s1, b1, StateOf(s0, t) != Running, SetState(t1, t, Running),
                  n2, ret);
        return;
      }
      StepGives(CpuOf(s0, t) == -1, t1, n1, b0, s1, b1);
      ret := ThreadSetState(t, Running);
      StepThen(CpuOf(s0, t) == -1, t1, n1, b0, s1, b1,
               CpuOf(t1, t) != -1 && StateOf(t1, t) != Running, SetState(t1, t, Running), n2, S(), bay.State(), ret);
    }

    /** The three steps of pre_thread_execute. */
    method RunOn(t: nat, c: nat) returns (ret: int)
      requires BayOk() && AllShown(S(), R()) && t < |threads| && c < |cpus| && threads[t].cpu >= -1
      requires forall x :: x in cpus[c].threads ==> x < |threads|
      modifies this`threads, this`cpus, bay`chans, bay`dirty
      ensures BayOk()
      ensures Step(Runs(old(S()), t, c), Execute(old(S()), t, c), ThChans(t) + CpuChans(|threads|, c),
                   old(bay.State()), S(), bay.State(), ret)
    {
      hide BayOk, AllShown, Update, Oversubscribed, CpuChans, ThChans, ThChan, Step;
      ghost var s0, b0, n1, n2 := S(), bay.State(), ThChans(t), CpuChans(|threads|, c);
      ghost var g1, t1 := CpuOf(s0, t) == -1 && StateOf(s0, t) != Running, SetState(SetCpu(s0, t, c), t, Running);
      Apart(|threads|, t, c);
      ret := SetCpuAndRun(t, c);
      ghost var s1, b1 := S(), bay.State();
      if ret != 0 {
        StepFails(g1, t1, n1, b0, s1, b1, !Has(t1, c, t)
                  && !Oversubscribed(Append(t1, c, t), c), Execute(s0, t, c), n2, ret);
        return;
      }
      StepGives(g1, t1, n1, b0, s1, b1);
      ret := CpuAddThread(c, t);
      StepThen(g1, t1, n1, b0, s1, b1, !Has(t1, c, t)
               && !Oversubscribed(Append(t1, c, t), c), Execute(s0, t, c), n2, S(), bay.State(), ret);
    }

    /** The first two steps of pre_thread_end. */
    method StopAndRemove(t: nat, c: nat) returns (ret: int)
      requires BayOk() && AllShown(S(), R()) && t < |threads| && c < |cpus| && NoDup(cpus[c].threads)
      requires forall x :: x in cpus[c].threads ==> x < |threads|
      modifies this`threads, this`cpus, bay`chans, bay`dirty
      ensures BayOk()
      ensures Step(Stops(old(S()), t, c), Update(Drop(SetState(old(S()), t, Dead), c, t), c),
                   {ThChan(t, 1), ThChan(t, 2)} + CpuChans(|threads|, c), old(bay.State()), S(), bay.State(), ret)
    {
      hide BayOk, AllShown, Update, Oversubscribed, CpuChans, ThChan, Step, NoDup, Remove;
      ghost var s0, b0, n1, n2 := S(), bay.State(), {ThChan(t, 1), ThChan(t, 2)}, CpuChans(|threads|, c);
      ghost var g1, t1 := CpuOf(s0, t) != -1 && StateOf(s0, t) != Dead, SetState(s0, t, Dead);
      ghost var g2, t2 := Has(t1, c, t) && !Oversubscribed(Drop(t1, c, t), c), Update(Drop(t1, c, t), c);
      Apart(|threads|, t, c);
      ret := ThreadSetState(t, Dead);
      ghost var s1, b1 := S(), bay.State();
      if ret != 0 {
        StepFails(g1, t1, n1, b0, s1, b1, g2, t2, n2, ret);
        return;
      }
      StepGives(g1, t1, n1, b0, s1, b1);
      ret := CpuRemoveThread(c, t);
      StepThen(g1, t1, n1, b0, s1, b1, g2, t2, n2, S(), bay.State(), ret);
    }

    /** The steps of pre_thread_end. */
    method EndOn(t: nat, c: nat) returns (ret: int)
      requires BayOk() && AllShown(S(), R()) && t < |threads| && c < |cpus| && NoDup(cpus[c].threads)
               && threads[t].cpu == c
      requires forall x :: x in cpus[c].threads ==> x < |threads|
      modifies this`threads, this`cpus, bay`chans, bay`dirty
      ensures BayOk()
      ensures Step(Stops(old(S()), t, c), End(old(S()), t), ThChans(t) + CpuChans(|threads|, c), old(bay.State()),
                   S(), bay.State(), ret)
    {
      Apart(|threads|, t, c);
      hide BayOk, AllShown, Oversubscribed, CpuChans, ThChan, Step, NoDup, Remove, Stops;
      ghost var s0, b0, n1, n2 := S(), bay.State(), {ThChan(t, 1), ThChan(t, 2)} + CpuChans(|threads|, c),
                {ThChan(t, 0)};
      ghost var g1, t1 := Stops(s0, t, c), Update(Drop(SetState(s0, t, Dead), c, t), c);
      assert n1 + n2 == ThChans(t) + CpuChans(|threads|, c);
      assert n1 !! n2;
      assert CpuOf(t1, t) == c;
      hide Update, ThChans;
      ret := StopAndRemove(t, c);
      ghost var s1, b1 := S(), bay.State();
      if ret != 0 {
        StepFails(g1, t1, n1, b0, s1, b1, true, End(s0, t), n2, ret);
        return;
      }
      StepGives(g1, t1, n1, b0, s1, b1);
      ret := ThreadUnsetCpu(t);
      StepThen(g1, t1, n1, b0, s1, b1, CpuOf(t1, t) != -1, SetCpu(t1, t, -1), n2, S(), bay.State(), ret);
    }

    /** The steps of pre_thread_pause, resume, cool and warm. */
    method ChangeOn(t: nat, c: nat, st: ThState) returns (ret: int)
      requires BayOk() && AllShown(S(), R()) && t < |threads| && c < |cpus| && threads[t].cpu == c && !st.Unknown?
      requires forall x :: x in cpus[c].threads ==> x < |threads|
      modifies this`threads, this`cpus, bay`chans, bay`dirty
      ensures BayOk()
      ensures Step(Changes(old(S()), t, st), Change(old(S()), t, st),
                   {ThChan(t, 1), ThChan(t, 2)} + CpuChans(|threads|, c), old(bay.State()), S(), bay.State(), ret)
    {
      hide BayOk, AllShown, Update, Oversubscribed, CpuChans, ThChan, Step;
      ghost var s0, b0, n1, n2 := S(), bay.State(), {ThChan(t, 1), ThChan(t, 2)}, CpuChans(|threads|, c);
      ghost var g1, t1 := CpuOf(s0, t) != -1 && StateOf(s0, t) != st, SetState(s0, t, st);
      ghost var g2, t2 := !Oversubscribed(t1, c), Update(t1, c);
      Apart(|threads|, t, c);
      ret := ThreadSetState(t, st);
      ghost var s1, b1 := S(), bay.State();
      if ret != 0 {
        StepFails(g1, t1, n1, b0, s1, b1, g2, t2, n2, ret);
        return;
      }
      StepGives(g1, t1, n1, b0, s1, b1);
      ret := CpuUpdate(c);
      StepThen(g1, t1, n1, b0, s1, b1, g2, t2, n2, S(), bay.State(), ret);
    }

    /** cpu_migrate_thread to another CPU */
    method CpuMigrateThread(c0: nat, t: nat, c: nat) returns (ret: int)
      requires BayOk() && AllShown(S(), R()) && t < |threads| && c0 < |cpus| && c < |cpus| && NoDup(cpus[c0].threads)
      requires forall x :: x in cpus[c0].threads || x in cpus[c].threads ==> x < |threads|
      modifies this`cpus, bay`chans, bay`dirty
      ensures BayOk() && (ret == 0 || ret == -1) && |cpus| == |old(cpus)|
      ensures c != c0 ==> Step(Moves(old(S()), t, c0, c), Moved(old(S()), t, c0, c),
                               CpuChans(|threads|, c0) + CpuChans(|threads|, c),
                   old(bay.State()), S(), bay.State(), ret)
      ensures ret == 0 ==> AllShown(S(), R())
      ensures OnlyWrote(old(bay.State()), bay.State(), CpuChans(|threads|, c0) + CpuChans(|threads|, c))
    {
      hide BayOk, AllShown, Oversubscribed, CpuChans, ThChan, Step, NoDup, Remove, CountOf, LastOf;
      ghost var s0, b0, n1, n2 := S(), bay.State(), CpuChans(|threads|, c0), CpuChans(|threads|, c);
      ghost var g1, t1 := Has(s0, c0, t) && !Oversubscribed(Drop(s0, c0, t), c0), Update(Drop(s0, c0, t), c0);
      ghost var g2, t2 := !Has(t1, c, t) && !Oversubscribed(Append(t1, c, t), c), Update(Append(t1, c, t), c);
      CpusApart(|threads|, c0, c);
      RemoveKeeps(s0, c0, t);
      ret := CpuRemoveThread(c0, t);
      ghost var s1, b1 := S(), bay.State();
      StepSizes(g1, t1, n1, b0, s1, b1, ret);
      if ret != 0 {
        StepFails(g1, t1, n1, b0, s1, b1, g2, t2, n2, ret);
        return;
      }
      StepGives(g1, t1, n1, b0, s1, b1);
      ret := CpuAddThread(c, t);
      StepSizes(g2, t2, n2, b1, S(), bay.State(), ret);
      StepThen(g1, t1, n1, b0, s1, b1, g2, t2, n2, S(), bay.State(), ret);
      StepGives(g2, t2, n2, b1, S(), bay.State());
    }

    /** A migration: to the CPU the thread is already on it always fails. */
    method MigrateOn(t: nat, c0: nat, c: nat) returns (ret: int)
      requires BayOk() && AllShown(S(), R()) && t < |threads| && c0 < |cpus| && c < |cpus| && NoDup(cpus[c0].threads)
      requires threads[t].cpu == c0 && forall x :: x in cpus[c0].threads || x in cpus[c].threads ==> x < |threads|
      modifies this`threads, this`cpus, bay`chans, bay`dirty
      ensures BayOk()
      ensures c == c0 ==> ret == -1
      ensures OnlyWrote(old(bay.State()), bay.State(),
                        {ThChan(t, 0)} + (CpuChans(|old(threads)|, c0) + CpuChans(|old(threads)|, c)))
      ensures c != c0 ==> Step(Moves(old(S()), t, c0, c), Migrate(old(S()), t, c),
                               {ThChan(t, 0)} + (CpuChans(|threads|, c0) + CpuChans(|threads|, c)),
                               old(bay.State()), S(), bay.State(), ret)
    {
      CpusMissThread(|threads|, t, c0, c);
      hide BayOk, AllShown, CpuChans, ThChan, Step, NoDup, Moves, Update;
      ghost var s0, b0, n1, n2 := S(), bay.State(), CpuChans(|threads|, c0) + CpuChans(|threads|, c), {ThChan(t, 0)};
      ghost var g1, t1 := Moves(s0, t, c0, c), Moved(s0, t, c0, c);
      hide OnlyWrote;
      assert n1 + n2 == n2 + n1;
      ret := CpuMigrateThread(c0, t, c);
      ghost var s1, b1 := S(), bay.State();
      OnlyWroteMore(b0, b1, n1, n2 + n1);
      if ret != 0 {
        StepFails(g1, t1, n1, b0, s1, b1, true, Migrate(s0, t, c), n2, ret);
        return;
      }
      StepGives(g1, t1, n1, b0, s1, b1);
      ret := ThreadMigrateCpu(t, c);
      StepSizes(CpuOf(s1, t) != -1 && CpuOf(s1, t) != c, SetCpu(s1, t, c), n2, b1, S(), bay.State(), ret);
      OnlyWroteThen(b0, b1, bay.State(), n1, n2);
      StepFalse(CpuOf(s1, t) != -1 && CpuOf(s1, t) != c, SetCpu(s1, t, c), n2, b1, S(), bay.State(), ret);
      StepThen(g1, t1, n1, b0, s1, b1, CpuOf(s1, t) != -1
               && CpuOf(s1, t) != c, SetCpu(s1, t, c), n2, S(), bay.State(), ret);
    }

    /** What a step that found no dirty channel says to an event. */
    lemma {:induction false} Finish(s0: State, b0: Bay, guard: bool, target: State, new': set<nat>, ret: int)
      requires Step(guard, target, new', b0, S(), bay.State(), ret) && b0.dirty == []
      requires guard ==> Ok(target) && LoomsOk(looms, target)
      ensures (ret == 0 || ret == -1) && (ret == 0 <==> guard) && OnlyWrote(b0, bay.State(), new')
      ensures ret == 0 ==> S() == target && After(looms, S(), R())
    {
    }

    /** pre_thread_execute */
    method ThreadExecute(t: nat, size: int, index: int) returns (ret: int)
      requires Valid() && t < |threads|
      modifies this`threads, this`cpus, bay`chans, bay`dirty
      ensures (ret == 0 || ret == -1) && (ret == 0 <==> CanExecute(looms, old(S()), t, size, index))
      ensures BayOk()
      ensures OnlyWrote(old(bay.State()), bay.State(), EventChans(old(S()), t, LoomOf(looms, old(S()), t, index)))
      ensures ret == 0 ==> After(looms, S(), R()) && S() == Execute(old(S()), t, LoomOf(looms, old(S()), t, index))
      ensures ret == 0 ==> Became(old(S()), S(), t, Running, CpuOf(S(), t))
                           && Means(looms[old(threads)[t].loom], index, CpuOf(S(), t))
    {
      hide Became, Means;
      hide BayOk, AllShown, Ok, LoomsOk, Execute, NoDup, After, Step, Oversubscribed, Runs, FreeFor;
      hide OnlyWrote, EventChans, ThChans, CpuChans;
      ghost var s0, b0 := S(), bay.State();
      NothingWritten(b0);
      NeedCpu(s0, t);
      ThreadBounds(looms, s0, t, index);
      CpuOfIs(s0, t);
      MeansOne(looms, s0, t, index);
      if threads[t].state == Running {
        return -1;
      }
      if size < 4 {
        return -1;
      }
      var c := LoomCpu(looms[threads[t].loom], index);
      if c == -1 {
        return -1;
      }
      EventsBecome(s0, t, Running, c);
      ExecuteAfter(looms, s0, t, c);
      RunsExactly(s0, t, c);
      ret := RunOn(t, c);
      ghost var own := ThChans(t) + CpuChans(|threads|, c);
      Finish(s0, b0, Runs(s0, t, c), Execute(s0, t, c), own, ret);
      StepSizes(Runs(s0, t, c), Execute(s0, t, c), own, b0, S(), bay.State(), ret);
      OwnChans(b0, bay.State(), s0, t, c, c);
      BecameCpu(s0, S(), t, Running, c);
    }

    /** pre_thread_end */
    method ThreadEnd(t: nat) returns (ret: int)
      requires Valid() && t < |threads|
      modifies this`threads, this`cpus, bay`chans, bay`dirty
      ensures (ret == 0 || ret == -1)
              && (ret == 0 <==> (StateOf(old(S()), t).Running? || StateOf(old(S()), t).Cooling?))
      ensures BayOk() && OnlyWrote(old(bay.State()), bay.State(), EventChans(old(S()), t, -1))
      ensures ret == 0 ==> After(looms, S(), R()) && S() == End(old(S()), t) && Became(old(S()), S(), t, Dead, -1)
    {
      hide Became;
      ghost var s0, b0 := S(), bay.State();
      NothingWritten(b0);
      ThreadBounds(looms, s0, t, -1);
      hide BayOk, AllShown, Ok, LoomsOk, End, NoDup, After, Step, Stops;
      if threads[t].state != Running && threads[t].state != Cooling {
        return -1;
      }
      var c := threads[t].cpu;
      NeedCpu(s0, t);
      EndAfter(looms, s0, t);
      EventsBecome(s0, t, Dead, -1);
      StopsExactly(s0, t);
      ret := EndOn(t, c);
      Finish(s0, b0, Stops(s0, t, c), End(s0, t), ThChans(t) + CpuChans(|threads|, c), ret);
      OwnChans(b0, bay.State(), s0, t, -1, c);
    }

    /** The common part of pause, resume, cool and warm. */
    method ThreadChange(t: nat, st: ThState) returns (ret: int)
      requires Valid() && t < |threads| && NeedsCpu(threads[t].state) && NeedsCpu(st)
      modifies this`threads, this`cpus, bay`chans, bay`dirty
      ensures (ret == 0 || ret == -1)
              && (ret == 0 <==> StateOf(old(S()), t) != st && (st.Running? ==> FreeFor(old(S()), CpuOf(old(S()), t))))
      ensures BayOk() && OnlyWrote(old(bay.State()), bay.State(), EventChans(old(S()), t, -1))
      ensures ret == 0 ==> After(looms, S(), R()) && S() == Change(old(S()), t, st)
      ensures ret == 0 ==> Became(old(S()), S(), t, st, CpuOf(old(S()), t))
    {
      hide Became;
      ghost var s0, b0 := S(), bay.State();
      ThreadBounds(looms, s0, t, -1);
      NeedCpu(s0, t);
      ChangeAfter(looms, s0, t, st);
      EventsBecome(s0, t, st, -1);
      ChangesExactly(s0, t, st);
      hide BayOk, AllShown, Ok, LoomsOk, Change, NoDup, After, Step, Changes;
      var c := threads[t].cpu;
      ret := ChangeOn(t, c, st);
      ghost var own := {ThChan(t, 1), ThChan(t, 2)} + CpuChans(|threads|, c);
      Finish(s0, b0, Changes(s0, t, st), Change(s0, t, st), own, ret);
      MoreChans(b0, bay.State(), s0, t, -1, c, own);
    }

    /** pre_thread */
    method ThreadEvent(v: char, t: nat, size: int, index: int) returns (ret: int)
      requires Valid() && t < |threads|
      modifies this`threads, this`cpus, bay`chans, bay`dirty
      ensures (ret == 0 || ret == -1) && (ret == 0 <==> Accepts(looms, old(S()), v, t, size, index))
      ensures BayOk()
      ensures OnlyWrote(old(bay.State()), bay.State(), EventChans(old(S()), t, LoomOf(looms, old(S()), t, index)))
      ensures ret == 0 ==> After(looms, S(), R()) && S() == Following(looms, old(S()), v, t, size, index)
      ensures ret == 0 ==> Follows(old(S()), S(), t, v, CpuOf(old(S()), t))
      ensures ret == 0 && v == 'x' ==> Means(looms[old(threads)[t].loom], index, CpuOf(S(), t))
    {
      hide Became, Means;
      ghost var s0, b0 := S(), bay.State();
      NeedCpu(S(), t);
      NothingWritten(b0);
      NoTarget(s0, t, LoomOf(looms, s0, t, index));
      hide BayOk, AllShown, Ok, LoomsOk, Change, End, Execute, NoDup, Step, CanExecute, EventChans, OnlyWrote;
      match v {
        case 'C' => return 0;
        case 'x' => ret := ThreadExecute(t, size, index);
        case 'e' => ret := ThreadEnd(t);
        case 'p' =>
          if threads[t].state != Running && threads[t].state != Cooling {
            return -1;
          }
          ret := ThreadChange(t, Paused);
        case 'r' =>
          if threads[t].state != Paused && threads[t].state != Warming {
            return -1;
          }
          ret := ThreadChange(t, Running);
        case 'c' =>
          if threads[t].state != Running {
            return -1;
          }
          ret := ThreadChange(t, Cooling);
        case 'w' =>
          if threads[t].state != Paused {
            return -1;
          }
          ret := ThreadChange(t, Warming);
        case _ => return -1;
      }
      OnlyWroteMore(b0, bay.State(), EventChans(s0, t, -1), EventChans(s0, t, LoomOf(looms, s0, t, index)));
    }

    /** cpu_migrate_thread and thread_migrate_cpu, for a thread that has a CPU. */
    method MoveThread(t: nat, c: nat) returns (ret: int)
      requires Valid() && t < |threads| && 0 <= threads[t].cpu < |cpus| && c < |cpus| && cpus[c].loom == threads[t].loom
      modifies this`threads, this`cpus, bay`chans, bay`dirty
      ensures (ret == 0 || ret == -1)
              && (ret == 0 <==> c != CpuOf(old(S()), t) && (StateOf(old(S()), t).Running? ==> FreeFor(old(S()), c)))
      ensures BayOk() && OnlyWrote(old(bay.State()), bay.State(), EventChans(old(S()), t, c))
      ensures ret == 0 ==> After(looms, S(), R()) && S() == Migrate(old(S()), t, c)
      ensures ret == 0 ==> Became(old(S()), S(), t, StateOf(old(S()), t), c)
    {
      hide Became;
      hide BayOk, AllShown, Ok, LoomsOk, Migrate, NoDup, Step, Moves, FreeFor, OnlyWrote, EventChans, CpuChans, ThChan;
      ghost var s0, b0 := S(), bay.State();
      var c0 := threads[t].cpu;
      CpuBounds(s0, t, c);
      CpuOfIs(s0, t);
      NeedCpu(s0, t);
      EventsBecome(s0, t, Running, c);
      if c != c0 {
        MigrateAfter(looms, s0, t, c);
        MovesExactly(s0, t, c);
      }
      ret := MigrateOn(t, c0, c);
      MoveChans(b0, bay.State(), s0, t, c0, c);
      if c != c0 {
        Finish(s0, b0, Moves(s0, t, c0, c), Migrate(s0, t, c),
               {ThChan(t, 0)} + (CpuChans(|threads|, c0) + CpuChans(|threads|, c)), ret);
      }
    }

    /** pre_affinity_set */
    method AffinitySet(t: nat, size: int, index: int) returns (ret: int)
      requires Valid() && t < |threads|
      modifies this`threads, this`cpus, bay`chans, bay`dirty
      ensures (ret == 0 || ret == -1) && (ret == 0 <==> CanSet(looms, old(S()), t, size, index))
      ensures BayOk()
      ensures OnlyWrote(old(bay.State()), bay.State(), EventChans(old(S()), t, LoomOf(looms, old(S()), t, index)))
      ensures ret == 0 ==> After(looms, S(), R())
      ensures ret == 0 ==> S() == if LoomOf(looms, old(S()), t, index) == CpuOf(old(S()), t) then old(S())
                                  else Migrate(old(S()), t, LoomOf(looms, old(S()), t, index))
      ensures ret == 0 ==> Became(old(S()), S(), t, StateOf(old(S()), t), CpuOf(S(), t))
                           && Means(looms[old(threads)[t].loom], index, CpuOf(S(), t))
    {
      hide Became, Means, CanSet;
      ghost var s0 := S();
      NeedCpu(s0, t);
      EventsBecome(s0, t, Running, CpuOf(s0, t));
      ThreadBounds(looms, S(), t, index);
      NothingWritten(bay.State());
      hide BayOk, AllShown, Ok, LoomsOk, Migrate, NoDup, Step, Moves, OnlyWrote, EventChans, FreeFor;
      MeansOne(looms, s0, t, index);
      CanSetIs(looms, s0, t, size, index);
      if threads[t].cpu == -1 {
        return -1;
      }
      if !threads[t].isActive {
        return -1;
      }
      if size != 4 {
        return -1;
      }
      var c := LoomCpu(looms[threads[t].loom], index);
      if c == -1 {
        return -1;
      }
      if threads[t].cpu == c {
        return 0;
      }
      ret := MoveThread(t, c);
      BecameCpu(s0, S(), t, StateOf(s0, t), c);
    }

    /** pre_affinity_remote. Moving a thread to the CPU it is on always fails. */
    method AffinityRemote(t: nat, size: int, index: int, tid: int) returns (ret: int)
      requires Valid() && t < |threads|
      modifies this`threads, this`cpus, bay`chans, bay`dirty
      ensures (ret == 0 || ret == -1) && (ret == 0 <==> CanRemote(looms, old(S()), t, size, index, tid))
      ensures BayOk()
      ensures var x := FindThread(old(threads), t, tid);
              if x < 0 then bay.State() == old(bay.State())
              else OnlyWrote(old(bay.State()), bay.State(), EventChans(old(S()), x, LoomOf(looms, old(S()), t, index)))
      ensures ret == 0 ==> After(looms, S(), R())
      ensures ret == 0 ==> S() == Migrate(old(S()), FindThread(old(threads), t, tid), LoomOf(looms, old(S()), t, index))
      ensures ret == 0 ==> exists x: nat :: Wanted(old(threads), t, tid, x)
                             && Became(old(S()), S(), x, StateOf(old(S()), x), CpuOf(S(), x))
                             && Means(looms[old(threads)[t].loom], index, CpuOf(S(), x))
    {
      hide Became, Means, Wanted, CanRemote, FindThread;
      ghost var s0 := S();
      WantedIs(threads, t, tid);
      ThreadBounds(looms, s0, t, index);
      CanRemoteIs(looms, s0, t, size, index, tid);
      NothingWritten(bay.State());
      if size != 8 {
        return -1;
      }
      var x := FindThread(threads, t, tid);
      if x == -1 {
        return -1;
      }
      ThreadBounds(looms, S(), x, index);
      NeedCpu(S(), x);
      MeansOne(looms, s0, t, index);
      hide BayOk, AllShown, Ok, LoomsOk, Migrate, NoDup, Step, Moves, FindThread, OnlyWrote, EventChans, FreeFor;
      if threads[x].state == Dead {
        return -1;
      }
      if threads[x].state == Unknown {
        return -1;
      }
      if threads[x].cpu == -1 {
        return -1;
      }
      var c := LoomCpu(looms[threads[t].loom], index);
      if c == -1 {
        return -1;
      }
      ret := MoveThread(x, c);
      BecameCpu(s0, S(), x, StateOf(s0, x), c);
    }

    /** A write of another model to one of its own channels, single or stack, that no mux drives:
        it says nothing about threads and CPUs. */
    method ModelWrite(c: nat, op: ChanOp) returns (ret: int)
      requires BayOk() && After(looms, S(), R())
      requires CpuChan(|threads|, |cpus|, 0) <= c < |bay.chans| && Level(lv, c) == 0
      modifies bay`chans, bay`dirty
      ensures BayOk() && After(looms, S(), R()) && |bay.chans| == |old(bay.chans)|
      ensures (ret == 0 || ret == -1) && (ret == 0 <==> Writable(old(bay.chans[c]), op))
      ensures (bay.State(), ret) == Apply(old(bay.State()), c, EffectOf(old(bay.chans[c]), op))
      ensures if ret == -1 || Repeats(old(bay.chans[c]), op) then bay.chans == old(bay.chans)
              else HeldAfter(Held(old(bay.chans[c])), op) == Some(Held(bay.chans[c]))
      ensures OnlyWrote(old(bay.State()), bay.State(), {c})
    {
      hide Underway, HeldAfter, Writable, Repeats, Held, AllShown, Apply, EffectOf, Ok, LoomsOk;
      WriteKeeps(bay.muxes, lv, bay.State(), bay.live, c, op);
      ghost var r := R();
      ret := WriteChan(bay, c, op);
      ShownSame(S(), r, R());
    }

    /** The trace is in step with the channels: each channel it was offered and that is not dirty
        has the value the trace shows. */
    ghost predicate InSync(prv: Prv)
      reads bay, prv
    {
      prv.Valid() && Synced(prv.channels, prv.seen, bay.chans)
    }

    /** prv_register, for a channel of the bay */
    method RegisterChan(prv: Prv, row: int, typ: int, chan: nat, flags: Flags) returns (ret: int)
      requires InSync(prv) && chan < |bay.chans|
      modifies prv`channels, prv`seen, prv`logs
      ensures InSync(prv) && (ret == 0 || ret == -1)
      ensures prv.seen == if ret == 0 then old(prv.seen) + [None] else old(prv.seen)
    {
      SyncedStart(prv.channels, prv.seen, bay.chans,
                  PrvChan(typ * prv.nrows + row, chan, row + 1, typ, flags, false, Null));
      ret := prv.Register(row, typ, chan, flags);
    }

    /** bay_propagate after an event: it leaves the system as the event left it, ready for
        the next one, every mux that maps a null key to no input shows what it should, and
        replaying the lines of the trace gives the current value of every channel that was ever
        dirty since it was registered. It fails only if some select function refuses its key or
        the trace refuses a value. */
    method PropagateEvent(prv: Prv) returns (ret: int, ghost touched: seq<nat>)
      requires BayOk() && After(looms, S(), R()) && InSync(prv)
      modifies bay`phase, bay`chans, bay`dirty, bay`cbs, bay`enabled, bay`selected, bay`live
      modifies prv`channels, prv`lines, prv`seen, prv`logs
      ensures ret == 0 || ret == -1
      ensures ret == 0 ==> Valid() && AllMuxesReflect(bay.muxes, bay.chans) && |bay.chans| == |old(bay.chans)|
      ensures SameRegs(old(prv.channels), prv.channels)
      ensures ret == 0 ==> InSync(prv) && TraceShows(prv.lines, prv.channels, prv.seen, bay.chans)
      ensures ret == 0 ==> AddedAt(old(prv.lines), prv.lines, prv.time)
      ensures ret == 0 ==>
                old(bay.dirty) <= touched && Offered(prv.channels, old(prv.seen), prv.seen, bay.chans, touched)
      ensures ret == 0 ==> SourcesFlushed(bay.muxes, old(bay.chans), bay.chans, touched)
      ensures ret == 0 ==> Untouched(old(bay.chans), bay.chans, touched)
      ensures ret == 0 ==> !Refused(old(prv.channels), bay.chans, touched)
      ensures ret == -1 ==> After(looms, S(), R()) && |bay.chans| == |old(bay.chans)|
      ensures ret == -1 ==> SomeFails(bay.muxes, bay.chans) || Refused(old(prv.channels), bay.chans, touched)
    {
      ghost var b, live0, seen0 := bay.State(), bay.live, prv.seen;
      ret, touched := bay.Propagate(prv, lv);
      if ret == 0 {
        AllReflect(bay.muxes, lv, b, bay.State(), live0, bay.live, touched);
        DirtyOf(bay.muxes, lv, b, live0);
        TraceSynced(bay.muxes, prv.channels, seen0, prv.seen, b, bay.chans, touched);
        prv.Facts();
        SyncedShows(prv.lines, prv.channels, prv.seen, bay.chans);
        FlushedSources(bay.muxes, b, bay.chans, touched);
        hide Underway, Struct, Flows, NetRight;
        SameShown(bay.muxes, lv, b, bay.chans, touched, S());
      } else {
        hide Underway, AllShown;
        StillShown(bay.muxes, lv, b.chans, bay.chans, S());
      }
    }
  }

  lemma {:induction false} DirtyOf(w: seq<Mux>, lv: seq<nat>, b: Bay, live: set<nat>)
    requires Underway(w, lv, b, live)
    ensures DirtyExact(b)
  {
  }

  /** Channels that are no output keep what they hold over a propagation. */
  ghost predicate SourcesFlushed(w: seq<Mux>, old': seq<Chan>, chans: seq<Chan>, touched: seq<nat>) {
    |chans| == |old'| && forall c :: 0 <= c < |chans| && Source(w, c) ==>
      chans[c] == if c in touched then Flushed(old'[c]) else old'[c]
  }

  /** Only what was touched has changed. */
  ghost predicate Untouched(old': seq<Chan>, chans: seq<Chan>, touched: seq<nat>) {
    |chans| == |old'| && forall c :: 0 <= c < |chans| && c !in touched ==> chans[c] == old'[c]
  }

  lemma {:induction false} FlushedSources(w: seq<Mux>, b: Bay, chans: seq<Chan>, touched: seq<nat>)
    requires Propagated(w, b, chans, touched)
    ensures SourcesFlushed(w, b.chans, chans, touched) && b.dirty <= touched && Untouched(b.chans, chans, touched)
  {
  }

  /** The CPUs of a loom are in it, and every thread has a loom. */
  ghost predicate LoomsOk(looms: seq<Loom>, s: State) {
    && (forall t :: 0 <= t < |s.threads| ==> s.threads[t].loom < |looms|)
    && (forall l, i :: 0 <= l < |looms| && -1 <= i < |looms[l].cpus| ==>
          0 <= LoomCpu(looms[l], i) < |s.cpus| && s.cpus[LoomCpu(looms[l], i)].loom == l)
  }

  lemma {:induction false} LoomsStay(looms: seq<Loom>, s: State, r: State)
    requires LoomsOk(looms, s) && |r.threads| == |s.threads| && |r.cpus| == |s.cpus|
    requires forall t :: 0 <= t < |s.threads| ==> r.threads[t].loom == s.threads[t].loom
    requires forall c :: 0 <= c < |s.cpus| ==> r.cpus[c].loom == s.cpus[c].loom
    ensures LoomsOk(looms, r)
  {
  }

  /** What every successful event leaves. */
  ghost predicate After(looms: seq<Loom>, s: State, r: seq<Value>) {
    Ok(s) && AllShown(s, r) && LoomsOk(looms, s)
  }

  lemma {:induction false} CpusApart(n: nat, c0: nat, c: nat)
    ensures c0 != c ==> CpuChans(n, c0) !! CpuChans(n, c)
  {
  }

  lemma {:induction false} RemoveKeeps(s: State, c0: nat, t: nat)
    requires c0 < |s.cpus| && NoDup(s.cpus[c0].threads)
    ensures var r := Update(Drop(s, c0, t), c0);
            forall c, x :: 0 <= c < |s.cpus| && x in r.cpus[c].threads ==> x in s.cpus[c].threads
  {
    RemoveIs(s.cpus[c0].threads, t);
  }

  lemma {:induction false} ExecuteAfter(looms: seq<Loom>, s: State, t: nat, c: nat)
    requires Ok(s) && LoomsOk(looms, s) && t < |s.threads| && c < |s.cpus| && s.cpus[c].loom == s.threads[t].loom
    ensures Runs(s, t, c) ==> Ok(Execute(s, t, c)) && LoomsOk(looms, Execute(s, t, c))
    ensures |Execute(s, t, c).threads| == |s.threads|
  {
    if Runs(s, t, c) {
      ExecuteKeeps(s, t, c);
      LoomsStay(looms, s, Execute(s, t, c));
    }
  }

  lemma {:induction false} EndAfter(looms: seq<Loom>, s: State, t: nat)
    requires Ok(s) && LoomsOk(looms, s) && t < |s.threads| && s.threads[t].cpu >= 0
    ensures Stops(s, t, s.threads[t].cpu) ==> Ok(End(s, t)) && LoomsOk(looms, End(s, t))
  {
    EndKeeps(s, t);
    LoomsStay(looms, s, End(s, t));
  }

  lemma {:induction false} ChangeAfter(looms: seq<Loom>, s: State, t: nat, st: ThState)
    requires Ok(s) && LoomsOk(looms, s) && t < |s.threads| && s.threads[t].cpu >= 0 && NeedsCpu(st)
    ensures Changes(s, t, st) ==> Ok(Change(s, t, st)) && LoomsOk(looms, Change(s, t, st))
  {
    ChangeKeeps(s, t, st);
    LoomsStay(looms, s, Change(s, t, st));
  }

  lemma {:induction false} MigrateAfter(looms: seq<Loom>, s: State, t: nat, c: nat)
    requires Ok(s) && LoomsOk(looms, s) && t < |s.threads| && 0 <= s.threads[t].cpu && c < |s.cpus|
             && c != s.threads[t].cpu
    requires s.cpus[c].loom == s.threads[t].loom
    ensures Moves(s, t, s.threads[t].cpu, c) ==> Ok(Migrate(s, t, c)) && LoomsOk(looms, Migrate(s, t, c))
  {
    MigrateKeeps(s, t, c);
    LoomsStay(looms, s, Migrate(s, t, c));
  }

  lemma {:induction false} NeedCpu(s: State, t: nat)
    requires Ok(s) && t < |s.threads|
    ensures NeedsCpu(s.threads[t].state) <==> s.threads[t].cpu >= 0
    ensures s.threads[t].isActive == Active(s.threads[t].state) && s.threads[t].isRunning == s.threads[t].state.Running?
  {
    assert ThreadOk(s, t);
  }

  lemma {:induction false} CpusMissThread(n: nat, t: nat, c0: nat, c: nat)
    requires t < n
    ensures CpuChans(n, c0) + CpuChans(n, c) !! {ThChan(t, 0)}
  {
    Apart(n, t, c0);
    Apart(n, t, c);
  }

  // ---------- what the events write ----------

  ghost function CpuChansOf(n: nat, c: int): set<nat> {
    if c < 0 then {} else CpuChans(n, c)
  }

  /** The channels of thread t, of its CPU, and of CPU c if there is one. */
  ghost function EventChans(s: State, t: nat, c: int): set<nat> {
    ThChans(t) + CpuChansOf(|s.threads|, CpuOf(s, t)) + CpuChansOf(|s.threads|, c)
  }

  lemma {:induction false} NothingWritten(b: Bay)
    ensures forall m: set<nat> :: OnlyWrote(b, b, m)
  {
  }

  lemma {:induction false} NoTarget(s: State, t: nat, c: int)
    ensures EventChans(s, t, -1) <= EventChans(s, t, c)
  {
  }

  /** The channels own are among those of the event. */
  lemma {:induction false} MoreChans(b: Bay, d: Bay, s: State, t: nat, c: int, x: nat, own: set<nat>)
    requires OnlyWrote(b, d, own) && (x == CpuOf(s, t) || x == c)
    requires own <= ThChans(t) + CpuChansOf(|s.threads|, CpuOf(s, t)) + CpuChans(|s.threads|, x)
    ensures OnlyWrote(b, d, EventChans(s, t, c))
  {
    OnlyWroteMore(b, d, own, EventChans(s, t, c));
  }

  /** The channels of the thread and of CPU x are among those of the event. */
  lemma {:induction false} OwnChans(b: Bay, d: Bay, s: State, t: nat, c: int, x: nat)
    requires OnlyWrote(b, d, ThChans(t) + CpuChans(|s.threads|, x)) && (x == CpuOf(s, t) || x == c)
    ensures OnlyWrote(b, d, EventChans(s, t, c))
  {
    hide OnlyWrote, CpuChans, ThChans, CpuOf;
    MoreChans(b, d, s, t, c, x, ThChans(t) + CpuChans(|s.threads|, x));
  }

  lemma {:induction false} CpuOfIs(s: State, t: nat)
    ensures t < |s.threads| ==> CpuOf(s, t) == s.threads[t].cpu && StateOf(s, t) == s.threads[t].state
  {
  }

  lemma {:induction false} MoveChans(b: Bay, d: Bay, s: State, t: nat, c0: nat, c: nat)
    requires OnlyWrote(b, d, {ThChan(t, 0)} + (CpuChans(|s.threads|, c0) + CpuChans(|s.threads|, c)))
             && CpuOf(s, t) == c0
    ensures OnlyWrote(b, d, EventChans(s, t, c))
  {
    var own := {ThChan(t, 0)} + (CpuChans(|s.threads|, c0) + CpuChans(|s.threads|, c));
    assert own <= EventChans(s, t, c);
    OnlyWroteMore(b, d, own, EventChans(s, t, c));
  }

  // ---------- when the events succeed ----------

  /** The CPU that index names in the loom of thread t, or -1. */
  function LoomOf(looms: seq<Loom>, s: State, t: nat, index: int): int {
    if t < |s.threads| && s.threads[t].loom < |looms| then LoomCpu(looms[s.threads[t].loom], index) else -1
  }

  /** CPU c is the one that an index means in a loom: the virtual one for -1, otherwise the one at
      that place. No other index means a CPU. */
  ghost predicate Means(l: Loom, index: int, c: int) {
    if index == -1 then c == l.vcpu else 0 <= index < |l.cpus| && c == l.cpus[index]
  }

  lemma {:induction false} MeansOne(looms: seq<Loom>, s: State, t: nat, index: int)
    requires t < |s.threads| && s.threads[t].loom < |looms|
    ensures var l := looms[s.threads[t].loom];
            && LoomOf(looms, s, t, index) == LoomCpu(l, index) >= -1
            && forall c :: Means(l, index, c) <==> c == LoomCpu(l, index) && c != -1
  {
  }

  /** pre_thread_execute: a thread with no CPU, and a CPU of its loom that is free for it. */
  ghost predicate CanExecute(looms: seq<Loom>, s: State, t: nat, size: int, index: int) {
    && t < |s.threads| && s.threads[t].loom < |looms| && size >= 4 && s.threads[t].cpu == -1
    && exists c :: Means(looms[s.threads[t].loom], index, c) && FreeFor(s, c)
  }

  /** Thread t is in state st on that CPU, and the other threads and what the CPUs are have not changed. */
  ghost predicate Became(s: State, r: State, t: nat, st: ThState, cpu: int) {
    && t < |s.threads| == |r.threads| && |r.cpus| == |s.cpus|
    && r.threads[t] == s.threads[t].(state := st, isRunning := st == Running,
                                     isActive := st == Running || st == Cooling || st == Warming, cpu := cpu)
    && (forall x :: 0 <= x < |s.threads| && x != t ==> r.threads[x] == s.threads[x])
    && (forall c :: 0 <= c < |s.cpus| ==>
          r.cpus[c].loom == s.cpus[c].loom && r.cpus[c].isVirtual == s.cpus[c].isVirtual)
  }

  /** pre_thread: resuming needs a free CPU, the other changes only the right state. */
  ghost predicate Accepts(looms: seq<Loom>, s: State, v: char, t: nat, size: int, index: int) {
    var st := StateOf(s, t);
    match v
    case 'C' => true
    case 'x' => CanExecute(looms, s, t, size, index)
    case 'e' => st.Running? || st.Cooling?
    case 'p' => st.Running? || st.Cooling?
    case 'r' => (st.Paused? || st.Warming?) && FreeFor(s, CpuOf(s, t))
    case 'c' => st.Running?
    case 'w' => st.Paused?
    case _ => false
  }

  function Following(looms: seq<Loom>, s: State, v: char, t: nat, size: int, index: int): State {
    match v
    case 'x' => Execute(s, t, LoomOf(looms, s, t, index))
    case 'e' => End(s, t)
    case 'p' => Change(s, t, Paused)
    case 'r' => Change(s, t, Running)
    case 'c' => Change(s, t, Cooling)
    case 'w' => Change(s, t, Warming)
    case _ => s
  }

  /** What an accepted thread event does to a thread that was on the given CPU. */
  ghost predicate Follows(s: State, r: State, t: nat, v: char, cpu: int) {
    match v
    case 'x' => Became(s, r, t, Running, CpuOf(r, t))
    case 'e' => Became(s, r, t, Dead, -1)
    case 'p' => Became(s, r, t, Paused, cpu)
    case 'r' => Became(s, r, t, Running, cpu)
    case 'c' => Became(s, r, t, Cooling, cpu)
    case 'w' => Became(s, r, t, Warming, cpu)
    case _ => r == s
  }

  lemma {:induction false} BecameCpu(s: State, r: State, t: nat, st: ThState, c: int)
    ensures Became(s, r, t, st, c) ==> CpuOf(r, t) == c && |r.threads| == |s.threads|
  {
  }

  lemma {:induction false} EventsBecome(s: State, t: nat, st: ThState, c: int)
    requires t < |s.threads|
    ensures Became(s, Execute(s, t, c), t, Running, c) && Became(s, End(s, t), t, Dead, -1)
    ensures Became(s, Change(s, t, st), t, st, s.threads[t].cpu)
    ensures s.threads[t].isRunning == s.threads[t].state.Running? && s.threads[t].isActive == Active(s.threads[t].state)
            ==> Became(s, Migrate(s, t, c), t, s.threads[t].state, c)
                && Became(s, s, t, s.threads[t].state, s.threads[t].cpu)
  {
    hide CountOf, LastOf, Remove;
  }

  ghost predicate CanSet(looms: seq<Loom>, s: State, t: nat, size: int, index: int) {
    && t < |s.threads| && s.threads[t].loom < |looms| && s.threads[t].cpu >= 0 && s.threads[t].isActive && size == 4
    && exists c :: Means(looms[s.threads[t].loom], index, c)
                   && (c != s.threads[t].cpu && s.threads[t].state.Running? ==> FreeFor(s, c))
  }

  /** proc_find_thread, then loom_find_thread: the thread with that tid in the process of
      thread t, or else in its loom. */
  function FindThread(ths: seq<Thread>, t: nat, tid: int): (x: int)
    requires t < |ths|
    ensures -1 <= x < |ths| && (x >= 0 ==> ths[x].tid == tid && ths[x].loom == ths[t].loom)
    ensures x == -1 <==> forall y :: 0 <= y < |ths| ==> !(ths[y].tid == tid && ths[y].loom == ths[t].loom)
  {
    var p := FindFrom(ths, 0, (x: Thread) => x.loom == ths[t].loom && x.pid == ths[t].pid && x.tid == tid);
    if p >= 0 then p else FindFrom(ths, 0, (x: Thread) => x.loom == ths[t].loom && x.tid == tid)
  }

  function FindFrom(ths: seq<Thread>, i: nat, p: Thread -> bool): (x: int)
    requires i <= |ths|
    ensures -1 <= x < |ths| && (x >= 0 ==> x >= i && p(ths[x]))
    ensures x == -1 <==> forall y :: i <= y < |ths| ==> !p(ths[y])
    ensures forall y :: i <= y < x ==> !p(ths[y])
    decreases |ths| - i
  {
    if i == |ths| then -1 else if p(ths[i]) then i else FindFrom(ths, i + 1, p)
  }

  /** Another thread t means by a tid: one of its process if that has it, and otherwise of its loom; the
      first of them. */
  ghost predicate Wanted(ths: seq<Thread>, t: nat, tid: int, x: int) {
    && t < |ths| && 0 <= x < |ths| && ths[x].loom == ths[t].loom && ths[x].tid == tid
    && (forall y :: 0 <= y < |ths| && ths[y].loom == ths[t].loom && ths[y].tid == tid && ths[y].pid == ths[t].pid ==>
          ths[x].pid == ths[t].pid && x <= y)
    && (forall y :: 0 <= y < x && ths[y].loom == ths[t].loom && ths[y].tid == tid ==> ths[x].pid == ths[t].pid)
  }

  lemma {:induction false} WantedIs(ths: seq<Thread>, t: nat, tid: int)
    requires t < |ths|
    ensures var f := FindThread(ths, t, tid); forall x :: Wanted(ths, t, tid, x) <==> x == f && f != -1
  {
    hide FindFrom;
    var p := FindFrom(ths, 0, (x: Thread) => x.loom == ths[t].loom && x.pid == ths[t].pid && x.tid == tid);
    var q := FindFrom(ths, 0, (x: Thread) => x.loom == ths[t].loom && x.tid == tid);
  }

  ghost predicate CanRemote(looms: seq<Loom>, s: State, t: nat, size: int, index: int, tid: int) {
    && t < |s.threads| && s.threads[t].loom < |looms| && size == 8
    && exists x, c :: Wanted(s.threads, t, tid, x) && Means(looms[s.threads[t].loom], index, c)
         && s.threads[x].cpu >= 0 && c != s.threads[x].cpu
         && (s.threads[x].state.Running? ==> FreeFor(s, c))
  }

  lemma {:induction false} CanSetIs(looms: seq<Loom>, s: State, t: nat, size: int, index: int)
    requires t < |s.threads| && s.threads[t].loom < |looms|
    ensures var c := LoomCpu(looms[s.threads[t].loom], index);
            CanSet(looms, s, t, size, index) <==>
              && s.threads[t].cpu >= 0 && s.threads[t].isActive && size == 4 && c != -1
              && (c != s.threads[t].cpu && s.threads[t].state.Running? ==> FreeFor(s, c))
  {
    hide FreeFor, Means;
    MeansOne(looms, s, t, index);
    assert Means(looms[s.threads[t].loom], index, LoomCpu(looms[s.threads[t].loom], index))
           || LoomCpu(looms[s.threads[t].loom], index) == -1;
  }

  lemma {:induction false} CanRemoteIs(looms: seq<Loom>, s: State, t: nat, size: int, index: int, tid: int)
    requires t < |s.threads| && s.threads[t].loom < |looms|
    ensures var x, c := FindThread(s.threads, t, tid), LoomCpu(looms[s.threads[t].loom], index);
            CanRemote(looms, s, t, size, index, tid) <==>
              && size == 8 && x != -1 && c != -1 && s.threads[x].cpu >= 0 && c != s.threads[x].cpu
              && (s.threads[x].state.Running? ==> FreeFor(s, c))
  {
    hide FreeFor, Means, Wanted, FindThread;
    MeansOne(looms, s, t, index);
    WantedIs(s.threads, t, tid);
    assert Wanted(s.threads, t, tid, FindThread(s.threads, t, tid)) || FindThread(s.threads, t, tid) == -1;
    assert Means(looms[s.threads[t].loom], index, LoomCpu(looms[s.threads[t].loom], index))
           || LoomCpu(looms[s.threads[t].loom], index) == -1;
  }

  lemma {:induction false} ThreadBounds(looms: seq<Loom>, s: State, t: nat, index: int)
    requires Ok(s) && LoomsOk(looms, s) && t < |s.threads|
    ensures s.threads[t].loom < |looms| && -1 <= s.threads[t].cpu < |s.cpus|
    ensures var c := LoomCpu(looms[s.threads[t].loom], index);
            && -1 <= c < |s.cpus|
            && (c >= 0 ==> s.cpus[c].loom == s.threads[t].loom && NoDup(s.cpus[c].threads)
                           && (t in s.cpus[c].threads <==> s.threads[t].cpu == c)
                           && forall x :: x in s.cpus[c].threads ==> x < |s.threads|)
    ensures var c := s.threads[t].cpu;
            c >= 0 ==> NoDup(s.cpus[c].threads) && t in s.cpus[c].threads
                       && forall x :: x in s.cpus[c].threads ==> x < |s.threads|
  {
    assert ThreadOk(s, t) && Listed(s, t);
    var c := LoomCpu(looms[s.threads[t].loom], index);
    if c >= 0 {
      assert CpuOk(s, c);
    }
    if s.threads[t].cpu >= 0 {
      assert CpuOk(s, s.threads[t].cpu);
    }
  }

  lemma {:induction false} CpuBounds(s: State, t: nat, c: nat)
    requires Ok(s) && t < |s.threads| && 0 <= s.threads[t].cpu < |s.cpus| && c < |s.cpus|
    ensures NoDup(s.cpus[s.threads[t].cpu].threads)
    ensures forall x :: x in s.cpus[s.threads[t].cpu].threads || x in s.cpus[c].threads ==> x < |s.threads|
  {
    assert CpuOk(s, s.threads[t].cpu) && CpuOk(s, c);
  }

  /** The channels of a thread and those of a CPU are different. */
  lemma {:induction false} Apart(n: nat, t: nat, c: nat)
    requires t < n
    ensures {ThChan(t, 0)} !! {ThChan(t, 1), ThChan(t, 2)}
    ensures ThChans(t) !! CpuChans(n, c)
  {
  }

  ghost function ThChans(t: nat): set<nat> {
    {ThChan(t, 0), ThChan(t, 1), ThChan(t, 2)}
  }

  ghost function CpuChans(n: nat, c: nat): set<nat> {
    {CpuChan(n, c, 0), CpuChan(n, c, 1), CpuChan(n, c, 2), CpuChan(n, c, 3), CpuChan(n, c, 4)}
  }

  lemma {:induction false} CodeIs(a: ThState, b: ThState)
    ensures Code(a) == Code(b) <==> a == b
  {
  }

  lemma {:induction false} ChanKinds(n: nat, t: nat)
    requires t < n
    ensures ThChan(t, 0) % TH_CHANS == 0 && ThChan(t, 1) % TH_CHANS == 1 && ThChan(t, 2) % TH_CHANS == 2
    ensures ThChan(t, 2) < ThChan(n, 0)
  {
  }

  lemma {:induction false} ThreadRead(s: State, r: seq<Value>, t: nat)
    requires AllShown(s, r) && t < |s.threads|
    ensures ThreadShown(s, r, t)
  {
  }

  // ---------- the CPU tracking channels ----------

  /** Every mux whose select function maps null to no input shows what the wiring says. */
  ghost predicate AllMuxesReflect(w: seq<Mux>, chans: seq<Chan>) {
    forall m :: 0 <= m < |w| && w[m].choose(Null).Nothing? && WiredMux(w[m], |chans|) ==> Reflects(w, chans, m)
  }

  /** The channels of threads and CPUs are no outputs, so a propagation leaves their values. */
  lemma {:induction false} SameShown(w: seq<Mux>, lv: seq<nat>, b: Bay, chans: seq<Chan>, touched: seq<nat>, s: State)
    requires Layered(w, lv) && Propagated(w, b, chans, touched)
    requires Props(b.chans, lv, |s.threads|, |s.cpus|) && AllShown(s, Reads(b.chans))
    ensures Props(chans, lv, |s.threads|, |s.cpus|) && AllShown(s, Reads(chans))
  {
    var n, m, r, r' := |s.threads|, |s.cpus|, Reads(b.chans), Reads(chans);
    forall i | 0 <= i < CpuChan(n, m, 0) ensures r'[i] == r[i]
      && (chans[i] == b.chans[i] || chans[i] == Flushed(b.chans[i])) {
      forall x | 0 <= x < |w| ensures w[x].output != i {
        assert LayeredMux(w[x], lv);
      }
      assert Source(w, i);
    }
    forall t | 0 <= t < |s.threads| ensures ThreadShown(s, r', t) {
      assert ThreadShown(s, r, t);
    }
    forall c | 0 <= c < |s.cpus| ensures CpuShown(s, r', c) {
      assert CpuShown(s, r, c);
    }
  }

  /** What is shown depends on the channels of threads and CPUs only. */
  lemma {:induction false} ShownSame(s: State, r: seq<Value>, r': seq<Value>)
    requires |r'| >= CpuChan(|s.threads|, |s.cpus|, 0) && |r| >= CpuChan(|s.threads|, |s.cpus|, 0)
    requires forall i :: 0 <= i < CpuChan(|s.threads|, |s.cpus|, 0) ==> r'[i] == r[i]
    ensures AllShown(s, r) ==> AllShown(s, r')
  {
    if AllShown(s, r) {
      forall t | 0 <= t < |s.threads|
        ensures ThreadShown(s, r', t)
      {
        assert ThreadShown(s, r, t);
      }
      forall c | 0 <= c < |s.cpus|
        ensures CpuShown(s, r', c)
      {
        assert CpuShown(s, r, c);
      }
    }
  }

  lemma {:induction false} StillShown(w: seq<Mux>, lv: seq<nat>, old': seq<Chan>, chans: seq<Chan>, s: State)
    requires Layered(w, lv) && SourcesKept(w, old', chans) && Props(old', lv, |s.threads|, |s.cpus|)
    ensures AllShown(s, Reads(old')) ==> AllShown(s, Reads(chans))
  {
    forall i | 0 <= i < CpuChan(|s.threads|, |s.cpus|, 0)
      ensures Reads(chans)[i] == Reads(old')[i]
    {
      forall x | 0 <= x < |w|
        ensures w[x].output != i
      {
        assert LayeredMux(w[x], lv);
      }
      assert Source(w, i);
    }
    ShownSame(s, Reads(old'), Reads(chans));
  }

  /** Mux m tracks CPU c: connect_cpu selects by the running thread of the CPU, with one
      input for each thread of the system and a null default. */
  ghost predicate Tracks(w: seq<Mux>, n: nat, m: nat, c: nat) {
    && m < |w| && w[m].select == CpuChan(n, c, 3) && |w[m].inputs| == n && w[m].def == Null
    && forall v :: w[m].choose(v) == DefaultSelect(n, v)
  }

  /** The output of a mux that tracks a CPU is the channel of the unique running thread of
      that CPU, and null if no thread or several are running there. */
  lemma {:induction false} TrackShows(looms: seq<Loom>, s: State, w: seq<Mux>, chans: seq<Chan>, m: nat, c: nat)
    requires After(looms, s, Reads(chans)) && AllMuxesReflect(w, chans) && c < |s.cpus|
    requires Tracks(w, |s.threads|, m, c) && WiredMux(w[m], |chans|)
    ensures var on := On(s, c, IsRunning());
            if |on| == 1 then
              exists t :: on == {t} && t < |s.threads| && Read(chans[w[m].output]) == Read(chans[w[m].inputs[t]])
            else Read(chans[w[m].output]) == Null
  {
    TrueCounts(s, c);
    var n := |s.threads|;
    assert CpuShown(s, Reads(chans), c);
    assert Reads(chans)[CpuChan(n, c, 3)] == Read(chans[CpuChan(n, c, 3)]);
    assert w[m].choose(Null) == DefaultSelect(n, Null);
    assert Reflects(w, chans, m);
    hide On, CountOf, LastOf;
    var on, t := On(s, c, IsRunning()), s.cpus[c].thRunning;
    if |on| == 1 {
      assert Read(chans[w[m].select]) == Int(t);
      assert w[m].choose(Int(t)) == Picks(t);
      assert on == {t};
    } else {
      assert Read(chans[w[m].select]) == Null;
    }
  }

  // ---------- the thread tracking channels ----------

  /** thread_select_running and thread_select_active, for a mux with n inputs */
  function ThreadSelect(n: nat, active: bool, key: Value): Choice {
    match key
    case Null => Nothing
    case Double(_) => Fails
    case Int(i) =>
      if n != 1 then Fails
      else if i == Code(Running) || (active && (i == Code(Cooling) || i == Code(Warming))) then Picks(0)
      else Nothing
  }

  /** Mux m tracks thread t while it is running, or while it is active. */
  ghost predicate TracksThread(w: seq<Mux>, m: nat, t: nat, active: bool) {
    && m < |w| && w[m].select == ThChan(t, 2) && |w[m].inputs| == 1 && w[m].def == Null
    && forall v :: w[m].choose(v) == ThreadSelect(1, active, v)
  }

  /** The output of a mux that tracks a thread is its input exactly while the thread is
      running (or active), and null otherwise. */
  lemma {:induction false} ThreadTrackShows(looms: seq<Loom>, s: State, w: seq<Mux>, chans: seq<Chan>, m: nat, t: nat,
                                            active: bool)
    requires After(looms, s, Reads(chans)) && AllMuxesReflect(w, chans) && t < |s.threads|
    requires TracksThread(w, m, t, active) && WiredMux(w[m], |chans|)
    ensures var st := s.threads[t].state;
            Read(chans[w[m].output])
            == if st == Running || (active && (st == Cooling || st == Warming)) then Read(chans[w[m].inputs[0]])
              else Null
  {
    assert ThreadShown(s, Reads(chans), t);
    assert Reads(chans)[ThChan(t, 2)] == Read(chans[ThChan(t, 2)]);
    assert w[m].choose(Null) == ThreadSelect(1, active, Null);
    assert Reflects(w, chans, m);
    var key := Read(chans[w[m].select]);
    assert w[m].choose(key) == ThreadSelect(1, active, key);
  }
}
