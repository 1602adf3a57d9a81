/** Threads and the CPUs they run on. */
module Sched {
  import opened Sequences
  import opened BaySpec

  datatype ThState = Unknown | Running | Paused | Dead | Cooling | Warming

  /** The number of a state in its enum. */
  function Code(st: ThState): nat {
    match st
    case Unknown => 0
    case Running => 1
    case Paused => 2
    case Dead => 3
    case Cooling => 4
    case Warming => 5
  }

  predicate Active(st: ThState) {
    st.Running? || st.Cooling? || st.Warming?
  }

  /** A thread; cpu is the index of its CPU, or -1. */
  datatype Thread = Thread(tid: int, pid: int, loom: nat, state: ThState, isRunning: bool, isActive: bool, cpu: int)

  /** A CPU with the list of its threads; thRunning and thActive are -1 unless unique. */
  datatype Cpu = Cpu(loom: nat, isVirtual: bool, threads: seq<nat>, nthreads: int, nrunning: nat, nactive: nat,
                     thRunning: int, thActive: int)

  datatype State = State(threads: seq<Thread>, cpus: seq<Cpu>)

  // ---------- counting ----------

  function CountOf(ths: seq<Thread>, l: seq<nat>, p: ThState -> bool): nat {
    if l == [] then 0
    else
      var t := l[|l| - 1];
      CountOf(ths, l[..|l| - 1], p) + (if t < |ths| && p(ths[t].state) then 1 else 0)
  }

  function LastOf(ths: seq<Thread>, l: seq<nat>, p: ThState -> bool): int {
    if l == [] then -1
    else
      var t := l[|l| - 1];
      if t < |ths| && p(ths[t].state) then t else LastOf(ths, l[..|l| - 1], p)
  }

  function Only(n: nat, last: int): int {
    if n == 1 then last else -1
  }

  function IsRunning(): ThState -> bool { (st: ThState) => st.Running? }

  function IsActive(): ThState -> bool { (st: ThState) => Active(st) }

  ghost function Which(ths: seq<Thread>, l: seq<nat>, p: ThState -> bool): set<nat> {
    set t | t in l && t < |ths| && p(ths[t].state)
  }

  lemma {:induction false} WhichSnoc(ths: seq<Thread>, l: seq<nat>, t: nat, p: ThState -> bool)
    requires t !in l
    ensures t !in Which(ths, l, p)
    ensures Which(ths, l + [t], p) == Which(ths, l, p) + (if t < |ths| && p(ths[t].state) then {t} else {})
  {
  }

  /** The count is that of a set, and the thread found is its only member if it has one. */
  lemma {:induction false} CountIs(ths: seq<Thread>, l: seq<nat>, p: ThState -> bool)
    requires NoDup(l)
    ensures CountOf(ths, l, p) == |Which(ths, l, p)|
    ensures CountOf(ths, l, p) >= 1 ==> LastOf(ths, l, p) in Which(ths, l, p)
  {
    if l != [] {
      var r, t := l[..|l| - 1], l[|l| - 1];
      assert l == r + [t];
      NoDupSplit(r, [t]);
      assert t in [t];
      hide NoDup;
      CountIs(ths, r, p);
      WhichSnoc(ths, r, t, p);
    }
  }

  lemma {:induction false} OnlyIs(ths: seq<Thread>, l: seq<nat>, p: ThState -> bool)
    requires NoDup(l)
    ensures var u := Only(CountOf(ths, l, p), LastOf(ths, l, p));
            if |Which(ths, l, p)| == 1 then u >= 0 && Which(ths, l, p) == {u} else u == -1
  {
    CountIs(ths, l, p);
    var w := Which(ths, l, p);
    if |w| == 1 {
      var u := LastOf(ths, l, p);
      assert |w - {u}| == 0;
      assert w == {u} + (w - {u});
    }
  }

  /** Counting looks only at the states of the listed threads. */
  lemma {:induction false} CountSame(a: seq<Thread>, b: seq<Thread>, l: seq<nat>, p: ThState -> bool)
    requires |a| == |b| && forall t :: t in l && t < |a| ==> a[t].state == b[t].state
    ensures CountOf(a, l, p) == CountOf(b, l, p) && LastOf(a, l, p) == LastOf(b, l, p)
  {
    if l != [] {
      assert l == l[..|l| - 1] + [l[|l| - 1]];
      CountSame(a, b, l[..|l| - 1], p);
    }
  }

  // ---------- the invariant ----------

  predicate NeedsCpu(st: ThState) {
    st.Running? || st.Paused? || st.Cooling? || st.Warming?
  }

  /** A thread has a CPU exactly in the four states that need one, and it is in its loom. */
  ghost predicate ThreadOk(s: State, t: nat)
    requires t < |s.threads|
  {
    var th := s.threads[t];
    && th.isRunning == th.state.Running? && th.isActive == Active(th.state)
    && -1 <= th.cpu < |s.cpus|
    && (th.cpu >= 0 <==> NeedsCpu(th.state))
    && (th.cpu >= 0 ==> s.cpus[th.cpu].loom == th.loom)
  }

  /** A thread is in the list of its CPU and in no other. */
  ghost predicate Listed(s: State, t: nat)
    requires t < |s.threads|
  {
    forall c :: 0 <= c < |s.cpus| ==> (t in s.cpus[c].threads <==> s.threads[t].cpu == c)
  }

  /** A CPU lists threads once, and counts them. */
  ghost predicate CpuOk(s: State, c: nat)
    requires c < |s.cpus|
  {
    var x := s.cpus[c];
    && NoDup(x.threads) && (forall t :: t in x.threads ==> t < |s.threads|)
    && x.nthreads == |x.threads|
    && Counted(s, c)
  }

  ghost predicate Counted(s: State, c: nat)
    requires c < |s.cpus|
  {
    var x := s.cpus[c];
    && x.nrunning == CountOf(s.threads, x.threads, IsRunning())
    && x.nactive == CountOf(s.threads, x.threads, IsActive())
    && x.thRunning == Only(x.nrunning, LastOf(s.threads, x.threads, IsRunning()))
    && x.thActive == Only(x.nactive, LastOf(s.threads, x.threads, IsActive()))
    && (!x.isVirtual ==> x.nrunning <= 1)
  }

  ghost predicate Ok(s: State) {
    && (forall t :: 0 <= t < |s.threads| ==> ThreadOk(s, t) && Listed(s, t))
    && (forall c :: 0 <= c < |s.cpus| ==> CpuOk(s, c))
  }

  /** The threads of CPU c in a state that satisfies p. */
  ghost function On(s: State, c: nat, p: ThState -> bool): set<nat> {
    set t: nat | t < |s.threads| && s.threads[t].cpu == c && p(s.threads[t].state)
  }

  /** What the invariant says of CPU c without its lists: nth_running and nth_active are the
      true counts, th_running and th_active the unique threads or none, and a physical CPU
      never holds two running threads. */
  lemma {:induction false} TrueCounts(s: State, c: nat)
    requires Ok(s) && c < |s.cpus|
    ensures s.cpus[c].nrunning == |On(s, c, IsRunning())| && s.cpus[c].nactive == |On(s, c, IsActive())|
    ensures if |On(s, c, IsRunning())| == 1
            then s.cpus[c].thRunning >= 0 && On(s, c, IsRunning()) == {s.cpus[c].thRunning}
            else s.cpus[c].thRunning == -1
    ensures if |On(s, c, IsActive())| == 1 then s.cpus[c].thActive >= 0 && On(s, c, IsActive()) == {s.cpus[c].thActive}
            else s.cpus[c].thActive == -1
    ensures !s.cpus[c].isVirtual ==> |On(s, c, IsRunning())| <= 1
  {
    var l := s.cpus[c].threads;
    assert CpuOk(s, c);
    forall t: nat | t < |s.threads| ensures t in l <==> s.threads[t].cpu == c {
      assert Listed(s, t);
    }
    assert Which(s.threads, l, IsRunning()) == On(s, c, IsRunning());
    assert Which(s.threads, l, IsActive()) == On(s, c, IsActive());
    CountIs(s.threads, l, IsRunning());
    CountIs(s.threads, l, IsActive());
    OnlyIs(s.threads, l, IsRunning());
    OnlyIs(s.threads, l, IsActive());
  }

  // ---------- the steps ----------

  function SetState(s: State, t: nat, st: ThState): State {
    if t >= |s.threads| then s
    else s.(threads := s.threads[t := s.threads[t].(state := st, isRunning := st.Running?, isActive := Active(st))])
  }

  function SetCpu(s: State, t: nat, c: int): State {
    if t >= |s.threads| then s
    else s.(threads := s.threads[t := s.threads[t].(cpu := c)])
  }

  function Remove(l: seq<nat>, t: nat): seq<nat> {
    if l == [] then [] else if l[0] == t then l[1..] else [l[0]] + Remove(l[1..], t)
  }

  function Append(s: State, c: int, t: nat): State {
    if !(0 <= c < |s.cpus|) then s
    else s.(cpus := s.cpus[c := s.cpus[c].(threads := s.cpus[c].threads + [t], nthreads := s.cpus[c].nthreads + 1)])
  }

  function Drop(s: State, c: int, t: nat): State {
    if !(0 <= c < |s.cpus|) then s
    else s.(cpus := s.cpus[c := s.cpus[c].(threads := Remove(s.cpus[c].threads, t),
                                           nthreads := s.cpus[c].nthreads - 1)])
  }

  /** cpu_update */
  function Update(s: State, c: int): (r: State)
    ensures r.threads == s.threads && |r.cpus| == |s.cpus|
  {
    if !(0 <= c < |s.cpus|) then s
    else
      var x := s.cpus[c];
      var r, a := CountOf(s.threads, x.threads, IsRunning()), CountOf(s.threads, x.threads, IsActive());
      s.(cpus := s.cpus[c := x.(
        nrunning := r, nactive := a,
        thRunning := Only(r, LastOf(s.threads, x.threads, IsRunning())),
        thActive := Only(a, LastOf(s.threads, x.threads, IsActive())))])
  }

  predicate Oversubscribed(s: State, c: int) {
    0 <= c < |s.cpus| && CountOf(s.threads, s.cpus[c].threads, IsRunning()) > 1 && !s.cpus[c].isVirtual
  }

  function CpuOf(s: State, t: nat): int {
    if t < |s.threads| then s.threads[t].cpu else -1
  }

  function StateOf(s: State, t: nat): ThState {
    if t < |s.threads| then s.threads[t].state else Unknown
  }

  /** find_thread */
  predicate Has(s: State, c: int, t: nat) {
    0 <= c < |s.cpus| && t in s.cpus[c].threads
  }

  // ---------- the events ----------

  /** pre_thread_execute on CPU c */
  function Execute(s: State, t: nat, c: int): State {
    Update(Append(SetState(SetCpu(s, t, c), t, Running), c, t), c)
  }

  /** pre_thread_end */
  function End(s: State, t: nat): State {
    var c := CpuOf(s, t);
    SetCpu(Update(Drop(SetState(s, t, Dead), c, t), c), t, -1)
  }

  /** pre_thread_pause, resume, cool and warm */
  function Change(s: State, t: nat, st: ThState): State {
    Update(SetState(s, t, st), CpuOf(s, t))
  }

  /** cpu_migrate_thread and thread_migrate_cpu */
  function Migrate(s: State, t: nat, c: int): State {
    var c0 := CpuOf(s, t);
    SetCpu(Update(Append(Update(Drop(s, c0, t), c0), c, t), c), t, c)
  }

  // ---------- every event keeps the invariant ----------

  lemma {:induction false} RemoveIs(l: seq<nat>, t: nat)
    requires NoDup(l)
    ensures NoDup(Remove(l, t)) && (forall x :: x in Remove(l, t) <==> x in l && x != t)
    ensures t in l ==> |Remove(l, t)| == |l| - 1
  {
    if l != [] {
      assert l == [l[0]] + l[1..];
      NoDupSplit([l[0]], l[1..]);
      assert l[0] in [l[0]];
      RemoveIs(l[1..], t);
    }
  }

  /** CPU c counts right in r if it did in s, and neither its list nor the state of its
      threads have changed. */
  lemma {:induction false} CpuSame(s: State, r: State, c: nat)
    requires c < |s.cpus| == |r.cpus| && |s.threads| == |r.threads| && CpuOk(s, c) && r.cpus[c] == s.cpus[c]
    requires forall t :: t in s.cpus[c].threads && t < |s.threads| ==> s.threads[t].state == r.threads[t].state
    ensures CpuOk(r, c)
  {
    CountSame(s.threads, r.threads, s.cpus[c].threads, IsRunning());
    CountSame(s.threads, r.threads, s.cpus[c].threads, IsActive());
  }

  lemma {:induction false} Updated(s: State, c: nat)
    requires c < |s.cpus| && !Oversubscribed(s, c)
    requires NoDup(s.cpus[c].threads) && (forall t :: t in s.cpus[c].threads ==> t < |s.threads|)
    requires s.cpus[c].nthreads == |s.cpus[c].threads|
    ensures CpuOk(Update(s, c), c)
  {
  }

  /** No listed thread but t differs between s and r, outside the CPUs in touched. */
  ghost predicate SameBut(s: State, r: State, t: nat, touched: set<nat>) {
    && |r.threads| == |s.threads| && |r.cpus| == |s.cpus|
    && (forall x :: 0 <= x < |s.threads| && x != t ==> r.threads[x] == s.threads[x])
    && (forall c :: 0 <= c < |s.cpus| && c !in touched ==> r.cpus[c] == s.cpus[c])
    && (forall c :: 0 <= c < |s.cpus| ==> r.cpus[c].loom == s.cpus[c].loom)
    && (forall c :: 0 <= c < |s.cpus| && c in touched ==>
          forall x :: x != t ==> (x in r.cpus[c].threads <==> x in s.cpus[c].threads))
  }

  /** A change around thread t keeps the invariant if it does for t and the touched CPUs. */
  lemma {:induction false} OkFrom(s: State, r: State, t: nat, touched: set<nat>)
    requires Ok(s) && SameBut(s, r, t, touched) && t < |s.threads| && ThreadOk(r, t) && Listed(r, t)
    requires forall c :: c in touched ==> c < |r.cpus| && CpuOk(r, c)
    requires s.threads[t].cpu >= 0 ==> s.threads[t].cpu in touched
    ensures Ok(r)
  {
    assert ThreadOk(s, t) && Listed(s, t);
    forall x | 0 <= x < |r.threads| ensures ThreadOk(r, x) && Listed(r, x) {
      assert ThreadOk(s, x) && Listed(s, x);
    }
    forall c | 0 <= c < |r.cpus| ensures CpuOk(r, c) {
      if c !in touched {
        assert CpuOk(s, c);
        CpuSame(s, r, c);
      }
    }
  }

  lemma {:induction false} ExecuteKeeps(s: State, t: nat, c: nat)
    requires Ok(s) && t < |s.threads| && c < |s.cpus| && s.threads[t].cpu == -1 && s.cpus[c].loom == s.threads[t].loom
    requires !Oversubscribed(Append(SetState(SetCpu(s, t, c), t, Running), c, t), c)
    ensures Ok(Execute(s, t, c))
  {
    assert ThreadOk(s, t) && Listed(s, t) && CpuOk(s, c);
    var a := Append(SetState(SetCpu(s, t, c), t, Running), c, t);
    Updated(a, c);
    OkFrom(s, Execute(s, t, c), t, {c});
  }

  lemma {:induction false} ChangeKeeps(s: State, t: nat, st: ThState)
    requires Ok(s) && t < |s.threads| && s.threads[t].cpu >= 0 && NeedsCpu(st)
    ensures s.threads[t].cpu < |s.cpus|
    ensures !Oversubscribed(SetState(s, t, st), s.threads[t].cpu) ==> Ok(Change(s, t, st))
  {
    assert ThreadOk(s, t) && Listed(s, t);
    var c := s.threads[t].cpu;
    assert CpuOk(s, c);
    if !Oversubscribed(SetState(s, t, st), c) {
      Updated(SetState(s, t, st), c);
      OkFrom(s, Change(s, t, st), t, {c});
    }
  }

  lemma {:induction false} EndKeeps(s: State, t: nat)
    requires Ok(s) && t < |s.threads| && s.threads[t].cpu >= 0
    ensures var c := s.threads[t].cpu; c < |s.cpus| && !Oversubscribed(Drop(SetState(s, t, Dead), c, t), c) ==>
              Ok(End(s, t))
  {
    assert ThreadOk(s, t) && Listed(s, t);
    var c := s.threads[t].cpu;
    assert CpuOk(s, c);
    RemoveIs(s.cpus[c].threads, t);
    var a := Drop(SetState(s, t, Dead), c, t);
    if !Oversubscribed(a, c) {
      Updated(a, c);
      CpuSame(Update(a, c), End(s, t), c);
      OkFrom(s, End(s, t), t, {c});
    }
  }

  /** A migration to another CPU; after the removal the old CPU cannot be oversubscribed. */
  lemma {:induction false} MigrateKeeps(s: State, t: nat, c: nat)
    requires Ok(s) && t < |s.threads| && s.threads[t].cpu >= 0 && c < |s.cpus| && s.threads[t].cpu != c
    requires s.cpus[c].loom == s.threads[t].loom
    ensures var c0 := s.threads[t].cpu;
            && c0 < |s.cpus|
            && (!Oversubscribed(Drop(s, c0, t), c0) ==>
                !Oversubscribed(Append(Update(Drop(s, c0, t), c0), c, t), c) ==> Ok(Migrate(s, t, c)))
  {
    MigrateParts(s, t, c);
    hide Oversubscribed, Migrate, Drop, Append, Update, Ok, SameBut, ThreadOk, Listed, CpuOk;
    var c0 := s.threads[t].cpu;
    if !Oversubscribed(Drop(s, c0, t), c0) && !Oversubscribed(Append(Update(Drop(s, c0, t), c0), c, t), c) {
      OkFrom(s, Migrate(s, t, c), t, {c0, c});
    }
  }

  /** What the migration changes, and that it leaves both CPUs right. */
  lemma {:induction false} MigrateParts(s: State, t: nat, c: nat)
    requires Ok(s) && t < |s.threads| && s.threads[t].cpu >= 0 && c < |s.cpus| && s.threads[t].cpu != c
    requires s.cpus[c].loom == s.threads[t].loom
    ensures var c0, r := s.threads[t].cpu, Migrate(s, t, c);
            && c0 < |s.cpus| && |r.threads| == |s.threads| && |r.cpus| == |s.cpus|
            && (!Oversubscribed(Drop(s, c0, t), c0) ==>
                !Oversubscribed(Append(Update(Drop(s, c0, t), c0), c, t), c) ==>
                  SameBut(s, r, t, {c0, c}) && ThreadOk(r, t) && Listed(r, t) && CpuOk(r, c0) && CpuOk(r, c))
  {
    var c0 := s.threads[t].cpu;
    assert ThreadOk(s, t) && Listed(s, t);
    assert CpuOk(s, c0) && CpuOk(s, c);
    MigrateChanges(s, t, c);
    MigrateCounts(s, t, c);
    hide Oversubscribed, Migrate, Drop, Append, Update, Ok, SameBut, ThreadOk, Listed, CpuOk;
  }

  lemma {:induction false} MigrateChanges(s: State, t: nat, c: nat)
    requires t < |s.threads| && ThreadOk(s, t) && Listed(s, t) && s.threads[t].cpu >= 0 && c < |s.cpus|
             && s.threads[t].cpu != c
    requires CpuOk(s, s.threads[t].cpu) && s.cpus[c].loom == s.threads[t].loom
    ensures var c0, r := s.threads[t].cpu, Migrate(s, t, c);
            && |r.threads| == |s.threads| && |r.cpus| == |s.cpus|
            && SameBut(s, r, t, {c0, c}) && ThreadOk(r, t) && Listed(r, t)
  {
    RemoveIs(s.cpus[s.threads[t].cpu].threads, t);
    hide Remove, CountOf, LastOf, Only, Counted;
  }

  lemma {:induction false} CpuLists(s: State, c: nat)
    requires c < |s.cpus| && CpuOk(s, c)
    ensures var x := s.cpus[c];
            NoDup(x.threads) && (forall t :: t in x.threads ==> t < |s.threads|) && x.nthreads == |x.threads|
  {
  }

  lemma {:induction false} MigrateCounts(s: State, t: nat, c: nat)
    requires t < |s.threads| && Listed(s, t) && 0 <= s.threads[t].cpu < |s.cpus| && c < |s.cpus|
             && s.threads[t].cpu != c
    requires CpuOk(s, s.threads[t].cpu) && CpuOk(s, c)
    ensures var c0, r := s.threads[t].cpu, Migrate(s, t, c);
            && |r.threads| == |s.threads| && |r.cpus| == |s.cpus|
            && (!Oversubscribed(Drop(s, c0, t), c0) ==>
                !Oversubscribed(Append(Update(Drop(s, c0, t), c0), c, t), c) ==> CpuOk(r, c0) && CpuOk(r, c))
  {
    var c0 := s.threads[t].cpu;
    RemoveIs(s.cpus[c0].threads, t);
    hide Counted, Remove, CountOf, LastOf, CpuOk, Oversubscribed;
    var a := Drop(s, c0, t);
    var b := Append(Update(a, c0), c, t);
    CpuLists(s, c0);
    CpuLists(s, c);
    if !Oversubscribed(a, c0) && !Oversubscribed(b, c) {
      Updated(a, c0);
      Updated(b, c);
      CpuSame(Update(a, c0), Migrate(s, t, c), c0);
      CpuSame(Update(b, c), Migrate(s, t, c), c);
    }
  }
}
