/** When the steps of the thread and affinity events succeed. */
module SchedGuards {
  import opened Sequences
  import opened BaySpec
  import opened Sched

  /** The steps of pre_thread_execute succeed. */
  ghost predicate Runs(s: State, t: nat, c: nat) {
    var s' := SetState(SetCpu(s, t, c), t, Running);
    && CpuOf(s, t) == -1 && StateOf(s, t) != Running
    && !Has(s', c, t) && !Oversubscribed(Append(s', c, t), c)
  }

  /** The steps of pre_thread_end succeed. */
  ghost predicate Stops(s: State, t: nat, c: int) {
    var s' := SetState(s, t, Dead);
    CpuOf(s, t) != -1 && StateOf(s, t) != Dead && Has(s', c, t) && !Oversubscribed(Drop(s', c, t), c)
  }

  /** The steps of a change of state succeed. */
  ghost predicate Changes(s: State, t: nat, st: ThState) {
    CpuOf(s, t) != -1 && StateOf(s, t) != st && !Oversubscribed(SetState(s, t, st), CpuOf(s, t))
  }

  function Moved(s: State, t: nat, c0: int, c: int): State {
    Update(Append(Update(Drop(s, c0, t), c0), c, t), c)
  }

  /** The steps of cpu_migrate_thread to another CPU succeed. */
  ghost predicate Moves(s: State, t: nat, c0: int, c: int) {
    var s' := Update(Drop(s, c0, t), c0);
    && Has(s, c0, t) && !Oversubscribed(Drop(s, c0, t), c0)
    && !Has(s', c, t) && !Oversubscribed(Append(s', c, t), c)
  }

  // ---------- in a consistent state ----------

  /** One more running thread does not oversubscribe CPU c: it is virtual, or none runs there. */
  ghost predicate FreeFor(s: State, c: int) {
    0 <= c < |s.cpus| && (s.cpus[c].isVirtual || On(s, c, IsRunning()) == {})
  }

  /** What a CPU counts are the running threads on it, at most one if it is physical. */
  lemma {:induction false} RunningThere(s: State, c: nat)
    requires Ok(s) && c < |s.cpus|
    ensures NoDup(s.cpus[c].threads) && Which(s.threads, s.cpus[c].threads, IsRunning()) == On(s, c, IsRunning())
    ensures CountOf(s.threads, s.cpus[c].threads, IsRunning()) == |On(s, c, IsRunning())|
    ensures !s.cpus[c].isVirtual ==> |On(s, c, IsRunning())| <= 1
    ensures FreeFor(s, c) <==> s.cpus[c].isVirtual || CountOf(s.threads, s.cpus[c].threads, IsRunning()) == 0
  {
    assert CpuOk(s, c);
    var l := s.cpus[c].threads;
    forall t: nat | t < |s.threads|
      ensures t in l <==> s.threads[t].cpu == c
    {
      assert Listed(s, t);
    }
    CountIs(s.threads, l, IsRunning());
  }

  lemma {:induction false} Fewer<T>(a: set<T>, b: set<T>)
    ensures a <= b ==> |a| <= |b|
  {
    if a <= b {
      assert b == a + (b - a);
    }
  }

  lemma {:induction false} CountLast(ths: seq<Thread>, l: seq<nat>, t: nat, p: ThState -> bool)
    ensures CountOf(ths, l + [t], p) == CountOf(ths, l, p) + (if t < |ths| && p(ths[t].state) then 1 else 0)
  {
    assert (l + [t])[..|l|] == l;
  }

  /** A list without one of its threads counts no more. */
  lemma {:induction false} CountLess(ths: seq<Thread>, l: seq<nat>, t: nat, p: ThState -> bool)
    requires NoDup(l)
    ensures CountOf(ths, Remove(l, t), p) <= CountOf(ths, l, p)
  {
    RemoveIs(l, t);
    CountIs(ths, l, p);
    CountIs(ths, Remove(l, t), p);
    Fewer(Which(ths, Remove(l, t), p), Which(ths, l, p));
  }

  /** A thread without CPU can run on a CPU exactly if that is free for it. */
  lemma {:induction false} RunsExactly(s: State, t: nat, c: nat)
    requires Ok(s) && t < |s.threads| && c < |s.cpus|
    ensures Runs(s, t, c) <==> CpuOf(s, t) == -1 && FreeFor(s, c)
  {
    assert ThreadOk(s, t) && Listed(s, t);
    RunningThere(s, c);
    if CpuOf(s, t) == -1 {
      var s', l := SetState(SetCpu(s, t, c), t, Running), s.cpus[c].threads;
      assert s'.cpus == s.cpus && s'.threads[t].state == Running && t !in l;
      CountSame(s.threads, s'.threads, l, IsRunning());
      CountLast(s'.threads, l, t, IsRunning());
      hide CountOf, On, Which;
    }
  }

  /** A running or cooling thread can always end: the check after the removal never fails. */
  lemma {:induction false} StopsExactly(s: State, t: nat)
    requires Ok(s) && t < |s.threads|
    ensures CpuOf(s, t) >= 0 ==> Stops(s, t, CpuOf(s, t))
  {
    assert ThreadOk(s, t) && Listed(s, t);
    if CpuOf(s, t) >= 0 {
      var c, s' := s.threads[t].cpu, SetState(s, t, Dead);
      var l := s.cpus[c].threads;
      RunningThere(s, c);
      RemoveIs(l, t);
      CountSame(s.threads, s'.threads, Remove(l, t), IsRunning());
      CountLess(s.threads, l, t, IsRunning());
      hide CountOf, On, Which, Remove;
    }
  }

  /** A thread with a CPU can change to another state, except that it can only go on running if
      its CPU is free for it. */
  lemma {:induction false} ChangesExactly(s: State, t: nat, st: ThState)
    requires Ok(s) && t < |s.threads| && s.threads[t].cpu >= 0
    ensures Changes(s, t, st) <==> StateOf(s, t) != st && (st.Running? ==> FreeFor(s, CpuOf(s, t)))
  {
    assert ThreadOk(s, t) && Listed(s, t);
    var c, s' := s.threads[t].cpu, SetState(s, t, st);
    var l := s.cpus[c].threads;
    RunningThere(s, c);
    CountIs(s'.threads, l, IsRunning());
    if st.Running? && StateOf(s, t) != st {
      assert Which(s'.threads, l, IsRunning()) == Which(s.threads, l, IsRunning()) + {t};
    } else {
      Fewer(Which(s'.threads, l, IsRunning()), Which(s.threads, l, IsRunning()));
    }
  }

  /** A thread can move to another CPU, except that a running one needs it free; the check after
      the removal never fails. */
  lemma {:induction false} MovesExactly(s: State, t: nat, c: nat)
    requires Ok(s) && t < |s.threads| && s.threads[t].cpu >= 0 && c < |s.cpus| && c != s.threads[t].cpu
    ensures Moves(s, t, s.threads[t].cpu, c) <==> (s.threads[t].state.Running? ==> FreeFor(s, c))
  {
    assert ThreadOk(s, t) && Listed(s, t);
    var c0 := s.threads[t].cpu;
    RunningThere(s, c0);
    RunningThere(s, c);
    CountLess(s.threads, s.cpus[c0].threads, t, IsRunning());
    CountLast(s.threads, s.cpus[c].threads, t, IsRunning());
    hide CountOf, On, Which, Remove;
  }
}
