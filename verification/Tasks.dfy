/** The tasks of a process and the stacks of its threads, changed in place. */
module Tasks {
  import opened Wrappers
  import opened TaskSpec

  // ---------- bracketing ----------

  datatype Mark = Open(key: Key) | Close(key: Key)

  /** What is open after the marks, last opened first, starting from l; None if something
      is closed that was not opened last. */
  function Unwind(log: seq<Mark>, l: seq<Key>): Option<seq<Key>> {
    if log == [] then Some(l)
    else
      var m := log[|log| - 1];
      match Unwind(log[..|log| - 1], l)
      case None => None
      case Some(r) =>
        if m.Open? then Some([m.key] + r)
        else if r != [] && r[0] == m.key then Some(r[1..])
        else None
  }

  /** The marks are well bracketed: everything that is closed was opened last, and nothing
      stays open. */
  ghost predicate Balanced(log: seq<Mark>)
    decreases |log|
  {
    || log == []
    || (exists a: seq<Mark>, b: seq<Mark>, k ::
          log == a + [Open(k)] + b + [Close(k)] && |a| < |log| && |b| < |log| && Balanced(a) && Balanced(b))
  }

  /** Where the last thing that is still open was opened: since then all is balanced. */
  lemma {:induction false} OpenedAt(log: seq<Mark>, r: seq<Key>) returns (i: nat)
    requires Unwind(log, []) == Some(r) && r != []
    ensures i < |log| && log[i] == Open(r[0]) && Balanced(log[i + 1..]) && Unwind(log[..i], []) == Some(r[1..])
    decreases |log|
  {
    var n := |log| - 1;
    hide Balanced;
    if log[n].Open? {
      EmptyBalanced();
      i := n;
      assert log[i + 1..] == [];
    } else {
      var q := Unwind(log[..n], []).value;
      var j := OpenedAt(log[..n], q);
      assert log[..n][..j] == log[..j];
      i := OpenedAt(log[..j], r);
      assert log[..j][..i] == log[..i];
      var a, b := log[i + 1..j], log[j + 1..n];
      assert log[..j][i + 1..] == a && log[..n][j + 1..] == b;
      Cut(log, i, j, n);
      Nest(a, b, q[0]);
    }
  }

  lemma {:induction false} Cut(log: seq<Mark>, i: nat, j: nat, n: nat)
    requires i < j < n == |log| - 1
    ensures log[i + 1..] == log[i + 1..j] + [log[j]] + log[j + 1..n] + [log[n]]
  {
  }

  lemma {:induction false} EmptyBalanced()
    ensures Balanced([])
  {
  }

  lemma {:induction false} Nest(a: seq<Mark>, b: seq<Mark>, k: Key)
    requires Balanced(a) && Balanced(b)
    ensures Balanced(a + [Open(k)] + b + [Close(k)])
  {
  }

  /** Every close in the history matches an open, with balanced marks between them. */
  lemma {:induction false} CloseMatches(log: seq<Mark>, j: nat) returns (i: nat)
    requires Unwind(log, []).Some? && j < |log| && log[j].Close?
    ensures i < j && log[i] == Open(log[j].key) && Balanced(log[i + 1..j])
  {
    PrefixUnwinds(log, j + 1);
    assert log[..j + 1][..j] == log[..j];
    PrefixUnwinds(log, j);
    i := OpenedAt(log[..j], Unwind(log[..j], []).value);
    assert log[..j][i + 1..] == log[i + 1..j];
  }

  lemma {:induction false} PrefixUnwinds(log: seq<Mark>, j: nat)
    requires Unwind(log, []).Some? && j <= |log|
    ensures Unwind(log[..j], []).Some?
  {
    if j == |log| {
      assert log[..j] == log;
    } else {
      assert log[..|log| - 1][..j] == log[..j];
      PrefixUnwinds(log[..|log| - 1], j);
    }
  }

  lemma {:induction false} UnwindSnoc(log: seq<Mark>, m: Mark)
    ensures Unwind(log + [m], []) ==
      match Unwind(log, [])
      case None => None
      case Some(r) => if m.Open? then Some([m.key] + r) else if r != [] && r[0] == m.key then Some(r[1..]) else None
  {
    assert (log + [m])[..|log|] == log;
  }

  /** What is open in the history of each stack is that stack. */
  ghost predicate Logged(logs: seq<seq<Mark>>, stacks: seq<seq<Key>>) {
    |logs| == |stacks| && forall i :: 0 <= i < |stacks| ==> Unwind(logs[i], []) == Some(stacks[i])
  }

  lemma {:induction false} LogOpen(logs: seq<seq<Mark>>, stacks: seq<seq<Key>>, i: nat, k: Key)
    requires Logged(logs, stacks) && i < |stacks|
    ensures |logs| == |stacks| && Logged(logs[i := logs[i] + [Open(k)]], stacks[i := [k] + stacks[i]])
  {
    UnwindSnoc(logs[i], Open(k));
  }

  lemma {:induction false} LogClose(logs: seq<seq<Mark>>, stacks: seq<seq<Key>>, i: nat, k: Key)
    requires Logged(logs, stacks) && i < |stacks| && stacks[i] != [] && stacks[i][0] == k
    ensures |logs| == |stacks| && Logged(logs[i := logs[i] + [Close(k)]], stacks[i := stacks[i][1..]])
  {
    UnwindSnoc(logs[i], Close(k));
  }

  class TaskInfo {
    var types: map<nat, nat>
    var tasks: map<nat, Task>
    var bodies: map<Key, Body>
    var stacks: seq<seq<Key>>
    /** The executions and ends that succeeded on each stack. */
    ghost var logs: seq<seq<Mark>>

    ghost function W(): World
      reads this
    {
      World(types, tasks, bodies, stacks)
    }

    ghost predicate Valid()
      reads this
    {
      Inv(W()) && Logged(logs, stacks)
    }

    constructor (types: map<nat, nat>, nthreads: nat)
      ensures Valid() && W() == World(types, map[], map[], seq(nthreads, i => []))
    {
      this.types, tasks, bodies := types, map[], map[];
      stacks := seq(nthreads, i => []);
      logs := seq(nthreads, i => []);
    }

    /** task_type_create; the gid comes from the label. */
    method TaskTypeCreate(typ: nat, gid: nat) returns (ret: int)
      requires Valid()
      modifies this`types
      ensures Valid()
      ensures ret == if typ in old(types) || typ == 0 then -1 else 0
      ensures types == if ret == 0 then old(types)[typ := gid] else old(types)
    {
      ghost var w := W();
      if typ in types {
        return -1;
      }
      if typ == 0 {
        return -1;
      }
      types := types[typ := gid];
      TypesOnly(w, W());
      return 0;
    }

    /** task_create */
    method Create(typ: nat, task: nat, t: Task) returns (ret: int)
      requires Valid()
      modifies this`tasks
      ensures Valid() && (W(), ret) == TaskCreate(old(W()), typ, task, t)
    {
      TaskCreateKeeps(W(), typ, task, t);
      hide Inv, Logged;
      if task in tasks {
        return -1;
      }
      if typ !in types {
        return -1;
      }
      tasks := tasks[task := t.(gid := types[typ], nbodies := 0)];
      return 0;
    }

    /** body_get_running */
    method GetRunning(i: nat) returns (top: Option<Key>)
      requires Valid() && i < |stacks|
      ensures top == RunningTop(W(), i)
    {
      if stacks[i] == [] {
        return None;
      }
      var k := stacks[i][0];
      assert StackOk(W(), i);
      if bodies[k].state == Running {
        return Some(k);
      }
      return None;
    }

    /** The first part of body_execute: a dead body that may run again is revived. */
    method ReviveBody(k: Key) returns (ret: int)
      requires Valid() && k in bodies
      modifies this`bodies
      ensures Valid() && k in bodies
      ensures ret == if old(bodies)[k].state == Dead && !old(bodies)[k].resurrect then -1 else 0
      ensures bodies == if ret == 0 then old(bodies)[k := Revived(old(bodies)[k])] else old(bodies)
    {
      Revive(W(), k);
      hide Inv, Logged;
      if bodies[k].state == Dead {
        if !bodies[k].resurrect {
          return -1;
        }
        bodies := bodies[k := bodies[k].(state := Created, iteration := bodies[k].iteration + 1)];
        return 0;
      }
      assert bodies == bodies[k := bodies[k]];
      return 0;
    }

    /** The rest of body_execute, after the checks of the body itself. */
    method PushBody(i: nat, k: Key) returns (ret: int)
      requires Valid() && i < |stacks| && k in bodies && bodies[k].state == Created && bodies[k].stack == -1
      modifies this`bodies, this`stacks, this`logs
      ensures Valid()
      ensures var w, top := old(W()), RunningTop(old(W()), i);
              if top.Some? && !w.bodies[top.value].relax then ret == -1 && W() == w
              else ret == 0 && W() == w.(bodies := w.bodies[k := w.bodies[k].(stack := i, state := Running)],
                                         stacks := w.stacks[i := [k] + w.stacks[i]])
    {
      LogOpen(logs, stacks, i, k);
      ghost var r := W().(bodies := bodies[k := bodies[k].(stack := i, state := Running)],
                          stacks := stacks[i := [k] + stacks[i]]);
      if RunningTop(W(), i).Some? ==> bodies[RunningTop(W(), i).value].relax {
        Pushed(W(), i, k, r);
      }
      InvStack(W(), i);
      hide Inv, Logged;
      if stacks[i] != [] {
        var top := stacks[i][0];
        if bodies[top].state == Running {
          if !bodies[top].relax {
            return -1;
          }
        }
      }
      bodies := bodies[k := bodies[k].(stack := i, state := Running)];
      stacks := stacks[i := [k] + stacks[i]];
      logs := logs[i := logs[i] + [Open(k)]];
      return 0;
    }

    /** body_execute */
    method ExecuteBody(i: nat, k: Key) returns (ret: int)
      requires Valid() && i < |stacks| && k in bodies
      modifies this`bodies, this`stacks, this`logs
      ensures Valid() && (W(), ret) == BodyExecute(old(W()), i, k)
    {
      hide Valid;
      ret := ReviveBody(k);
      if ret != 0 {
        return -1;
      }
      if bodies[k].state == Paused {
        return -1;
      }
      if bodies[k].state != Created {
        return -1;
      }
      if bodies[k].stack != -1 {
        return -1;
      }
      ret := PushBody(i, k);
    }

    /** body_pause */
    method PauseBody(i: nat, k: Key) returns (ret: int)
      requires Valid() && i < |stacks| && k in bodies && k.task in tasks
      modifies this`bodies
      ensures Valid() && (W(), ret) == BodyPause(old(W()), i, k)
    {
      ApplyKeeps(W(), i, k, Pause);
      BodyStack(W(), k);
      hide Inv, Logged;
      if !bodies[k].pause {
        return -1;
      }
      if bodies[k].state != Running {
        return -1;
      }
      if bodies[k].stack == -1 || bodies[k].stack != i {
        return -1;
      }
      if stacks[i][0] != k {
        return -1;
      }
      bodies := bodies[k := bodies[k].(state := Paused)];
      return 0;
    }

    /** body_resume */
    method ResumeBody(i: nat, k: Key) returns (ret: int)
      requires Valid() && i < |stacks| && k in bodies && k.task in tasks
      modifies this`bodies
      ensures Valid() && (W(), ret) == BodyResume(old(W()), i, k)
    {
      ApplyKeeps(W(), i, k, Resume);
      BodyStack(W(), k);
      hide Inv, Logged;
      if bodies[k].state != Paused {
        return -1;
      }
      if bodies[k].stack == -1 || bodies[k].stack != i {
        return -1;
      }
      if stacks[i][0] != k {
        return -1;
      }
      bodies := bodies[k := bodies[k].(state := Running)];
      return 0;
    }

    /** body_end */
    method EndBody(i: nat, k: Key) returns (ret: int)
      requires Valid() && i < |stacks| && k in bodies && k.task in tasks
      modifies this`bodies, this`stacks, this`logs
      ensures Valid() && (W(), ret) == BodyEnd(old(W()), i, k)
    {
      EndKeeps(W(), i, k);
      BodyStack(W(), k);
      if 0 <= i < |stacks| && stacks[i] != [] {
        LogClose(logs, stacks, i, stacks[i][0]);
      }
      hide Inv, Logged;
      if bodies[k].state != Running {
        return -1;
      }
      if bodies[k].stack == -1 || bodies[k].stack != i {
        return -1;
      }
      if stacks[i][0] != k {
        return -1;
      }
      bodies := bodies[k := bodies[k].(state := Dead, stack := -1)];
      stacks := stacks[i := stacks[i][1..]];
      logs := logs[i := logs[i] + [Close(k)]];
      return 0;
    }

    /** create_body */
    method NewBody(k: Key) returns (ret: int)
      requires Valid() && k.task in tasks
      modifies this`bodies, this`tasks
      ensures Valid() && (W(), ret) == CreateBody(old(W()), k)
    {
      CreateKeeps(W(), k);
      hide Inv, Logged;
      var t := tasks[k.task];
      if !t.parallel && t.nbodies > 0 {
        return -1;
      }
      if k.body == 0 {
        return -1;
      }
      if k in bodies {
        return -1;
      }
      bodies := bodies[k := Body(t.pause, t.resurrect, t.relax, Created, -1, 0)];
      tasks := tasks[k.task := t.(nbodies := t.nbodies + 1)];
      return 0;
    }

    /** task_execute, task_pause, task_resume or task_end */
    method Do(i: nat, k: Key, op: Op) returns (ret: int)
      requires Valid() && i < |stacks| && k.task in tasks
      modifies this`bodies, this`tasks, this`stacks, this`logs
      ensures Valid() && (W(), ret) == Apply(old(W()), i, k, op)
      ensures ret == if May(old(W()), i, k, op) then 0 else -1
      ensures if ret == 0 then Does(old(W()), W(), i, k, op) else StacksStay(old(W()), W(), k)
    {
      hide May, Does, StacksStay;
      ApplyExactly(W(), i, k, op);
      hide Inv, BodyExecute, BodyPause, BodyResume, BodyEnd, CreateBody;
      if k !in bodies {
        BodyEndMissing(W(), i, k);
      }
      if op == Exec {
        if k !in bodies {
          ret := NewBody(k);
          if ret != 0 {
            CreateFails(old(W()), k);
            return -1;
          }
          Created'(old(W()), k);
        }
        ret := ExecuteBody(i, k);
      } else if k !in bodies {
        ret := -1;
      } else if op == Pause {
        ret := PauseBody(i, k);
      } else if op == Resume {
        ret := ResumeBody(i, k);
      } else {
        ret := EndBody(i, k);
      }
    }
  }

  lemma {:induction false} TypesOnly(w: World, r: World)
    requires Inv(w) && r == w.(types := r.types)
    ensures Inv(r)
  {
    forall k | k in r.bodies ensures BodyOk(r, k) {
      assert BodyOk(w, k);
    }
    forall i | 0 <= i < |r.stacks| ensures StackOk(r, i) {
      assert StackOk(w, i);
    }
    forall t | t in r.tasks ensures TaskOk(r, t) {
      assert TaskOk(w, t);
      assert BodiesOf(r, t) == BodiesOf(w, t);
    }
  }

  lemma {:induction false} InvStack(w: World, i: nat)
    requires Inv(w) && i < |w.stacks|
    ensures forall k :: k in w.stacks[i] ==> k in w.bodies
  {
    assert StackOk(w, i);
  }

  lemma {:induction false} BodyStack(w: World, k: Key)
    requires Inv(w) && k in w.bodies
    ensures -1 <= w.bodies[k].stack < |w.stacks|
    ensures w.bodies[k].stack >= 0 ==> w.stacks[w.bodies[k].stack] != []
  {
    assert BodyOk(w, k);
  }

  lemma {:induction false} BodyEndMissing(w: World, i: nat, k: Key)
    requires k !in w.bodies
    ensures BodyPause(w, i, k) == (w, -1) && BodyResume(w, i, k) == (w, -1) && BodyEnd(w, i, k) == (w, -1)
  {
  }

  lemma {:induction false} CreateFails(w: World, k: Key)
    requires k.task in w.tasks
    ensures CreateBody(w, k).1 == 0 || CreateBody(w, k) == (w, -1)
  {
  }

  lemma {:induction false} Created'(w: World, k: Key)
    requires k.task in w.tasks && CreateBody(w, k).1 == 0
    ensures k in CreateBody(w, k).0.bodies && CreateBody(w, k).0.stacks == w.stacks
  {
  }
}
