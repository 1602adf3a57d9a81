/** Tasks, their bodies, and the stacks of bodies that the threads run. */
module TaskSpec {
  import opened Wrappers
  import opened Sequences

  datatype BodyState = Created | Running | Paused | Dead

  /** A body is found by the id of its task and its own id in it. */
  datatype Key = Key(task: nat, body: nat)

  /** stack is the index of the stack the body is on, or -1. */
  datatype Body = Body(pause: bool, resurrect: bool, relax: bool, state: BodyState, stack: int, iteration: nat)

  datatype Task = Task(parallel: bool, resurrect: bool, pause: bool, relax: bool, gid: nat, nbodies: nat)

  /** The types and tasks of a process, all bodies of its tasks, and the stack of each of its
      threads, top first. */
  datatype World = World(types: map<nat, nat>, tasks: map<nat, Task>, bodies: map<Key, Body>, stacks: seq<seq<Key>>)

  // ---------- bodies ----------

  /** body_get_running */
  function RunningTop(w: World, i: nat): Option<Key> {
    if i < |w.stacks| && w.stacks[i] != [] && w.stacks[i][0] in w.bodies && w.bodies[w.stacks[i][0]].state.Running?
    then Some(w.stacks[i][0]) else None
  }

  /** body_execute: a dead body that may run again is revived first, even if it then fails. */
  function BodyExecute(w: World, i: nat, k: Key): (World, int)
    requires i < |w.stacks|
  {
    if k !in w.bodies then (w, -1)
    else if w.bodies[k].state.Dead? && !w.bodies[k].resurrect then (w, -1)
    else
      var b := Revived(w.bodies[k]);
      var w1 := w.(bodies := w.bodies[k := b]);
      var top := RunningTop(w1, i);
      if !b.state.Created? || b.stack != -1 then (w1, -1)
      else if top.Some? && !w1.bodies[top.value].relax then (w1, -1)
      else (w1.(bodies := w1.bodies[k := b.(stack := i, state := Running)],
                stacks := w1.stacks[i := [k] + w1.stacks[i]]), 0)
  }

  /** The body is on top of stack i. */
  predicate IsTop(w: World, i: nat, k: Key) {
    i < |w.stacks| && k in w.bodies && w.bodies[k].stack == i && w.stacks[i] != [] && w.stacks[i][0] == k
  }

  /** body_pause */
  function BodyPause(w: World, i: nat, k: Key): (World, int) {
    if k !in w.bodies || !w.bodies[k].pause || !w.bodies[k].state.Running? || !IsTop(w, i, k) then (w, -1)
    else (w.(bodies := w.bodies[k := w.bodies[k].(state := Paused)]), 0)
  }

  /** body_resume */
  function BodyResume(w: World, i: nat, k: Key): (World, int) {
    if k !in w.bodies || !w.bodies[k].state.Paused? || !IsTop(w, i, k) then (w, -1)
    else (w.(bodies := w.bodies[k := w.bodies[k].(state := Running)]), 0)
  }

  /** body_end */
  function BodyEnd(w: World, i: nat, k: Key): (World, int) {
    if k !in w.bodies || !w.bodies[k].state.Running? || !IsTop(w, i, k) then (w, -1)
    else (w.(bodies := w.bodies[k := w.bodies[k].(state := Dead, stack := -1)],
             stacks := w.stacks[i := w.stacks[i][1..]]), 0)
  }

  // ---------- tasks ----------

  /** task_create */
  function TaskCreate(w: World, typ: nat, task: nat, t: Task): (World, int) {
    if task in w.tasks || typ !in w.types then (w, -1)
    else (w.(tasks := w.tasks[task := t.(gid := w.types[typ], nbodies := 0)]), 0)
  }

  /** create_body */
  function CreateBody(w: World, k: Key): (World, int)
    requires k.task in w.tasks
  {
    var t := w.tasks[k.task];
    if !t.parallel && t.nbodies > 0 then (w, -1)
    else if k.body == 0 || k in w.bodies then (w, -1)
    else (w.(bodies := w.bodies[k := Body(t.pause, t.resurrect, t.relax, Created, -1, 0)],
             tasks := w.tasks[k.task := t.(nbodies := t.nbodies + 1)]), 0)
  }

  /** task_execute */
  function TaskExecute(w: World, i: nat, k: Key): (World, int)
    requires k.task in w.tasks && i < |w.stacks|
  {
    if k in w.bodies then BodyExecute(w, i, k)
    else
      var (w1, ret) := CreateBody(w, k);
      if ret != 0 then (w1, -1) else BodyExecute(w1, i, k)
  }

  datatype Op = Exec | Pause | Resume | End

  /** task_execute, task_pause, task_resume and task_end */
  function Apply(w: World, i: nat, k: Key, op: Op): (World, int)
    requires k.task in w.tasks && i < |w.stacks|
  {
    match op
    case Exec => TaskExecute(w, i, k)
    case Pause => BodyPause(w, i, k)
    case Resume => BodyResume(w, i, k)
    case End => BodyEnd(w, i, k)
  }

  // ---------- the invariant ----------

  /** A body is on a stack exactly if it is running or paused, and then on that one only; and
      it is paused only if it may pause. */
  ghost predicate BodyOk(w: World, k: Key)
    requires k in w.bodies
  {
    var b := w.bodies[k];
    && k.task in w.tasks && k.body > 0
    && b.pause == w.tasks[k.task].pause && b.resurrect == w.tasks[k.task].resurrect && b.relax == w.tasks[k.task].relax
    && -1 <= b.stack < |w.stacks|
    && (b.stack != -1 <==> b.state.Running? || b.state.Paused?)
    && (b.state.Paused? ==> b.pause)
    && (forall i :: 0 <= i < |w.stacks| ==> (k in w.stacks[i] <==> b.stack == i))
  }

  /** A stack holds bodies, each once, and those that run below the top allow nesting. */
  ghost predicate StackOk(w: World, i: nat)
    requires i < |w.stacks|
  {
    && NoDup(w.stacks[i])
    && (forall k :: k in w.stacks[i] ==> k in w.bodies)
    && (forall j :: 0 < j < |w.stacks[i]| && w.stacks[i][j] in w.bodies && w.bodies[w.stacks[i][j]].state.Running? ==>
          w.bodies[w.stacks[i][j]].relax)
  }

  /** The bodies of a task. */
  ghost function BodiesOf(w: World, task: nat): set<Key> {
    set k | k in w.bodies && k.task == task
  }

  /** A task counts its bodies, and has at most one unless it is parallel. */
  ghost predicate TaskOk(w: World, task: nat)
    requires task in w.tasks
  {
    var t := w.tasks[task];
    t.nbodies == |BodiesOf(w, task)| && (!t.parallel ==> t.nbodies <= 1)
  }

  ghost predicate Inv(w: World) {
    && (forall k :: k in w.bodies ==> BodyOk(w, k))
    && (forall i :: 0 <= i < |w.stacks| ==> StackOk(w, i))
    && (forall task :: task in w.tasks ==> TaskOk(w, task))
  }

  // ---------- every call keeps it, whether it succeeds or not ----------

  /** Only the state of body k changes, staying on or off its stack. */
  lemma {:induction false} StateOnly(w: World, k: Key, b: Body)
    requires Inv(w) && k in w.bodies && b == w.bodies[k].(state := b.state, iteration := b.iteration)
    requires (b.state.Running? || b.state.Paused?) == (b.stack != -1) && (b.state.Paused? ==> b.pause)
    requires b.state.Running? ==>
               b.relax || (0 <= b.stack < |w.stacks| && w.stacks[b.stack] != [] && w.stacks[b.stack][0] == k)
    ensures Inv(w.(bodies := w.bodies[k := b]))
  {
    var r := w.(bodies := w.bodies[k := b]);
    assert BodyOk(w, k);
    forall x | x in r.bodies ensures BodyOk(r, x) {
      assert BodyOk(w, x);
    }
    forall i | 0 <= i < |r.stacks| ensures StackOk(r, i) {
      assert StackOk(w, i);
    }
    SameCounts(w, r);
  }

  lemma {:induction false} SameCounts(w: World, r: World)
    requires r.tasks == w.tasks && r.bodies.Keys == w.bodies.Keys
    requires forall task :: task in w.tasks ==> TaskOk(w, task)
    ensures forall task :: task in r.tasks ==> TaskOk(r, task)
  {
    forall task | task in r.tasks ensures TaskOk(r, task) {
      assert TaskOk(w, task);
      assert forall k :: k in r.bodies <==> k in r.bodies.Keys;
      assert forall k :: k in w.bodies <==> k in w.bodies.Keys;
      assert BodiesOf(r, task) == BodiesOf(w, task);
    }
  }

  lemma {:induction false} ExecuteKeeps(w: World, i: nat, k: Key)
    requires Inv(w) && i < |w.stacks|
    ensures Inv(BodyExecute(w, i, k).0)
  {
    if k in w.bodies && !(w.bodies[k].state.Dead? && !w.bodies[k].resurrect) {
      assert BodyOk(w, k);
      Revive(w, k);
      var w1 := w.(bodies := w.bodies[k := Revived(w.bodies[k])]);
      hide Inv, BodyOk;
      var (r, ret) := BodyExecute(w, i, k);
      if ret == 0 {
        Pushed(w1, i, k, r);
      }
    }
  }

  /** A dead body runs again from the start. */
  function Revived(b: Body): Body {
    if b.state.Dead? then b.(state := Created, iteration := b.iteration + 1) else b
  }

  lemma {:induction false} Revive(w: World, k: Key)
    requires Inv(w) && k in w.bodies
    ensures Inv(w.(bodies := w.bodies[k := Revived(w.bodies[k])]))
  {
    assert BodyOk(w, k);
    if w.bodies[k].state.Dead? {
      StateOnly(w, k, Revived(w.bodies[k]));
    } else {
      assert w.bodies[k := w.bodies[k]] == w.bodies;
    }
  }

  lemma {:induction false} Pushed(w: World, i: nat, k: Key, r: World)
    requires Inv(w) && i < |w.stacks| && k in w.bodies && w.bodies[k].state.Created? && w.bodies[k].stack == -1
    requires RunningTop(w, i).Some? ==> w.bodies[RunningTop(w, i).value].relax
    requires r == w.(bodies := w.bodies[k := w.bodies[k].(stack := i, state := Running)],
                     stacks := w.stacks[i := [k] + w.stacks[i]])
    ensures Inv(r)
  {
    assert BodyOk(w, k);
    forall x | x in r.bodies ensures BodyOk(r, x) {
      assert BodyOk(w, x);
    }
    forall j | 0 <= j < |r.stacks| ensures StackOk(r, j) {
      assert StackOk(w, j);
      if j == i {
        assert forall n :: 0 < n < |r.stacks[i]| ==> r.stacks[i][n] == w.stacks[i][n - 1];
      }
    }
    SameCounts(w, r);
  }

  lemma {:induction false} EndKeeps(w: World, i: nat, k: Key)
    requires Inv(w)
    ensures Inv(BodyEnd(w, i, k).0)
  {
    var (r, ret) := BodyEnd(w, i, k);
    if ret == 0 {
      assert BodyOk(w, k) && StackOk(w, i);
      forall x | x in r.bodies ensures BodyOk(r, x) {
        assert BodyOk(w, x);
        assert w.stacks[i] == [k] + r.stacks[i];
      }
      forall j | 0 <= j < |r.stacks| ensures StackOk(r, j) {
        assert StackOk(w, j);
        if j == i {
          assert forall n :: 0 <= n < |r.stacks[i]| ==> r.stacks[i][n] == w.stacks[i][n + 1];
        }
      }
      SameCounts(w, r);
    }
  }

  lemma {:induction false} CreateKeeps(w: World, k: Key)
    requires Inv(w) && k.task in w.tasks
    ensures Inv(CreateBody(w, k).0)
  {
    var (r, ret) := CreateBody(w, k);
    if ret == 0 {
      forall x | x in r.bodies ensures BodyOk(r, x) {
        if x == k {
          forall i | 0 <= i < |r.stacks| ensures k !in r.stacks[i] {
            assert StackOk(w, i);
          }
        } else {
          assert BodyOk(w, x);
        }
      }
      forall i | 0 <= i < |r.stacks| ensures StackOk(r, i) {
        assert StackOk(w, i);
      }
      forall task | task in r.tasks ensures TaskOk(r, task) {
        CreateCounts(w, k, task);
      }
    }
  }

  lemma {:induction false} CreateCounts(w: World, k: Key, task: nat)
    requires k.task in w.tasks && task in w.tasks && TaskOk(w, task) && CreateBody(w, k).1 == 0
    ensures TaskOk(CreateBody(w, k).0, task)
  {
    var r := CreateBody(w, k).0;
    if task == k.task {
      assert BodiesOf(r, task) == BodiesOf(w, task) + {k};
    } else {
      assert BodiesOf(r, task) == BodiesOf(w, task);
    }
  }

  /** Every operation on tasks keeps the invariant, also when it fails half way. */
  lemma {:induction false} ApplyKeeps(w: World, i: nat, k: Key, op: Op)
    requires Inv(w) && k.task in w.tasks && i < |w.stacks|
    ensures Inv(Apply(w, i, k, op).0)
  {
    match op {
      case Exec =>
        if k in w.bodies {
          ExecuteKeeps(w, i, k);
        } else {
          CreateKeeps(w, k);
          ExecuteKeeps(CreateBody(w, k).0, i, k);
        }
      case Pause =>
        if BodyPause(w, i, k).1 == 0 {
          assert BodyOk(w, k);
          StateOnly(w, k, w.bodies[k].(state := Paused));
        }
      case Resume =>
        if BodyResume(w, i, k).1 == 0 {
          assert BodyOk(w, k);
          StateOnly(w, k, w.bodies[k].(state := Running));
        }
      case End => EndKeeps(w, i, k);
    }
  }

  lemma {:induction false} TaskCreateKeeps(w: World, typ: nat, task: nat, t: Task)
    requires Inv(w)
    ensures Inv(TaskCreate(w, typ, task, t).0)
  {
    var (r, ret) := TaskCreate(w, typ, task, t);
    if ret == 0 {
      forall x | x in r.bodies ensures BodyOk(r, x) {
        assert BodyOk(w, x);
      }
      forall i | 0 <= i < |r.stacks| ensures StackOk(r, i) {
        assert StackOk(w, i);
      }
      forall x | x in r.tasks ensures TaskOk(r, x) {
        assert BodiesOf(r, x) == BodiesOf(w, x);
        if x == task {
          forall k | k in w.bodies ensures k.task != task {
            assert BodyOk(w, k);
          }
          assert BodiesOf(w, x) == {};
        } else {
          assert TaskOk(w, x);
        }
      }
    }
  }

  // ---------- what the operations do, by state, stack and flags ----------

  /** When an operation succeeds: one that executes needs a fresh body, or a dead one that may run
      again, or none yet where the task may have one more, and a running top that allows nesting;
      the others are for the top of the stack, in the state they leave. */
  ghost predicate May(w: World, i: nat, k: Key, op: Op)
    requires i < |w.stacks| && k.task in w.tasks
  {
    var l := w.stacks[i];
    match op
    case Exec =>
      && (if k in w.bodies then
            w.bodies[k].state == Created || (w.bodies[k].state == Dead && w.bodies[k].resurrect)
          else
            k.body != 0 && (w.tasks[k.task].parallel || forall x :: x in w.bodies ==> x.task != k.task))
      && (l != [] && l[0] in w.bodies && w.bodies[l[0]].state == Running ==> w.bodies[l[0]].relax)
    case Pause => l != [] && l[0] == k && k in w.bodies && w.bodies[k].state == Running && w.bodies[k].pause
    case Resume => l != [] && l[0] == k && k in w.bodies && w.bodies[k].state == Paused
    case End => l != [] && l[0] == k && k in w.bodies && w.bodies[k].state == Running
  }

  /** What a successful operation does: the body has a new state, and only executing and ending
      move it, on top of the stack and off it. A new body takes the flags of its task. */
  ghost predicate Does(w: World, r: World, i: nat, k: Key, op: Op)
    requires i < |w.stacks| && k.task in w.tasks
  {
    && r.types == w.types && k in r.bodies && r.bodies == w.bodies[k := r.bodies[k]]
    && (op.Exec? || (k in w.bodies && w.stacks[i] != [] && w.stacks[i][0] == k))
    && var b, t, l := r.bodies[k], w.tasks[k.task], w.stacks[i];
       && b.pause == t.pause && b.resurrect == t.resurrect && b.relax == t.relax
       && r.tasks == (if k in w.bodies then w.tasks else w.tasks[k.task := t.(nbodies := t.nbodies + 1)])
       && b.iteration == (if k !in w.bodies then 0
                          else w.bodies[k].iteration + if op.Exec? && w.bodies[k].state.Dead? then 1 else 0)
       && match op
          case Exec => b.state == Running && b.stack == i && r.stacks == w.stacks[i := [k] + l]
          case Pause => b.state == Paused && b.stack == i && r.stacks == w.stacks
          case Resume => b.state == Running && b.stack == i && r.stacks == w.stacks
          case End => b.state == Dead && b.stack == -1 && r.stacks == w.stacks[i := l[1..]]
  }

  /** What every operation that fails leaves: the stacks, the types and the other bodies. */
  ghost predicate StacksStay(w: World, r: World, k: Key) {
    r.stacks == w.stacks && r.types == w.types && r.bodies - {k} == w.bodies - {k}
  }

  /** Exactly when an operation succeeds, and what it does. */
  lemma {:induction false} ApplyExactly(w: World, i: nat, k: Key, op: Op)
    requires Inv(w) && k.task in w.tasks && i < |w.stacks|
    ensures Apply(w, i, k, op).1 == 0 || Apply(w, i, k, op).1 == -1
    ensures Apply(w, i, k, op).1 == 0 <==> May(w, i, k, op)
    ensures Apply(w, i, k, op).1 == 0 ==> Does(w, Apply(w, i, k, op).0, i, k, op)
    ensures Apply(w, i, k, op).1 != 0 ==> StacksStay(w, Apply(w, i, k, op).0, k)
  {
    assert TaskOk(w, k.task) && StackOk(w, i);
    OnlyBody(w, k.task);
    if k in w.bodies {
      assert BodyOk(w, k);
    }
    hide Inv, TaskOk, StackOk, BodyOk;
    match op {
      case Exec => ExecExactly(w, i, k);
      case Pause | Resume | End => TopExactly(w, i, k, op);
    }
  }

  lemma {:induction false} OnlyBody(w: World, task: nat)
    requires task in w.tasks && TaskOk(w, task)
    ensures w.tasks[task].nbodies == 0 <==> forall x :: x in w.bodies ==> x.task != task
  {
    if x :| x in w.bodies && x.task == task {
      assert x in BodiesOf(w, task);
    } else {
      assert BodiesOf(w, task) == {};
    }
  }

  ghost predicate KeyFits(w: World, i: nat, k: Key)
    requires k.task in w.tasks && i < |w.stacks|
  {
    k in w.bodies ==>
      var b, t := w.bodies[k], w.tasks[k.task];
      && b.pause == t.pause && b.resurrect == t.resurrect && b.relax == t.relax
      && (b.stack != -1 <==> b.state.Running? || b.state.Paused?)
      && (k in w.stacks[i] <==> b.stack == i)
  }

  lemma {:induction false} TopExactly(w: World, i: nat, k: Key, op: Op)
    requires k.task in w.tasks && i < |w.stacks| && !op.Exec? && KeyFits(w, i, k)
    ensures Apply(w, i, k, op).1 == 0 || Apply(w, i, k, op).1 == -1
    ensures Apply(w, i, k, op).1 == 0 <==> May(w, i, k, op)
    ensures Apply(w, i, k, op).1 == 0 ==> Does(w, Apply(w, i, k, op).0, i, k, op)
    ensures Apply(w, i, k, op).1 != 0 ==> StacksStay(w, Apply(w, i, k, op).0, k)
  {
    if w.stacks[i] != [] {
      assert w.stacks[i][0] in w.stacks[i];
    }
  }

  lemma {:induction false} ExecExactly(w: World, i: nat, k: Key)
    requires k.task in w.tasks && i < |w.stacks| && KeyFits(w, i, k)
    requires w.tasks[k.task].nbodies == 0 <==> forall x :: x in w.bodies ==> x.task != k.task
    ensures Apply(w, i, k, Exec).1 == 0 || Apply(w, i, k, Exec).1 == -1
    ensures Apply(w, i, k, Exec).1 == 0 <==> May(w, i, k, Exec)
    ensures Apply(w, i, k, Exec).1 == 0 ==> Does(w, Apply(w, i, k, Exec).0, i, k, Exec)
    ensures Apply(w, i, k, Exec).1 != 0 ==> StacksStay(w, Apply(w, i, k, Exec).0, k)
  {
    if w.stacks[i] != [] {
      assert w.stacks[i][0] in w.stacks[i];
    }
  }
}
