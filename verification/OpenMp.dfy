/** The OpenMP task and worksharing events: stacks of task ids and of labels. */
module OpenMp {
  import opened Chans
  import opened TaskSpec
  import opened Tasks

  /** The flags that create_task gives. */
  const CREATE_FLAGS := Task(false, true, false, true, 0, 0)

  ghost predicate KindOk(w: World) {
    forall t :: t in w.tasks ==> !w.tasks[t].pause && !w.tasks[t].parallel
  }

  /** The ids of a stack of bodies, last executed last. */
  function Ids(l: seq<Key>): seq<Value> {
    if l == [] then [] else Ids(l[1..]) + [Int(l[0].task)]
  }

  /** A stack channel that takes duplicates, ready to be written. */
  ghost predicate StackChan(c: Chan) {
    c.stack && c.allowDup && !c.dirty
  }

  /** The task id channel of thread i holds the ids of its stack of bodies. */
  ghost predicate Mirrors(w: World, taskid: seq<Chan>, labels: seq<Chan>) {
    && |taskid| == |labels| == |w.stacks|
    && forall i :: 0 <= i < |w.stacks| ==>
         StackChan(taskid[i]) && StackChan(labels[i]) && taskid[i].values == Ids(w.stacks[i])
  }

  lemma {:induction false} IdsLast(l: seq<Key>)
    ensures |Ids(l)| == |l|
    ensures l != [] ==> Ids(l)[|l| - 1] == Int(l[0].task) && Ids(l)[..|l| - 1] == Ids(l[1..])
  {
    if l != [] {
      IdsLast(l[1..]);
    }
  }

  lemma {:induction false} IdsPush(k: Key, l: seq<Key>)
    ensures Ids([k] + l) == Ids(l) + [Int(k.task)]
  {
    assert ([k] + l)[1..] == l;
  }

  /** The labels of thread i gain one on top, or lose it. */
  ghost predicate LabelMoved(a: seq<Chan>, b: seq<Chan>, i: nat, enter: bool, gid: int) {
    && i < |b| == |a| && (forall j :: 0 <= j < |a| && j != i ==> b[j] == a[j])
    && if enter then b[i].values == a[i].values + [Int(gid)] else a[i].values == b[i].values + [Int(gid)]
  }

  /** What the three steps of a task event ask of the stack of bodies and the label. */
  ghost predicate CanUpdate(w: World, i: nat, lab: Chan, v: char, size: int, task: nat) {
    && size >= 4 && task != 0 && task in w.tasks && i < |w.stacks| && (v == 'x' || v == 'e')
    && var k := Key(task, 1);
       && May(w, i, k, if v == 'x' then Exec else End)
       && if v == 'x' then |w.stacks[i]| < MAX_CHAN_STACK && |lab.values| < MAX_CHAN_STACK
          else lab.values != [] && lab.values[|lab.values| - 1] == Int(w.tasks[task].gid)
  }

  class OpenMpEmu {
    const info: TaskInfo
    var taskid: seq<Chan>
    var labels: seq<Chan>

    ghost predicate Valid()
      reads this, info
    {
      info.Valid() && KindOk(info.W()) && Mirrors(info.W(), taskid, labels)
    }

    constructor (info: TaskInfo, taskid: seq<Chan>, labels: seq<Chan>)
      requires info.Valid() && KindOk(info.W()) && |taskid| == |labels| == |info.stacks|
      requires forall i :: 0 <= i < |info.stacks| ==>
        (info.stacks[i] == [] && StackChan(taskid[i]) && StackChan(labels[i]) && taskid[i].values == [])
      ensures Valid() && this.info == info
    {
      this.info, this.taskid, this.labels := info, taskid, labels;
    }

    /** chan_push on both channels, then the flush. */
    method PushBoth(i: nat, id: int, gid: int) returns (ret: int)
      requires i < |taskid| == |labels| && StackChan(taskid[i]) && StackChan(labels[i])
      modifies this`taskid, this`labels
      ensures ret == 0 || ret == -1
      ensures ret == 0 <==> |old(taskid[i].values)| < MAX_CHAN_STACK && |old(labels[i].values)| < MAX_CHAN_STACK
      ensures |taskid| == |old(taskid)| && |labels| == |old(labels)|
      ensures forall j :: 0 <= j < |taskid| && j != i ==> taskid[j] == old(taskid[j]) && labels[j] == old(labels[j])
      ensures ret == 0 ==>
                StackChan(taskid[i]) && StackChan(labels[i]) && taskid[i].values == old(taskid[i].values) + [Int(id)]
                           && labels[i].values == old(labels[i].values) + [Int(gid)]
    {
      match Push(taskid[i], Int(id)) {
        case Fail => return -1;
        case Ignored => return 0;
        case Write(c) => taskid := taskid[i := Flushed(c.(dirty := true))];
      }
      match Push(labels[i], Int(gid)) {
        case Fail => return -1;
        case Ignored => return 0;
        case Write(c) => labels := labels[i := Flushed(c.(dirty := true))];
      }
      return 0;
    }

    /** chan_pop on both channels, then the flush. */
    method PopBoth(i: nat, id: int, gid: int) returns (ret: int)
      requires i < |taskid| == |labels| && StackChan(taskid[i]) && StackChan(labels[i])
      modifies this`taskid, this`labels
      ensures ret == if !Pop(old(taskid[i]), Int(id)).Fail? && !Pop(old(labels[i]), Int(gid)).Fail? then 0 else -1
      ensures |taskid| == |old(taskid)| && |labels| == |old(labels)|
      ensures forall j :: 0 <= j < |taskid| && j != i ==> taskid[j] == old(taskid[j]) && labels[j] == old(labels[j])
      ensures ret == 0 ==>
                StackChan(taskid[i]) && StackChan(labels[i]) && old(taskid[i].values) == taskid[i].values + [Int(id)]
                           && LabelMoved(old(labels), labels, i, false, gid)
    {
      match Pop(taskid[i], Int(id)) {
        case Fail => return -1;
        case Ignored => return 0;
        case Write(c) => taskid := taskid[i := Flushed(c.(dirty := true))];
      }
      match Pop(labels[i], Int(gid)) {
        case Fail => return -1;
        case Ignored => return 0;
        case Write(c) => labels := labels[i := Flushed(c.(dirty := true))];
      }
      return 0;
    }

    /** The 'x' branch of update_task. */
    method ExecuteTask(i: nat, task: nat) returns (ret: int)
      requires Valid() && i < |taskid| && task in info.tasks
      modifies this`taskid, this`labels, info`bodies, info`tasks, info`stacks, info`logs
      ensures ret == 0 || ret == -1
      ensures ret == 0 <==> Apply(old(info.W()), i, Key(task, 1), Exec).1 == 0 && |old(info.stacks[i])| < MAX_CHAN_STACK
                            && |old(labels[i].values)| < MAX_CHAN_STACK
      ensures ret == 0 ==> Valid() && info.W() == Apply(old(info.W()), i, Key(task, 1), Exec).0
      ensures ret == 0 ==> LabelMoved(old(labels), labels, i, true, old(info.tasks)[task].gid)
    {
      ghost var w := info.W();
      var k := Key(task, 1);
      IdsLast(info.stacks[i]);
      hide Inv, Logged, Ids;
      ret := info.Do(i, k, Exec);
      if ret != 0 {
        return -1;
      }
      Executed(w, i, k);
      hide Apply;
      ret := PushBoth(i, task, info.tasks[task].gid);
    }

    /** The 'e' branch of update_task: the pop of the task id never fails. */
    method EndTask(i: nat, task: nat) returns (ret: int)
      requires Valid() && i < |taskid| && task in info.tasks
      modifies this`taskid, this`labels, info`bodies, info`tasks, info`stacks, info`logs
      ensures ret == 0 || ret == -1
      ensures ret == 0 <==> Apply(old(info.W()), i, Key(task, 1), End).1 == 0
                            && !Pop(old(labels[i]), Int(old(info.tasks)[task].gid)).Fail?
      ensures ret == 0 ==> Valid() && info.W() == Apply(old(info.W()), i, Key(task, 1), End).0
      ensures ret == 0 ==> LabelMoved(old(labels), labels, i, false, old(info.tasks)[task].gid)
    {
      ghost var w := info.W();
      var k := Key(task, 1);
      hide Inv, Logged, Ids;
      ret := info.Do(i, k, End);
      if ret != 0 {
        return -1;
      }
      Ended(w, i, k);
      CanPop(taskid[i], Ids(info.stacks[i]), Int(task));
      hide Apply, Pop;
      ret := PopBoth(i, task, info.tasks[task].gid);
      if ret == 0 {
        SameButLast(taskid[i].values, Ids(info.stacks[i]), Int(task));
      }
    }

    /** update_task: afterwards the ids on the task id channel are again those on the stack
        of bodies. */
    method UpdateTask(i: nat, v: char, size: int, task: nat) returns (ret: int)
      requires Valid() && i < |taskid|
      modifies this`taskid, this`labels, info`bodies, info`tasks, info`stacks, info`logs
      ensures (ret == 0 || ret == -1) && (ret == 0 <==> CanUpdate(old(info.W()), i, old(labels[i]), v, size, task))
      ensures ret == 0 ==> Valid()
      ensures ret == 0 ==> info.W() == Apply(old(info.W()), i, Key(task, 1), if v == 'x' then Exec else End).0
      ensures ret == 0 ==> Does(old(info.W()), info.W(), i, Key(task, 1), if v == 'x' then Exec else End)
      ensures ret == 0 ==> LabelMoved(old(labels), labels, i, v == 'x', old(info.tasks)[task].gid)
    {
      if task in info.tasks {
        ApplyExactly(info.W(), i, Key(task, 1), if v == 'x' then Exec else End);
      }
      hide Inv, Logged, Ids, Apply, May, Does;
      if size < 4 {
        return -1;
      }
      if task == 0 {
        return -1;
      }
      if task !in info.tasks {
        return -1;
      }
      if v == 'x' {
        ret := ExecuteTask(i, task);
      } else if v == 'e' {
        ret := EndTask(i, task);
      } else {
        return -1;
      }
    }

    /** update_ws_state: worksharings share the label channel, not the task ids. */
    method UpdateWsState(i: nat, v: char, size: int, typ: nat) returns (ret: int)
      requires Valid() && i < |taskid|
      modifies this`labels
      ensures (ret == 0 || ret == -1) && (ret == 0 ==> Valid())
      ensures ret == 0 <==> size >= 4 && typ != 0 && typ in info.types
                            && if v == 'x' then |old(labels[i].values)| < MAX_CHAN_STACK
                               else !Pop(old(labels[i]), Int(info.types[typ])).Fail?
      ensures ret == 0 ==> LabelMoved(old(labels), labels, i, v == 'x', info.types[typ])
      ensures ret == -1 ==> labels == old(labels)
    {
      hide Inv, Logged, Ids;
      if size < 4 {
        return -1;
      }
      if typ == 0 {
        return -1;
      }
      if typ !in info.types {
        return -1;
      }
      match if v == 'x' then Push(labels[i], Int(info.types[typ])) else Pop(labels[i], Int(info.types[typ])) {
        case Fail => return -1;
        case Ignored => return 0;
        case Write(c) => labels := labels[i := Flushed(c.(dirty := true))];
      }
      return 0;
    }

    /** create_task */
    method CreateTask(size: int, task: nat, typ: nat) returns (ret: int)
      requires Valid()
      modifies info`tasks
      ensures (ret == 0 || ret == -1) && Valid()
      ensures ret == 0 <==> size == 8 && task != 0 && typ != 0 && task !in old(info.tasks) && typ in info.types
      ensures if ret == 0 then task in info.tasks && info.tasks == old(info.tasks)[task := info.tasks[task]]
              else info.tasks == old(info.tasks)
      ensures ret == 0 ==> var x := info.tasks[task];
              !x.parallel && x.resurrect && !x.pause && x.relax && x.gid == info.types[typ] && x.nbodies == 0
    {
      if size != 8 {
        return -1;
      }
      if task == 0 {
        return -1;
      }
      if typ == 0 {
        return -1;
      }
      hide Inv, Logged;
      ret := info.Create(typ, task, CREATE_FLAGS);
    }
  }

  lemma {:induction false} CanPop(c: Chan, l: seq<Value>, x: Value)
    requires StackChan(c) && c.values == l + [x]
    ensures !Pop(c, x).Fail?
  {
  }

  lemma {:induction false} SameButLast(a: seq<Value>, b: seq<Value>, x: Value)
    requires a + [x] == b + [x]
    ensures a == b
  {
    assert (a + [x])[..|a|] == a && (b + [x])[..|b|] == b;
  }

  /** An execution puts its id on top, and touches no other stack. */
  lemma {:induction false} Executed(w: World, i: nat, k: Key)
    requires k.task in w.tasks && i < |w.stacks| && Apply(w, i, k, Exec).1 == 0 && KindOk(w)
    ensures var r := Apply(w, i, k, Exec).0;
            && |r.stacks| == |w.stacks| && Ids(r.stacks[i]) == Ids(w.stacks[i]) + [Int(k.task)]
            && (forall j :: 0 <= j < |w.stacks| && j != i ==> r.stacks[j] == w.stacks[j])
            && KindOk(r) && k.task in r.tasks && r.tasks[k.task].gid == w.tasks[k.task].gid
  {
    IdsPush(k, w.stacks[i]);
  }

  /** An end takes its own id from the top. */
  lemma {:induction false} Ended(w: World, i: nat, k: Key)
    requires k.task in w.tasks && i < |w.stacks| && Apply(w, i, k, End).1 == 0 && KindOk(w)
    ensures var r := Apply(w, i, k, End).0;
            && |r.stacks| == |w.stacks| && w.stacks[i] != [] && w.stacks[i][0] == k
            && Ids(w.stacks[i]) == Ids(r.stacks[i]) + [Int(k.task)]
            && (forall j :: 0 <= j < |w.stacks| && j != i ==> r.stacks[j] == w.stacks[j])
            && KindOk(r) && k.task in r.tasks && r.tasks[k.task].gid == w.tasks[k.task].gid
  {
    IdsLast(w.stacks[i]);
  }
}
