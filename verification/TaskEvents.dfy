/** The nOS-V and Nanos6 task events, with the channels that show the running task. */
module TaskEvents {
  import opened Wrappers
  import opened Chans
  import opened TaskSpec
  import opened Tasks

  datatype Kind = Nosv | Nanos6

  // The channels of a thread; Nanos6 has no body id and no application id.
  const CH_BODYID := 0
  const CH_TASKID := 1
  const CH_TYPE := 2
  const CH_APPID := 3
  const CH_RANK := 4
  const CH_SUBSYSTEM := 5
  const CH_MAX := 6

  function TaskBody(kind: Kind): int {
    if kind.Nosv? then 11 else 1
  }

  /** The flags that create_task gives: parallel tasks exist only in nOS-V, nested running
      tasks only in Nanos6. */
  function CreateFlags(kind: Kind, v: char): Task {
    if kind.Nanos6? then Task(false, false, true, true, 0, 0)
    else if v == 'C' then Task(true, false, false, false, 0, 0)
    else Task(false, true, true, false, 0, 0)
  }

  ghost predicate KindOk(kind: Kind, w: World) {
    forall t :: t in w.tasks ==>
      var x := w.tasks[t];
      if kind.Nosv? then !x.relax else !x.parallel && x.relax
  }

  // ---------- channels ----------

  /** The task id refuses duplicates, the others take them. */
  ghost predicate ChansOk(c: seq<Chan>) {
    && |c| == CH_MAX && c[CH_SUBSYSTEM].stack && !c[CH_SUBSYSTEM].dirtyWrite
    && forall x :: 0 <= x < CH_SUBSYSTEM ==>
         !c[x].stack && !c[x].dirtyWrite && !c[x].ignoreDup && c[x].allowDup == (x != CH_TASKID)
  }

  ghost predicate Clean(c: seq<Chan>) {
    forall x :: 0 <= x < |c| ==> !c[x].dirty && c[x].last == Read(c[x])
  }

  /** A channel that is not dirty holds its last flushed value. */
  ghost predicate Steady(c: seq<Chan>) {
    forall x :: 0 <= x < |c| && !c[x].dirty ==> c[x].last == Read(c[x])
  }

  function Gid(w: World, task: nat): int {
    if task in w.tasks then w.tasks[task].gid else 0
  }

  /** The channels describe the running body, or are null if there is none. */
  ghost predicate Shows(kind: Kind, appid: int, rank: int, w: World, c: seq<Chan>, top: Option<Key>) {
    && |c| == CH_MAX
    && Read(c[CH_TASKID]) == (if top.Some? then Int(top.value.task) else Null)
    && Read(c[CH_TYPE]) == (if top.Some? then Int(Gid(w, top.value.task)) else Null)
    && (kind.Nosv? ==> Read(c[CH_BODYID]) == (if top.Some? then Int(top.value.body) else Null))
    && (kind.Nosv? ==> Read(c[CH_APPID]) == (if top.Some? then Int(appid) else Null))
    && (rank >= 0 ==> Read(c[CH_RANK]) == (if top.Some? then Int(rank + 1) else Null))
  }

  // ---------- the running body before and after an operation ----------

  /** What the top of stack i was, and what it is after a successful operation; the top of
      the other stacks stays. */
  lemma {:induction false} Tops(w: World, i: nat, k: Key, op: Op)
    requires Inv(w) && k.task in w.tasks && i < |w.stacks| && Apply(w, i, k, op).1 == 0
    ensures var r := Apply(w, i, k, op).0;
            && |r.stacks| == |w.stacks|
            && (op.Pause? || op.End? ==> RunningTop(w, i) == Some(k))
            && (op.Exec? || op.Resume? ==> RunningTop(w, i) != Some(k) && RunningTop(r, i) == Some(k))
            && (op.Resume? ==> RunningTop(w, i) == None)
            && (op.Pause? ==> RunningTop(r, i) == None)
            && RunningTop(r, i) != RunningTop(w, i)
            && (forall j :: 0 <= j < |w.stacks| && j != i ==> RunningTop(r, j) == RunningTop(w, j))
  {
    OtherTops(w, i, k, op);
    if k in w.bodies {
      assert BodyOk(w, k);
    }
    if op.End? && w.stacks[i][1..] != [] {
      assert StackOk(w, i);
      assert w.stacks[i][0] != w.stacks[i][1];
    }
  }

  lemma {:induction false} OtherTops(w: World, i: nat, k: Key, op: Op)
    requires Inv(w) && k.task in w.tasks && i < |w.stacks| && Apply(w, i, k, op).1 == 0
    ensures |Apply(w, i, k, op).0.stacks| == |w.stacks|
    ensures forall j :: 0 <= j < |w.stacks| && j != i ==> RunningTop(Apply(w, i, k, op).0, j) == RunningTop(w, j)
  {
    var r := Apply(w, i, k, op).0;
    forall j | 0 <= j < |w.stacks| && j != i
      ensures RunningTop(r, j) == RunningTop(w, j)
    {
      if w.stacks[j] != [] {
        var t := w.stacks[j][0];
        assert StackOk(w, j) && t in w.stacks[j];
        assert BodyOk(w, t);
      }
    }
  }

  /** In nOS-V nothing runs below the top, so neither X nor E can happen. */
  lemma {:induction false} NoNesting(w: World, i: nat, k: Key, op: Op)
    requires Inv(w) && KindOk(Nosv, w) && k.task in w.tasks && i < |w.stacks| && Apply(w, i, k, op).1 == 0
    ensures op.Exec? ==> RunningTop(w, i) == None
    ensures op.End? ==> RunningTop(Apply(w, i, k, op).0, i) == None
  {
    NosvStrict(w);
    assert StackOk(w, i);
  }

  lemma {:induction false} NosvStrict(w: World)
    requires Inv(w) && KindOk(Nosv, w)
    ensures forall k :: k in w.bodies ==> !w.bodies[k].relax
  {
    forall k | k in w.bodies ensures !w.bodies[k].relax {
      assert BodyOk(w, k);
    }
  }

  /** In Nanos6 two bodies belong to two tasks. */
  lemma {:induction false} TasksDiffer(w: World, a: Key, b: Key)
    requires Inv(w) && KindOk(Nanos6, w) && a in w.bodies && b in w.bodies && a != b
    ensures a.task != b.task
  {
    assert BodyOk(w, a) && BodyOk(w, b);
    if a.task == b.task {
      assert TaskOk(w, a.task);
      assert {a, b} <= BodiesOf(w, a.task);
      SubsetSize({a, b}, BodiesOf(w, a.task));
    }
  }

  lemma {:induction false} SubsetSize<T>(a: set<T>, b: set<T>)
    requires a <= b
    ensures |a| <= |b|
  {
    assert b == a + (b - a);
  }

  lemma {:induction false} TopListed(w: World, i: nat)
    requires Inv(w) && RunningTop(w, i).Some?
    ensures var k := RunningTop(w, i).value; k in w.bodies && k.task in w.tasks && k.body > 0
  {
    assert BodyOk(w, RunningTop(w, i).value);
  }

  /** Operations leave tasks as they are but for the number of bodies. */
  lemma {:induction false} SameTasks(kind: Kind, w: World, i: nat, k: Key, op: Op)
    requires k.task in w.tasks && i < |w.stacks| && KindOk(kind, w)
    ensures var r := Apply(w, i, k, op).0;
            KindOk(kind, r) && (forall t :: Gid(r, t) == Gid(w, t)) && (forall t :: t in r.tasks <==> t in w.tasks)
            && (forall x :: x in w.bodies ==> x in r.bodies) && r.types == w.types
  {
  }

  // ---------- writing the channels ----------

  /** All but the subsystem are clean. */
  ghost predicate TaskClean(c: seq<Chan>) {
    |c| == CH_MAX && forall x :: 0 <= x < CH_SUBSYSTEM ==> !c[x].dirty && c[x].last == Read(c[x])
  }

  function Paint(c: seq<Chan>, x: nat, v: Value): seq<Chan> {
    if x < |c| then c[x := c[x].(single := v, dirty := true)] else c
  }

  /** The channels once a body is shown. */
  function PaintTop(kind: Kind, appid: int, rank: int, c: seq<Chan>, k: Key, gid: int): seq<Chan> {
    var c1 := if kind.Nosv? then Paint(c, CH_BODYID, Int(k.body)) else c;
    var c2 := Paint(Paint(c1, CH_TASKID, Int(k.task)), CH_TYPE, Int(gid));
    var c3 := if kind.Nosv? then Paint(c2, CH_APPID, Int(appid)) else c2;
    if rank >= 0 then Paint(c3, CH_RANK, Int(rank + 1)) else c3
  }

  /** The channels once no body is shown. */
  function PaintNone(kind: Kind, rank: int, c: seq<Chan>): seq<Chan> {
    var c1 := if kind.Nosv? then Paint(c, CH_BODYID, Null) else c;
    var c2 := Paint(Paint(c1, CH_TASKID, Null), CH_TYPE, Null);
    var c3 := if kind.Nosv? then Paint(c2, CH_APPID, Null) else c2;
    if rank >= 0 then Paint(c3, CH_RANK, Null) else c3
  }

  lemma {:induction false} PaintShows(kind: Kind, appid: int, rank: int, w: World, c: seq<Chan>, k: Key)
    requires ChansOk(c)
    ensures var d := PaintTop(kind, appid, rank, c, k, Gid(w, k.task));
            ChansOk(d) && Shows(kind, appid, rank, w, d, Some(k))
    ensures var d := PaintNone(kind, rank, c);
            ChansOk(d) && Shows(kind, appid, rank, w, d, None)
  {
  }

  /** The subsystem channel after a task event. */
  function SsEffect(kind: Kind, c: Chan, v: char): Effect {
    if v == 'x' then Push(c, Int(TaskBody(kind)))
    else if v == 'e' then Pop(c, Int(TaskBody(kind)))
    else Ignored
  }

  function OpOf(v: char): Option<Op> {
    match v
    case 'x' => Some(Exec)
    case 'e' => Some(End)
    case 'p' => Some(Pause)
    case 'r' => Some(Resume)
    case _ => None
  }

  /** The body a task event is about: in nOS-V body ids start at 1 for parallel tasks, and
      the only body of other tasks, named 0, is body 1. */
  function EventKey(kind: Kind, w: World, size: int, task: nat, body: nat): Option<Key> {
    if size < 4 || (kind.Nosv? && size < 8) || task !in w.tasks then None
    else if kind.Nanos6? then Some(Key(task, 1))
    else if w.tasks[task].parallel then (if body == 0 then None else Some(Key(task, body)))
    else if body != 0 then None
    else Some(Key(task, 1))
  }

  /** A body may be shown: no id is zero. */
  predicate Showable(kind: Kind, appid: int, w: World, top: Option<Key>) {
    top.Some? ==> top.value.task != 0 && Gid(w, top.value.task) != 0 && (kind.Nosv? ==> appid > 0)
  }

  /** A body of the task may be shown: no id is zero. */
  predicate HasIds(kind: Kind, appid: int, w: World, task: nat) {
    task in w.tasks && task != 0 && w.tasks[task].gid != 0 && (kind.Nosv? ==> appid > 0)
  }

  /** When a task event succeeds: its payload names a body, the operation of its letter may be done
      on that body, the subsystem channel takes or gives back the task body, and what runs next can be
      shown. Nothing is said here about the current value of the task channels: none of their
      duplicate checks ever fires. */
  ghost predicate CanUpdate(kind: Kind, appid: int, w: World, c: seq<Chan>, i: nat, v: char, size: int, task: nat,
                            body: nat) {
    && size >= (if kind.Nosv? then 8 else 4) && task in w.tasks && i < |w.stacks| && |c| == CH_MAX
    && (kind.Nosv? ==> (body != 0 <==> w.tasks[task].parallel))
    && var k := Key(task, if kind.Nosv? && w.tasks[task].parallel then body else 1);
       var ss, inside := c[CH_SUBSYSTEM], Int(if kind.Nosv? then 11 else 1);
       match v
       case 'x' => May(w, i, k, Exec) && !Push(ss, inside).Fail? && HasIds(kind, appid, w, task)
       case 'e' =>
         && May(w, i, k, End) && !Pop(ss, inside).Fail?
         && (|w.stacks[i]| > 1 && w.stacks[i][1] in w.bodies && w.bodies[w.stacks[i][1]].state == Running ==>
               HasIds(kind, appid, w, w.stacks[i][1].task))
       case 'p' => May(w, i, k, Pause)
       case 'r' => May(w, i, k, Resume) && HasIds(kind, appid, w, task)
       case _ => false
  }

  /** What a successful task event does to the tasks. */
  ghost predicate Outcome(kind: Kind, w: World, r: World, i: nat, v: char, task: nat, body: nat) {
    && task in w.tasks && i < |w.stacks|
    && var k := Key(task, if kind.Nosv? && w.tasks[task].parallel then body else 1);
       match v
       case 'x' => Does(w, r, i, k, Exec) && RunningTop(r, i) == Some(k)
       case 'e' => Does(w, r, i, k, End) && RunningTop(w, i) == Some(k)
       case 'p' => Does(w, r, i, k, Pause) && RunningTop(w, i) == Some(k) && RunningTop(r, i) == None
       case 'r' => Does(w, r, i, k, Resume) && RunningTop(r, i) == Some(k)
       case _ => false
  }

  /** The subsystem channel gains the task body, or loses it from the top. */
  ghost predicate SsMoved(kind: Kind, c: Chan, d: Chan, v: char) {
    var inside := Int(if kind.Nosv? then 11 else 1);
    if v == 'x' && !(c.last == inside && c.ignoreDup && !c.allowDup) then d.values == c.values + [inside]
    else if v == 'e' then c.values == d.values + [inside]
    else d.values == c.values
  }

  /** Whether what runs after an operation may be shown, seen from before it. */
  lemma {:induction false} ShownAfter(kind: Kind, appid: int, w: World, r: World, i: nat, k: Key, op: Op)
    requires Inv(w) && k.task in w.tasks && i < |w.stacks| && Does(w, r, i, k, op)
    ensures var l := w.stacks[i];
            Showable(kind, appid, r, RunningTop(r, i)) <==>
              match op
              case Exec => HasIds(kind, appid, w, k.task)
              case Resume => HasIds(kind, appid, w, k.task)
              case Pause => true
              case End => |l| > 1 && l[1] in w.bodies && w.bodies[l[1]].state == Running ==>
                  HasIds(kind, appid, w, l[1].task)
  {
    assert StackOk(w, i);
    if |w.stacks[i]| > 1 {
      assert w.stacks[i][0] != w.stacks[i][1] && w.stacks[i][1] in w.stacks[i];
      assert BodyOk(w, w.stacks[i][1]);
    }
  }

  lemma {:induction false} SsFlushed(kind: Kind, c: Chan, d: Chan, e: Chan, v: char)
    requires e == if d.dirty then Flushed(d) else d
    ensures SsMoved(kind, c, d, v) ==> SsMoved(kind, c, e, v)
  {
  }

  lemma {:induction false} OutcomeShown(kind: Kind, appid: int, rank: int, w: World, r: World, i: nat, v: char,
                                        task: nat,
                                        body: nat, c: seq<Chan>)
    requires Outcome(kind, w, r, i, v, task, body) && Shows(kind, appid, rank, r, c, RunningTop(r, i))
    ensures EventShown(kind, w, c, v, task, body)
  {
    hide Does, RunningTop;
  }

  /** After an execution or a resumption the channels show that body, and after a pause none. */
  ghost predicate EventShown(kind: Kind, w: World, c: seq<Chan>, v: char, task: nat, body: nat) {
    && |c| == CH_MAX && task in w.tasks
    && (v == 'x' || v == 'r' ==>
          && Read(c[CH_TASKID]) == Int(task)
          && (kind.Nosv? ==> Read(c[CH_BODYID]) == Int(if w.tasks[task].parallel then body else 1)))
    && (v == 'p' ==> Read(c[CH_TASKID]) == Null)
  }

  /** What a successful event does to the tasks and to the channels of its thread. */
  ghost predicate EventDone(kind: Kind, w: World, r: World, c0: seq<Chan>, c: seq<Chan>, i: nat, v: char, size: int,
                            task: nat, body: nat) {
    && Outcome(kind, w, r, i, v, task, body)
    && |c0| == |c| == CH_MAX && SsMoved(kind, c0[CH_SUBSYSTEM], c[CH_SUBSYSTEM], v)
    && EventShown(kind, w, c, v, task, body)
    && var k, op := EventKey(kind, w, size, task, body), OpOf(v);
       k.Some? && op.Some? && k.value.task in w.tasks && i < |w.stacks|
         && r == TaskSpec.Apply(w, i, k.value, op.value).0
  }

  lemma {:induction false} DoneIs(kind: Kind, appid: int, rank: int, w: World, r: World, c0: seq<Chan>, d: seq<Chan>,
                                  c: seq<Chan>, i: nat, v: char, size: int, task: nat, body: nat)
    requires var k, op := EventKey(kind, w, size, task, body), OpOf(v);
             k.Some? && op.Some? && k.value.task in w.tasks && i < |w.stacks|
             && r == TaskSpec.Apply(w, i, k.value, op.value).0
    requires Outcome(kind, w, r, i, v, task, body) && Shows(kind, appid, rank, r, c, RunningTop(r, i))
    requires |c0| == |d| == |c| == CH_MAX && SsMoved(kind, c0[CH_SUBSYSTEM], d[CH_SUBSYSTEM], v)
    requires c[CH_SUBSYSTEM] == if d[CH_SUBSYSTEM].dirty then Flushed(d[CH_SUBSYSTEM]) else d[CH_SUBSYSTEM]
    ensures EventDone(kind, w, r, c0, c, i, v, size, task, body)
  {
    hide SsMoved, Outcome, EventKey, OpOf, Shows, TaskSpec.Apply, RunningTop, EventShown;
    SsFlushed(kind, c0[CH_SUBSYSTEM], d[CH_SUBSYSTEM], c[CH_SUBSYSTEM], v);
    OutcomeShown(kind, appid, rank, w, r, i, v, task, body, c);
  }

  /** The plain condition is what the three parts of the event ask. */
  lemma {:induction false} CanUpdateIs(kind: Kind, appid: int, w: World, c: seq<Chan>, i: nat, v: char, size: int,
                                       task: nat, body: nat)
    requires Inv(w) && |c| == CH_MAX && i < |w.stacks|
    ensures var k, op := EventKey(kind, w, size, task, body), OpOf(v);
            CanUpdate(kind, appid, w, c, i, v, size, task, body) <==>
              && k.Some? && op.Some? && k.value.task in w.tasks
              && var (r, ret) := TaskSpec.Apply(w, i, k.value, op.value);
                 ret == 0 && !SsEffect(kind, c[CH_SUBSYSTEM], v).Fail? && Showable(kind, appid, r, RunningTop(r, i))
  {
    var k, op := EventKey(kind, w, size, task, body), OpOf(v);
    if k.Some? && op.Some? && k.value.task in w.tasks {
      ApplyExactly(w, i, k.value, op.value);
      var r := TaskSpec.Apply(w, i, k.value, op.value).0;
      if TaskSpec.Apply(w, i, k.value, op.value).1 == 0 {
        ShownAfter(kind, appid, w, r, i, k.value, op.value);
      }
      hide TaskSpec.Apply, Inv, Push, Pop, Does, RunningTop, Showable;
    }
  }

  lemma {:induction false} OutcomeIs(kind: Kind, w: World, i: nat, v: char, size: int, task: nat, body: nat)
    requires Inv(w) && i < |w.stacks|
    requires var k, op := EventKey(kind, w, size, task, body), OpOf(v);
             k.Some? && op.Some? && k.value.task in w.tasks && TaskSpec.Apply(w, i, k.value, op.value).1 == 0
    ensures Outcome(kind, w, TaskSpec.Apply(w, i, EventKey(kind, w, size, task, body).value, OpOf(v).value).0, i, v,
                    task, body)
  {
    var k, op := EventKey(kind, w, size, task, body).value, OpOf(v).value;
    ApplyExactly(w, i, k, op);
    Tops(w, i, k, op);
    hide TaskSpec.Apply, Inv, Does, RunningTop;
  }

  /** Every thread shows its running body, with clean channels. */
  ghost predicate ThreadsOk(kind: Kind, appid: int, rank: int, w: World, ch: seq<seq<Chan>>) {
    |ch| == |w.stacks| &&
    forall i :: 0 <= i < |ch| ==> ChansOk(ch[i]) && Clean(ch[i]) && Shows(kind, appid, rank, w, ch[i], RunningTop(w, i))
  }

  class TaskEmu {
    const kind: Kind
    const info: TaskInfo
    const appid: int
    const rank: int
    /** The channels of each thread. */
    var ch: seq<seq<Chan>>

    /** Thread i shows its running body. */
    ghost predicate ThreadOk(i: nat)
      reads this, info
    {
      && i < |ch| && ChansOk(ch[i]) && Shows(kind, appid, rank, info.W(), ch[i], RunningTop(info.W(), i))
    }

    ghost predicate Valid()
      reads this, info
    {
      info.Valid() && KindOk(kind, info.W()) && ThreadsOk(kind, appid, rank, info.W(), ch)
    }

    constructor (kind: Kind, info: TaskInfo, appid: int, rank: int, ch: seq<seq<Chan>>)
      requires info.Valid() && KindOk(kind, info.W()) && |ch| == |info.stacks|
      requires forall i :: 0 <= i < |ch| ==> ChansOk(ch[i]) && Clean(ch[i]) && info.stacks[i] == []
      requires forall i, x :: 0 <= i < |ch| && 0 <= x < |ch[i]| ==> Read(ch[i][x]) == Null
      ensures Valid() && this.info == info && this.kind == kind
    {
      this.kind, this.info, this.appid, this.rank, this.ch := kind, info, appid, rank, ch;
    }

    /** chan_set on channel x of thread i. */
    method SetCh(i: nat, x: nat, v: Value) returns (ret: int)
      requires i < |ch| && x < |ch[i]|
      modifies this`ch
      ensures ret == if Set(old(ch[i][x]), v).Fail? then -1 else 0
      ensures ch == match Set(old(ch[i][x]), v)
                    case Write(d) => old(ch)[i := old(ch[i])[x := d.(dirty := true)]]
                    case _ => old(ch)
    {
      match Set(ch[i][x], v) {
        case Fail => return -1;
        case Ignored => return 0;
        case Write(d) =>
          ch := ch[i := ch[i][x := d.(dirty := true)]];
          return 0;
      }
    }

    /** A task channel that is clean takes any new value. */
    method PutCh(i: nat, x: nat, v: Value) returns (ret: int)
      requires i < |ch| && ChansOk(ch[i]) && x < CH_SUBSYSTEM && !ch[i][x].dirty && ch[i][x].last == Read(ch[i][x])
      requires x == CH_TASKID ==> Read(ch[i][x]) != v
      modifies this`ch
      ensures ret == 0 && ch == old(ch)[i := Paint(old(ch[i]), x, v)] && ChansOk(ch[i])
    {
      ret := SetCh(i, x, v);
    }

    /** chan_body_stopped and chan_task_stopped */
    method ChanStopped(i: nat) returns (ret: int)
      requires i < |ch| && ChansOk(ch[i]) && TaskClean(ch[i]) && Read(ch[i][CH_TASKID]) != Null
      modifies this`ch
      ensures ret == 0 && ch == old(ch)[i := PaintNone(kind, rank, old(ch[i]))]
    {
      if kind.Nosv? {
        ret := PutCh(i, CH_BODYID, Null);
        if ret != 0 {
          return -1;
        }
      }
      ret := PutCh(i, CH_TASKID, Null);
      if ret != 0 {
        return -1;
      }
      ret := PutCh(i, CH_TYPE, Null);
      if ret != 0 {
        return -1;
      }
      if kind.Nosv? {
        ret := PutCh(i, CH_APPID, Null);
        if ret != 0 {
          return -1;
        }
      }
      if rank >= 0 {
        ret := PutCh(i, CH_RANK, Null);
        if ret != 0 {
          return -1;
        }
      }
      return 0;
    }

    /** The channel writes of chan_body_running, chan_body_switch and their Nanos6 forms. */
    method ChanShow(i: nat, k: Key, gid: int) returns (ret: int)
      requires i < |ch| && ChansOk(ch[i]) && TaskClean(ch[i]) && Read(ch[i][CH_TASKID]) != Int(k.task)
      modifies this`ch
      ensures ret == 0 && ch == old(ch)[i := PaintTop(kind, appid, rank, old(ch[i]), k, gid)]
    {
      if kind.Nosv? {
        ret := PutCh(i, CH_BODYID, Int(k.body));
        if ret != 0 {
          return -1;
        }
      }
      ret := PutCh(i, CH_TASKID, Int(k.task));
      if ret != 0 {
        return -1;
      }
      ret := PutCh(i, CH_TYPE, Int(gid));
      if ret != 0 {
        return -1;
      }
      if kind.Nosv? {
        ret := PutCh(i, CH_APPID, Int(appid));
        if ret != 0 {
          return -1;
        }
      }
      if rank >= 0 {
        ret := PutCh(i, CH_RANK, Int(rank + 1));
        if ret != 0 {
          return -1;
        }
      }
      return 0;
    }

    /** chan_body_running and chan_task_running */
    method ChanRunning(i: nat, k: Key) returns (ret: int)
      requires i < |ch| && ChansOk(ch[i]) && TaskClean(ch[i]) && Read(ch[i][CH_TASKID]) != Int(k.task)
               && k.task in info.tasks
      modifies this`ch
      ensures ret == if Showable(kind, appid, info.W(), Some(k)) then 0 else -1
      ensures ret == -1 ==> ch == old(ch)
      ensures ret == 0 ==> ch == old(ch)[i := PaintTop(kind, appid, rank, old(ch[i]), k, Gid(info.W(), k.task))]
    {
      hide PaintTop;
      var gid := info.tasks[k.task].gid;
      if k.task == 0 {
        return -1;
      }
      if gid == 0 {
        return -1;
      }
      if kind.Nosv? && appid <= 0 {
        return -1;
      }
      ret := ChanShow(i, k, gid);
    }

    /** chan_body_switch and chan_task_switch. In nOS-V it is never reached. */
    method ChanSwitch(i: nat, prev: Option<Key>, next: Option<Key>) returns (ret: int)
      requires kind.Nanos6? && prev.Some? && next.Some? && prev.value.task != next.value.task
      requires i < |ch| && ChansOk(ch[i]) && TaskClean(ch[i]) && Read(ch[i][CH_TASKID]) == Int(prev.value.task)
      requires next.value.task in info.tasks
      modifies this`ch
      ensures ret == if Showable(kind, appid, info.W(), next) then 0 else -1
      ensures ret == -1 ==> ch == old(ch)
      ensures ret == 0 ==> ch == old(ch)[i := PaintTop(kind, appid, rank, old(ch[i]), next.value,
                                                       Gid(info.W(), next.value.task))]
    {
      hide PaintTop;
      if prev.None? || next.None? {
        return -1;
      }
      if prev.value.task == next.value.task {
        return -1;
      }
      var k := next.value;
      var gid := info.tasks[k.task].gid;
      if k.task == 0 {
        return -1;
      }
      if gid == 0 {
        return -1;
      }
      ret := ChanShow(i, k, gid);
    }

    /** update_task_state: the task changes, the channels not yet. */
    method UpdateTaskState(i: nat, v: char, size: int, task: nat, body: nat) returns (ret: int)
      requires info.Valid() && i < |info.stacks|
      modifies info`bodies, info`tasks, info`stacks, info`logs
      ensures info.Valid() && (ret == 0 || ret == -1)
      ensures var w, k, op := old(info.W()), EventKey(kind, old(info.W()), size, task, body), OpOf(v);
              && (ret == 0 <==> k.Some? && op.Some? && k.value.task in w.tasks && Apply(w, i, k.value, op.value).1 == 0)
              && (ret == 0 ==> info.W() == Apply(w, i, k.value, op.value).0)
      ensures ret == 0 ==> Outcome(kind, old(info.W()), info.W(), i, v, task, body)
    {
      ghost var w := info.W();
      assert Inv(w);
      hide Inv, Logged, TaskSpec.Apply, May, Does, Outcome, StacksStay;
      if size < 4 {
        return -1;
      }
      if kind.Nosv? && size < 8 {
        return -1;
      }
      if task !in info.tasks {
        return -1;
      }
      var bodyId := 1;
      if kind.Nosv? {
        if info.tasks[task].parallel {
          if body == 0 {
            return -1;
          }
          bodyId := body;
        } else if body != 0 {
          return -1;
        }
      }
      match v {
        case 'x' => ret := info.Do(i, Key(task, bodyId), Exec);
        case 'e' => ret := info.Do(i, Key(task, bodyId), End);
        case 'p' => ret := info.Do(i, Key(task, bodyId), Pause);
        case 'r' => ret := info.Do(i, Key(task, bodyId), Resume);
        case _ => return -1;
      }
      if ret != 0 {
        return -1;
      }
      OutcomeIs(kind, w, i, v, size, task, body);
    }

    /** update_task_ss_channel */
    method UpdateSsChannel(i: nat, v: char) returns (ret: int)
      requires i < |ch| && ChansOk(ch[i]) && Clean(ch[i])
      modifies this`ch
      ensures ret == if SsEffect(kind, old(ch[i][CH_SUBSYSTEM]), v).Fail? then -1 else 0
      ensures |ch| == |old(ch)| && (forall j :: 0 <= j < |ch| && j != i ==> ch[j] == old(ch[j]))
      ensures |ch[i]| == CH_MAX && forall x :: 0 <= x < CH_SUBSYSTEM ==> ch[i][x] == old(ch[i])[x]
      ensures ChansOk(ch[i]) && TaskClean(ch[i])
      ensures ret == 0 && v == 'x' ==> Read(ch[i][CH_SUBSYSTEM]) == Int(TaskBody(kind))
      ensures Steady(ch[i])
      ensures ret == 0 ==> SsMoved(kind, old(ch[i])[CH_SUBSYSTEM], ch[i][CH_SUBSYSTEM], v)
    {
      var e := if v == 'x' then Push(ch[i][CH_SUBSYSTEM], Int(TaskBody(kind)))
               else if v == 'e' then Pop(ch[i][CH_SUBSYSTEM], Int(TaskBody(kind)))
               else Ignored;
      match e {
        case Fail => return -1;
        case Ignored => return 0;
        case Write(d) =>
          ch := ch[i := ch[i][CH_SUBSYSTEM := d.(dirty := true)]];
          return 0;
      }
    }

    /** update_task_channels */
    method UpdateTaskChannels(i: nat, tr: char, prev: Option<Key>, next: Option<Key>) returns (ret: int)
      requires i < |ch| && ChansOk(ch[i]) && TaskClean(ch[i]) && Shows(kind, appid, rank, info.W(), ch[i], prev)
      requires next.Some? ==> next.value.task in info.tasks
      requires TransitionOk(kind, tr, prev, next) && Steady(ch[i])
      modifies this`ch
      ensures ret == if Showable(kind, appid, info.W(), next) then 0 else -1
      ensures |ch| == |old(ch)| && forall j :: 0 <= j < |ch| && j != i ==> ch[j] == old(ch[j])
      ensures ret == 0 ==> ChansOk(ch[i]) && Shows(kind, appid, rank, info.W(), ch[i], next)
                           && ch[i][CH_SUBSYSTEM] == old(ch[i])[CH_SUBSYSTEM] && Steady(ch[i])
    {
      if next.Some? {
        PaintShows(kind, appid, rank, info.W(), ch[i], next.value);
        PaintKeeps(kind, appid, rank, ch[i], next.value, Gid(info.W(), next.value.task));
      } else {
        PaintShows(kind, appid, rank, info.W(), ch[i], Key(0, 0));
        PaintKeeps(kind, appid, rank, ch[i], Key(0, 0), 0);
      }
      hide PaintTop, PaintNone, Steady;
      match tr {
        case 'x' | 'r' => ret := ChanRunning(i, next.value);
        case 'e' | 'p' => ret := ChanStopped(i);
        case 'X' | 'E' => ret := ChanSwitch(i, prev, next);
        case _ => return -1;
      }
      if ret != 0 {
        return -1;
      }
    }

    /** enforce_task_rules: it finds nothing wrong. */
    method EnforceTaskRules(i: nat, tr: char, next: Option<Key>) returns (ret: int)
      requires i < |ch| && |ch[i]| == CH_MAX
      requires tr == 'x' || tr == 'X' ==>
                 next.Some? && next.value in info.bodies && info.bodies[next.value].state == Running
                                          && Read(ch[i][CH_SUBSYSTEM]) == Int(TaskBody(kind))
      ensures ret == 0
    {
      if tr != 'x' && tr != 'X' {
        return 0;
      }
      if info.bodies[next.value].state != Running {
        return -1;
      }
      var ss := Read(ch[i][CH_SUBSYSTEM]);
      if ss.Int? && ss.i != TaskBody(kind) {
        return -1;
      }
      return 0;
    }

    /** update_task: exactly when it succeeds, and what the channels then show. */
    method UpdateTask(i: nat, v: char, size: int, task: nat, body: nat) returns (ret: int)
      requires Valid() && i < |ch|
      modifies this`ch, info`bodies, info`tasks, info`stacks, info`logs
      ensures info.Valid() && |ch| == |old(ch)| && (forall j :: 0 <= j < |ch| && j != i ==> ch[j] == old(ch[j]))
      ensures (ret == 0 || ret == -1)
              && (ret == 0 <==> CanUpdate(kind, appid, old(info.W()), old(ch[i]), i, v, size, task, body))
      ensures ret == 0 ==> ThreadOk(i) && Steady(ch[i])
      ensures ret == 0 ==> Outcome(kind, old(info.W()), info.W(), i, v, task, body)
      ensures ret == 0 ==> |old(ch)[i]| == CH_MAX && SsMoved(kind, old(ch)[i][CH_SUBSYSTEM], ch[i][CH_SUBSYSTEM], v)
      ensures ret == 0 ==> info.W() == TaskSpec.Apply(old(info.W()), i,
                                                      EventKey(kind, old(info.W()), size, task, body).value,
                                                        OpOf(v).value).0
    {
      ghost var w := info.W();
      ghost var k, op := EventKey(kind, w, size, task, body), OpOf(v);
      assert Inv(w);
      hide Inv, Logged, TaskSpec.Apply, ChansOk, Shows, KindOk, Clean, TaskClean, EventKey, Steady;
      hide CanUpdate, Outcome, SsMoved, SsEffect, Showable;
      SixChannels(ch[i]);
      CanUpdateIs(kind, appid, w, ch[i], i, v, size, task, body);
      CleanTasks(ch[i]);
      var prev := info.GetRunning(i);
      ret := UpdateTaskState(i, v, size, task, body);
      if ret != 0 {
        return -1;
      }
      Transition(kind, w, i, k.value, op.value, v);
      SameWorld(kind, appid, rank, w, info.W(), i, k.value, op.value, ch[i], prev);
      var next := info.GetRunning(i);
      ret := ChannelsFollow(i, v, prev, next);
    }

    /** The channels of update_task, once the task has changed. */
    method ChannelsFollow(i: nat, v: char, prev: Option<Key>, next: Option<Key>) returns (ret: int)
      requires i < |ch| && ChansOk(ch[i]) && Clean(ch[i]) && Shows(kind, appid, rank, info.W(), ch[i], prev)
      requires next.Some? ==> next.value.task in info.tasks
                              && next.value in info.bodies && info.bodies[next.value].state == Running
      requires var tr := Expand(v, prev.Some?, next.Some?); tr.Some? && TransitionOk(kind, tr.value, prev, next)
      modifies this`ch
      ensures |ch| == |old(ch)| && |old(ch)[i]| == CH_MAX
              && (forall j :: 0 <= j < |ch| && j != i ==> ch[j] == old(ch[j]))
      ensures ret == 0 || ret == -1
      ensures ret == 0 <==> !SsEffect(kind, old(ch)[i][CH_SUBSYSTEM], v).Fail? && Showable(kind, appid, info.W(), next)
      ensures ret == 0 ==> ChansOk(ch[i]) && Shows(kind, appid, rank, info.W(), ch[i], next) && Steady(ch[i])
      ensures ret == 0 ==> SsMoved(kind, old(ch)[i][CH_SUBSYSTEM], ch[i][CH_SUBSYSTEM], v)
    {
      CleanTasks(ch[i]);
      SixChannels(ch[i]);
      ghost var c := ch[i];
      OnlyEntered(v, prev, next);
      hide ChansOk, Shows, Clean, TaskClean, Steady, Showable, SsEffect, Expand, TransitionOk, SsMoved;
      ret := UpdateSsChannel(i, v);
      if ret != 0 {
        return -1;
      }
      SubsystemAside(kind, appid, rank, info.W(), c, ch[i], prev);
      var tr := Expand(v, prev.Some?, next.Some?);
      if tr.None? {
        return -1;
      }
      ret := UpdateTaskChannels(i, tr.value, prev, next);
      if ret != 0 {
        return -1;
      }
      SixChannels(ch[i]);
      ret := EnforceTaskRules(i, tr.value, next);
      if ret != 0 {
        return -1;
      }
    }

    /** The transitions x and X come from an execution, and there is a next body. */
    lemma {:induction false} OnlyEntered(v: char, prev: Option<Key>, next: Option<Key>)
      requires var tr := Expand(v, prev.Some?, next.Some?); tr.Some? && TransitionOk(kind, tr.value, prev, next)
      ensures var tr := Expand(v, prev.Some?, next.Some?); tr.value == 'x' || tr.value == 'X' ==> next.Some? && v == 'x'
    {
    }

    /** The flush of bay_propagate, for the channels of thread i. */
    method FlushChans(i: nat)
      requires i < |ch|
      modifies this`ch
      ensures |ch| == |old(ch)| && (forall j :: 0 <= j < |ch| && j != i ==> ch[j] == old(ch[j]))
      ensures |ch[i]| == |old(ch[i])|
      ensures forall x :: 0 <= x < |ch[i]| ==> ch[i][x] == if old(ch[i])[x].dirty then Flushed(old(ch[i])[x])
              else old(ch[i])[x]
    {
      var x := 0;
      while x < |ch[i]|
        invariant |ch| == |old(ch)| && |ch[i]| == |old(ch[i])| && x <= |ch[i]|
        invariant forall j :: 0 <= j < |ch| && j != i ==> ch[j] == old(ch[j])
        invariant forall y :: 0 <= y < |ch[i]| ==>
          ch[i][y] == if y < x && old(ch[i])[y].dirty then Flushed(old(ch[i])[y]) else old(ch[i])[y]
      {
        if ch[i][x].dirty {
          ch := ch[i := ch[i][x := Flushed(ch[i][x])]];
        }
        x := x + 1;
      }
    }

    /** pre_task, then the propagation: all threads show their running body again. */
    method TaskEvent(i: nat, v: char, size: int, task: nat, body: nat) returns (ret: int)
      requires Valid() && i < |ch|
      modifies this`ch, info`bodies, info`tasks, info`stacks, info`logs
      ensures (ret == 0 || ret == -1)
              && (ret == 0 <==> CanUpdate(kind, appid, old(info.W()), old(ch[i]), i, v, size, task, body))
      ensures |ch| == |old(ch)| && (ret == 0 ==> Valid())
      ensures ret == 0 ==> EventDone(kind, old(info.W()), info.W(), old(ch[i]), ch[i], i, v, size, task, body)
    {
      ghost var w := info.W();
      ghost var k, op := EventKey(kind, w, size, task, body), OpOf(v);
      assert Inv(w);
      hide Inv, Logged, TaskSpec.Apply, RunningTop, ThreadsOk, KindOk, ChansOk, Clean, Shows, Steady, CanUpdate;
      hide Outcome, SsMoved, EventShown, Flushed, EventDone, EventKey, OpOf;
      hide SsEffect, Showable;
      WithinBounds(kind, appid, rank, w, ch);
      CanUpdateIs(kind, appid, w, ch[i], i, v, size, task, body);
      ret := UpdateTask(i, v, size, task, body);
      if ret != 0 {
        return -1;
      }
      ghost var c := ch[i];
      FlushChans(i);
      FlushedThread(kind, appid, rank, info.W(), c, ch[i], RunningTop(info.W(), i));
      DoneIs(kind, appid, rank, w, info.W(), old(ch[i]), c, ch[i], i, v, size, task, body);
      OtherThreads(kind, appid, rank, w, info.W(), i, k.value, op.value, old(ch), ch);
    }

    /** create_task */
    method CreateTask(v: char, size: int, task: nat, typ: nat) returns (ret: int)
      requires Valid()
      modifies info`tasks
      ensures ret == 0 || ret == -1
      ensures ret == 0 <==>
                (if kind.Nosv? then size >= 8 else size == 8) && task !in old(info.tasks) && typ in info.types
      ensures if ret == 0 then task in info.tasks && info.tasks == old(info.tasks)[task := info.tasks[task]]
              else info.tasks == old(info.tasks)
      ensures ret == 0 ==> var x := info.tasks[task];
              && (x.parallel <==> kind.Nosv? && v == 'C') && (x.pause <==> !x.parallel)
              && (x.resurrect <==> kind.Nosv? && !x.parallel) && (x.relax <==> kind.Nanos6?)
              && x.gid == info.types[typ] && x.nbodies == 0
      ensures Valid()
    {
      ghost var w := info.W();
      if (if kind.Nosv? then size < 8 else size != 8) {
        return -1;
      }
      hide Inv, Logged;
      ret := info.Create(typ, task, CreateFlags(kind, v));
      if ret == 0 {
        forall j | 0 <= j < |ch| ensures Shows(kind, appid, rank, info.W(), ch[j], RunningTop(info.W(), j)) {
          NewTask(kind, appid, rank, w, info.W(), ch[j], j);
        }
      }
    }
  }

  /** An event of thread i changes nothing of what the other threads show. */
  lemma {:induction false} OtherThread(kind: Kind, appid: int, rank: int, w: World, r: World, i: nat, k: Key, op: Op,
                                       c: seq<Chan>, j: nat)
    requires Inv(w) && KindOk(kind, w) && k.task in w.tasks && i < |w.stacks| && j < |w.stacks| && j != i
    requires TaskSpec.Apply(w, i, k, op) == (r, 0) && Shows(kind, appid, rank, w, c, RunningTop(w, j))
    ensures Shows(kind, appid, rank, r, c, RunningTop(r, j)) && KindOk(kind, r) && |r.stacks| == |w.stacks|
  {
    Tops(w, i, k, op);
    SameTasks(kind, w, i, k, op);
  }

  lemma {:induction false} OtherThreads(kind: Kind, appid: int, rank: int, w: World, r: World, i: nat, k: Key, op: Op,
                                        ch: seq<seq<Chan>>, ch': seq<seq<Chan>>)
    requires Inv(w) && KindOk(kind, w) && k.task in w.tasks && i < |w.stacks| && TaskSpec.Apply(w, i, k, op) == (r, 0)
    requires ThreadsOk(kind, appid, rank, w, ch) && |ch'| == |ch| && forall j :: 0 <= j < |ch| && j != i ==>
               ch'[j] == ch[j]
    requires ChansOk(ch'[i]) && Clean(ch'[i]) && Shows(kind, appid, rank, r, ch'[i], RunningTop(r, i))
    ensures ThreadsOk(kind, appid, rank, r, ch') && KindOk(kind, r)
  {
    SameTasks(kind, w, i, k, op);
    Tops(w, i, k, op);
    hide TaskSpec.Apply, ChansOk, Clean, Shows, RunningTop, KindOk;
    forall j | 0 <= j < |ch'| && j != i ensures Shows(kind, appid, rank, r, ch'[j], RunningTop(r, j)) {
      OtherThread(kind, appid, rank, w, r, i, k, op, ch[j], j);
    }
  }

  lemma {:induction false} WithinBounds(kind: Kind, appid: int, rank: int, w: World, ch: seq<seq<Chan>>)
    requires ThreadsOk(kind, appid, rank, w, ch)
    ensures |ch| == |w.stacks| && forall i :: 0 <= i < |ch| ==> |ch[i]| == CH_MAX
  {
  }

  /** After the flush a thread shows the same, and is clean. */
  lemma {:induction false} FlushedThread(kind: Kind, appid: int, rank: int, w: World, c: seq<Chan>, d: seq<Chan>,
                                         top: Option<Key>)
    requires ChansOk(c) && Steady(c) && |d| == |c| && Shows(kind, appid, rank, w, c, top)
    requires forall x :: 0 <= x < |c| ==> d[x] == if c[x].dirty then Flushed(c[x]) else c[x]
    ensures ChansOk(d) && Clean(d) && Shows(kind, appid, rank, w, d, top)
  {
  }

  /** A new task changes nothing of what is shown. */
  lemma {:induction false} NewTask(kind: Kind, appid: int, rank: int, w: World, r: World, c: seq<Chan>, i: nat)
    requires Inv(w) && r.bodies == w.bodies && r.stacks == w.stacks && forall t :: t in w.tasks ==>
               t in r.tasks && r.tasks[t] == w.tasks[t]
    requires Shows(kind, appid, rank, w, c, RunningTop(w, i))
    ensures Shows(kind, appid, rank, r, c, RunningTop(r, i))
  {
    if RunningTop(w, i).Some? {
      TopListed(w, i);
    }
  }

  /** What the transition must be, given the running body before and after. */
  ghost predicate TransitionOk(kind: Kind, tr: char, prev: Option<Key>, next: Option<Key>) {
    match tr
    case 'x' => prev.None? && next.Some?
    case 'r' => prev.None? && next.Some?
    case 'e' => prev.Some? && next.None?
    case 'p' => prev.Some? && next.None?
    case 'X' => kind.Nanos6? && prev.Some? && next.Some? && prev.value.task != next.value.task
    case 'E' => kind.Nanos6? && prev.Some? && next.Some? && prev.value.task != next.value.task
    case _ => false
  }

  /** The transition of a successful event is consistent with the running body before and
      after it; nOS-V never nests. */
  lemma {:induction false} Transition(kind: Kind, w: World, i: nat, k: Key, op: Op, v: char)
    requires Inv(w) && KindOk(kind, w) && k.task in w.tasks && i < |w.stacks|
             && TaskSpec.Apply(w, i, k, op).1 == 0 && OpOf(v) == Some(op)
    ensures var r := TaskSpec.Apply(w, i, k, op).0;
            var prev, next := RunningTop(w, i), RunningTop(r, i);
            var tr := Expand(v, prev.Some?, next.Some?);
            && tr.Some? && TransitionOk(kind, tr.value, prev, next)
            && (next.Some? ==>
                  next.value in r.bodies && r.bodies[next.value].state.Running? && next.value.task in r.tasks)
            && (kind.Nosv? ==> tr.value != 'X' && tr.value != 'E')
  {
    var r := TaskSpec.Apply(w, i, k, op).0;
    var prev, next := RunningTop(w, i), RunningTop(r, i);
    Tops(w, i, k, op);
    ApplyKeeps(w, i, k, op);
    SameTasks(kind, w, i, k, op);
    NextListed(w, r, i);
    if kind.Nosv? {
      NoNesting(w, i, k, op);
    }
    if kind.Nanos6? && prev.Some? && next.Some? {
      TasksDiffer(r, prev.value, next.value);
    }
    hide *;
    WhichTransition(kind, v, op, k, prev, next);
  }

  lemma {:induction false} NextListed(w: World, r: World, i: nat)
    requires Inv(w) && Inv(r) && forall x :: x in w.bodies ==> x in r.bodies
    ensures var prev, next := RunningTop(w, i), RunningTop(r, i);
            && (next.Some? ==>
                  next.value in r.bodies && r.bodies[next.value].state.Running? && next.value.task in r.tasks)
            && (prev.Some? ==> prev.value in r.bodies)
  {
    if RunningTop(r, i).Some? {
      TopListed(r, i);
    }
    if RunningTop(w, i).Some? {
      TopListed(w, i);
    }
  }

  lemma {:induction false} WhichTransition(kind: Kind, v: char, op: Op, k: Key, prev: Option<Key>, next: Option<Key>)
    requires OpOf(v) == Some(op)
    requires op.Pause? || op.End? ==> prev == Some(k)
    requires op.Exec? || op.Resume? ==> prev != Some(k) && next == Some(k)
    requires (op.Resume? ==> prev == None) && (op.Pause? ==> next == None)
    requires kind.Nosv? ==> (op.Exec? ==> prev == None) && (op.End? ==> next == None)
    requires kind.Nanos6? && prev.Some? && next.Some? ==> prev.value.task != next.value.task
    ensures var tr := Expand(v, prev.Some?, next.Some?);
            tr.Some? && TransitionOk(kind, tr.value, prev, next) && (kind.Nosv? ==> tr.value != 'X' && tr.value != 'E')
  {
  }

  /** The old running body is shown as well in the new world. */
  lemma {:induction false} SameWorld(kind: Kind, appid: int, rank: int, w: World, r: World, i: nat, k: Key, op: Op,
                                     c: seq<Chan>, top: Option<Key>)
    requires k.task in w.tasks && i < |w.stacks| && r == TaskSpec.Apply(w, i, k, op).0 && KindOk(kind, w)
    ensures Shows(kind, appid, rank, w, c, top) ==> Shows(kind, appid, rank, r, c, top)
  {
    SameTasks(kind, w, i, k, op);
  }

  lemma {:induction false} CleanTasks(c: seq<Chan>)
    requires ChansOk(c) && Clean(c)
    ensures TaskClean(c)
  {
  }

  lemma {:induction false} SixChannels(c: seq<Chan>)
    requires ChansOk(c)
    ensures |c| == CH_MAX
  {
  }

  /** The subsystem is not one of the channels that show the body. */
  lemma {:induction false} SubsystemAside(kind: Kind, appid: int, rank: int, w: World, c: seq<Chan>, d: seq<Chan>,
                                          top: Option<Key>)
    requires |d| == CH_MAX && |c| == CH_MAX && forall x :: 0 <= x < CH_SUBSYSTEM ==> d[x] == c[x]
    ensures Shows(kind, appid, rank, w, c, top) ==> Shows(kind, appid, rank, w, d, top)
  {
  }

  lemma {:induction false} PaintKeeps(kind: Kind, appid: int, rank: int, c: seq<Chan>, k: Key, gid: int)
    requires |c| == CH_MAX
    ensures Steady(c) ==> Steady(PaintTop(kind, appid, rank, c, k, gid)) && Steady(PaintNone(kind, rank, c))
    ensures |PaintTop(kind, appid, rank, c, k, gid)| == |PaintNone(kind, rank, c)| == CH_MAX
    ensures PaintTop(kind, appid, rank, c, k, gid)[CH_SUBSYSTEM] == c[CH_SUBSYSTEM]
    ensures PaintNone(kind, rank, c)[CH_SUBSYSTEM] == c[CH_SUBSYSTEM]
  {
  }

  /** expand_transition_value; None stands for the error. */
  function Expand(v: char, wasRunning: bool, runsNow: bool): Option<char> {
    if v == 'X' || v == 'E' then None
    else if v == 'x' && wasRunning then Some('X')
    else if v == 'e' && runsNow then Some('E')
    else Some(v)
  }
}
