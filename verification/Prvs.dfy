/** The Paraver writer: one line per change of a registered channel. */
module Prvs {
  import opened Wrappers
  import opened Chans

  datatype Flags = Flags(emitDup: bool, skipDup: bool, next: bool, zero: bool, skipDupNull: bool)

  datatype PrvChan = PrvChan(id: int, chan: nat, rowBase1: int, typ: int, flags: Flags, lastSet: bool, last: Value)

  datatype Line = Line(row: int, time: int, typ: int, value: int)

  /** check_flags */
  predicate LegalFlags(f: Flags) {
    !(f.emitDup && f.skipDupNull) && !(f.emitDup && f.skipDup) && !(f.skipDup && f.skipDupNull)
  }

  /** The number a value is written as; the channels can not hold it if there is none. */
  function Encode(f: Flags, v: Value): Option<int> {
    match v
    case Null => Some(0)
    case Double(_) => None
    case Int(i) =>
      var n := if f.next then i + 1 else i;
      if !f.zero && n == 0 then None else Some(n)
  }

  /** A reader of the trace: the value of a row and type after the lines. */
  function Replay(lines: seq<Line>, row: int, typ: int): Option<int> {
    if lines == [] then None
    else
      var l := lines[|lines| - 1];
      if l.row == row && l.typ == typ then Some(l.value) else Replay(lines[..|lines| - 1], row, typ)
  }

  lemma {:induction false} ReplaySnoc(lines: seq<Line>, l: Line, row: int, typ: int)
    ensures Replay(lines + [l], row, typ) == if l.row == row && l.typ == typ then Some(l.value)
            else Replay(lines, row, typ)
  {
    assert (lines + [l])[..|lines|] == lines;
  }

  /** What emit does with value v of a registered channel. */
  datatype Action = Refuse | Skip | Emit(value: int)

  function Decide(r: PrvChan, v: Value): Action {
    var dup := !r.flags.emitDup && r.lastSet && r.last == v;
    if dup && r.flags.skipDup then Skip
    else if dup && r.flags.skipDupNull && v.Null? then Skip
    else if dup && !r.flags.skipDupNull then Refuse
    else
      match Encode(r.flags, v)
      case None => Refuse
      case Some(n) => Emit(n)
  }

  /** Registered channel r cannot be written with value v of channel c: a duplicate that its flags
      do not pass over or let through, a real number, or a zero that they forbid. */
  ghost predicate Refuses(r: PrvChan, c: nat, v: Value) {
    var dup := !r.flags.emitDup && r.lastSet && r.last == v;
    && r.chan == c
    && !(dup && (r.flags.skipDup || (r.flags.skipDupNull && v.Null?)))
    && ((dup && !r.flags.skipDupNull) || v.Double?
        || (v.Int? && !r.flags.zero && v.i == (if r.flags.next then -1 else 0)))
  }

  lemma {:induction false} RefusesIs(r: PrvChan, c: nat, v: Value)
    ensures Refuses(r, c, v) <==> r.chan == c && Decide(r, v).Refuse?
  {
  }

  /** The lines that emitting value v adds for channel r: none for a duplicate passed over. */
  function LineOf(r: PrvChan, v: Value, time: int): seq<Line> {
    match Decide(r, v)
    case Emit(n) => [Line(r.rowBase1, time, r.typ, n)]
    case _ => []
  }

  /** The lines of all the registrations of channel c, in their order. */
  function NewLines(cs: seq<PrvChan>, c: nat, v: Value, time: int): seq<Line> {
    if cs == [] then []
    else
      var r := cs[|cs| - 1];
      NewLines(cs[..|cs| - 1], c, v, time) + if r.chan == c then LineOf(r, v, time) else []
  }

  lemma {:induction false} NoNewLines(c: nat, v: Value, time: int)
    ensures NewLines([], c, v, time) == []
  {
  }

  lemma {:induction false} NewLinesNext(cs: seq<PrvChan>, i: nat, c: nat, v: Value, time: int)
    requires i < |cs|
    ensures NewLines(cs[..i + 1], c, v, time)
            == NewLines(cs[..i], c, v, time) + if cs[i].chan == c then LineOf(cs[i], v, time) else []
  {
    assert cs[..i + 1][..i] == cs[..i];
  }

  /** Lines were only added, all at the given time. */
  ghost predicate AddedAt(lines0: seq<Line>, lines: seq<Line>, time: int) {
    |lines0| <= |lines| && lines[..|lines0|] == lines0 && forall k :: |lines0| <= k < |lines| ==> lines[k].time == time
  }

  lemma {:induction false} NewLinesAt(cs: seq<PrvChan>, c: nat, v: Value, time: int)
    ensures forall k :: 0 <= k < |NewLines(cs, c, v, time)| ==> NewLines(cs, c, v, time)[k].time == time
  {
    if cs != [] {
      NewLinesAt(cs[..|cs| - 1], c, v, time);
    }
  }

  lemma {:induction false} AddedThen(a: seq<Line>, b: seq<Line>, c: seq<Line>, time: int)
    ensures AddedAt(a, b, time) && AddedAt(b, c, time) ==> AddedAt(a, c, time)
    ensures AddedAt(a, a, time)
  {
    if AddedAt(a, b, time) && AddedAt(b, c, time) {
      assert c[..|a|] == c[..|b|][..|a|];
      forall k | |a| <= k < |c| ensures c[k].time == time {
        if k < |b| {
          assert c[k] == c[..|b|][k];
        }
      }
    }
  }

  /** The lines come in time order, none later than the current time. */
  ghost predicate InTime(lines: seq<Line>, time: int) {
    && (forall i, j :: 0 <= i < j < |lines| ==> lines[i].time <= lines[j].time)
    && (forall i :: 0 <= i < |lines| ==> lines[i].time <= time)
  }

  /** No two registered channels share a row and type. */
  ghost predicate Separate(nrows: int, cs: seq<PrvChan>) {
    && (forall i :: 0 <= i < |cs| ==> LegalFlags(cs[i].flags) && cs[i].id == cs[i].typ * nrows + cs[i].rowBase1 - 1)
    && (forall i, j :: 0 <= i < j < |cs| ==> cs[i].id != cs[j].id)
  }

  /** What the trace shows for channel i is the value it was last offered; the writer
      remembers that value exactly when it looks for duplicates. */
  ghost predicate Shows(lines: seq<Line>, c: PrvChan, seen: Option<Value>) {
    && (!c.flags.emitDup ==> c.lastSet == seen.Some?)
    && (!c.flags.emitDup && seen.Some? ==> c.last == seen.value)
    && (seen.Some? ==> Encode(c.flags, seen.value).Some?
                       && Replay(lines, c.rowBase1, c.typ) == Encode(c.flags, seen.value))
  }

  ghost predicate AllShow(lines: seq<Line>, cs: seq<PrvChan>, seen: seq<Option<Value>>) {
    |seen| == |cs| && forall i :: 0 <= i < |cs| ==> Shows(lines, cs[i], seen[i])
  }

  predicate NoDupFlags(f: Flags) {
    !f.emitDup && !f.skipDupNull
  }

  /** The values of the lines of a row and type. */
  function Project(lines: seq<Line>, row: int, typ: int): seq<int> {
    if lines == [] then []
    else
      var l := lines[|lines| - 1];
      Project(lines[..|lines| - 1], row, typ) + if l.row == row && l.typ == typ then [l.value] else []
  }

  lemma {:induction false} ProjectSnoc(lines: seq<Line>, l: Line, row: int, typ: int)
    ensures Project(lines + [l], row, typ) ==
            Project(lines, row, typ) + if l.row == row && l.typ == typ then [l.value] else []
  {
    assert (lines + [l])[..|lines|] == lines;
  }

  /** The channel values in log are those the lines of channel c were written for. Without
      duplicate flags, each differs from the one before it. */
  ghost predicate Logged(lines: seq<Line>, c: PrvChan, log: seq<Value>, seen: Option<Value>) {
    var p := Project(lines, c.rowBase1, c.typ);
    && |p| == |log|
    && (forall k :: 0 <= k < |log| ==> Encode(c.flags, log[k]) == Some(p[k]))
    && (log != [] ==> seen.Some? && (!c.flags.emitDup ==> seen.value == log[|log| - 1]))
    && (NoDupFlags(c.flags) ==> forall k :: 0 < k < |log| ==> log[k - 1] != log[k])
  }

  ghost predicate AllLogged(lines: seq<Line>, cs: seq<PrvChan>, logs: seq<seq<Value>>, seen: seq<Option<Value>>) {
    |logs| == |cs| == |seen| && forall i :: 0 <= i < |cs| ==> Logged(lines, cs[i], logs[i], seen[i])
  }

  /** The same registration: only the last value is the writer's own. */
  predicate SameReg(a: PrvChan, b: PrvChan) {
    b == a.(lastSet := b.lastSet, last := b.last)
  }

  ghost predicate SameRegs(cs: seq<PrvChan>, cs': seq<PrvChan>) {
    |cs'| == |cs| && forall i :: 0 <= i < |cs| ==> SameReg(cs[i], cs'[i])
  }

  /** What running the emit callbacks of channel c does to the channels of the trace. */
  ghost predicate EmittedBy(cs: seq<PrvChan>, cs': seq<PrvChan>, seen: seq<Option<Value>>, seen': seq<Option<Value>>,
                            c: nat, v: Value, ret: int) {
    && (ret == 0 || ret == -1)
    && (ret == -1 <==> exists i :: 0 <= i < |cs| && Refuses(cs[i], c, v))
    && |cs'| == |cs| == |seen|
    && SameRegs(cs, cs')
    && (forall i :: 0 <= i < |cs| && cs[i].chan != c ==> cs'[i] == cs[i])
    && (ret == 0 ==> |seen'| == |cs| && forall i :: 0 <= i < |cs| ==>
          seen'[i] == if cs[i].chan == c then Some(v) else seen[i])
  }

  class Prv {
    const nrows: int
    var time: int
    var channels: seq<PrvChan>
    var lines: seq<Line>
    /** For each channel, the value it was last offered; and the values written. */
    ghost var seen: seq<Option<Value>>
    ghost var logs: seq<seq<Value>>

    ghost predicate Valid()
      reads this
    {
      && Separate(nrows, channels) && InTime(lines, time) && AllShow(lines, channels, seen)
      && AllLogged(lines, channels, logs, seen) && (forall i :: 0 <= i < |lines| ==> Known(channels, lines[i]))
    }

    /** prv_open_file */
    constructor (nrows: int)
      ensures Valid() && this.nrows == nrows && time == 0 && channels == [] && lines == [] && seen == []
    {
      this.nrows := nrows;
      time, channels, lines, seen, logs := 0, [], [], [], [];
    }

    /** prv_register: row and type must be new, and the flags must agree. */
    method Register(row: int, typ: int, chan: nat, flags: Flags) returns (ret: int)
      requires Valid()
      modifies this`channels, this`seen, this`logs
      ensures Valid()
      ensures ret == 0 || ret == -1
      ensures ret == -1 <==>
                || (flags.emitDup && flags.skipDup) || (flags.emitDup && flags.skipDupNull)
                || (flags.skipDup && flags.skipDupNull)
                || exists i :: 0 <= i < |old(channels)| && old(channels)[i].id == typ * nrows + row
      ensures channels == if ret != 0 then old(channels)
                          else old(channels) + [PrvChan(typ * nrows + row, chan, row + 1, typ, flags, false, Null)]
      ensures seen == if ret == 0 then old(seen) + [None] else old(seen)
    {
      hide Shows, Logged;
      var id := typ * nrows + row;
      var i := 0;
      while i < |channels|
        invariant i <= |channels|
        invariant forall j :: 0 <= j < i ==> channels[j].id != id
      {
        if channels[i].id == id {
          return -1;
        }
        i := i + 1;
      }
      if !LegalFlags(flags) {
        return -1;
      }
      var c := PrvChan(id, chan, row + 1, typ, flags, false, Null);
      NewShows(nrows, channels, lines, c);
      channels := channels + [c];
      seen := seen + [None];
      logs := logs + [[]];
      return 0;
    }

    /** prv_advance */
    method Advance(t: int) returns (ret: int)
      requires Valid()
      modifies this`time
      ensures Valid()
      ensures ret == if t < old(time) then -1 else 0
      ensures time == if t < old(time) then old(time) else t
    {
      if t < time {
        return -1;
      }
      time := t;
      return 0;
    }

    /** emit: afterwards the trace shows the value of the channel. A duplicate that the flags pass
        over adds no line; otherwise null is written as zero, and a number as it is or one more. */
    method EmitValue(i: nat, v: Value) returns (ret: int)
      requires Valid() && i < |channels|
      modifies this`channels, this`lines, this`seen, this`logs
      ensures ret == if Refuses(old(channels)[i], old(channels)[i].chan, v) then -1 else 0
      ensures |channels| == |old(channels)| && SameReg(old(channels)[i], channels[i])
      ensures forall j :: 0 <= j < |channels| && j != i ==> channels[j] == old(channels)[j]
      ensures ret == 0 ==> Valid() && seen == old(seen)[i := Some(v)]
      ensures var r := old(channels)[i];
              var skip := !r.flags.emitDup && r.lastSet && r.last == v
                          && (r.flags.skipDup || (r.flags.skipDupNull && v.Null?));
              var n := match v case Int(x) => x + (if r.flags.next then 1 else 0) case _ => 0;
              && (skip || ret != 0 ==> lines == old(lines))
              && (!skip && ret == 0 ==> lines == old(lines) + [Line(r.rowBase1, time, r.typ, n)])
      ensures ret == 0 ==> lines == old(lines) + LineOf(old(channels)[i], v, time)
    {
      hide Valid, Separate, InTime, AllShow, AllLogged;
      ghost var cs0, seen0, lines0, logs0 := channels, seen, lines, logs;
      Facts();
      RefusesIs(channels[i], channels[i].chan, v);
      var r := channels[i];
      if !r.flags.emitDup {
        if r.lastSet && v == r.last {
          if r.flags.skipDup {
            Skipped(i, v);
            seen := seen[i := Some(v)];
            assert seen == seen0;
            return 0;
          } else if r.flags.skipDupNull {
            if v.Null? {
              Skipped(i, v);
              seen := seen[i := Some(v)];
              assert seen == seen0;
              return 0;
            }
          } else {
            return -1;
          }
        }
        r := r.(last := v, lastSet := true);
        channels := channels[i := r];
      }
      var val := 0;
      if v.Int? {
        val := v.i;
        if r.flags.next {
          val := val + 1;
        }
        if !r.flags.zero && val == 0 {
          return -1;
        }
      } else if !v.Null? {
        return -1;
      }
      lines := lines + [Line(r.rowBase1, time, r.typ, val)];
      seen := seen[i := Some(v)];
      logs := logs[i := logs[i] + [v]];
      Written(i, v, val, cs0, seen0, lines0, logs0);
      return 0;
    }

    /** The emit callbacks of channel c, in the order of registration. */
    method EmitChan(c: nat, v: Value) returns (ret: int)
      requires Valid()
      modifies this`channels, this`lines, this`seen, this`logs
      ensures EmittedBy(old(channels), channels, old(seen), seen, c, v, ret)
      ensures ret == 0 ==> Valid()
      ensures ret == 0 ==> lines == old(lines) + NewLines(old(channels), c, v, time)
      ensures ret == 0 ==> AddedAt(old(lines), lines, time)
    {
      hide Valid, Refuses, LineOf, NewLines;
      var i := 0;
      SeenLength();
      ghost var cs0 := channels;
      NoNewLines(c, v, time);
      assert cs0[..0] == [];
      while i < |channels|
        invariant i <= |channels| == |old(channels)| == |seen| == |old(seen)| && Valid()
        invariant SameRegs(old(channels), channels)
        invariant lines == old(lines) + NewLines(cs0[..i], c, v, time)
        invariant forall j :: 0 <= j < |channels| && (j >= i || channels[j].chan != c) ==>
                    channels[j] == old(channels)[j]
        invariant forall j :: 0 <= j < i ==> !Refuses(old(channels)[j], c, v)
        invariant forall j :: 0 <= j < |seen| ==>
                    seen[j] == if j < i && channels[j].chan == c then Some(v) else old(seen)[j]
      {
        NewLinesNext(cs0, i, c, v, time);
        RefusesIs(cs0[i], c, v);
        if channels[i].chan == c {
          var r := EmitValue(i, v);
          if r != 0 {
            assert Refuses(old(channels)[i], c, v);
            return -1;
          }
        }
        i := i + 1;
      }
      assert cs0[..i] == cs0;
      NewLinesAt(cs0, c, v, time);
      return 0;
    }

    lemma {:induction false} SeenLength()
      requires Valid()
      ensures |seen| == |channels|
    {
    }

    lemma {:induction false} Written(i: nat, v: Value, n: int, cs: seq<PrvChan>, seen0: seq<Option<Value>>,
                                     lines0: seq<Line>, logs0: seq<seq<Value>>)
      requires i < |cs| && Decide(cs[i], v) == Emit(n)
      requires Separate(nrows, cs) && InTime(lines0, time) && AllShow(lines0, cs, seen0)
      requires AllLogged(lines0, cs, logs0, seen0) && forall j :: 0 <= j < |lines0| ==> Known(cs, lines0[j])
      requires channels == cs[i := Noted(cs[i], v)]
      requires lines == lines0 + [Line(cs[i].rowBase1, time, cs[i].typ, n)]
      requires seen == seen0[i := Some(v)] && logs == logs0[i := logs0[i] + [v]]
      ensures Valid()
    {
      var l := lines[|lines0|];
      forall j | 0 <= j < |lines| ensures Known(channels, lines[j]) {
        if j < |lines0| {
          assert Known(cs, lines0[j]);
          var x :| 0 <= x < |cs| && cs[x].rowBase1 == lines0[j].row && cs[x].typ == lines0[j].typ;
          assert channels[x].rowBase1 == lines[j].row && channels[x].typ == lines[j].typ;
        } else {
          assert channels[i].rowBase1 == l.row;
        }
      }
      hide Known;
      LineShows(nrows, cs, seen0, lines0, i, v, l);
      LineLogged(nrows, cs, seen0, lines0, logs0, i, v, l);
      assert InTime(lines, time);
    }

    lemma {:induction false} Facts()
      requires Valid()
      ensures |seen| == |channels| == |logs|
      ensures Separate(nrows, channels) && InTime(lines, time) && AllShow(lines, channels, seen)
      ensures AllLogged(lines, channels, logs, seen) && forall j :: 0 <= j < |lines| ==> Known(channels, lines[j])
    {
    }

    lemma {:induction false} Skipped(i: nat, v: Value)
      requires Valid() && i < |channels| && Decide(channels[i], v).Skip?
      ensures seen[i] == Some(v)
    {
      assert Shows(lines, channels[i], seen[i]);
    }
  }

  /** A line belongs to some registered channel. */
  ghost predicate Known(cs: seq<PrvChan>, l: Line) {
    exists i :: 0 <= i < |cs| && cs[i].rowBase1 == l.row && cs[i].typ == l.typ
  }

  /** A channel just registered has no lines. */
  lemma {:induction false} NewShows(nrows: int, cs: seq<PrvChan>, lines: seq<Line>, c: PrvChan)
    requires !c.lastSet && forall i :: 0 <= i < |lines| ==> Known(cs, lines[i])
    requires Separate(nrows, cs + [c])
    ensures Shows(lines, c, None) && Logged(lines, c, [], None)
    ensures forall i :: 0 <= i < |lines| ==> Known(cs + [c], lines[i])
  {
    forall i | 0 <= i < |lines|
      ensures Known(cs + [c], lines[i]) && !(lines[i].row == c.rowBase1 && lines[i].typ == c.typ)
    {
      assert Known(cs, lines[i]);
      var x :| 0 <= x < |cs| && cs[x].rowBase1 == lines[i].row && cs[x].typ == lines[i].typ;
      assert (cs + [c])[x].rowBase1 == lines[i].row && (cs + [c])[x].typ == lines[i].typ;
      assert (cs + [c])[x].id != (cs + [c])[|cs|].id;
    }
    NoLines(lines, c.rowBase1, c.typ);
  }

  lemma {:induction false} NoLines(lines: seq<Line>, row: int, typ: int)
    requires forall i :: 0 <= i < |lines| ==> !(lines[i].row == row && lines[i].typ == typ)
    ensures Project(lines, row, typ) == []
  {
    if lines != [] {
      NoLines(lines[..|lines| - 1], row, typ);
    }
  }

  /** A registered channel after value v was written for it. */
  function Noted(c: PrvChan, v: Value): PrvChan {
    if c.flags.emitDup then c else c.(last := v, lastSet := true)
  }

  /** One more line shows its channel, and leaves what the others show. */
  lemma {:induction false} LineShows(nrows: int, cs: seq<PrvChan>, seen: seq<Option<Value>>, lines: seq<Line>,
                                     i: nat, v: Value, l: Line)
    requires i < |cs| && Separate(nrows, cs) && AllShow(lines, cs, seen)
    requires l.row == cs[i].rowBase1 && l.typ == cs[i].typ && Decide(cs[i], v) == Emit(l.value)
    ensures Separate(nrows, cs[i := Noted(cs[i], v)])
    ensures AllShow(lines + [l], cs[i := Noted(cs[i], v)], seen[i := Some(v)])
  {
    var ds, sn := cs[i := Noted(cs[i], v)], seen[i := Some(v)];
    forall j | 0 <= j < |ds| ensures Shows(lines + [l], ds[j], sn[j]) {
      ReplaySnoc(lines, l, ds[j].rowBase1, ds[j].typ);
      assert Shows(lines, cs[j], seen[j]);
      if j != i {
        assert cs[i].id != cs[j].id;
      }
    }
  }

  lemma {:induction false} LineLogged(nrows: int, cs: seq<PrvChan>, seen: seq<Option<Value>>, lines: seq<Line>,
                                      logs: seq<seq<Value>>, i: nat, v: Value, l: Line)
    requires i < |cs| && Separate(nrows, cs) && AllShow(lines, cs, seen) && AllLogged(lines, cs, logs, seen)
    requires l.row == cs[i].rowBase1 && l.typ == cs[i].typ && Decide(cs[i], v) == Emit(l.value)
    ensures AllLogged(lines + [l], cs[i := Noted(cs[i], v)], logs[i := logs[i] + [v]], seen[i := Some(v)])
  {
    var ds, sn, ls := cs[i := Noted(cs[i], v)], seen[i := Some(v)], logs[i := logs[i] + [v]];
    forall j | 0 <= j < |ds| ensures Logged(lines + [l], ds[j], ls[j], sn[j]) {
      ProjectSnoc(lines, l, ds[j].rowBase1, ds[j].typ);
      assert Shows(lines, cs[j], seen[j]) && Logged(lines, cs[j], logs[j], seen[j]);
      if j != i {
        assert cs[i].id != cs[j].id;
      }
    }
  }
}
