/** The forward reader of a binary stream. */
module Streams {
  import opened Event

  const STREAM_VERSION := 1
  const MAGIC: seq<Byte> := [0x6f, 0x76, 0x6e, 0x69]  // "ovni"

  function StreamHeader(): (h: seq<Byte>)
    ensures |h| == STREAM_HEADER_SIZE
  {
    MAGIC + UintBytes(STREAM_VERSION, 4)
  }

  datatype EvPtr = Null | At(addr: int)

  /** The fields of a stream other than its mapped bytes. */
  datatype StreamState = StreamState(
    size: int,
    offset: int,
    cur: EvPtr,
    active: bool,
    unsorted: bool,
    clockOffset: int,
    lastclock: int,
    deltaclock: int)

  function CorrectedClock(b: seq<Byte>, s: StreamState, o: int): int {
    ToInt64(EvClock(b, o)) + s.clockOffset
  }

  function CheckHeader(b: seq<Byte>): bool {
    && |b| >= STREAM_HEADER_SIZE
    && b[..4] == MAGIC
    && UintAt(b, 4, 4) == STREAM_VERSION
  }

  /** The state right after the stream file is mapped. */
  function Loaded(b: seq<Byte>): StreamState {
    StreamState(|b|, STREAM_HEADER_SIZE, Null, STREAM_HEADER_SIZE < |b|, false, 0, 0, 0)
  }

  function Step(b: seq<Byte>, s: StreamState): (StreamState, int) {
    if !s.active then
      (s, -1)
    else
      var off := if s.cur.Null? then s.offset else s.offset + EvSize(b, s.cur.addr);
      if s.cur.At? && off > s.size then
        (s.(offset := off), -1)
      else if s.cur.At? && off == s.size then
        (s.(offset := off, active := false, cur := Null), 1)
      else
        var t := s.(offset := off, cur := At(off));
        var clock := CorrectedClock(b, t, off);
        if off + EvSize(b, off) > s.size then
          (t, -1)
        else if !s.unsorted && clock < s.lastclock then
          (t, -1)
        else
          (t.(deltaclock := clock - s.lastclock, lastclock := clock), 0)
  }

  class Stream {
    var buf: array<Byte>
    var size: int
    var offset: int
    var cur: EvPtr
    var active: bool
    var unsorted: bool
    var clockOffset: int
    var lastclock: int
    var deltaclock: int

    function State(): StreamState
      reads this
    {
      StreamState(size, offset, cur, active, unsorted, clockOffset, lastclock, deltaclock)
    }

    constructor Load(file: array<Byte>)
      requires CheckHeader(file[..])
      ensures buf == file && State() == Loaded(file[..])
    {
      buf := file;
      size := file.Length;
      offset := STREAM_HEADER_SIZE;
      cur := Null;
      active := STREAM_HEADER_SIZE < file.Length;
      unsorted := false;
      clockOffset, lastclock, deltaclock := 0, 0, 0;
    }

    /** stream_allow_unsorted */
    method AllowUnsorted()
      modifies this`unsorted
      ensures unsorted
    {
      unsorted := true;
    }

    /** stream_clkoff_set: only before the first event and only once. */
    method SetClockOffset(off: int) returns (ret: int)
      modifies this`clockOffset
      ensures ret == if cur != Null || old(clockOffset) != 0 then -1 else 0
      ensures clockOffset == if ret == 0 then off else old(clockOffset)
    {
      if cur != Null || clockOffset != 0 {
        return -1;
      }
      clockOffset := off;
      return 0;
    }

    /** stream_step */
    method StepStream() returns (ret: int)
      modifies this`offset, this`cur, this`active, this`lastclock, this`deltaclock
      ensures (State(), ret) == Step(buf[..], old(State()))
    {
      hide EvSize, EvClock, ToInt64;
      if !active {
        return -1;
      }
      if cur.At? {
        var size0 := EvSize(buf[..], cur.addr);
        offset := offset + size0;
        if offset > size {
          return -1;
        }
        if offset == size {
          active := false;
          cur := Null;
          return 1;
        }
      }
      cur := At(offset);
      var evsize := EvSize(buf[..], offset);
      if offset + evsize > size {
        return -1;
      }
      var clock := CorrectedClock(buf[..], State(), offset);
      if !unsorted {
        if clock < lastclock {
          return -1;
        }
      }
      deltaclock := clock - lastclock;
      lastclock := clock;
      return 0;
    }

    /** stream_progress: the bytes of the events before event k, and of all events; they are the
        same exactly when the stream has ended. */
    method Progress(ghost evs: seq<Ev>, ghost k: nat) returns (done: int, total: int)
      requires Holds(buf[..], evs) && Reached(buf[..], State(), evs, k)
      ensures done == |Flatten(evs[..k])| && total == |Flatten(evs)|
      ensures done == total <==> !active
    {
      done := offset - STREAM_HEADER_SIZE;
      total := size - STREAM_HEADER_SIZE;
      FileEnd(buf[..], evs);
      OffEnd(evs);
      if k < |evs| {
        OffStrict(evs, k, |evs|);
      }
    }
  }

  // ---------- reading a well-formed stream ----------

  /** The file b is a stream header followed by the events evs and nothing else. */
  ghost predicate Holds(b: seq<Byte>, evs: seq<Ev>) {
    CheckHeader(b) && b[STREAM_HEADER_SIZE..] == Flatten(evs)
  }

  /** The file position of event k. */
  ghost function Pos(evs: seq<Ev>, k: nat): nat
    requires k <= |evs|
  {
    STREAM_HEADER_SIZE + Off(evs, k)
  }

  /** The stream has loaded event k. */
  ghost predicate OnEvent(b: seq<Byte>, s: StreamState, evs: seq<Ev>, k: nat) {
    && k < |evs|
    && s.active
    && s.size == |b|
    && s.offset == Pos(evs, k)
    && s.cur == At(s.offset)
  }

  /** The stream is about to load event k: it is on the previous one or at the start. */
  ghost predicate Before(b: seq<Byte>, s: StreamState, evs: seq<Ev>, k: nat) {
    if k == 0 then
      && s.active && s.size == |b| && s.offset == STREAM_HEADER_SIZE && s.cur == Null
      && |evs| > 0
    else
      OnEvent(b, s, evs, k - 1)
  }

  ghost predicate AtEnd(b: seq<Byte>, s: StreamState) {
    !s.active && s.size == |b| && s.offset == |b| && s.cur == Null
  }

  /** The stream has read the events before event k: it is on that one, or at the start, or at
      the end. */
  ghost predicate Reached(b: seq<Byte>, s: StreamState, evs: seq<Ev>, k: nat) {
    if k < |evs| then OnEvent(b, s, evs, k) || (k == 0 && Before(b, s, evs, 0))
    else k == |evs| && AtEnd(b, s)
  }

  /** What the file holds at the position of event k. */
  lemma {:induction false} EventInFile(b: seq<Byte>, evs: seq<Ev>, k: nat)
    requires Holds(b, evs) && k < |evs|
    ensures Pos(evs, k) + |evs[k]| == Pos(evs, k + 1) <= |b|
    ensures b[Pos(evs, k)..Pos(evs, k + 1)] == evs[k]
    ensures EvSize(b, Pos(evs, k)) == |evs[k]|
    ensures EvClock(b, Pos(evs, k)) == Clock(evs[k])
    ensures forall m, c, v :: HasMcv(b, Pos(evs, k), m, c, v) == Is(evs[k], m, c, v)
  {
    RecordAt(evs, k);
    var p := Pos(evs, k);
    assert b[p..p + |evs[k]|] == b[STREAM_HEADER_SIZE..][Off(evs, k)..Off(evs, k + 1)];
    EventAt(b, p, evs[k]);
  }

  lemma {:induction false} FileEnd(b: seq<Byte>, evs: seq<Ev>)
    requires Holds(b, evs)
    ensures Pos(evs, |evs|) == |b|
  {
    OffEnd(evs);
  }

  ghost function Corrected(s: StreamState, e: Ev): int {
    ToInt64(Clock(e)) + s.clockOffset
  }

  /** One step over a well-formed stream: it loads exactly the next event, refuses it
      exactly when the clock goes backwards, and ends exactly on the last byte. */
  lemma {:induction false} StepWellFormed(b: seq<Byte>, s: StreamState, evs: seq<Ev>, k: nat)
    requires Holds(b, evs) && k <= |evs| && Before(b, s, evs, k)
    ensures var (t, ret) := Step(b, s);
            if k == |evs| then
              ret == 1 && AtEnd(b, t) && t.lastclock == s.lastclock
            else if !s.unsorted && ToInt64(Clock(evs[k])) + s.clockOffset < s.lastclock then
              ret == -1
            else
              && ret == 0
              && OnEvent(b, t, evs, k)
              && t.lastclock == ToInt64(Clock(evs[k])) + s.clockOffset && t.deltaclock == t.lastclock - s.lastclock
              && EvSize(b, t.offset) == |evs[k]| && t.offset + |evs[k]| <= |b|
              && b[t.offset..t.offset + |evs[k]|] == evs[k]
    ensures var t := Step(b, s).0; t.unsorted == s.unsorted && t.clockOffset == s.clockOffset
  {
    hide EvSize, EvClock, Clock, PayloadSize, Holds, Is, HasMcv, ToInt64;
    if k > 0 {
      EventInFile(b, evs, k - 1);
    } else {
      assert evs[..0] == [];
    }
    FileEnd(b, evs);
    if k < |evs| {
      EventInFile(b, evs, k);
      OffStrict(evs, k, |evs|);
    }
  }

  /** A file that ends inside event e: the step that should load it fails, in either mode. */
  lemma {:induction false} CutEvent(b: seq<Byte>, s: StreamState, evs: seq<Ev>, e: Ev, n: nat)
    requires 0 < n < |e| && |b| >= STREAM_HEADER_SIZE && b[STREAM_HEADER_SIZE..] == Flatten(evs) + e[..n]
    requires Before(b, s, evs + [e], |evs|)
    ensures Step(b, s).1 == -1
  {
    hide Flatten, EvSize, EvClock, Clock, ToInt64, Off;
    CutPlaces(b, evs, e, n);
    CutSize(b, Pos(evs, |evs|), e, n);
    if evs == [] {
      assert evs[..0] == [] && Off(evs, 0) == 0 by {
        NoOffset(evs);
      }
    } else {
      CutLast(b, evs, e, n);
    }
  }

  lemma {:induction false} NoOffset(evs: seq<Ev>)
    ensures Off(evs, 0) == 0
  {
    assert evs[..0] == [];
  }

  lemma {:induction false} CutPlaces(b: seq<Byte>, evs: seq<Ev>, e: Ev, n: nat)
    requires n < |e| && |b| >= STREAM_HEADER_SIZE && b[STREAM_HEADER_SIZE..] == Flatten(evs) + e[..n]
    ensures Pos(evs, |evs|) + n == |b| && b[Pos(evs, |evs|)..] == e[..n]
  {
    OffEnd(evs);
    hide Flatten;
    assert b[Pos(evs, |evs|)..] == b[STREAM_HEADER_SIZE..][|Flatten(evs)|..];
  }

  /** The last event before the cut is where and what it would be. */
  lemma {:induction false} CutLast(b: seq<Byte>, evs: seq<Ev>, e: Ev, n: nat)
    requires n < |e| && |b| >= STREAM_HEADER_SIZE && b[STREAM_HEADER_SIZE..] == Flatten(evs) + e[..n] && evs != []
    ensures var k := |evs| - 1;
            && Pos(evs + [e], k) + |evs[k]| == Pos(evs, |evs|) && EvSize(b, Pos(evs + [e], k)) == |evs[k]|
  {
    hide Flatten, EvSize, EvClock, Clock;
    var k := |evs| - 1;
    assert (evs + [e])[..k] == evs[..k];
    RecordAt(evs, k);
    OffEnd(evs);
    var f, o := b[STREAM_HEADER_SIZE..], Pos(evs, k);
    PrefixSlice(Flatten(evs), e[..n], Off(evs, k), Off(evs, k + 1));
    SliceOfSlice(b, STREAM_HEADER_SIZE, |b|, Off(evs, k), Off(evs, k + 1));
    assert b[STREAM_HEADER_SIZE..|b|] == f;
    EventAt(b, o, evs[k]);
  }

  lemma {:induction false} PrefixSlice<T>(a: seq<T>, c: seq<T>, i: nat, j: nat)
    requires i <= j <= |a|
    ensures (a + c)[i..j] == a[i..j]
  {
  }

  /** What is left of an event says a size beyond the end of the file. */
  lemma {:induction false} CutSize(b: seq<Byte>, o: nat, e: Ev, n: nat)
    requires 0 < n < |e| && o + n == |b| && b[o..] == e[..n]
    ensures o + EvSize(b, o) > |b|
  {
    assert ByteAt(b, o) == e[0] by {
      assert b[o] == b[o..][0];
    }
    if IsJumbo(e[0]) {
      CutWord(b, o, e, n);
      EventLayout(e);
      assert UintAt(e, EV_HEADER_SIZE, 4) == Event.Word(e, EV_HEADER_SIZE) by {
        assert Slice(e, EV_HEADER_SIZE, 4) == e[EV_HEADER_SIZE..EV_HEADER_SIZE + 4];
        LittleEndian(e[EV_HEADER_SIZE..EV_HEADER_SIZE + 4]);
      }
      hide UintAt, IsEvent;
    }
  }

  lemma {:induction false} CutWord(b: seq<Byte>, o: nat, e: Ev, n: nat)
    requires 0 < n < |e| && o + n == |b| && b[o..] == e[..n] && |e| >= EV_HEADER_SIZE + 4
    ensures UintAt(b, o + EV_HEADER_SIZE, 4) <= UintAt(e, EV_HEADER_SIZE, 4)
    ensures n >= EV_HEADER_SIZE + 4 ==> UintAt(b, o + EV_HEADER_SIZE, 4) == UintAt(e, EV_HEADER_SIZE, 4)
  {
    var p, q := Slice(b, o + EV_HEADER_SIZE, 4), Slice(e, EV_HEADER_SIZE, 4);
    forall i | 0 <= i < 4
      ensures p[i] <= q[i] && (n >= EV_HEADER_SIZE + 4 ==> p[i] == q[i])
    {
      if EV_HEADER_SIZE + i < n {
        assert b[o + EV_HEADER_SIZE + i] == b[o..][EV_HEADER_SIZE + i] == e[EV_HEADER_SIZE + i];
      }
    }
    LittleEndian(p);
    LittleEndian(q);
    assert n >= EV_HEADER_SIZE + 4 ==> p == q;
    hide UintOf, Slice;
  }

  /** The state after n calls. */
  function StepMany(b: seq<Byte>, s: StreamState, n: nat): StreamState {
    if n == 0 then s else Step(b, StepMany(b, s, n - 1)).0
  }

  /** The clock the reader compares event k with. */
  ghost function ClockBefore(s: StreamState, evs: seq<Ev>, k: nat): int
    requires k < |evs|
  {
    if k == 0 then s.lastclock else Corrected(s, evs[k - 1])
  }

  /** The clocks the reader compares: never negative, never going backwards. */
  ghost predicate ClocksAccepted(s: StreamState, evs: seq<Ev>) {
    s.unsorted ||
    forall i :: 0 <= i < |evs| ==> ClockBefore(s, evs, i) <= Corrected(s, evs[i])
  }

  /** Stepping a freshly loaded stream decodes its events one by one, then ends. */
  lemma {:induction false} ReadsAll(b: seq<Byte>, s: StreamState, evs: seq<Ev>, k: nat)
    requires Holds(b, evs) && Before(b, s, evs, 0) && ClocksAccepted(s, evs)
    requires k < |evs|
    ensures Step(b, StepMany(b, s, k)).1 == 0
    ensures var t := StepMany(b, s, k + 1);
            && OnEvent(b, t, evs, k)
            && EvSize(b, t.offset) == |evs[k]| && t.offset + |evs[k]| <= |b|
              && b[t.offset..t.offset + |evs[k]|] == evs[k]
            && t.lastclock == Corrected(s, evs[k])
            && t.unsorted == s.unsorted && t.clockOffset == s.clockOffset
  {
    hide Step, Holds, EvSize, Clock, ToInt64;
    if k > 0 {
      ReadsAll(b, s, evs, k - 1);
    }
    var t := StepMany(b, s, k);
    assert s.unsorted || ClockBefore(s, evs, k) <= Corrected(s, evs[k]);
    StepWellFormed(b, t, evs, k);
  }

  lemma {:induction false} ReadsToTheEnd(b: seq<Byte>, s: StreamState, evs: seq<Ev>)
    requires Holds(b, evs) && Before(b, s, evs, 0) && ClocksAccepted(s, evs)
    ensures Step(b, StepMany(b, s, |evs|)).1 == 1
    ensures AtEnd(b, StepMany(b, s, |evs| + 1))
  {
    ReadsAll(b, s, evs, |evs| - 1);
    StepWellFormed(b, StepMany(b, s, |evs|), evs, |evs|);
  }

  /** If the reader accepts the events up to k, then the clock of k does not go back. */
  lemma {:induction false} AcceptedSoFar(b: seq<Byte>, s: StreamState, evs: seq<Ev>, k: nat)
    requires Holds(b, evs) && Before(b, s, evs, 0) && k < |evs|
    requires forall j :: 0 <= j <= k ==> Step(b, StepMany(b, s, j)).1 == 0
    ensures s.unsorted || ClockBefore(s, evs, k) <= Corrected(s, evs[k])
    ensures var t := StepMany(b, s, k + 1);
            && OnEvent(b, t, evs, k) && t.lastclock == Corrected(s, evs[k])
            && t.unsorted == s.unsorted && t.clockOffset == s.clockOffset
  {
    hide Step, Holds, EvSize, Clock, ToInt64;
    if k > 0 {
      AcceptedSoFar(b, s, evs, k - 1);
    }
    var t := StepMany(b, s, k);
    assert Step(b, t).1 == 0;
    StepWellFormed(b, t, evs, k);
  }

  /** Every call returns an event. */
  ghost predicate AllAccepted(b: seq<Byte>, s: StreamState, evs: seq<Ev>) {
    forall k :: 0 <= k < |evs| ==> Step(b, StepMany(b, s, k)).1 == 0
  }

  /** A reader accepts every event exactly when the clocks it compares never go back. */
  lemma {:induction false} ReaderExact(b: seq<Byte>, s: StreamState, evs: seq<Ev>)
    requires Holds(b, evs) && Before(b, s, evs, 0)
    ensures AllAccepted(b, s, evs) <==> ClocksAccepted(s, evs)
  {
    if ClocksAccepted(s, evs) {
      forall k | 0 <= k < |evs| ensures Step(b, StepMany(b, s, k)).1 == 0 {
        ReadsAll(b, s, evs, k);
      }
    }
    if AllAccepted(b, s, evs) && !s.unsorted {
      forall i | 0 <= i < |evs| ensures ClockBefore(s, evs, i) <= Corrected(s, evs[i]) {
        AcceptedSoFar(b, s, evs, i);
      }
    }
  }
}
