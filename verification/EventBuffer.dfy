/** The event buffer of a thread: events accumulate in memory and go to the stream file
    when the next one does not fit, which is itself recorded by a pair of events. */
module EventBuffer {
  import opened Event
  import opened Streams
  import opened Writer

  // ---------- what the stream holds, record by record ----------

  /** A record of the stream: emitted by the user or by the flush machinery. */
  datatype Item = User(ev: Ev) | Open(ev: Ev) | Close(ev: Ev)

  /** The records already on disk, those still in the buffer, and the clock readings taken. */
  datatype Log = Log(disk: seq<Item>, buf: seq<Item>, ticks: nat) {
    function All(): seq<Item> { disk + buf }
  }

  function Evs(items: seq<Item>): (r: seq<Ev>)
    ensures |r| == |items|
    ensures forall i :: 0 <= i < |items| ==> r[i] == items[i].ev
  {
    seq<Ev>(|items|, i requires 0 <= i < |items| => items[i].ev)
  }

  function Bytes(items: seq<Item>): seq<Byte> {
    Flatten(Evs(items))
  }

  lemma {:induction false} BytesConcat(a: seq<Item>, b: seq<Item>)
    ensures Bytes(a + b) == Bytes(a) + Bytes(b)
  {
    assert Evs(a + b) == Evs(a) + Evs(b);
    FlattenConcat(Evs(a), Evs(b));
  }

  lemma {:induction false} BytesOne(x: Item)
    ensures Bytes([x]) == x.ev
  {
    assert Evs([x]) == [x.ev];
    FlattenOne(x.ev);
  }

  lemma {:induction false} BytesEmpty()
    ensures Bytes([]) == []
  {
    assert Evs([]) == [];
  }

  // ---------- the buffer algorithm on records ----------

  /** The n-th reading of the 64-bit clock. */
  function Tick(clk: nat -> nat, n: nat): (t: nat)
    ensures t < Pow256(8)
  {
    clk(n) % Pow256(8)
  }

  function MarkEvent(v: char, t: nat): (e: Ev)
    requires t < Pow256(8) && (v as int) < 256
    ensures |e| == EV_HEADER_SIZE && Is(e, 'O', 'F', v)
  {
    RecordIsEvent(NewEvent(t, 'O', 'F', v));
    var e := Record(NewEvent(t, 'O', 'F', v));
    assert NewEvent(t, 'O', 'F', v).Bytes()[0] == 0;
    e
  }

  function OpenAt(t: nat): (x: Item)
    requires t < Pow256(8)
    ensures x.Open? && |x.ev| == EV_HEADER_SIZE && Is(x.ev, 'O', 'F', '[')
  {
    Open(MarkEvent('[', t))
  }

  function CloseAt(t: nat): (x: Item)
    requires t < Pow256(8)
    ensures x.Close? && |x.ev| == EV_HEADER_SIZE && Is(x.ev, 'O', 'F', ']')
  {
    Close(MarkEvent(']', t))
  }

  predicate Fits(w: Log, size: nat) {
    |Bytes(w.buf)| + size < MAX_EV_BUF
  }

  /** Everything in the buffer moves to disk, between two clock readings. */
  function Flushed(w: Log): Log {
    Log(w.disk + w.buf, [], w.ticks + 2)
  }

  function Appended(w: Log, x: Item): Log {
    Log(w.disk, w.buf + [x], w.ticks)
  }

  /** ovni_ev_add and the tail of ovni_ev_add_jumbo. */
  function Add(clk: nat -> nat, w: Log, x: Item): (r: Log)
    requires |x.ev| < MAX_EV_BUF
    ensures |Bytes(r.buf)| < MAX_EV_BUF
    ensures Fits(w, |x.ev|) ==> |Bytes(r.buf)| == |Bytes(w.buf)| + |x.ev|
    decreases if Fits(w, |x.ev|) then 0 else if |x.ev| <= 28 then 6 else 12
  {
    if Fits(w, |x.ev|) then
      BytesConcat(w.buf, [x]);
      BytesOne(x);
      Appended(w, x)
    else
      AddAfterFlush(clk, w, x)
  }

  /** The event goes first into the emptied buffer, the flush events follow. */
  function AddAfterFlush(clk: nat -> nat, w: Log, x: Item): (r: Log)
    requires |x.ev| < MAX_EV_BUF
    ensures |Bytes(r.buf)| < MAX_EV_BUF
    decreases if |x.ev| <= 28 then 5 else 11
  {
    BufferOfOne(Appended(Flushed(w), x), x);
    AddFlushEvents(clk, Appended(Flushed(w), x), Tick(clk, w.ticks), Tick(clk, w.ticks + 1))
  }

  function AddFlushEvents(clk: nat -> nat, w: Log, t0: nat, t1: nat): (r: Log)
    requires t0 < Pow256(8) && t1 < Pow256(8)
    ensures |Bytes(r.buf)| < MAX_EV_BUF
    decreases if Fits(w, 2 * EV_HEADER_SIZE) then 3 else 9
  {
    var a := Add(clk, w, OpenAt(t0));
    Add(clk, a, CloseAt(t1))
  }

  lemma {:induction false} AddAfterFlushIs(clk: nat -> nat, w: Log, x: Item, r: Log)
    requires |x.ev| < MAX_EV_BUF
    requires r == AddFlushEvents(clk, Appended(Flushed(w), x), Tick(clk, w.ticks), Tick(clk, w.ticks + 1))
    ensures r == AddAfterFlush(clk, w, x) && (!Fits(w, |x.ev|) ==> r == Add(clk, w, x))
  {
  }

  lemma {:induction false} BufferOfOne(w: Log, x: Item)
    requires w.buf == [] + [x]
    ensures |Bytes(w.buf)| == |x.ev|
  {
    assert [] + [x] == [x];
    BytesOne(x);
  }

  /** ovni_flush */
  function Flush(clk: nat -> nat, w: Log): (r: Log)
    ensures |Bytes(r.buf)| < MAX_EV_BUF
  {
    AddFlushEvents(clk, Flushed(w), Tick(clk, w.ticks), Tick(clk, w.ticks + 1))
  }

  /** What ovni_ev_add_jumbo demands, other than a ready thread. */
  predicate JumboAccepted(ev: EvStruct, buf: seq<Byte>)
    requires ev.Valid()
  {
    && !IsJumbo(ev.flags)
    && PayloadOf(ev) == []
    && EV_HEADER_SIZE + 4 + |buf| < MAX_EV_BUF
  }

  function JumboRecord(ev: EvStruct, buf: seq<Byte>): (e: Ev)
    requires ev.Valid() && JumboAccepted(ev, buf)
    ensures |e| == EV_HEADER_SIZE + 4 + |buf|
  {
    JumboIsEvent(ev, buf);
    JumboHeader(ev, |buf|) + buf
  }

  // ---------- the thread ----------

  class RThread {
    const evbuf: array<Byte>
    const clk: nat -> nat
    var evlen: nat
    var streamfd: seq<Byte>
    var ticks: nat
    var ready: bool
    ghost var log: Log

    ghost predicate Valid()
      reads this, evbuf
    {
      && evbuf.Length == MAX_EV_BUF
      && evlen < MAX_EV_BUF
      && ticks == log.ticks
      && streamfd == StreamHeader() + Bytes(log.disk)
      && evbuf[..evlen] == Bytes(log.buf)
    }

    /** ovni_thread_init, as far as the stream is concerned: write_stream_header. */
    constructor Init(clk: nat -> nat)
      ensures Valid() && fresh(evbuf) && this.clk == clk
      ensures log == Log([], [], 0) && ready
    {
      this.clk := clk;
      evbuf := new Byte[MAX_EV_BUF];
      evlen := 0;
      streamfd := [];
      ticks := 0;
      ready := true;
      log := Log([], [], 0);
      new;
      BytesEmpty();
      Append(StreamHeader());
      FlushEvbuf();
    }

    /** ovni_clock_now */
    method ClockNow() returns (t: nat)
      modifies this`ticks
      ensures t == Tick(clk, old(ticks)) == clk(old(ticks)) % 0x1_0000_0000_0000_0000 && ticks == old(ticks) + 1
    {
      Pow8();
      t := clk(ticks) % Pow256(8);
      ticks := ticks + 1;
    }

    /** memcpy to the end of the buffer */
    method Append(src: seq<Byte>)
      requires evbuf.Length == MAX_EV_BUF && evlen + |src| < MAX_EV_BUF
      modifies this`evlen, evbuf
      ensures evlen == old(evlen) + |src|
      ensures evbuf[..evlen] == old(evbuf[..evlen]) + src
    {
      forall i | 0 <= i < |src| {
        evbuf[evlen + i] := src[i];
      }
      evlen := evlen + |src|;
    }

    /** write_evbuf: the system may take any part of what is left. */
    method WriteEvbuf(size: nat)
      requires size <= evbuf.Length
      modifies this`streamfd
      ensures streamfd == old(streamfd) + evbuf[..size]
    {
      var written := 0;
      while written < size
        invariant 0 <= written <= size
        invariant streamfd == old(streamfd) + evbuf[..written]
      {
        var n :| 0 < n <= size - written;
        streamfd := streamfd + evbuf[written..written + n];
        assert evbuf[..written] + evbuf[written..written + n] == evbuf[..written + n];
        written := written + n;
      }
    }

    method FlushEvbuf()
      requires evbuf.Length == MAX_EV_BUF && evlen <= evbuf.Length
      modifies this`streamfd, this`evlen
      ensures evlen == 0
      ensures streamfd == old(streamfd) + old(evbuf[..evlen])
    {
      WriteEvbuf(evlen);
      evlen := 0;
    }

    /** The flush before an event that does not fit, between two clock readings. */
    method TimedFlush() returns (t0: nat, t1: nat)
      requires Valid()
      modifies this`ticks, this`evlen, this`streamfd, this`log
      ensures Valid() && evlen == 0
      ensures log == Flushed(old(log))
      ensures t0 == Tick(clk, old(log.ticks)) && t1 == Tick(clk, old(log.ticks) + 1)
    {
      hide Bytes, Pow256;
      BytesConcat(log.disk, log.buf);
      BytesEmpty();
      t0 := ClockNow();
      FlushEvbuf();
      t1 := ClockNow();
      log := Flushed(log);
    }

    /** The two copies that place an event at the end of the buffer. */
    method Place(head: seq<Byte>, tail: seq<Byte>, ghost x: Item)
      requires Valid() && head + tail == x.ev && evlen + |x.ev| < MAX_EV_BUF
      modifies this`evlen, this`log, evbuf
      ensures Valid()
      ensures log == Appended(old(log), x)
    {
      hide Bytes;
      BytesConcat(log.buf, [x]);
      BytesOne(x);
      Append(head);
      Append(tail);
      log := Appended(log, x);
    }

    /** What ovni_ev_add and ovni_ev_add_jumbo share: flush first if the event does not
        fit, copy it, and emit the flush events after it. */
    method AddBytes(head: seq<Byte>, tail: seq<Byte>, ghost x: Item)
      requires Valid() && ready && head + tail == x.ev && |x.ev| < MAX_EV_BUF
      modifies this, evbuf
      ensures Valid() && ready
      ensures log == Add(clk, old(log), x)
      decreases if Fits(log, |x.ev|) then 0 else if |x.ev| <= 28 then 6 else 12
    {
      hide AddFlushEvents, AddAfterFlush, Flushed;
      var size := |head| + |tail|;
      if evlen + size < MAX_EV_BUF {
        Place(head, tail, x);
      } else {
        FlushAndAdd(head, tail, x);
      }
    }

    method FlushAndAdd(head: seq<Byte>, tail: seq<Byte>, ghost x: Item)
      requires Valid() && ready && head + tail == x.ev && |x.ev| < MAX_EV_BUF
      modifies this, evbuf
      ensures Valid() && ready
      ensures log == AddAfterFlush(clk, old(log), x)
      decreases if |x.ev| <= 28 then 5 else 11
    {
      hide AddFlushEvents, AddAfterFlush;
      ghost var w := log;
      var t0, t1 := TimedFlush();
      Place(head, tail, x);
      ghost var l := log;
      assert l == Appended(Flushed(w), x);
      assert t0 == Tick(clk, w.ticks) && t1 == Tick(clk, w.ticks + 1);
      BufferOfOne(log, x);
      AddFlush(t0, t1);
      AddAfterFlushIs(clk, w, x, log);
    }

    /** ovni_ev_add; x says who emits the event. The result is false where the source
        aborts. */
    method EvAdd(ev: EvStruct, ghost x: Item) returns (ok: bool)
      requires Valid() && ev.Valid() && !IsJumbo(ev.flags) && x.ev == Record(ev)
      modifies this, evbuf
      ensures Valid() && ready == old(ready) && ok == ready
      ensures log == if ok then Add(clk, old(log), x) else old(log)
      decreases if Fits(log, |x.ev|) then 1 else 7
    {
      hide Add, Record, PayloadSize;
      if !ready {
        return false;
      }
      RecordIsEvent(ev);
      AddBytes(Record(ev), [], x);
      return true;
    }

    method AddFlush(t0: nat, t1: nat)
      requires Valid() && ready && t0 < Pow256(8) && t1 < Pow256(8)
      modifies this, evbuf
      ensures Valid() && ready
      ensures log == AddFlushEvents(clk, old(log), t0, t1)
      decreases if Fits(log, 2 * EV_HEADER_SIZE) then 3 else 9
    {
      hide Add, Bytes;
      var pre, post := NewEvent(t0, 'O', 'F', '['), NewEvent(t1, 'O', 'F', ']');
      var ok := EvAdd(pre, OpenAt(t0));
      ok := EvAdd(post, CloseAt(t1));
    }

    /** ovni_ev_add_jumbo */
    method EvAddJumbo(ev: EvStruct, buf: seq<Byte>, ghost x: Item) returns (ok: bool)
      requires Valid() && ev.Valid() && |buf| < 0x1_0000_0000
      requires JumboAccepted(ev, buf) ==> x == User(JumboRecord(ev, buf))
      modifies this, evbuf
      ensures Valid() && ready == old(ready)
      ensures ok == (ready && JumboAccepted(ev, buf))
      ensures log == if ok then Add(clk, old(log), x) else old(log)
    {
      hide Add;
      if !ready {
        return false;
      }
      if PayloadSize(ev.Bytes(), 0) != 0 {
        return false;
      }
      var e := PayloadAdd(ev, UintBytes(|buf|, 4));
      if e.None? {
        return false;
      }
      var evsize := e.value.Size();
      assert evsize == EV_HEADER_SIZE + 4 by {
        PayloadAddAppends(ev, UintBytes(|buf|, 4));
      }
      var totalsize := evsize + |buf|;
      if totalsize >= MAX_EV_BUF {
        return false;
      }
      AddBytes(JumboHeader(ev, |buf|), buf, x);
      return true;
    }

    /** ovni_flush */
    method OvniFlush() returns (ok: bool)
      requires Valid()
      modifies this, evbuf
      ensures Valid() && ready == old(ready) && ok == ready
      ensures log == if ok then Flush(clk, old(log)) else old(log)
    {
      hide AddFlushEvents, Bytes, Tick;
      if !ready {
        return false;
      }
      var t0, t1 := TimedFlush();
      AddFlush(t0, t1);
      return true;
    }
  }
}
