/** The runtime side: building events, and the per-thread event buffer that flushes
    itself to the stream file and records its own flushes. */
module Writer {
  import opened Wrappers
  import opened Event

  // ---------- building an event ----------

  /** struct ovni_ev: the header and the room for 16 bytes of payload. */
  datatype EvStruct = EvStruct(flags: Byte, model: Byte, category: Byte, value: Byte,
                               clock: nat, payload: seq<Byte>)
  {
    ghost predicate Valid() {
      |payload| == EV_PAYLOAD_SIZE && clock < Pow256(8)
    }

    function Bytes(): seq<Byte> {
      [flags, model, category, value] + UintBytes(clock, 8) + payload
    }

    function Size(): int {
      EvSize(Bytes(), 0)
    }
  }

  /** A zeroed event with its clock and MCV set. */
  function NewEvent(clock: nat, m: char, c: char, v: char): EvStruct
    requires (m as int) < 256 && (c as int) < 256 && (v as int) < 256
  {
    EvStruct(0, m as int, c as int, v as int, clock, seq<Byte>(EV_PAYLOAD_SIZE, i => 0))
  }

  /** ovni_payload_add: None where the source aborts. */
  function PayloadAdd(ev: EvStruct, data: seq<Byte>): Option<EvStruct>
    requires ev.Valid()
  {
    if IsJumbo(ev.flags) then None
    else if |data| < 2 then None
    else
      var n := PayloadSize(ev.Bytes(), 0);
      if n + |data| > EV_PAYLOAD_SIZE then None
      else Some(ev.(payload := ev.payload[..n] + data + ev.payload[n + |data|..],
                    flags := ev.flags - ev.flags % 16 + (n + |data| - 1) % 16))
  }

  /** The bytes of a normal event that reach the buffer. */
  function Record(ev: EvStruct): seq<Byte>
    requires ev.Valid() && !IsJumbo(ev.flags)
  {
    ev.Bytes()[..ev.Size()]
  }

  /** ovni_payload_size as set by ovni_payload_add, and what the payload then holds. */
  function PayloadOf(ev: EvStruct): seq<Byte>
    requires ev.Valid() && !IsJumbo(ev.flags)
  {
    ev.payload[..PayloadSize(ev.Bytes(), 0)]
  }

  lemma {:induction false} RecordIsEvent(ev: EvStruct)
    requires ev.Valid() && !IsJumbo(ev.flags)
    ensures IsEvent(Record(ev)) && |Record(ev)| <= EV_HEADER_SIZE + EV_PAYLOAD_SIZE
    ensures Record(ev)[EV_HEADER_SIZE..] == PayloadOf(ev)
    ensures Clock(Record(ev)) == ev.clock
    ensures Record(ev)[1] == ev.model && Record(ev)[2] == ev.category && Record(ev)[3] == ev.value
  {
    var b := ev.Bytes();
    assert b[0] == ev.flags == Record(ev)[0];
    assert Slice(Record(ev), 4, 8) == UintBytes(ev.clock, 8);
    UintRoundTrip(ev.clock, 8);
    assert b[EV_HEADER_SIZE..] == ev.payload;
  }

  /** The payload nibble round-trips: pieces accumulate, in order, up to 16 bytes, and
      nothing else of the event changes. */
  lemma {:induction false} PayloadAddAppends(ev: EvStruct, data: seq<Byte>)
    requires ev.Valid()
    ensures PayloadAdd(ev, data).Some? <==>
            !IsJumbo(ev.flags) && |data| >= 2 && |PayloadOf(ev)| + |data| <= EV_PAYLOAD_SIZE
    ensures PayloadAdd(ev, data).Some? ==>
              var r := PayloadAdd(ev, data).value;
              && r.Valid() && !IsJumbo(r.flags)
              && PayloadOf(r) == PayloadOf(ev) + data
              && r.clock == ev.clock && r.model == ev.model
              && r.category == ev.category && r.value == ev.value
              && r.flags / 16 == ev.flags / 16
  {
    assert ev.Bytes()[0] == ev.flags;
    if PayloadAdd(ev, data).Some? {
      var r := PayloadAdd(ev, data).value;
      assert r.Bytes()[0] == r.flags;
    }
  }

  /** A jumbo event: the 4-byte size as a normal payload, then the flag. */
  function JumboStruct(ev: EvStruct, n: nat): (q: EvStruct)
    requires ev.Valid() && PayloadAdd(ev, UintBytes(n, 4)).Some? && PayloadOf(ev) == []
    ensures q.Valid() && IsJumbo(q.flags) && q.payload[..4] == UintBytes(n, 4) && q.clock == ev.clock
    ensures q.model == ev.model && q.category == ev.category && q.value == ev.value
  {
    PayloadAddAppends(ev, UintBytes(n, 4));
    var e := PayloadAdd(ev, UintBytes(n, 4)).value;
    assert e.payload[..4] == PayloadOf(e)[..4] == UintBytes(n, 4);
    e.(flags := e.flags + EV_JUMBO)
  }

  /** The bytes of a jumbo event before its data. */
  function JumboHeader(ev: EvStruct, n: nat): seq<Byte>
    requires ev.Valid() && PayloadAdd(ev, UintBytes(n, 4)).Some? && PayloadOf(ev) == []
  {
    JumboStruct(ev, n).Bytes()[..EV_HEADER_SIZE + 4]
  }

  lemma {:induction false} JumboIsEvent(ev: EvStruct, data: seq<Byte>)
    requires ev.Valid() && !IsJumbo(ev.flags) && PayloadOf(ev) == [] && |data| < MAX_EV_BUF
    ensures PayloadAdd(ev, UintBytes(|data|, 4)).Some?
    ensures var e := JumboHeader(ev, |data|) + data;
            && IsEvent(e) && Clock(e) == ev.clock
            && |e| == EV_HEADER_SIZE + 4 + |data|
            && e[EV_HEADER_SIZE + 4..] == data
            && e[1] == ev.model && e[2] == ev.category && e[3] == ev.value
  {
    PayloadAddAppends(ev, UintBytes(|data|, 4));
    JumboLayout(JumboStruct(ev, |data|), data);
  }

  lemma {:induction false} JumboLayout(q: EvStruct, data: seq<Byte>)
    requires q.Valid() && IsJumbo(q.flags)
    requires |data| < MAX_EV_BUF && q.payload[..4] == UintBytes(|data|, 4)
    ensures var e := q.Bytes()[..EV_HEADER_SIZE + 4] + data;
            && IsEvent(e) && Clock(e) == q.clock
            && |e| == EV_HEADER_SIZE + 4 + |data|
            && e[EV_HEADER_SIZE + 4..] == data
            && e[1] == q.model && e[2] == q.category && e[3] == q.value
  {
    var e := q.Bytes()[..EV_HEADER_SIZE + 4] + data;
    assert e[0] == q.flags;
    assert Slice(e, 4, 8) == UintBytes(q.clock, 8);
    UintRoundTrip(q.clock, 8);
    assert Slice(e, EV_HEADER_SIZE, 4) == UintBytes(|data|, 4) by {
      assert e[EV_HEADER_SIZE..EV_HEADER_SIZE + 4] == q.payload[..4];
    }
    Pow4();
    UintRoundTrip(|data|, 4);
  }

  lemma {:induction false} Pow4()
    ensures Pow256(4) == 0x1_0000_0000
  {
    assert Pow256(2) == 256 * Pow256(1);
    assert Pow256(3) == 256 * Pow256(2);
  }

  lemma {:induction false} Pow8()
    ensures Pow256(8) == 0x1_0000_0000_0000_0000
  {
    Pow4();
    assert Pow256(6) == 256 * Pow256(5);
    assert Pow256(7) == 256 * Pow256(6);
  }
}
