/** The start of emu_step: the next event of the merge, and the trace moved to its time. */
module Replay {
  import opened PlayerSpec
  import opened Player
  import opened Prvs

  /** An event, the end of all streams, or one of the two errors. */
  datatype StepResult = NextEvent | NoMore | PlayerFailed | TraceRefused

  /** The trace is at the time of the last event; before the first one it is at its start. */
  ghost predicate AtTime(cl: Clocks, time: int) {
    if cl.first then time <= 0 else time == cl.deltaclock
  }

  /** The next event is earlier than the last one. */
  ghost predicate BackInTime(cl0: Clocks, cl: Clocks) {
    !cl0.first && cl.lastclock < cl0.lastclock
  }

  /** The next event is taken, and the trace advances to it. The trace refuses the time exactly
      when the player lets an earlier event through; in sorted mode that never happens. */
  method StepAndAdvance(player: Player, prv: Prv) returns (ret: StepResult)
    requires player.Valid() && prv.Valid() && AtTime(player.ClocksOf(), prv.time)
    modifies player`stream, player`firstEvent, player`firstclock, player`lastclock, player`deltaclock, player`nprocessed
    modifies player`st, player`out, player.heap, player.nodes
    modifies player.streams`offset, player.streams`cur, player.streams`active, player.streams`lastclock,
             player.streams`deltaclock
    modifies prv`time
    ensures ret.PlayerFailed? <==>
            old(player.stream) != -1 && Refused(player.inp, old(player.st.ss), old(player.st.loaded),
                                                old(player.st.cur))
    ensures !ret.PlayerFailed? ==> player.Valid() && prv.Valid()
    ensures !ret.PlayerFailed? ==>
              Took(player.inp, old(player.out), old(player.ClocksOf()), player.out, player.ClocksOf(), player.stream,
                   if ret.NoMore? then 1 else 0)
    ensures ret.NextEvent? || ret.NoMore? ==> AtTime(player.ClocksOf(), prv.time)
    ensures !ret.PlayerFailed? ==>
              (ret.TraceRefused? <==> !ret.NoMore? && BackInTime(old(player.ClocksOf()), player.ClocksOf()))
    ensures !player.unsorted ==> !ret.TraceRefused?
  {
    hide *;
    ghost var cl0, out0, time0 := player.ClocksOf(), player.out, prv.time;
    ClocksAgree(player);
    var r := player.PlayerStep();
    TookOnly(player.inp, out0, cl0, player.out, player.ClocksOf(), player.stream, r);
    if r < 0 {
      return PlayerFailed;
    }
    StepTimes(player.inp, out0, cl0, player.out, player.ClocksOf(), player.stream, r, time0);
    if r > 0 {
      return NoMore;
    }
    DeltaOf(player);
    var a := prv.Advance(player.deltaclock);
    return if a != 0 then TraceRefused else NextEvent;
  }

  lemma {:induction false} TookOnly(inp: Input, out0: seq<Output>, cl0: Clocks, out: seq<Output>, cl: Clocks,
                                    stream: int, ret: int)
    ensures Took(inp, out0, cl0, out, cl, stream, ret) ==> ret == 0 || ret == 1
  {
  }

  lemma {:induction false} StepTimes(inp: Input, out0: seq<Output>, cl0: Clocks, out: seq<Output>, cl: Clocks,
                                     stream: int, ret: int, time: int)
    requires Took(inp, out0, cl0, out, cl, stream, ret) && AtTime(cl0, time) && Consistent(cl0)
    ensures ret == 0 || ret == 1
    ensures ret == 1 ==> AtTime(cl, time)
    ensures ret == 0 ==> AtTime(cl, cl.deltaclock) && (cl.deltaclock < time <==> BackInTime(cl0, cl))
    ensures ret == 0 && !inp.unsorted ==> !BackInTime(cl0, cl)
  {
  }

  ghost predicate Consistent(cl: Clocks) {
    !cl.first ==> cl.deltaclock == cl.lastclock - cl.firstclock
  }

  lemma {:induction false} DeltaOf(player: Player)
    ensures player.ClocksOf().deltaclock == player.deltaclock
  {
  }

  lemma {:induction false} ClocksAgree(player: Player)
    requires player.Valid()
    ensures player.inp.unsorted == player.unsorted
    ensures Consistent(player.ClocksOf())
  {
  }
}
