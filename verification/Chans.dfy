/** Channels: a value or a stack of values, with a duplicate check and a dirty mark. */
module Chans {
  /** Doubles are kept as their bits: values are compared byte by byte. */
  datatype Value = Null | Int(i: int) | Double(bits: int)

  const MAX_CHAN_STACK := 512

  datatype Chan = Chan(
    stack: bool,
    dirtyWrite: bool,
    allowDup: bool,
    ignoreDup: bool,
    dirty: bool,
    last: Value,
    single: Value,
    values: seq<Value>)

  /** chan_init */
  function NewChan(stack: bool): Chan {
    Chan(stack, false, false, false, false, Null, Null, [])
  }

  /** chan_read */
  function Read(c: Chan): Value {
    if !c.stack then c.single
    else if c.values == [] then Null
    else c.values[|c.values| - 1]
  }

  /** What writing does: an error, nothing, or a new content which makes the channel dirty. */
  datatype Effect = Fail | Ignored | Write(chan: Chan)

  predicate Locked(c: Chan) {
    c.dirty && !c.dirtyWrite
  }

  /** The duplicate check, against the last flushed value. */
  function DupCheck(c: Chan, v: Value, next: Effect): Effect {
    if !c.allowDup && c.last == v then (if c.ignoreDup then Ignored else Fail) else next
  }

  /** chan_set */
  function Set(c: Chan, v: Value): Effect {
    if c.stack || Locked(c) then Fail
    else DupCheck(c, v, Write(c.(single := v)))
  }

  /** chan_push */
  function Push(c: Chan, v: Value): Effect {
    if !c.stack || Locked(c) then Fail
    else DupCheck(c, v, if |c.values| >= MAX_CHAN_STACK then Fail else Write(c.(values := c.values + [v])))
  }

  /** chan_pop */
  function Pop(c: Chan, expected: Value): Effect {
    if !c.stack || Locked(c) || c.values == [] || c.values[|c.values| - 1] != expected then Fail
    else Write(c.(values := c.values[..|c.values| - 1]))
  }

  /** chan_flush on a dirty channel. */
  function Flushed(c: Chan): Chan {
    c.(last := Read(c), dirty := false)
  }
}
