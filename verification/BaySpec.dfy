/** The patch bay: channels, callbacks between them, and multiplexers. */
module BaySpec {
  import opened Sequences
  import opened Chans

  /** A dirty callback: the select callback of a mux or that of one of its inputs. */
  datatype Cb = Select(mux: nat) | Input(mux: nat, index: nat)

  /** What a select function answers for a key. */
  datatype Choice = Fails | Nothing | Picks(index: nat)

  datatype Mux = Mux(select: nat, output: nat, inputs: seq<nat>, choose: Value -> Choice, def: Value)

  datatype Phase = Ready | Propagating | Emitting | Flushing

  /** The fields of the bay that change: the phase, the channels, the dirty list, the list of
      enabled dirty callbacks of each channel, the enabled flags, and mux->selected. */
  datatype Bay = Bay(
    phase: Phase,
    chans: seq<Chan>,
    dirty: seq<nat>,
    cbs: seq<seq<Cb>>,
    enabled: set<Cb>,
    selected: seq<int>)

  /** default_select, for a mux with n inputs */
  function DefaultSelect(n: nat, key: Value): Choice {
    match key
    case Null => Nothing
    case Double(_) => Fails
    case Int(i) => if i < 0 || i >= n then Fails else Picks(i)
  }

  predicate IsCb(w: seq<Mux>, cb: Cb) {
    cb.mux < |w| && (cb.Input? ==> cb.index < |w[cb.mux].inputs|)
  }

  /** The channel a callback listens to. */
  function ChanOf(w: seq<Mux>, cb: Cb): nat
    requires IsCb(w, cb)
  {
    if cb.Select? then w[cb.mux].select else w[cb.mux].inputs[cb.index]
  }

  /** What mux_init and mux_set_input check, and all inputs set. */
  ghost predicate Wired(w: seq<Mux>, n: nat) {
    forall m :: 0 <= m < |w| ==> WiredMux(w[m], n)
  }

  ghost predicate WiredMux(x: Mux, n: nat) {
    && x.select < n && x.output < n && x.select != x.output && |x.inputs| > 0
    && (forall i :: 0 <= i < |x.inputs| ==> x.inputs[i] < n && x.inputs[i] != x.output)
    && (forall v :: x.choose(v).Picks? ==> x.choose(v).index < |x.inputs|)
  }

  // ---------- the operations ----------

  /** cb_chan_is_dirty, through set_dirty */
  function SetDirty(b: Bay, c: nat): (Bay, int)
    requires c < |b.chans|
  {
    if b.chans[c].dirty then
      (b, if b.chans[c].dirtyWrite then 0 else -1)
    else
      var d := b.(chans := b.chans[c := b.chans[c].(dirty := true)]);
      if b.phase != Ready && b.phase != Propagating then (d, -1) else (d.(dirty := b.dirty + [c]), 0)
  }

  /** A write to channel c with the given effect. */
  function Apply(b: Bay, c: nat, e: Effect): (Bay, int)
    requires c < |b.chans|
  {
    match e
    case Fail => (b, -1)
    case Ignored => (b, 0)
    case Write(x) => SetDirty(b.(chans := b.chans[c := x]), c)
  }

  /** DL_DELETE */
  function Delete(l: seq<Cb>, x: Cb): seq<Cb> {
    if l == [] then [] else if l[0] == x then l[1..] else [l[0]] + Delete(l[1..], x)
  }

  /** bay_enable_cb */
  function Enable(w: seq<Mux>, b: Bay, cb: Cb): Bay
    requires IsCb(w, cb) && ChanOf(w, cb) < |b.cbs|
  {
    var c := ChanOf(w, cb);
    if cb in b.enabled then b
    else b.(enabled := b.enabled + {cb}, cbs := b.cbs[c := b.cbs[c] + [cb]])
  }

  /** bay_disable_cb */
  function Disable(w: seq<Mux>, b: Bay, cb: Cb): Bay
    requires IsCb(w, cb) && ChanOf(w, cb) < |b.cbs|
  {
    var c := ChanOf(w, cb);
    if cb !in b.enabled then b
    else b.(enabled := b.enabled - {cb}, cbs := b.cbs[c := Delete(b.cbs[c], cb)])
  }

  // ---------- the structure that every operation keeps ----------

  /** The dirty list holds each dirty channel exactly once. */
  ghost predicate DirtyExact(b: Bay) {
    && NoDup(b.dirty)
    && (forall c :: c in b.dirty ==> c < |b.chans| && b.chans[c].dirty)
    && (forall c :: 0 <= c < |b.chans| && b.chans[c].dirty ==> c in b.dirty)
  }

  /** The callback lists hold each enabled callback exactly once. */
  ghost predicate CbsExact(w: seq<Mux>, b: Bay) {
    && |b.cbs| == |b.chans|
    && (forall cb :: cb in b.enabled ==> IsCb(w, cb) && ChanOf(w, cb) < |b.cbs| && cb in b.cbs[ChanOf(w, cb)])
    && (forall c :: 0 <= c < |b.cbs| ==> ListExact(w, b, c))
  }

  ghost predicate ListExact(w: seq<Mux>, b: Bay, c: nat)
    requires c < |b.cbs|
  {
    NoDup(b.cbs[c]) && forall cb :: cb in b.cbs[c] ==> cb in b.enabled && IsCb(w, cb) && ChanOf(w, cb) == c
  }

  /** The select callback of every mux is enabled, and at most the input that it has
      selected; a mux that has selected something has enabled it (live), or is untouched. */
  ghost predicate MuxesExact(w: seq<Mux>, b: Bay, live: set<nat>) {
    && |b.selected| == |w|
    && forall m :: 0 <= m < |w| ==> MuxExact(w, b, live, m)
  }

  ghost predicate MuxExact(w: seq<Mux>, b: Bay, live: set<nat>, m: nat)
    requires m < |w| == |b.selected|
  {
    && -1 <= b.selected[m] < |w[m].inputs|
    && Select(m) in b.enabled
    && (forall i :: Input(m, i) in b.enabled <==> m in live && b.selected[m] == i)
    && w[m].output < |b.chans|
    && var o := b.chans[w[m].output]; !o.stack && o.dirtyWrite && o.allowDup
  }

  ghost predicate Struct(w: seq<Mux>, b: Bay, live: set<nat>) {
    Wired(w, |b.chans|) && DirtyExact(b) && CbsExact(w, b) && MuxesExact(w, b, live)
  }

  // ---------- what a mux should show ----------

  /** The selected input is that which the select function gives for the current key. */
  ghost predicate Chosen(w: seq<Mux>, b: Bay, m: nat) {
    && m < |w| == |b.selected| && w[m].select < |b.chans|
    && match w[m].choose(Read(b.chans[w[m].select]))
       case Fails => false
       case Nothing => b.selected[m] == -1
       case Picks(i) => b.selected[m] == i
  }

  /** The value the output of mux m should have, given its selected input. */
  ghost function Shown(w: seq<Mux>, b: Bay, m: nat): Value {
    if m < |w| && m < |b.selected| && 0 <= b.selected[m] < |w[m].inputs| && w[m].inputs[b.selected[m]] < |b.chans|
    then Read(b.chans[w[m].inputs[b.selected[m]]])
    else if m < |w| then w[m].def else Null
  }

  ghost predicate Right(w: seq<Mux>, b: Bay, m: nat) {
    Chosen(w, b, m) && w[m].output < |b.chans| && Read(b.chans[w[m].output]) == Shown(w, b, m)
  }

  /** What a reader of the wiring alone expects of mux m, with no mention of how the bay keeps
      it: the value of the input that the key picks, or the default. */
  ghost predicate Reflects(w: seq<Mux>, chans: seq<Chan>, m: nat)
    requires m < |w| && WiredMux(w[m], |chans|)
  {
    match w[m].choose(Read(chans[w[m].select]))
    case Fails => false
    case Nothing => Read(chans[w[m].output]) == w[m].def
    case Picks(i) => Read(chans[w[m].output]) == Read(chans[w[m].inputs[i]])
  }

  lemma {:induction false} RightReflects(w: seq<Mux>, b: Bay, m: nat)
    requires Right(w, b, m) && WiredMux(w[m], |b.chans|)
    ensures Reflects(w, b.chans, m)
  {
  }

  // ---------- channel writes ----------

  /** Writing the output of a mux never fails while propagating. */
  lemma {:induction false} OutputSet(w: seq<Mux>, b: Bay, live: set<nat>, m: nat, v: Value)
    requires Struct(w, b, live) && m < |w| && b.phase == Propagating
    ensures MuxExact(w, b, live, m)
    ensures var o := w[m].output; var (d, ret) := Apply(b, o, Set(b.chans[o], v));
            && ret == 0
            && d == b.(chans := b.chans[o := b.chans[o].(single := v, dirty := true)],
                       dirty := if b.chans[o].dirty then b.dirty else b.dirty + [o])
  {
    assert MuxExact(w, b, live, m);
  }

  lemma {:induction false} SetDirtyExact(b: Bay, c: nat)
    requires DirtyExact(b) && c < |b.chans| && (b.phase == Ready || b.phase == Propagating)
    ensures DirtyExact(SetDirty(b, c).0)
  {
    var d := SetDirty(b, c).0;
    if !b.chans[c].dirty {
      assert d.dirty == b.dirty + [c];
    }
  }

  /** Whatever is written to a channel, the structure stays. */
  lemma {:induction false} ApplyKeeps(w: seq<Mux>, b: Bay, live: set<nat>, c: nat, e: Effect)
    requires Struct(w, b, live) && c < |b.chans| && (b.phase == Ready || b.phase == Propagating)
    requires e.Write? ==> e.chan.dirty == b.chans[c].dirty && e.chan.dirtyWrite == b.chans[c].dirtyWrite
                          && e.chan.allowDup == b.chans[c].allowDup && e.chan.stack == b.chans[c].stack
    ensures Struct(w, Apply(b, c, e).0, live)
  {
    if e.Write? {
      var b1 := b.(chans := b.chans[c := e.chan]);
      assert DirtyExact(b1);
      SetDirtyExact(b1, c);
      ChansOnly(w, b, Apply(b, c, e).0, live);
    }
  }

  /** The callbacks and muxes look at the channels only for the properties of the outputs. */
  lemma {:induction false} ChansOnly(w: seq<Mux>, b: Bay, d: Bay, live: set<nat>)
    requires Wired(w, |b.chans|) && CbsExact(w, b) && MuxesExact(w, b, live)
    requires d.cbs == b.cbs && d.enabled == b.enabled && d.selected == b.selected && |d.chans| == |b.chans|
    requires forall c :: 0 <= c < |b.chans| ==>
      d.chans[c].stack == b.chans[c].stack && d.chans[c].dirtyWrite == b.chans[c].dirtyWrite
      && d.chans[c].allowDup == b.chans[c].allowDup
    ensures Wired(w, |d.chans|) && CbsExact(w, d) && MuxesExact(w, d, live)
  {
    forall c | 0 <= c < |d.cbs| ensures ListExact(w, d, c) {
      assert ListExact(w, b, c);
    }
    forall m | 0 <= m < |w| ensures MuxExact(w, d, live, m) {
      assert MuxExact(w, b, live, m);
    }
  }

  // ---------- callback lists ----------

  lemma {:induction false} NoDupSplit<T>(a: seq<T>, b: seq<T>)
    requires NoDup(a + b)
    ensures NoDup(a) && NoDup(b) && forall x :: x in a ==> x !in b
  {
    var l := a + b;
    forall i, j | 0 <= i < j < |a| ensures a[i] != a[j] {
      assert l[i] == a[i] && l[j] == a[j];
    }
    forall i, j | 0 <= i < j < |b| ensures b[i] != b[j] {
      assert l[|a| + i] == b[i] && l[|a| + j] == b[j];
    }
    forall i, j | 0 <= i < |a| && 0 <= j < |b| ensures a[i] != b[j] {
      assert l[i] == a[i] && l[|a| + j] == b[j];
    }
  }

  lemma {:induction false} DeleteIs(l: seq<Cb>, x: Cb)
    requires NoDup(l)
    ensures NoDup(Delete(l, x))
    ensures forall y :: y in Delete(l, x) <==> y in l && y != x
    ensures x !in l ==> Delete(l, x) == l
  {
    if l != [] {
      assert l == [l[0]] + l[1..];
      NoDupSplit([l[0]], l[1..]);
      assert l[0] in [l[0]];
      DeleteIs(l[1..], x);
    }
  }

  lemma {:induction false} DeleteAppend(a: seq<Cb>, b: seq<Cb>, x: Cb)
    requires NoDup(a + b)
    ensures Delete(a + b, x) == Delete(a, x) + Delete(b, x)
  {
    if a == [] {
      assert a + b == b;
    } else {
      assert (a + b)[1..] == a[1..] + b;
      NoDupSplit(a, b);
      if a[0] == x {
        DeleteAbsent(b, x);
      } else {
        assert a + b == [a[0]] + (a[1..] + b);
        NoDupSplit([a[0]], a[1..] + b);
        DeleteAppend(a[1..], b, x);
      }
    }
  }

  lemma {:induction false} DeleteAbsent(l: seq<Cb>, x: Cb)
    requires x !in l
    ensures Delete(l, x) == l
  {
    if l != [] {
      DeleteAbsent(l[1..], x);
    }
  }

  // ---------- the select callback ----------

  /** The first half of cb_select, up to the new selected input. */
  function Reselect(w: seq<Mux>, b: Bay, m: nat, pick: Choice): Bay
    requires m < |w| == |b.selected| && WiredMux(w[m], |b.cbs|) && b.selected[m] < |w[m].inputs|
    requires pick.Picks? ==> pick.index < |w[m].inputs|
  {
    var b1 := if b.selected[m] >= 0
        then Disable(w, b, Input(m, b.selected[m])).(selected := b.selected[m := -1]) else b;
    if pick.Picks? then Enable(w, b1, Input(m, pick.index)).(selected := b1.selected[m := pick.index]) else b1
  }

  /** cb_select */
  function RunSelect(w: seq<Mux>, b: Bay, m: nat): (Bay, int)
    requires m < |w| == |b.selected| && |b.chans| == |b.cbs| && WiredMux(w[m], |b.chans|)
             && b.selected[m] < |w[m].inputs|
  {
    var pick := w[m].choose(Read(b.chans[w[m].select]));
    var d := Reselect(w, b, m, pick);
    if pick.Fails? then (d, -1)
    else
      var v := if pick.Picks? then Read(b.chans[w[m].inputs[pick.index]]) else w[m].def;
      Apply(d, w[m].output, Set(d.chans[w[m].output], v))
  }

  /** cb_input */
  function RunInput(w: seq<Mux>, b: Bay, m: nat, i: nat): (Bay, int)
    requires m < |w| && WiredMux(w[m], |b.chans|) && i < |w[m].inputs|
  {
    var o := w[m].output;
    Apply(b, o, Set(b.chans[o], Read(b.chans[w[m].inputs[i]])))
  }

  /** The callback that leaves a list, and those that join, when mux m is selected again. */
  function Joins(w: seq<Mux>, m: nat, pick: Choice, c: nat): seq<Cb>
    requires m < |w| && (pick.Picks? ==> pick.index < |w[m].inputs|)
  {
    if pick.Picks? && w[m].inputs[pick.index] == c then [Input(m, pick.index)] else []
  }

  /** What selecting mux m again changes: its input callbacks and mux->selected. */
  ghost predicate Reselected(w: seq<Mux>, b: Bay, d: Bay, m: nat, pick: Choice)
    requires m < |w| && (pick.Picks? ==> pick.index < |w[m].inputs|)
  {
    && d.phase == b.phase && d.chans == b.chans && d.dirty == b.dirty && |d.cbs| == |b.cbs|
    && m < |b.selected| && d.selected == b.selected[m := if pick.Picks? then pick.index else -1]
    && (forall i :: Input(m, i) in d.enabled <==> pick == Picks(i))
    && (forall cb: Cb :: (cb.Select? || cb.mux != m) ==> (cb in d.enabled <==> cb in b.enabled))
    && forall c :: 0 <= c < |b.cbs| ==> d.cbs[c] == Without(b.cbs[c], m, b.selected[m]) + Joins(w, m, pick, c)
  }

  function Without(l: seq<Cb>, m: nat, i: int): seq<Cb> {
    if i >= 0 then Delete(l, Input(m, i)) else l
  }

  lemma {:induction false} ReselectLists(w: seq<Mux>, b: Bay, live: set<nat>, m: nat, pick: Choice)
    requires Wired(w, |b.chans|) && CbsExact(w, b) && MuxesExact(w, b, live)
    requires m < |w| && (pick.Picks? ==> pick.index < |w[m].inputs|)
    ensures MuxExact(w, b, live, m) && WiredMux(w[m], |b.chans|)
    ensures Reselected(w, b, Reselect(w, b, m, pick), m, pick)
  {
    assert MuxExact(w, b, live, m);
    var old' := b.selected[m];
    if old' >= 0 {
      forall c | 0 <= c < |b.cbs|
        ensures Disable(w, b, Input(m, old')).cbs[c] == Delete(b.cbs[c], Input(m, old'))
      {
        assert ListExact(w, b, c);
        DeleteIs(b.cbs[c], Input(m, old'));
      }
    }
  }

  lemma {:induction false} WithoutIs(w: seq<Mux>, b: Bay, live: set<nat>, m: nat, c: nat)
    requires CbsExact(w, b) && m < |w| == |b.selected| && MuxExact(w, b, live, m) && c < |b.cbs|
    ensures var l := Without(b.cbs[c], m, b.selected[m]);
            && NoDup(l) && forall cb :: cb in l <==> cb in b.cbs[c] && (cb.Select? || cb.mux != m)
  {
    assert ListExact(w, b, c);
    if b.selected[m] >= 0 {
      DeleteIs(b.cbs[c], Input(m, b.selected[m]));
    }
  }

  lemma {:induction false} ReselectedList(w: seq<Mux>, b: Bay, d: Bay, live: set<nat>, m: nat, pick: Choice, c: nat)
    requires CbsExact(w, b) && m < |w| == |b.selected| && MuxExact(w, b, live, m) && c < |b.cbs|
    requires (pick.Picks? ==> pick.index < |w[m].inputs|) && Reselected(w, b, d, m, pick)
    ensures ListExact(w, d, c)
  {
    WithoutIs(w, b, live, m, c);
    assert ListExact(w, b, c);
    hide NoDup, Without, CbsExact, MuxExact;
    NoDupSnoc(Without(b.cbs[c], m, b.selected[m]), Joins(w, m, pick, c));
  }

  lemma {:induction false} NoDupSnoc<T>(l: seq<T>, t: seq<T>)
    requires NoDup(l) && |t| <= 1 && (t != [] ==> t[0] !in l)
    ensures NoDup(l + t)
  {
  }

  lemma {:induction false} ReselectedCb(w: seq<Mux>, b: Bay, d: Bay, live: set<nat>, m: nat, pick: Choice, cb: Cb)
    requires CbsExact(w, b) && m < |w| == |b.selected| && MuxExact(w, b, live, m) && WiredMux(w[m], |b.chans|)
    requires (pick.Picks? ==> pick.index < |w[m].inputs|) && Reselected(w, b, d, m, pick) && cb in d.enabled
    ensures IsCb(w, cb) && ChanOf(w, cb) < |d.cbs| && cb in d.cbs[ChanOf(w, cb)]
  {
    if cb.Input? && cb.mux == m {
      assert pick == Picks(cb.index);
      assert cb in Joins(w, m, pick, ChanOf(w, cb));
    } else {
      WithoutIs(w, b, live, m, ChanOf(w, cb));
    }
  }

  lemma {:induction false} ReselectKeeps(w: seq<Mux>, b: Bay, live: set<nat>, m: nat, pick: Choice)
    requires Struct(w, b, live) && m < |w| && (pick.Picks? ==> pick.index < |w[m].inputs|)
    ensures b.selected[m] < |w[m].inputs| && Struct(w, Reselect(w, b, m, pick), live + {m})
  {
    ReselectLists(w, b, live, m, pick);
    var d := Reselect(w, b, m, pick);
    assert DirtyExact(d) by { SameDirty(b, d); }
    assert |d.cbs| == |d.chans|;
    assert MuxExact(w, b, live, m);
    hide Reselect, Wired, DirtyExact;
    forall c | 0 <= c < |d.cbs| ensures ListExact(w, d, c) {
      ReselectedList(w, b, d, live, m, pick, c);
    }
    forall cb | cb in d.enabled ensures IsCb(w, cb) && ChanOf(w, cb) < |d.cbs| && cb in d.cbs[ChanOf(w, cb)] {
      ReselectedCb(w, b, d, live, m, pick, cb);
    }
    hide CbsExact, ListExact;
    forall x | 0 <= x < |w| ensures MuxExact(w, d, live + {m}, x) {
      assert MuxExact(w, b, live, x);
    }
  }

  lemma {:induction false} SameDirty(b: Bay, d: Bay)
    requires DirtyExact(b) && d.dirty == b.dirty && d.chans == b.chans
    ensures DirtyExact(d)
  {
  }

  /** What cb_select does while propagating: it fails exactly when the select function does;
      otherwise the mux is right, and only its output channel has changed. */
  lemma {:induction false} SelectKeeps(w: seq<Mux>, b: Bay, live: set<nat>, m: nat)
    requires Struct(w, b, live) && m < |w| && b.phase == Propagating
    ensures WiredMux(w[m], |b.chans|) && b.selected[m] < |w[m].inputs|
    ensures var pick, o := w[m].choose(Read(b.chans[w[m].select])), w[m].output;
            var (d, ret) := RunSelect(w, b, m);
            && Struct(w, d, live + {m}) && d.phase == Propagating
            && ret == (if pick.Fails? then -1 else 0)
            && (if ret == 0 then Right(w, d, m) && o in d.dirty else d.chans == b.chans)
            && (forall c :: 0 <= c < |b.cbs| ==> d.cbs[c] == Without(b.cbs[c], m, b.selected[m]) + Joins(w, m, pick, c))
            && |d.chans| == |b.chans| && |d.selected| == |b.selected|
            && (forall c :: 0 <= c < |b.chans| && c != o ==> d.chans[c] == b.chans[c])
            && (forall x :: 0 <= x < |w| && x != m ==> d.selected[x] == b.selected[x])
            && d.dirty == (if ret == -1 || b.chans[o].dirty then b.dirty else b.dirty + [o])
  {
    var pick, o := w[m].choose(Read(b.chans[w[m].select])), w[m].output;
    assert WiredMux(w[m], |b.chans|);
    ReselectKeeps(w, b, live, m, pick);
    ReselectLists(w, b, live, m, pick);
    var r := Reselect(w, b, m, pick);
    if !pick.Fails? {
      var v := if pick.Picks? then Read(b.chans[w[m].inputs[pick.index]]) else w[m].def;
      hide Reselect, Struct;
      OutputSet(w, r, live + {m}, m, v);
      assert Set(r.chans[o], v) == Write(r.chans[o].(single := v)) by { SetOutput(w, r, live + {m}, m, v); }
      ApplyKeeps(w, r, live + {m}, o, Set(r.chans[o], v));
    }
  }

  lemma {:induction false} SetOutput(w: seq<Mux>, b: Bay, live: set<nat>, m: nat, v: Value)
    requires m < |w| == |b.selected| && MuxExact(w, b, live, m)
    ensures Set(b.chans[w[m].output], v) == Write(b.chans[w[m].output].(single := v))
  {
  }

  /** What cb_input does: it never fails, and a mux that has chosen that input is right. */
  lemma {:induction false} InputKeeps(w: seq<Mux>, b: Bay, live: set<nat>, m: nat, i: nat)
    requires Struct(w, b, live) && m < |w| && i < |w[m].inputs| && b.phase == Propagating
    ensures WiredMux(w[m], |b.chans|)
    ensures var o := w[m].output;
            var (d, ret) := RunInput(w, b, m, i);
            && ret == 0 && Struct(w, d, live) && d.phase == Propagating
            && (Chosen(w, b, m) && b.selected[m] == i ==> Right(w, d, m))
            && d.cbs == b.cbs && d.selected == b.selected && |d.chans| == |b.chans| && o in d.dirty
            && (forall c :: 0 <= c < |b.chans| && c != o ==> d.chans[c] == b.chans[c])
            && d.dirty == (if b.chans[o].dirty then b.dirty else b.dirty + [o])
  {
    var o := w[m].output;
    assert WiredMux(w[m], |b.chans|);
    var v := Read(b.chans[w[m].inputs[i]]);
    OutputSet(w, b, live, m, v);
    SetOutput(w, b, live, m, v);
    hide Struct;
    ApplyKeeps(w, b, live, o, Set(b.chans[o], v));
  }

  // ---------- propagation: what is still to be done ----------

  /** No channel is the output of two muxes. */
  ghost predicate OneDriver(w: seq<Mux>) {
    forall m, x :: 0 <= m < x < |w| ==> w[m].output != w[x].output
  }

  /** Mux m is right, or it will be: its select channel, or the input it rightly selects,
      still waits in the dirty list (pend), or its callback is still to run in the list of
      the current channel (rest). */
  ghost predicate Fine(w: seq<Mux>, b: Bay, m: nat, pend: set<nat>, rest: seq<Cb>) {
    && m < |w| == |b.selected|
    && (|| Right(w, b, m)
        || w[m].select in pend || Select(m) in rest
        || (&& Chosen(w, b, m) && 0 <= b.selected[m] < |w[m].inputs|
            && (w[m].inputs[b.selected[m]] in pend || Input(m, b.selected[m]) in rest)))
  }

  ghost predicate AllFine(w: seq<Mux>, b: Bay, live: set<nat>, pend: set<nat>, rest: seq<Cb>) {
    forall m :: m in live ==> Fine(w, b, m, pend, rest)
  }

  /** Every mux whose select channel is dirty is live, or its turn will come; and only live
      muxes have written their output. */
  ghost predicate Covered(w: seq<Mux>, dirty: seq<nat>, live: set<nat>, pend: set<nat>, rest: seq<Cb>) {
    && (forall m :: 0 <= m < |w| && w[m].output in dirty ==> m in live)
    && forall m :: 0 <= m < |w| && w[m].select in dirty && m !in live ==> w[m].select in pend || Select(m) in rest
  }

  /** A mux that was fine stays fine when channel o, not its output, is written, if o waits
      from now on. */
  lemma {:induction false} FineOther(w: seq<Mux>, b: Bay, d: Bay, x: nat, o: nat, pend: set<nat>, rest: seq<Cb>,
                                     rest': seq<Cb>)
    requires Fine(w, b, x, pend, rest) && |d.selected| == |b.selected| && |d.chans| == |b.chans| && w[x].output != o
    requires forall c :: 0 <= c < |b.chans| && c != o ==> d.chans[c] == b.chans[c]
    requires d.selected[x] == b.selected[x]
    requires forall cb: Cb :: cb.mux == x && cb in rest ==> cb in rest'
    ensures Fine(w, d, x, pend + {o}, rest')
  {
    hide Read;
    if w[x].select != o {
      assert Chosen(w, d, x) == Chosen(w, b, x);
    }
  }

  /** After the select callback of mux m has run. */
  lemma {:induction false} SelectFine(w: seq<Mux>, b: Bay, live: set<nat>, m: nat, pend: set<nat>, rest: seq<Cb>,
                                      rest': seq<Cb>)
    requires Struct(w, b, live) && m < |w| && b.phase == Propagating && OneDriver(w)
    requires AllFine(w, b, live, pend, rest)
    requires forall cb: Cb :: cb.mux != m && cb in rest ==> cb in rest'
    ensures WiredMux(w[m], |b.chans|) && b.selected[m] < |w[m].inputs|
    ensures var (d, ret) := RunSelect(w, b, m);
            ret == 0 ==> AllFine(w, d, live + {m}, pend + {w[m].output}, rest')
  {
    SelectKeeps(w, b, live, m);
    var (d, ret) := RunSelect(w, b, m);
    hide Struct, RunSelect, Right;
    if ret == 0 {
      forall x | x in live + {m} ensures Fine(w, d, x, pend + {w[m].output}, rest') {
        if x != m {
          assert Fine(w, b, x, pend, rest);
          FineOther(w, b, d, x, w[m].output, pend, rest, rest');
        }
      }
    }
  }

  /** After the callback of the selected input of mux m has run. */
  lemma {:induction false} InputFine(w: seq<Mux>, b: Bay, live: set<nat>, m: nat, i: nat, pend: set<nat>,
                                     rest: seq<Cb>, rest': seq<Cb>)
    requires Struct(w, b, live) && m < |w| && i < |w[m].inputs| && b.phase == Propagating && OneDriver(w)
    requires b.selected[m] == i && AllFine(w, b, live, pend, rest)
    requires forall cb :: cb != Input(m, i) && cb in rest ==> cb in rest'
    ensures WiredMux(w[m], |b.chans|)
    ensures var (d, ret) := RunInput(w, b, m, i);
            AllFine(w, d, live, pend + {w[m].output}, rest')
  {
    InputKeeps(w, b, live, m, i);
    var (d, ret) := RunInput(w, b, m, i);
    var o := w[m].output;
    assert WiredMux(w[m], |b.chans|);
    hide Struct, RunInput, Right;
    forall x | x in live ensures Fine(w, d, x, pend + {o}, rest') {
      assert Fine(w, b, x, pend, rest);
      if x != m {
        FineOther(w, b, d, x, o, pend, rest, rest');
      } else if Chosen(w, b, m) {
      } else {
        RightChosen(w, b, m);
      }
    }
  }

  lemma {:induction false} RightChosen(w: seq<Mux>, b: Bay, m: nat)
    ensures Right(w, b, m) ==> Chosen(w, b, m)
  {
  }

  // ---------- levels ----------

  function Level(lv: seq<nat>, c: nat): nat {
    if c < |lv| then lv[c] else 0
  }

  /** Each output is one level above its select and all its inputs. */
  ghost predicate Layered(w: seq<Mux>, lv: seq<nat>) {
    forall m :: 0 <= m < |w| ==> LayeredMux(w[m], lv)
  }

  ghost predicate LayeredMux(x: Mux, lv: seq<nat>) {
    && Level(lv, x.output) == Level(lv, x.select) + 1
    && forall i :: 0 <= i < |x.inputs| ==> Level(lv, x.output) == Level(lv, x.inputs[i]) + 1
  }

  /** The dirty list is in level order, and spans at most two levels from position k on. */
  ghost predicate LevelOrder(lv: seq<nat>, dirty: seq<nat>, k: nat) {
    && (forall i, j :: 0 <= i < j < |dirty| ==> Level(lv, dirty[i]) <= Level(lv, dirty[j]))
    && (k < |dirty| ==> forall j :: 0 <= j < |dirty| ==> Level(lv, dirty[j]) <= Level(lv, dirty[k]) + 1)
  }

  lemma {:induction false} OrderNext(lv: seq<nat>, dirty: seq<nat>, k: nat)
    requires LevelOrder(lv, dirty, k) && k < |dirty|
    ensures LevelOrder(lv, dirty, k + 1)
  {
    if k + 1 < |dirty| {
      assert Level(lv, dirty[k]) <= Level(lv, dirty[k + 1]);
    }
  }

  /** The output of a mux that listens to the current channel keeps the order if appended;
      if it is in the list already, then it has not been passed yet. */
  lemma {:induction false} OrderAppend(lv: seq<nat>, dirty: seq<nat>, k: nat, o: nat)
    requires LevelOrder(lv, dirty, k) && k < |dirty| && Level(lv, o) == Level(lv, dirty[k]) + 1
    ensures LevelOrder(lv, dirty + [o], k)
    ensures o in dirty ==> o in dirty[k + 1..]
  {
    if o in dirty {
      var i :| 0 <= i < |dirty| && dirty[i] == o;
      assert i > k;
      assert dirty[k + 1..][i - k - 1] == o;
    }
  }
}
