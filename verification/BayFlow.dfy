/** Walking the dirty list of the patch bay, callback by callback. */
module BayFlow {
  import opened Sequences
  import opened Chans
  import opened BaySpec

  ghost function Elems<T>(s: seq<T>): set<T> {
    set x | x in s
  }

  /** The callbacks of channel c are being run: those in done have been, rest is to come. */
  ghost predicate Walking(w: seq<Mux>, b: Bay, live: set<nat>, c: nat, done: seq<Cb>, rest: seq<Cb>) {
    Struct(w, b, live) && b.phase == Propagating && c < |b.cbs| && b.cbs[c] == done + rest
  }

  /** In a layered network: the dirty list is in level order around position k, and every
      mux is right or its turn will come. */
  ghost predicate Flowing(w: seq<Mux>, lv: seq<nat>, b: Bay, live: set<nat>, k: nat, rest: seq<Cb>) {
    && Layered(w, lv) && OneDriver(w) && k < |b.dirty|
    && LevelOrder(lv, b.dirty, k)
    && AllFine(w, b, live, Elems(b.dirty[k + 1..]), rest)
    && Covered(w, b.dirty, live, Elems(b.dirty[k + 1..]), rest)
  }

  /** Channel c is no output of a mux. */
  ghost predicate Source(w: seq<Mux>, c: nat) {
    forall m :: 0 <= m < |w| ==> w[m].output != c
  }

  /** What all callbacks share: they only add to the dirty list, and only change outputs that
      are on it. */
  ghost predicate Extends(w: seq<Mux>, b: Bay, d: Bay) {
    && |d.chans| == |b.chans| && b.dirty <= d.dirty
    && (forall c :: 0 <= c < |b.chans| && Source(w, c) ==> d.chans[c] == b.chans[c])
    && forall c :: 0 <= c < |b.chans| && c !in d.dirty ==> d.chans[c] == b.chans[c]
  }

  function Selects(l: seq<Cb>): nat {
    if l == [] then 0 else (if l[0].Select? then 1 else 0) + Selects(l[1..])
  }

  lemma {:induction false} SelectsAppend(a: seq<Cb>, b: seq<Cb>)
    ensures Selects(a + b) == Selects(a) + Selects(b)
  {
    if a == [] {
      assert a + b == b;
    } else {
      assert (a + b)[1..] == a[1..] + b;
      SelectsAppend(a[1..], b);
    }
  }

  lemma {:induction false} SelectsDelete(l: seq<Cb>, x: Cb)
    requires x.Input?
    ensures Selects(Delete(l, x)) == Selects(l)
  {
    if l != [] && l[0] != x {
      SelectsDelete(l[1..], x);
      assert ([l[0]] + Delete(l[1..], x))[1..] == Delete(l[1..], x);
    }
  }

  /** What is left of the list after the select callback at its head. */
  function RestAfter(w: seq<Mux>, b: Bay, c: nat, m: nat, rest: seq<Cb>): seq<Cb>
    requires m < |w| && m < |b.selected| && WiredMux(w[m], |b.chans|) && rest != []
  {
    Without(rest[1..], m, b.selected[m]) + Joins(w, m, w[m].choose(Read(b.chans[w[m].select])), c)
  }

  lemma {:induction false} WithoutSplit(done: seq<Cb>, rest: seq<Cb>, m: nat, i: int)
    requires NoDup(done + rest) && rest != [] && rest[0].Select?
    ensures Without(done + rest, m, i) == Without(done, m, i) + [rest[0]] + Without(rest[1..], m, i)
    ensures Selects(Without(rest[1..], m, i)) == Selects(rest[1..])
  {
    if i >= 0 {
      DeleteAppend(done, rest, Input(m, i));
      assert rest == [rest[0]] + rest[1..];
      SelectsDelete(rest[1..], Input(m, i));
    } else {
      assert done + rest == done + [rest[0]] + rest[1..];
    }
  }

  /** cb_select, seen from the list that is being run. */
  lemma {:induction false} WalkSelect(w: seq<Mux>, b: Bay, live: set<nat>, c: nat, done: seq<Cb>, rest: seq<Cb>, m: nat)
    requires Walking(w, b, live, c, done, rest) && rest != [] && rest[0] == Select(m)
    ensures m < |w| && w[m].select == c && WiredMux(w[m], |b.chans|) && b.selected[m] < |w[m].inputs|
    ensures var r := RestAfter(w, b, c, m, rest);
            && Walking(w, RunSelect(w, b, m).0, live + {m}, c, Without(done, m, b.selected[m]), [Select(m)] + r)
            && Selects(r) < Selects(rest)
  {
    HeadListens(w, b, live, c, done, rest);
    SelectKeeps(w, b, live, m);
    var pick, d := w[m].choose(Read(b.chans[w[m].select])), RunSelect(w, b, m).0;
    var i := b.selected[m];
    assert d.cbs[c] == Without(b.cbs[c], m, i) + Joins(w, m, pick, c);
    assert RestAfter(w, b, c, m, rest) == Without(rest[1..], m, i) + Joins(w, m, pick, c);
    hide *;
    ListAfter(done, rest, m, i, Joins(w, m, pick, c), b.cbs[c], d.cbs[c], RestAfter(w, b, c, m, rest));
    assert Struct(w, d, live + {m}) && d.phase == Propagating && c < |d.cbs|;
    WalkingIs(w, d, live + {m}, c, Without(done, m, i), [Select(m)] + RestAfter(w, b, c, m, rest));
  }

  lemma {:induction false} WalkingIs(w: seq<Mux>, b: Bay, live: set<nat>, c: nat, done: seq<Cb>, rest: seq<Cb>)
    requires Struct(w, b, live) && b.phase == Propagating && c < |b.cbs| && b.cbs[c] == done + rest
    ensures Walking(w, b, live, c, done, rest)
  {
  }

  /** The list of the channel, split at the callback that is running. */
  lemma {:induction false} ListAfter(done: seq<Cb>, rest: seq<Cb>, m: nat, i: int, joins: seq<Cb>, l: seq<Cb>,
                                     l': seq<Cb>, r: seq<Cb>)
    requires l == done + rest && NoDup(l) && rest != [] && rest[0] == Select(m)
    requires |joins| <= 1 && (joins != [] ==> joins[0].Input?)
    requires l' == Without(l, m, i) + joins && r == Without(rest[1..], m, i) + joins
    ensures l' == Without(done, m, i) + ([Select(m)] + r) && Selects(r) < Selects(rest)
  {
    WithoutSplit(done, rest, m, i);
    SelectsJoin(Without(rest[1..], m, i), joins, rest);
    hide *;
    Regroup(Without(done, m, i), rest[0], Without(rest[1..], m, i), joins);
  }

  lemma {:induction false} Regroup<T>(a: seq<T>, x: T, b: seq<T>, c: seq<T>)
    ensures a + [x] + b + c == a + ([x] + (b + c))
  {
  }

  lemma {:induction false} SelectExtends(w: seq<Mux>, b: Bay, live: set<nat>, m: nat)
    requires Struct(w, b, live) && m < |w| && b.phase == Propagating
    ensures WiredMux(w[m], |b.chans|) && b.selected[m] < |w[m].inputs| && Extends(w, b, RunSelect(w, b, m).0)
  {
    SelectKeeps(w, b, live, m);
    hide RunSelect, Struct;
    DirtyGrows(w, b, RunSelect(w, b, m).0, m);
  }

  lemma {:induction false} HeadListens(w: seq<Mux>, b: Bay, live: set<nat>, c: nat, done: seq<Cb>, rest: seq<Cb>)
    requires Walking(w, b, live, c, done, rest) && rest != []
    ensures IsCb(w, rest[0]) && ChanOf(w, rest[0]) == c && rest[0] in b.enabled && NoDup(done + rest)
  {
    assert ListExact(w, b, c) && rest[0] in b.cbs[c];
  }

  lemma {:induction false} SelectsJoin(l: seq<Cb>, t: seq<Cb>, rest: seq<Cb>)
    requires rest != [] && rest[0].Select? && Selects(l) == Selects(rest[1..]) && |t| <= 1 && (t != [] ==> t[0].Input?)
    ensures Selects(l + t) < Selects(rest)
  {
    SelectsAppend(l, t);
  }

  lemma {:induction false} DirtyGrows(w: seq<Mux>, b: Bay, d: Bay, m: nat)
    requires m < |w| && |d.chans| == |b.chans| && (w[m].output in d.dirty || d.chans == b.chans)
    requires d.dirty == b.dirty || d.dirty == b.dirty + [w[m].output]
    requires forall c :: 0 <= c < |b.chans| && c != w[m].output ==> d.chans[c] == b.chans[c]
    ensures Extends(w, b, d)
  {
  }

  /** cb_input, seen from the list that is being run: only the selected input is in it. */
  lemma {:induction false} WalkInput(w: seq<Mux>, b: Bay, live: set<nat>, c: nat, done: seq<Cb>, rest: seq<Cb>,
                                     m: nat, i: nat)
    requires Walking(w, b, live, c, done, rest) && rest != [] && rest[0] == Input(m, i)
    ensures m < |w| && i < |w[m].inputs| && w[m].inputs[i] == c && WiredMux(w[m], |b.chans|) && b.selected[m] == i
            && m in live
    ensures var (d, ret) := RunInput(w, b, m, i);
            ret == 0 && Walking(w, d, live, c, done, rest) && Extends(w, b, d)
  {
    HeadListens(w, b, live, c, done, rest);
    assert MuxExact(w, b, live, m);
    InputKeeps(w, b, live, m, i);
    var d := RunInput(w, b, m, i).0;
    hide RunInput, Struct;
    DirtyGrows(w, b, d, m);
  }

  /** Where the output of mux m stands after its write: in the waiting part of the list,
      which stays in level order. */
  lemma {:induction false} OutputWaits(w: seq<Mux>, lv: seq<nat>, b: Bay, d: Bay, live: set<nat>, k: nat,
                                       rest: seq<Cb>, o: nat)
    requires Flowing(w, lv, b, live, k, rest) && Level(lv, o) == Level(lv, b.dirty[k]) + 1
    requires DirtyExact(b) && o < |b.chans| && d.dirty == (if b.chans[o].dirty then b.dirty else b.dirty + [o])
    ensures d.dirty[k] == b.dirty[k] && LevelOrder(lv, d.dirty, k)
    ensures Elems(d.dirty[k + 1..]) == Elems(b.dirty[k + 1..]) + {o}
    ensures forall c :: c in d.dirty <==> c in b.dirty || c == o
  {
    OrderAppend(lv, b.dirty, k, o);
    if b.chans[o].dirty {
      assert o in b.dirty;
    } else {
      assert (b.dirty + [o])[k + 1..] == b.dirty[k + 1..] + [o];
    }
  }

  /** The select callback keeps the network flowing. */
  lemma {:induction false} FlowSelect(w: seq<Mux>, lv: seq<nat>, b: Bay, live: set<nat>, k: nat, c: nat,
                                      done: seq<Cb>, rest: seq<Cb>, m: nat)
    requires Walking(w, b, live, c, done, rest) && rest != [] && rest[0] == Select(m)
    requires Flowing(w, lv, b, live, k, rest) && b.dirty[k] == c
    ensures m < |w| && WiredMux(w[m], |b.chans|) && b.selected[m] < |w[m].inputs|
    ensures var (d, ret) := RunSelect(w, b, m);
            ret == 0 ==> Flowing(w, lv, d, live + {m}, k, RestAfter(w, b, c, m, rest)) && d.dirty[k] == c
  {
    WalkSelect(w, b, live, c, done, rest, m);
    SelectKeeps(w, b, live, m);
    var (d, ret) := RunSelect(w, b, m);
    if ret == 0 {
      var o, r := w[m].output, RestAfter(w, b, c, m, rest);
      assert LayeredMux(w[m], lv);
      OutputWaits(w, lv, b, d, live, k, rest, o);
      assert ListExact(w, b, c);
      RestKeepsOthers(w, b, c, m, done, rest);
      hide RunSelect, Struct, Fine, RestAfter, LevelOrder;
      SelectFine(w, b, live, m, Elems(b.dirty[k + 1..]), rest, r);
      CoveredAfter(w, b.dirty, d.dirty, live, m, o, Elems(b.dirty[k + 1..]), rest, r);
    }
  }

  lemma {:induction false} CoveredAfter(w: seq<Mux>, dirty: seq<nat>, dirty': seq<nat>, live: set<nat>, m: nat, o: nat,
                                        pend: set<nat>, rest: seq<Cb>, rest': seq<Cb>)
    requires Covered(w, dirty, live, pend, rest) && m < |w| && o == w[m].output && OneDriver(w)
    requires forall c :: c in dirty' <==> c in dirty || c == o
    requires forall x :: Select(x) in rest && x != m ==> Select(x) in rest'
    ensures Covered(w, dirty', live + {m}, pend + {o}, rest')
  {
  }

  /** Nothing of the other muxes leaves the list. */
  lemma {:induction false} RestKeepsOthers(w: seq<Mux>, b: Bay, c: nat, m: nat, done: seq<Cb>, rest: seq<Cb>)
    requires m < |w| && m < |b.selected| && WiredMux(w[m], |b.chans|) && rest != [] && rest[0] == Select(m)
    requires NoDup(done + rest)
    ensures forall cb: Cb :: cb.mux != m && cb in rest ==> cb in RestAfter(w, b, c, m, rest)
  {
    NoDupSplit(done, rest);
    assert rest == [rest[0]] + rest[1..];
    NoDupSplit([rest[0]], rest[1..]);
    if b.selected[m] >= 0 {
      DeleteIs(rest[1..], Input(m, b.selected[m]));
    }
  }

  /** The input callback keeps the network flowing. */
  lemma {:induction false} FlowInput(w: seq<Mux>, lv: seq<nat>, b: Bay, live: set<nat>, k: nat, c: nat, done: seq<Cb>,
                                     rest: seq<Cb>, m: nat, i: nat)
    requires Walking(w, b, live, c, done, rest) && rest != [] && rest[0] == Input(m, i)
    requires Flowing(w, lv, b, live, k, rest) && b.dirty[k] == c
    ensures m < |w| && i < |w[m].inputs| && WiredMux(w[m], |b.chans|)
    ensures var d := RunInput(w, b, m, i).0;
            Flowing(w, lv, d, live, k, rest[1..]) && d.dirty[k] == c
  {
    WalkInput(w, b, live, c, done, rest, m, i);
    InputKeeps(w, b, live, m, i);
    var d := RunInput(w, b, m, i).0;
    var o := w[m].output;
    assert LayeredMux(w[m], lv);
    OutputWaits(w, lv, b, d, live, k, rest, o);
    hide RunInput, Struct, Fine, LevelOrder;
    InputFine(w, b, live, m, i, Elems(b.dirty[k + 1..]), rest, rest[1..]);
    CoveredAfter'(w, b.dirty, d.dirty, live, m, o, Elems(b.dirty[k + 1..]), rest);
  }

  lemma {:induction false} CoveredAfter'(w: seq<Mux>, dirty: seq<nat>, dirty': seq<nat>, live: set<nat>, m: nat, o: nat,
                                         pend: set<nat>, rest: seq<Cb>)
    requires Covered(w, dirty, live, pend, rest) && m in live && m < |w| && o == w[m].output && OneDriver(w)
             && rest != [] && rest[0].Input?
    requires forall c :: c in dirty' <==> c in dirty || c == o
    ensures Covered(w, dirty', live, pend + {o}, rest[1..])
  {
  }

  /** Between two channels of the list. */
  ghost predicate Flows(w: seq<Mux>, lv: seq<nat>, b: Bay, live: set<nat>, k: nat) {
    && Layered(w, lv) && OneDriver(w) && k <= |b.dirty|
    && LevelOrder(lv, b.dirty, k)
    && AllFine(w, b, live, Elems(b.dirty[k..]), [])
    && Covered(w, b.dirty, live, Elems(b.dirty[k..]), [])
  }

  /** Taking the next channel: what waited for it waits for one of its callbacks. */
  lemma {:induction false} FlowStarts(w: seq<Mux>, lv: seq<nat>, b: Bay, live: set<nat>, k: nat)
    requires Struct(w, b, live) && Flows(w, lv, b, live, k) && k < |b.dirty|
    ensures b.dirty[k] < |b.cbs| && Flowing(w, lv, b, live, k, b.cbs[b.dirty[k]])
  {
    var c := b.dirty[k];
    assert c in b.dirty;
    assert b.dirty[k..] == [c] + b.dirty[k + 1..];
    assert Elems(b.dirty[k..]) == Elems(b.dirty[k + 1..]) + {c};
    var pend, rest := Elems(b.dirty[k + 1..]), b.cbs[c];
    forall m | 0 <= m < |w| ensures w[m].select == c ==> Select(m) in rest {
      assert MuxExact(w, b, live, m);
      assert ChanOf(w, Select(m)) == w[m].select;
    }
    forall m | m in live ensures Fine(w, b, m, pend, rest) {
      assert Fine(w, b, m, pend + {c}, []);
      InputListed(w, b, live, m);
    }
  }

  /** The selected input of a live mux listens. */
  lemma {:induction false} InputListed(w: seq<Mux>, b: Bay, live: set<nat>, m: nat)
    requires Struct(w, b, live) && m in live && m < |w|
    ensures 0 <= b.selected[m] < |w[m].inputs| ==>
              var c := w[m].inputs[b.selected[m]]; c < |b.cbs| && Input(m, b.selected[m]) in b.cbs[c]
  {
    assert MuxExact(w, b, live, m);
    if 0 <= b.selected[m] < |w[m].inputs| {
      assert Input(m, b.selected[m]) in b.enabled;
      assert ChanOf(w, Input(m, b.selected[m])) == w[m].inputs[b.selected[m]];
    }
  }

  lemma {:induction false} FlowEnds(w: seq<Mux>, lv: seq<nat>, b: Bay, live: set<nat>, k: nat)
    requires Flowing(w, lv, b, live, k, [])
    ensures Flows(w, lv, b, live, k + 1)
  {
    OrderNext(lv, b.dirty, k);
  }

  /** When the list is exhausted, every mux whose select was propagated is right. */
  lemma {:induction false} AllRight(w: seq<Mux>, lv: seq<nat>, b: Bay, live: set<nat>)
    requires Flows(w, lv, b, live, |b.dirty|)
    ensures forall m :: m in live ==> Right(w, b, m)
    ensures forall m :: 0 <= m < |w| && (w[m].select in b.dirty || w[m].output in b.dirty) ==> m in live
  {
    hide Right, Chosen;
    assert Elems(b.dirty[|b.dirty|..]) == {};
    forall m | m in live ensures Right(w, b, m) {
      assert Fine(w, b, m, {}, []);
    }
  }
}
