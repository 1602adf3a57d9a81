/** Doubly linked lists: the head's prev is the tail, the tail's next is null. */
module Utlist {
  import opened Sequences
  import opened ListSortSpec

  class Node<T> {
    const data: T
    var prev: Node?<T>
    var next: Node?<T>

    constructor (data: T)
      ensures this.data == data
    {
      this.data := data;
      prev, next := null, null;
    }
  }

  // ---------- the links of a set of nodes, as values ----------

  ghost function Nexts<T>(S: set<Node<T>>): map<Node<T>, Node?<T>>
    reads S
  {
    map n | n in S :: n.next
  }

  ghost function Prevs<T>(S: set<Node<T>>): map<Node<T>, Node?<T>>
    reads S
  {
    map n | n in S :: n.prev
  }

  ghost predicate Leads<T>(m: map<Node<T>, Node?<T>>, a: Node<T>, b: Node?<T>) {
    a in m && m[a] == b
  }

  /** Each node of s leads to the following one. */
  ghost predicate Forward<T>(nx: map<Node<T>, Node?<T>>, s: seq<Node<T>>) {
    forall i :: 0 <= i < |s| - 1 ==> Leads(nx, s[i], s[i + 1])
  }

  ghost predicate Backward<T>(pv: map<Node<T>, Node?<T>>, s: seq<Node<T>>) {
    forall i :: 0 <= i < |s| - 1 ==> Leads(pv, s[i + 1], s[i])
  }

  function First<T>(s: seq<Node<T>>): Node?<T> {
    if s == [] then null else s[0]
  }

  function Last<T>(s: seq<Node<T>>): Node?<T> {
    if s == [] then null else s[|s| - 1]
  }

  /** A list with the nodes s, as the links of its nodes say. */
  ghost predicate Linked<T>(nx: map<Node<T>, Node?<T>>, pv: map<Node<T>, Node?<T>>, head: Node?<T>, s: seq<Node<T>>) {
    && head == First(s)
    && Forward(nx, s) && Backward(pv, s)
    && (s != [] ==> Leads(nx, s[|s| - 1], null) && Leads(pv, s[0], Last(s)))
    && NoDup(s)
  }

  ghost predicate IsList<T>(S: set<Node<T>>, head: Node?<T>, s: seq<Node<T>>)
    reads S
  {
    Linked(Nexts(S), Prevs(S), head, s)
  }

  // ---------- the state of a pass ----------

  /** The nodes already put in the new list. */
  ghost predicate Done<T>(nx: map<Node<T>, Node?<T>>, pv: map<Node<T>, Node?<T>>, list: Node?<T>, tail: Node?<T>,
                          d: seq<Node<T>>) {
    list == First(d) && tail == Last(d) && Forward(nx, d) && Backward(pv, d) && (d != [] ==> Leads(pv, d[0], null))
  }

  /** The rest of the left run; its last node still leads to what came after it. */
  ghost predicate LeftRun<T>(nx: map<Node<T>, Node?<T>>, p: Node?<T>, a: seq<Node<T>>) {
    Forward(nx, a) && (a != [] ==> p == a[0])
  }

  /** The nodes not looked at yet, to the end of the old list. */
  ghost predicate Waiting<T>(nx: map<Node<T>, Node?<T>>, q: Node?<T>, w: seq<Node<T>>) {
    q == First(w) && Forward(nx, w) && (w != [] ==> Leads(nx, w[|w| - 1], null))
  }

  /** Every node of S is in one of the three parts, once. */
  ghost predicate Parted<T>(S: set<Node<T>>, d: seq<Node<T>>, a: seq<Node<T>>, w: seq<Node<T>>) {
    multiset(d) + multiset(a) + multiset(w) == multiset(S)
  }

  ghost predicate Merging<T>(nx: map<Node<T>, Node?<T>>, pv: map<Node<T>, Node?<T>>, S: set<Node<T>>, list: Node?<T>,
                             tail: Node?<T>,
                             d: seq<Node<T>>, p: Node?<T>, a: seq<Node<T>>, q: Node?<T>, w: seq<Node<T>>) {
    && nx.Keys == S && pv.Keys == S
    && Done(nx, pv, list, tail, d) && LeftRun(nx, p, a) && Waiting(nx, q, w) && Parted(S, d, a, w)
  }

  lemma {:induction false} PartedFacts<T>(S: set<Node<T>>, d: seq<Node<T>>, a: seq<Node<T>>, w: seq<Node<T>>,
                                          x: Node<T>)
    requires Parted(S, d, a, w)
    ensures x in d ==> x in S && x !in a && x !in w
    ensures x in a ==> x in S && x !in d && x !in w
    ensures x in w ==> x in S && x !in d && x !in a
    ensures x in d || x in a || x in w <==> x in S
    ensures a != [] && x == a[0] ==> x !in a[1..]
    ensures w != [] && x == w[0] ==> x !in w[1..]
    ensures d != [] && x == d[|d| - 1] ==> x !in d[..|d| - 1]
  {
    assert multiset(S)[x] == multiset(d)[x] + multiset(a)[x] + multiset(w)[x];
    if a != [] {
      assert a == [a[0]] + a[1..];
    }
    if w != [] {
      assert w == [w[0]] + w[1..];
    }
    if d != [] {
      assert d == d[..|d| - 1] + [d[|d| - 1]];
    }
  }

  lemma {:induction false} ForwardKeeps<T>(nx: map<Node<T>, Node?<T>>, s: seq<Node<T>>, n: Node<T>, v: Node?<T>)
    ensures Forward(nx, s) && n !in s ==> Forward(nx[n := v], s)
  {
  }

  lemma {:induction false} ForwardTail<T>(nx: map<Node<T>, Node?<T>>, s: seq<Node<T>>)
    ensures Forward(nx, s) && s != [] ==> Forward(nx, s[1..])
    ensures Forward(nx, s) && |s| > 1 ==> s[0] in nx && nx[s[0]] == s[1]
  {
    if Forward(nx, s) && s != [] {
      forall i | 0 <= i < |s| - 2
        ensures Leads(nx, s[1..][i], s[1..][i + 1])
      {
        assert Leads(nx, s[i + 1], s[i + 2]);
      }
      if |s| > 1 {
        assert Leads(nx, s[0], s[0 + 1]);
      }
    }
  }

  /** The link from the tail to the next node. */
  function Linking<T>(nx: map<Node<T>, Node?<T>>, tail: Node?<T>, e: Node<T>): map<Node<T>, Node?<T>> {
    if tail == null then nx else nx[tail := e]
  }

  /** Putting one more node at the end of the new list. */
  lemma {:induction false} DoneMore<T>(nx: map<Node<T>, Node?<T>>, pv: map<Node<T>, Node?<T>>, list: Node?<T>,
                                       tail: Node?<T>, d: seq<Node<T>>, e: Node<T>)
    requires Done(nx, pv, list, tail, d) && e !in d && (d != [] ==> d[|d| - 1] !in d[..|d| - 1])
    ensures Done(Linking(nx, tail, e), pv[e := tail], if tail == null then e else list, e, d + [e])
  {
    var d1, nx1, pv1 := d + [e], Linking(nx, tail, e), pv[e := tail];
    forall i | 0 <= i < |d1| - 1
      ensures Leads(nx1, d1[i], d1[i + 1]) && Leads(pv1, d1[i + 1], d1[i])
    {
      if i < |d| - 1 {
        assert Leads(nx, d[i], d[i + 1]) && Leads(pv, d[i + 1], d[i]);
        assert d[i] in d[..|d| - 1];
      }
    }
  }

  lemma {:induction false} LeftRunKeeps<T>(nx: map<Node<T>, Node?<T>>, p: Node?<T>, a: seq<Node<T>>, tail: Node?<T>,
                                           e: Node<T>)
    ensures LeftRun(nx, p, a) && (tail == null || tail !in a) ==> LeftRun(Linking(nx, tail, e), p, a)
  {
    if tail != null {
      ForwardKeeps(nx, a, tail, e);
    }
  }

  lemma {:induction false} WaitingKeeps<T>(nx: map<Node<T>, Node?<T>>, q: Node?<T>, w: seq<Node<T>>, tail: Node?<T>,
                                           e: Node<T>)
    ensures Waiting(nx, q, w) && (tail == null || tail !in w) ==> Waiting(Linking(nx, tail, e), q, w)
  {
    if tail != null {
      ForwardKeeps(nx, w, tail, e);
    }
  }

  lemma {:induction false} LeftTail<T>(nx: map<Node<T>, Node?<T>>, p: Node?<T>, a: seq<Node<T>>)
    ensures LeftRun(nx, p, a) && a != [] && a[0] in nx ==> p == a[0] && LeftRun(nx, nx[a[0]], a[1..])
  {
    ForwardTail(nx, a);
  }

  lemma {:induction false} WaitingTail<T>(nx: map<Node<T>, Node?<T>>, q: Node?<T>, w: seq<Node<T>>)
    ensures Waiting(nx, q, w) && w != [] ==> q == w[0] && q in nx && Waiting(nx, nx[w[0]], w[1..])
  {
    ForwardTail(nx, w);
  }

  lemma {:induction false} PartedMoves<T>(S: set<Node<T>>, d: seq<Node<T>>, a: seq<Node<T>>, w: seq<Node<T>>)
    ensures Parted(S, d, a, w) && a != [] ==> Parted(S, d + [a[0]], a[1..], w)
    ensures Parted(S, d, a, w) && w != [] ==> Parted(S, d + [w[0]], a, w[1..])
  {
    if a != [] {
      assert a == [a[0]] + a[1..];
    }
    if w != [] {
      assert w == [w[0]] + w[1..];
    }
  }

  /** Taking the next node of the left run. */
  lemma {:induction false} TakeLeft<T>(nx: map<Node<T>, Node?<T>>, pv: map<Node<T>, Node?<T>>, S: set<Node<T>>,
                                       list: Node?<T>, tail: Node?<T>,
                                       d: seq<Node<T>>, p: Node?<T>, a: seq<Node<T>>, q: Node?<T>, w: seq<Node<T>>)
    requires Merging(nx, pv, S, list, tail, d, p, a, q, w) && a != []
    ensures p != null && p == a[0] && p in S && (tail != null ==> tail in S && tail != p)
    ensures Merging(Linking(nx, tail, a[0]), pv[a[0] := tail], S, if tail == null then a[0] else list, a[0],
                    d + [a[0]], nx[a[0]], a[1..], q, w)
  {
    hide Forward, Backward;
    LeftTail(nx, p, a);
    PartedFacts(S, d, a, w, a[0]);
    if d != [] {
      PartedFacts(S, d, a, w, d[|d| - 1]);
    }
    PartedMoves(S, d, a, w);
    DoneMore(nx, pv, list, tail, d, a[0]);
    LeftRunKeeps(nx, nx[a[0]], a[1..], tail, a[0]);
    WaitingKeeps(nx, q, w, tail, a[0]);
    hide Parted, LeftRun, Waiting;
  }

  /** Taking the next node after the left run. */
  lemma {:induction false} TakeRight<T>(nx: map<Node<T>, Node?<T>>, pv: map<Node<T>, Node?<T>>, S: set<Node<T>>,
                                        list: Node?<T>, tail: Node?<T>,
                                        d: seq<Node<T>>, p: Node?<T>, a: seq<Node<T>>, q: Node?<T>, w: seq<Node<T>>)
    requires Merging(nx, pv, S, list, tail, d, p, a, q, w) && w != []
    ensures q != null && q == w[0] && q in S && (tail != null ==> tail in S && tail != q)
    ensures Merging(Linking(nx, tail, w[0]), pv[w[0] := tail], S, if tail == null then w[0] else list, w[0],
                    d + [w[0]], p, a, nx[w[0]], w[1..])
  {
    hide Forward, Backward;
    WaitingTail(nx, q, w);
    PartedFacts(S, d, a, w, w[0]);
    if d != [] {
      PartedFacts(S, d, a, w, d[|d| - 1]);
    }
    PartedMoves(S, d, a, w);
    DoneMore(nx, pv, list, tail, d, w[0]);
    LeftRunKeeps(nx, p, a, tail, w[0]);
    WaitingKeeps(nx, nx[w[0]], w[1..], tail, w[0]);
    hide Parted, LeftRun, Waiting;
  }

  // ---------- DL_SORT ----------

  /** Node e goes to the end of the new list. */
  method Emit<T>(ghost S: set<Node<T>>, list: Node?<T>, tail: Node?<T>, e: Node<T>) returns (list1: Node?<T>)
    requires e in S && (tail != null ==> tail in S)
    modifies S
    ensures Nexts(S) == Linking(old(Nexts(S)), tail, e) && Prevs(S) == old(Prevs(S))[e := tail]
    ensures list1 == if tail == null then e else list
  {
    list1 := list;
    if tail != null {
      tail.next := e;
    } else {
      list1 := e;
    }
    e.prev := tail;
  }

  /** What is left to merge, after taking the first node of the left run, */
  lemma {:induction false} MergeLeft<T>(cmp: (T, T) -> int, d: seq<T>, a: seq<T>, b: seq<T>)
    ensures a != [] && (b == [] || cmp(a[0], b[0]) <= 0) ==> d + [a[0]] + Merge(cmp, a[1..], b) == d + Merge(cmp, a, b)
  {
    if a != [] && b == [] {
      assert a == [a[0]] + a[1..];
      assert Merge(cmp, a[1..], b) == a[1..];
    }
  }

  /** of the right run, */
  lemma {:induction false} MergeRight<T>(cmp: (T, T) -> int, d: seq<T>, a: seq<T>, b: seq<T>)
    ensures b != [] && (a == [] || cmp(a[0], b[0]) > 0) ==> d + [b[0]] + Merge(cmp, a, b[1..]) == d + Merge(cmp, a, b)
  {
    if b != [] {
      assert b == [b[0]] + b[1..];
    }
  }

  /** and when both are used up. */
  lemma {:induction false} MergeOver<T>(cmp: (T, T) -> int, d: seq<T>, w: seq<T>, k: nat)
    ensures k == 0 || w == [] ==> d + Merge(cmp, [], Take(w, k)) == d && Drop(w, k) == w
  {
  }

  lemma {:induction false} TakeSteps<T>(w: seq<T>, k: nat)
    ensures k > 0 && w != [] ==> Take(w, k) != [] && Take(w, k)[0] == w[0] && Take(w, k)[1..] == Take(w[1..], k - 1)
                                 && Drop(w[1..], k - 1) == Drop(w, k)
    ensures k == 0 || w == [] ==> Take(w, k) == []
  {
  }

  lemma {:induction false} MergeSteps<T>(cmp: (T, T) -> int, d: seq<T>, a: seq<T>, w: seq<T>, k: nat)
    ensures a != [] && (k == 0 || w == [] || cmp(a[0], w[0]) <= 0) ==>
              d + [a[0]] + Merge(cmp, a[1..], Take(w, k)) == d + Merge(cmp, a, Take(w, k))
    ensures k > 0 && w != [] && (a == [] || cmp(a[0], w[0]) > 0) ==>
              d + [w[0]] + Merge(cmp, a, Take(w[1..], k - 1)) == d + Merge(cmp, a, Take(w, k))
    ensures k > 0 && w != [] ==> Drop(w[1..], k - 1) == Drop(w, k)
  {
    hide Take, Drop, Merge;
    TakeSteps(w, k);
    MergeLeft(cmp, d, a, Take(w, k));
    MergeRight(cmp, d, a, Take(w, k));
  }

  /** The merge of one left run with the run after it. */
  method MergeRuns<T>(cmp: (Node<T>, Node<T>) -> int, ghost S: set<Node<T>>, list0: Node?<T>, tail0: Node?<T>,
                      p0: Node?<T>, psize0: nat,
                      q0: Node?<T>, insize: nat, ghost d0: seq<Node<T>>, ghost a0: seq<Node<T>>, ghost w0: seq<Node<T>>)
    returns (list: Node?<T>, tail: Node?<T>, q: Node?<T>)
    requires Merging(Nexts(S), Prevs(S), S, list0, tail0, d0, p0, a0, q0, w0) && psize0 == |a0|
    modifies S
    ensures Merging(Nexts(S), Prevs(S), S, list, tail, d0 + Merge(cmp, a0, Take(w0, insize)), null, [], q,
                    Drop(w0, insize))
  {
    hide Done, LeftRun, Parted, Forward, Backward, Linking, Nexts, Prevs, Merge, Take, Drop;
    list, tail, q := list0, tail0, q0;
    var p, psize, qsize := p0, psize0, insize;
    ghost var d, a, w := d0, a0, w0;
    while psize > 0 || (qsize > 0 && q != null)
      invariant Merging(Nexts(S), Prevs(S), S, list, tail, d, p, a, q, w) && psize == |a|
      invariant d + Merge(cmp, a, Take(w, qsize)) == d0 + Merge(cmp, a0, Take(w0, insize))
      invariant Drop(w, qsize) == Drop(w0, insize)
      decreases psize + qsize
    {
      var e: Node<T>;
      MergeSteps(cmp, d, a, w, qsize);
      if psize > 0 {
        TakeLeft(Nexts(S), Prevs(S), S, list, tail, d, p, a, q, w);
      }
      if q != null {
        TakeRight(Nexts(S), Prevs(S), S, list, tail, d, p, a, q, w);
      }
      NextsAt(S);
      var left := if psize == 0 then false else if qsize == 0 || q == null then true else cmp(p, q) <= 0;
      if left {
        e := p;
        p := p.next;
        psize := psize - 1;
        a := a[1..];
      } else {
        e := q;
        q := q.next;
        qsize := qsize - 1;
        w := w[1..];
      }
      list := Emit(S, list, tail, e);
      d := d + [e];
      tail := e;
    }
    MergeOver(cmp, d, w, qsize);
    NoRun(Nexts(S), null);
  }

  lemma {:induction false} NoRun<T>(nx: map<Node<T>, Node?<T>>, p: Node?<T>)
    ensures LeftRun(nx, p, [])
  {
  }

  lemma {:induction false} NextsAt<T>(S: set<Node<T>>)
    ensures forall n :: n in S ==> Nexts(S)[n] == n.next
  {
  }

  /** The loop that finds the run after the left one. */
  method FindRight<T>(ghost S: set<Node<T>>, p: Node<T>, insize: nat, ghost w: seq<Node<T>>) returns (psize: nat,
                      q: Node?<T>)
    requires insize > 0 && Waiting(Nexts(S), p, w) && Nexts(S).Keys == S
    ensures psize == |Take(w, insize)|
    ensures LeftRun(Nexts(S), p, Take(w, insize)) && Waiting(Nexts(S), q, Drop(w, insize))
  {
    q := p;
    psize := 0;
    hide Forward, Leads;
    var i := 0;
    while i < insize && q != null
      invariant i == psize && 0 <= i <= |w| && i <= insize && q == First(w[i..])
    {
      psize := psize + 1;
      NextAfter(S, w, i);
      q := q.next;
      i := i + 1;
    }
    CutRuns(Nexts(S), p, w, insize);
    assert w[psize..] == Drop(w, insize);
  }

  lemma {:induction false} NextAfter<T>(S: set<Node<T>>, w: seq<Node<T>>, i: nat)
    requires Waiting(Nexts(S), First(w), w) && i < |w|
    ensures w[i].next == First(w[i + 1..])
  {
    if i < |w| - 1 {
      assert Leads(Nexts(S), w[i], w[i + 1]);
    }
  }

  lemma {:induction false} CutRuns<T>(nx: map<Node<T>, Node?<T>>, p: Node?<T>, w: seq<Node<T>>, k: nat)
    requires Waiting(nx, p, w)
    ensures LeftRun(nx, p, Take(w, k)) || k == 0
    ensures Waiting(nx, First(Drop(w, k)), Drop(w, k))
  {
    var a, b := Take(w, k), Drop(w, k);
    forall i | 0 <= i < |a| - 1
      ensures Leads(nx, a[i], a[i + 1])
    {
      assert Leads(nx, w[i], w[i + 1]);
    }
    forall i | 0 <= i < |b| - 1
      ensures Leads(nx, b[i], b[i + 1])
    {
      assert Leads(nx, w[k + i], w[k + i + 1]);
    }
  }

  lemma {:induction false} StartPass<T>(nx: map<Node<T>, Node?<T>>, pv: map<Node<T>, Node?<T>>, S: set<Node<T>>,
                                        list: Node?<T>, s: seq<Node<T>>)
    requires Linked(nx, pv, list, s) && nx.Keys == S && pv.Keys == S && multiset(s) == multiset(S)
    ensures Merging(nx, pv, S, null, null, [], null, [], list, s)
  {
  }

  lemma {:induction false} PassSteps<T>(cmp: (T, T) -> int, d: seq<T>, w: seq<T>, k: nat)
    ensures k > 0 && w != [] ==>
              d + Merge(cmp, Take(w, k), Take(Drop(w, k), k)) + Pass(cmp, Drop(Drop(w, k), k), k) == d + Pass(cmp, w, k)
    ensures w == [] ==> Pass(cmp, w, k) == []
    ensures |Drop(Drop(w, k), k)| == if |w| <= 2 * k then 0 else |w| - 2 * k
  {
    TakeDrop(w, k);
    hide Merge, Take, Drop;
    if k > 0 && w != [] {
      Assoc(d, Merge(cmp, Take(w, k), Take(Drop(w, k), k)), Pass(cmp, Drop(w, 2 * k), k));
    }
    DropLength(w, 2 * k);
  }

  lemma {:induction false} DropLength<T>(w: seq<T>, k: nat)
    ensures |Drop(w, k)| == if |w| <= k then 0 else |w| - k
  {
  }

  lemma {:induction false} Assoc<T>(a: seq<T>, b: seq<T>, c: seq<T>)
    ensures a + b + c == a + (b + c)
  {
  }

  /** Before a merge: the waiting nodes are the left run and the others. */
  lemma {:induction false} CutParts<T>(nx: map<Node<T>, Node?<T>>, pv: map<Node<T>, Node?<T>>, S: set<Node<T>>,
                                       list: Node?<T>, tail: Node?<T>,
                                       d: seq<Node<T>>, p: Node?<T>, q: Node?<T>, w: seq<Node<T>>, k: nat)
    requires Merging(nx, pv, S, list, tail, d, null, [], p, w)
    requires LeftRun(nx, p, Take(w, k)) && Waiting(nx, q, Drop(w, k))
    ensures Merging(nx, pv, S, list, tail, d, p, Take(w, k), q, Drop(w, k))
  {
    TakeDrop(w, k);
    assert multiset(w) == multiset(Take(w, k)) + multiset(Drop(w, k));
    hide Done, LeftRun, Waiting, Take, Drop;
  }

  /** After a pass, with the two ends of the new list tied up. */
  lemma {:induction false} FinishPass<T>(nx: map<Node<T>, Node?<T>>, pv: map<Node<T>, Node?<T>>, S: set<Node<T>>,
                                         list: Node?<T>, tail: Node?<T>,
                                         d: seq<Node<T>>)
    requires Merging(nx, pv, S, list, tail, d, null, [], null, []) && d != []
    ensures list != null && tail != null && list in S && tail in S
    ensures Linked(nx[tail := null], pv[list := tail], list, d) && multiset(d) == multiset(S)
  {
    PartedFacts(S, d, [], [], d[0]);
    PartedFacts(S, d, [], [], d[|d| - 1]);
    WholeList(S, d);
    forall i | 0 <= i < |d| - 1
      ensures Leads(nx[tail := null], d[i], d[i + 1]) && Leads(pv[list := tail], d[i + 1], d[i])
    {
      assert Leads(nx, d[i], d[i + 1]) && Leads(pv, d[i + 1], d[i]);
      assert d[i] in d[..|d| - 1];
      assert d[i + 1] == d[1..][i];
    }
  }

  lemma {:induction false} WholeList<T>(S: set<Node<T>>, d: seq<Node<T>>)
    requires Parted(S, d, [], [])
    ensures multiset(d) == multiset(S) && NoDup(d)
    ensures d != [] ==> d[0] !in d[1..]
  {
    var none: multiset<Node<T>> := multiset([]);
    assert none == multiset{};
    assert multiset(d) + none + none == multiset(d);
    forall i, j | 0 <= i < j < |d|
      ensures d[i] != d[j]
    {
      assert d == d[..i] + [d[i]] + d[i + 1..];
      assert d[j] == d[i + 1..][j - i - 1];
      assert d[j] in multiset(d[i + 1..]);
      assert multiset(d)[d[i]] == multiset(d[..i])[d[i]] + 1 + multiset(d[i + 1..])[d[i]];
      assert d[i] in multiset(S);
    }
  }

  method TieEnds<T>(ghost S: set<Node<T>>, list: Node<T>, tail: Node<T>)
    requires list in S && tail in S
    modifies S
    ensures Nexts(S) == old(Nexts(S))[tail := null] && Prevs(S) == old(Prevs(S))[list := tail]
  {
    list.prev := tail;
    tail.next := null;
  }

  /** One pass over the list; nmerges counts the merges. */
  method PassOver<T>(cmp: (Node<T>, Node<T>) -> int, ghost S: set<Node<T>>, list0: Node<T>, insize: nat,
                     ghost s: seq<Node<T>>)
    returns (list: Node<T>, nmerges: nat)
    requires IsList(S, list0, s) && multiset(s) == multiset(S) && insize > 0
    modifies S
    ensures IsList(S, list, Pass(cmp, s, insize)) && multiset(Pass(cmp, s, insize)) == multiset(S)
    ensures nmerges <= 1 <==> |s| <= 2 * insize
  {
    hide Done, LeftRun, Parted, Forward, Backward, Merge, Take, Drop, Pass;
    var p: Node?<T> := list0;
    var first: Node?<T>, tail: Node?<T> := null, null;
    nmerges := 0;
    ghost var d, w: seq<Node<T>>, passed: nat := [], s, 0;
    StartPass(Nexts(S), Prevs(S), S, list0, s);
    assert [] + Pass(cmp, s, insize) == Pass(cmp, s, insize);
    while p != null
      invariant Merging(Nexts(S), Prevs(S), S, first, tail, d, null, [], p, w)
      invariant d + Pass(cmp, w, insize) == Pass(cmp, s, insize)
      invariant nmerges == 0 ==> passed == 0
      invariant nmerges == 1 ==> passed == 2 * insize
      invariant nmerges >= 2 ==> passed >= 4 * insize
      invariant if w != [] then |s| == |w| + passed else passed - 2 * insize < |s| <= passed
      decreases |w|
    {
      PassSteps(cmp, d, w, insize);
      nmerges := nmerges + 1;
      var psize, q := FindRight(S, p, insize, w);
      CutParts(Nexts(S), Prevs(S), S, first, tail, d, p, q, w, insize);
      first, tail, q := MergeRuns(cmp, S, first, tail, p, psize, q, insize, d, Take(w, insize), Drop(w, insize));
      d := d + Merge(cmp, Take(w, insize), Take(Drop(w, insize), insize));
      w := Drop(Drop(w, insize), insize);
      passed := passed + 2 * insize;
      p := q;
    }
    PassSteps(cmp, d, w, insize);
    assert d + [] == d;
    FinishPass(Nexts(S), Prevs(S), S, first, tail, d);
    TieEnds(S, first, tail);
    list := first;
  }

  /** DL_SORT: the list is rebuilt in sorted order, from the same nodes. */
  method Sort<T>(cmp: (Node<T>, Node<T>) -> int, ghost S: set<Node<T>>, list0: Node?<T>, ghost s: seq<Node<T>>)
    returns (list: Node?<T>)
    requires IsList(S, list0, s) && multiset(s) == multiset(S)
    modifies S
    ensures IsList(S, list, Sorted(cmp, s, 1)) && multiset(Sorted(cmp, s, 1)) == multiset(S)
  {
    hide Forward, Backward, Linked, Pass;
    list := list0;
    EmptyIs(Nexts(S), Prevs(S), list0, s);
    if list != null {
      var insize, looping := 1, true;
      ghost var t := s;
      while looping
        invariant list != null && insize > 0 && IsList(S, list, t) && multiset(t) == multiset(S)
        invariant if looping then Sorted(cmp, t, insize) == Sorted(cmp, s, 1) else t == Sorted(cmp, s, 1)
        decreases if looping then 1 else 0, |s| - insize
      {
        assert |t| == |multiset(t)| == |multiset(s)| == |s|;
        var nmerges;
        list, nmerges := PassOver(cmp, S, list, insize, t);
        t := Pass(cmp, t, insize);
        if nmerges <= 1 {
          looping := false;
        }
        insize := insize * 2;
      }
    }
  }

  lemma {:induction false} EmptyIs<T>(nx: map<Node<T>, Node?<T>>, pv: map<Node<T>, Node?<T>>, head: Node?<T>,
                                      s: seq<Node<T>>)
    requires Linked(nx, pv, head, s)
    ensures head == null <==> s == []
  {
  }

  // ---------- DL_APPEND2, DL_PREPEND2 and DL_DELETE2 ----------

  /** The prev links with add between the old tail and the head. */
  function NewEnds<T>(pv: map<Node<T>, Node?<T>>, head: Node<T>, add: Node<T>, tail: Node?<T>): map<Node<T>, Node?<T>> {
    pv[add := tail][head := add]
  }

  lemma {:induction false} AppendLinks<T>(nx: map<Node<T>, Node?<T>>, pv: map<Node<T>, Node?<T>>, head: Node<T>,
                                          add: Node<T>, s: seq<Node<T>>)
    requires Linked(nx, pv, head, s) && add !in s
    ensures head in pv && pv[head] == Last(s)
    ensures Linked(Linking(nx, Last(s), add)[add := null], NewEnds(pv, head, add, Last(s)), head, s + [add])
  {
    var nx1, pv1, s1 := Linking(nx, Last(s), add)[add := null], NewEnds(pv, head, add, Last(s)), s + [add];
    forall i | 0 <= i < |s1| - 1
      ensures Leads(nx1, s1[i], s1[i + 1]) && Leads(pv1, s1[i + 1], s1[i])
    {
      if i < |s| - 1 {
        assert Leads(nx, s[i], s[i + 1]) && Leads(pv, s[i + 1], s[i]);
      }
    }
  }

  /** DL_APPEND2 */
  method Append<T>(ghost S: set<Node<T>>, head: Node?<T>, add: Node<T>, ghost s: seq<Node<T>>) returns (head1: Node<T>)
    requires IsList(S, head, s) && add in S && add !in s
    modifies S
    ensures IsList(S, head1, s + [add])
  {
    if head != null {
      ghost var nx, pv, h: Node<T> := Nexts(S), Prevs(S), head;
      AppendLinks(nx, pv, head, add, s);
      add.prev := head.prev;
      head.prev.next := add;
      head.prev := add;
      add.next := null;
      head1 := head;
      assert Nexts(S) == Linking(nx, Last(s), add)[add := null];
      assert Prevs(S) == NewEnds(pv, h, add, Last(s));
    } else {
      head1 := add;
      head1.prev := head1;
      head1.next := null;
      assert s + [add] == [add];
    }
  }

  lemma {:induction false} PrependLinks<T>(nx: map<Node<T>, Node?<T>>, pv: map<Node<T>, Node?<T>>, head: Node<T>,
                                           add: Node<T>, s: seq<Node<T>>)
    requires Linked(nx, pv, head, s) && add !in s
    ensures head in pv && pv[head] == Last(s)
    ensures Linked(nx[add := head], NewEnds(pv, head, add, Last(s)), add, [add] + s)
  {
    var nx1, pv1, s1 := nx[add := head], NewEnds(pv, head, add, Last(s)), [add] + s;
    forall i | 0 <= i < |s1| - 1
      ensures Leads(nx1, s1[i], s1[i + 1]) && Leads(pv1, s1[i + 1], s1[i])
    {
      if i > 0 {
        assert Leads(nx, s[i - 1], s[i - 1 + 1]) && Leads(pv, s[i - 1 + 1], s[i - 1]);
      }
    }
    assert s1[|s1| - 1] == s[|s| - 1];
  }

  /** DL_PREPEND2 */
  method Prepend<T>(ghost S: set<Node<T>>, head: Node?<T>, add: Node<T>, ghost s: seq<Node<T>>) returns (head1: Node<T>)
    requires IsList(S, head, s) && add in S && add !in s
    modifies S
    ensures IsList(S, head1, [add] + s)
  {
    ghost var nx, pv := Nexts(S), Prevs(S);
    add.next := head;
    if head != null {
      ghost var h: Node<T> := head;
      PrependLinks(nx, pv, head, add, s);
      add.prev := head.prev;
      head.prev := add;
      assert Nexts(S) == nx[add := head];
      assert Prevs(S) == NewEnds(pv, h, add, Last(s));
    } else {
      add.prev := add;
      assert [add] + s == [add];
    }
    head1 := add;
  }

  /** The links after the deletion of node i of s. */
  function NextsWithout<T>(nx: map<Node<T>, Node?<T>>, s: seq<Node<T>>, i: nat): map<Node<T>, Node?<T>> {
    if 0 < i < |s| then nx[s[i - 1] := if i + 1 < |s| then s[i + 1] else null] else nx
  }

  function PrevsWithout<T>(pv: map<Node<T>, Node?<T>>, s: seq<Node<T>>, i: nat): map<Node<T>, Node?<T>> {
    if i >= |s| || |s| == 1 then pv
    else if i == 0 then pv[s[1] := s[|s| - 1]]
    else if i + 1 < |s| then pv[s[i + 1] := s[i - 1]]
    else pv[s[0] := s[i - 1]]
  }

  /** Where each neighbour is found. */
  lemma {:induction false} Neighbours<T>(nx: map<Node<T>, Node?<T>>, pv: map<Node<T>, Node?<T>>, head: Node?<T>,
                                         s: seq<Node<T>>, i: nat)
    requires Linked(nx, pv, head, s) && i < |s|
    ensures Leads(nx, s[i], if i + 1 < |s| then s[i + 1] else null)
    ensures Leads(pv, s[i], if i > 0 then s[i - 1] else s[|s| - 1])
    ensures (s[i] == head <==> i == 0) && (pv[s[i]] == s[i] <==> |s| == 1)
  {
    if i + 1 < |s| {
      assert Leads(nx, s[i], s[i + 1]);
    }
    if i > 0 {
      assert Leads(pv, s[i - 1 + 1], s[i - 1]);
    }
  }

  lemma {:induction false} DeleteLinks<T>(nx: map<Node<T>, Node?<T>>, pv: map<Node<T>, Node?<T>>, head: Node?<T>,
                                          s: seq<Node<T>>, i: nat)
    requires Linked(nx, pv, head, s) && i < |s|
    ensures var r := s[..i] + s[i + 1..]; Linked(NextsWithout(nx, s, i), PrevsWithout(pv, s, i), First(r), r)
  {
    var r, nx1, pv1 := s[..i] + s[i + 1..], NextsWithout(nx, s, i), PrevsWithout(pv, s, i);
    forall j | 0 <= j < |r| - 1
      ensures Leads(nx1, r[j], r[j + 1]) && Leads(pv1, r[j + 1], r[j])
    {
      if j + 1 < i {
        assert Leads(nx, s[j], s[j + 1]) && Leads(pv, s[j + 1], s[j]);
      } else if j >= i {
        assert Leads(nx, s[j + 1], s[j + 1 + 1]) && Leads(pv, s[j + 1 + 1], s[j + 1]);
      } else {
        assert r[j] == s[i - 1] && r[j + 1] == s[i + 1];
      }
    }
    if r != [] {
      assert r[|r| - 1] == if i == |s| - 1 then s[i - 1] else s[|s| - 1];
      assert r[0] == if i == 0 then s[1] else s[0];
    }
  }

  /** DL_DELETE2: the list without its node i. */
  method Delete<T>(ghost S: set<Node<T>>, head: Node?<T>, del: Node<T>, ghost s: seq<Node<T>>, ghost i: nat)
    returns (head1: Node?<T>)
    requires IsList(S, head, s) && i < |s| && s[i] == del
    modifies S
    ensures IsList(S, head1, s[..i] + s[i + 1..])
  {
    ghost var nx, pv := Nexts(S), Prevs(S);
    DeleteLinks(nx, pv, head, s, i);
    Neighbours(nx, pv, head, s, i);
    if i + 1 < |s| {
      Neighbours(nx, pv, head, s, i + 1);
    }
    if i > 0 {
      Neighbours(nx, pv, head, s, i - 1);
    }
    hide Linked;
    head1 := head;
    if del.prev == del {
      head1 := null;
    } else if del == head {
      del.next.prev := del.prev;
      head1 := del.next;
    } else {
      del.prev.next := del.next;
      if del.next != null {
        del.next.prev := del.prev;
      } else {
        head.prev := del.prev;
      }
    }
    assert Nexts(S) == NextsWithout(nx, s, i);
    assert Prevs(S) == PrevsWithout(pv, s, i);
  }
}
