/** The hash table: bucket chains and an insertion-ordered list through the same items. */
module Uthash {
  import opened Sequences
  import opened Division

  class Item<K> {
    const key: K
    const hashv: nat
    var next: Item?<K>
    var prev: Item?<K>
    var hhNext: Item?<K>
    var hhPrev: Item?<K>

    constructor (key: K, hashv: nat)
      ensures this.key == key && this.hashv == hashv
    {
      this.key, this.hashv := key, hashv;
      next, prev, hhNext, hhPrev := null, null, null, null;
    }
  }

  /** A bucket: its chain, how long it is, and by how much it may overflow before an expansion. */
  datatype Bucket<K> = Bucket(head: Item?<K>, count: nat, mult: nat)

  const INITIAL_BUCKETS := 32
  const INITIAL_LOG2 := 5
  const CAPACITY := 10

  // ---------- masks and shifts ----------

  function Pow2(k: nat): (r: nat)
    ensures r > 0
  {
    if k == 0 then 1 else 2 * Pow2(k - 1)
  }

  /** The bitwise and of two unsigned numbers. */
  function BitAnd(a: nat, b: nat): nat {
    if a == 0 || b == 0 then 0 else (if a % 2 == 1 && b % 2 == 1 then 1 else 0) + 2 * BitAnd(a / 2, b / 2)
  }

  function ShiftRight(a: nat, k: nat): nat {
    if k == 0 then a else ShiftRight(a / 2, k - 1)
  }

  lemma {:induction false} HalfModulo(a: nat, p: nat)
    requires p > 0
    ensures a % (2 * p) == a % 2 + 2 * (a / 2 % p)
    ensures a / (2 * p) == a / 2 / p
  {
    var h := a / 2;
    var q, r := h / p, h % p;
    assert h == q * p + r;
    assert a == q * (2 * p) + (2 * r + a % 2);
    Divided(a, 2 * p, q, 2 * r + a % 2);
  }

  /** Masking with one less than a power of two takes the remainder. */
  lemma {:induction false} MaskIsModulo(a: nat, k: nat)
    ensures BitAnd(a, Pow2(k) - 1) == a % Pow2(k)
  {
    if k > 0 {
      var p := Pow2(k - 1);
      MaskIsModulo(a / 2, k - 1);
      HalfModulo(a, p);
      assert (2 * p - 1) % 2 == 1 && (2 * p - 1) / 2 == p - 1;
      assert BitAnd(0, p - 1) == 0;
    }
  }

  lemma {:induction false} ShiftIsDivision(a: nat, k: nat)
    ensures ShiftRight(a, k) == a / Pow2(k)
  {
    if k > 0 {
      ShiftIsDivision(a / 2, k - 1);
      HalfModulo(a, Pow2(k - 1));
    }
  }

  function CeilDiv(a: nat, d: nat): nat
    requires d > 0
  {
    (a + d - 1) / d
  }

  /** The ideal chain length, as the expansion computes it. */
  function IdealChain(items: nat, buckets: nat, lg: nat): nat
    requires buckets > 0
  {
    ShiftRight(items, lg + 1) + if BitAnd(items, buckets * 2 - 1) != 0 then 1 else 0
  }

  /** It is the number of items over the new number of buckets, rounded up. */
  lemma {:induction false} IdealIsCeiling(items: nat, lg: nat)
    ensures IdealChain(items, Pow2(lg), lg) == CeilDiv(items, 2 * Pow2(lg))
  {
    var d := Pow2(lg + 1);
    MaskIsModulo(items, lg + 1);
    ShiftIsDivision(items, lg + 1);
    CeilingIs(items, d);
    hide ShiftRight, BitAnd;
  }

  lemma {:induction false} CeilingIs(a: nat, d: nat)
    requires d > 0
    ensures CeilDiv(a, d) == a / d + if a % d != 0 then 1 else 0
  {
    var q, r := a / d, a % d;
    assert a == q * d + r;
    if r == 0 {
      Divided(a + d - 1, d, q, d - 1);
    } else {
      assert (q + 1) * d == q * d + d;
      Divided(a + d - 1, d, q + 1, r - 1);
    }
  }

  // ---------- chains ----------

  datatype Ends<K> = Ends(next: Item?<K>, prev: Item?<K>)

  /** The links of the insertion order, as a value. */
  ghost function OrderLinks<K>(S: set<Item<K>>): map<Item<K>, Ends<K>>
    reads S
  {
    map n | n in S :: Ends(n.next, n.prev)
  }

  /** The links of the bucket chains, as a value. */
  ghost function ChainLinks<K>(S: set<Item<K>>): map<Item<K>, Ends<K>>
    reads S
  {
    map n | n in S :: Ends(n.hhNext, n.hhPrev)
  }

  function First<K>(s: seq<Item<K>>): Item?<K> {
    if s == [] then null else s[0]
  }

  function Last<K>(s: seq<Item<K>>): Item?<K> {
    if s == [] then null else s[|s| - 1]
  }

  function After<K>(s: seq<Item<K>>, i: nat): Item?<K> {
    if i + 1 < |s| then s[i + 1] else null
  }

  function Ahead<K>(s: seq<Item<K>>, i: nat): Item?<K> {
    if 0 < i <= |s| then s[i - 1] else null
  }

  ghost predicate Leads<K>(m: map<Item<K>, Ends<K>>, n: Item<K>, next: Item?<K>) {
    n in m && m[n].next == next
  }

  ghost predicate Follows<K>(m: map<Item<K>, Ends<K>>, n: Item<K>, prev: Item?<K>) {
    n in m && m[n].prev == prev
  }

  /** The items from s on to the end, by their next links. */
  ghost predicate Forward<K>(m: map<Item<K>, Ends<K>>, s: seq<Item<K>>) {
    forall i :: 0 <= i < |s| ==> Leads(m, s[i], After(s, i))
  }

  ghost predicate Backward<K>(m: map<Item<K>, Ends<K>>, s: seq<Item<K>>) {
    forall i :: 0 <= i < |s| ==> Follows(m, s[i], Ahead(s, i))
  }

  ghost predicate Chain<K>(m: map<Item<K>, Ends<K>>, s: seq<Item<K>>) {
    Forward(m, s) && Backward(m, s) && NoDup(s)
  }

  function SetNext<K>(m: map<Item<K>, Ends<K>>, n: Item?<K>, next: Item?<K>): map<Item<K>, Ends<K>> {
    if n != null && n in m then m[n := Ends(next, m[n].prev)] else m
  }

  function SetPrev<K>(m: map<Item<K>, Ends<K>>, n: Item?<K>, prev: Item?<K>): map<Item<K>, Ends<K>> {
    if n != null && n in m then m[n := Ends(m[n].next, prev)] else m
  }

  /** x goes to the front of chain s. */
  function Pushed<K>(m: map<Item<K>, Ends<K>>, s: seq<Item<K>>, x: Item<K>): map<Item<K>, Ends<K>> {
    SetPrev(m[x := Ends(First(s), null)], First(s), x)
  }

  /** x goes to the end of list s. */
  function Appended<K>(m: map<Item<K>, Ends<K>>, s: seq<Item<K>>, x: Item<K>): map<Item<K>, Ends<K>> {
    SetNext(m[x := Ends(null, Last(s))], Last(s), x)
  }

  /** Item i of s is left out. */
  function Unlinked<K>(m: map<Item<K>, Ends<K>>, s: seq<Item<K>>, i: nat): map<Item<K>, Ends<K>> {
    SetPrev(SetNext(m, Ahead(s, i), After(s, i)), After(s, i), Ahead(s, i))
  }

  function Without<T>(s: seq<T>, i: nat): seq<T> {
    if i < |s| then s[..i] + s[i + 1..] else s
  }

  lemma {:induction false} PushChain<K>(m: map<Item<K>, Ends<K>>, s: seq<Item<K>>, x: Item<K>)
    ensures Chain(m, s) && x !in s ==> Chain(Pushed(m, s, x), [x] + s)
  {
    if Chain(m, s) && x !in s {
      var m1, t := Pushed(m, s, x), [x] + s;
      forall i | 0 <= i < |t|
        ensures Leads(m1, t[i], After(t, i)) && Follows(m1, t[i], Ahead(t, i))
      {
        if i > 0 {
          assert Leads(m, s[i - 1], After(s, i - 1)) && Follows(m, s[i - 1], Ahead(s, i - 1));
        }
      }
    }
  }

  lemma {:induction false} AppendChain<K>(m: map<Item<K>, Ends<K>>, s: seq<Item<K>>, x: Item<K>)
    ensures Chain(m, s) && x !in s ==> Chain(Appended(m, s, x), s + [x])
  {
    if Chain(m, s) && x !in s {
      var m1, t := Appended(m, s, x), s + [x];
      forall i | 0 <= i < |t|
        ensures Leads(m1, t[i], After(t, i)) && Follows(m1, t[i], Ahead(t, i))
      {
        if i < |s| {
          assert Leads(m, s[i], After(s, i)) && Follows(m, s[i], Ahead(s, i));
        }
      }
    }
  }

  lemma {:induction false} NoDupWithout<T>(s: seq<T>, i: nat)
    ensures NoDup(s) && i < |s| ==> NoDup(Without(s, i))
  {
  }

  lemma {:induction false} WithoutAt<K>(s: seq<Item<K>>, i: nat, j: nat)
    requires i < |s| && j < |s| && i != j
    ensures var k := if j < i then j else j - 1;
            && k < |Without(s, i)| && Without(s, i)[k] == s[j]
            && After(Without(s, i), k) == (if j + 1 == i then After(s, i) else After(s, j))
            && Ahead(Without(s, i), k) == (if i + 1 == j then Ahead(s, i) else Ahead(s, j))
  {
  }

  lemma {:induction false} UnlinkedAt<K>(m: map<Item<K>, Ends<K>>, s: seq<Item<K>>, i: nat, j: nat)
    requires Chain(m, s) && i < |s| && j < |s| && i != j
    ensures Leads(Unlinked(m, s, i), s[j], if j + 1 == i then After(s, i) else After(s, j))
    ensures Follows(Unlinked(m, s, i), s[j], if i + 1 == j then Ahead(s, i) else Ahead(s, j))
  {
    assert Leads(m, s[j], After(s, j)) && Follows(m, s[j], Ahead(s, j));
    hide Forward, Backward;
  }

  lemma {:induction false} UnlinkChain<K>(m: map<Item<K>, Ends<K>>, s: seq<Item<K>>, i: nat)
    requires Chain(m, s) && i < |s|
    ensures Chain(Unlinked(m, s, i), Without(s, i))
  {
    var m1, t := Unlinked(m, s, i), Without(s, i);
    hide Unlinked, After, Ahead;
    forall k | 0 <= k < |t|
      ensures Leads(m1, t[k], After(t, k)) && Follows(m1, t[k], Ahead(t, k))
    {
      var j := if k < i then k else k + 1;
      WithoutAt(s, i, j);
      UnlinkedAt(m, s, i, j);
    }
    NoDupWithout(s, i);
  }

  /** m1 has the links of m for the items of s. */
  ghost predicate Same<K>(m: map<Item<K>, Ends<K>>, m1: map<Item<K>, Ends<K>>, s: seq<Item<K>>) {
    forall x :: x in s && x in m ==> x in m1 && m1[x] == m[x]
  }

  lemma {:induction false} SameChain<K>(m: map<Item<K>, Ends<K>>, m1: map<Item<K>, Ends<K>>, s: seq<Item<K>>)
    requires Same(m, m1, s)
    ensures Forward(m, s) ==> Forward(m1, s)
    ensures Chain(m, s) ==> Chain(m1, s)
  {
    forall i | 0 <= i < |s|
      ensures Leads(m, s[i], After(s, i)) ==> Leads(m1, s[i], After(s, i))
      ensures Follows(m, s[i], Ahead(s, i)) ==> Follows(m1, s[i], Ahead(s, i))
    {
    }
  }

  // ---------- buckets ----------

  /** Bucket b of n holds exactly the items whose hash falls in it. */
  ghost predicate BucketOk<K>(m: map<Item<K>, Ends<K>>, bk: Bucket<K>, c: seq<Item<K>>, n: nat, b: int,
                              items: set<Item<K>>) {
    && bk.head == First(c) && bk.count == |c| && Chain(m, c) && n > 0
    && (forall x :: x in c ==> x in items && x.hashv % n == b)
    && (forall x :: x in items && x.hashv % n == b ==> x in c)
  }

  ghost predicate Bucketed<K>(m: map<Item<K>, Ends<K>>, bks: seq<Bucket<K>>, chains: seq<seq<Item<K>>>,
                              items: set<Item<K>>) {
    && |chains| == |bks|
    && (forall b :: 0 <= b < |bks| ==> BucketOk(m, bks[b], chains[b], |bks|, b, items))
  }

  lemma {:induction false} InBucket<K>(m: map<Item<K>, Ends<K>>, bks: seq<Bucket<K>>, chains: seq<seq<Item<K>>>,
                                       items: set<Item<K>>, b: nat)
    requires Bucketed(m, bks, chains, items) && b < |bks|
    ensures BucketOk(m, bks[b], chains[b], |bks|, b, items)
  {
  }

  lemma {:induction false} OneBucket<K>(m: map<Item<K>, Ends<K>>, bk: Bucket<K>, c: seq<Item<K>>, n: nat, b: int,
                                        items: set<Item<K>>,
                                        x: Item<K>, mult: nat)
    requires BucketOk(m, bk, c, n, b, items) && x !in items && x.hashv % n == b
    ensures BucketOk(Pushed(m, c, x), Bucket(x, bk.count + 1, mult), [x] + c, n, b, items + {x})
  {
    PushChain(m, c, x);
    hide Chain, Pushed;
  }

  lemma {:induction false} OtherBucket<K>(m: map<Item<K>, Ends<K>>, m1: map<Item<K>, Ends<K>>, bk: Bucket<K>,
                                          c: seq<Item<K>>, n: nat, b: int,
                                          items: set<Item<K>>, items1: set<Item<K>>)
    requires BucketOk(m, bk, c, n, b, items) && Same(m, m1, c)
    requires forall x :: x in items && x.hashv % n == b ==> x in items1
    requires forall x :: x in items1 && x.hashv % n == b ==> x in items
    ensures BucketOk(m1, bk, c, n, b, items1)
  {
    SameChain(m, m1, c);
    hide Chain, Same;
  }

  /** The links of a push change for the new item and the first of the chain only. */
  lemma {:induction false} PushTouches<K>(m: map<Item<K>, Ends<K>>, c: seq<Item<K>>, x: Item<K>, s: seq<Item<K>>)
    requires x !in s && (c != [] ==> c[0] !in s)
    ensures Same(m, Pushed(m, c, x), s)
  {
  }

  lemma {:induction false} HeadOf<K>(m: map<Item<K>, Ends<K>>, bk: Bucket<K>, c: seq<Item<K>>, n: nat, b: int,
                                     items: set<Item<K>>)
    requires BucketOk(m, bk, c, n, b, items)
    ensures c != [] ==> c[0] in items && c[0].hashv % n == b && c[0] in m
    ensures bk.head == First(c)
  {
    if c != [] {
      assert Leads(m, c[0], After(c, 0));
      assert c[0] in c;
    }
  }

  /** HASH_ADD_TO_BKT without the expansion. */
  lemma {:induction false} PushBucketed<K>(m: map<Item<K>, Ends<K>>, bks: seq<Bucket<K>>, chains: seq<seq<Item<K>>>,
                                           items: set<Item<K>>,
                                           x: Item<K>, b: nat, mult: nat)
    requires Bucketed(m, bks, chains, items) && x !in items && b < |bks| && x.hashv % |bks| == b
    ensures Bucketed(Pushed(m, chains[b], x), bks[b := Bucket(x, bks[b].count + 1, mult)],
                     chains[b := [x] + chains[b]], items + {x})
  {
    var m1, bks1, chains1, items1 := Pushed(m, chains[b], x), bks[b := Bucket(x, bks[b].count + 1, mult)],
        chains[b := [x] + chains[b]], items + {x};
    InBucket(m, bks, chains, items, b);
    HeadOf(m, bks[b], chains[b], |bks|, b, items);
    hide Pushed, Chain, Same;
    forall d | 0 <= d < |bks|
      ensures BucketOk(m1, bks1[d], chains1[d], |bks|, d, items1)
    {
      if d == b {
        OneBucket(m, bks[b], chains[b], |bks|, b, items, x, mult);
      } else {
        InBucket(m, bks, chains, items, d);
        PushTouches(m, chains[b], x, chains[d]);
        OtherBucket(m, m1, bks[d], chains[d], |bks|, d, items, items1);
      }
    }
  }

  // ---------- expansion ----------

  /** A chain of the old table that has not been moved: its items are all outside the new table. */
  ghost predicate Waiting<K>(m: map<Item<K>, Ends<K>>, S: set<Item<K>>, moved: set<Item<K>>, c: seq<Item<K>>, n: nat,
                             b: int) {
    && Forward(m, c) && NoDup(c) && n > 0
    && (forall x :: x in c ==> x in S && x !in moved && x.hashv % n == b)
  }

  /** While bucket i is being emptied, r is what is left of it. */
  ghost predicate Moving<K>(m: map<Item<K>, Ends<K>>, S: set<Item<K>>, bks: seq<Bucket<K>>, chains: seq<seq<Item<K>>>,
                            moved: set<Item<K>>,
                            from: seq<seq<Item<K>>>, i: nat, r: seq<Item<K>>) {
    && Bucketed(m, bks, chains, moved) && moved <= S && m.Keys == S && |bks| == 2 * |from|
    && Waiting(m, S, moved, r, |from|, i)
    && (forall b :: i < b < |from| ==> Waiting(m, S, moved, from[b], |from|, b))
    && (forall x :: x in S ==> x in moved || x in r || x.hashv % |from| > i)
  }

  lemma {:induction false} StillWaiting<K>(m: map<Item<K>, Ends<K>>, S: set<Item<K>>, moved: set<Item<K>>,
                                           c: seq<Item<K>>, n: nat, b: int,
                                           d: seq<Item<K>>, x: Item<K>)
    requires Waiting(m, S, moved, c, n, b) && x !in c && (d != [] ==> d[0] in moved)
    ensures Waiting(Pushed(m, d, x), S, moved + {x}, c, n, b)
  {
    PushTouches(m, d, x, c);
    SameChain(m, Pushed(m, d, x), c);
    hide Pushed, Same;
  }

  lemma {:induction false} WaitingRest<K>(m: map<Item<K>, Ends<K>>, S: set<Item<K>>, moved: set<Item<K>>,
                                          r: seq<Item<K>>, n: nat, b: int)
    requires Waiting(m, S, moved, r, n, b) && r != []
    ensures Waiting(m, S, moved, r[1..], n, b) && r[0] !in r[1..]
    ensures r[0] in S && r[0] !in moved && r[0].hashv % n == b && r[0] in m && m[r[0]].next == First(r[1..])
  {
    assert Leads(m, r[0], After(r, 0));
    forall j | 0 <= j < |r| - 1
      ensures Leads(m, r[1..][j], After(r[1..], j))
    {
      assert Leads(m, r[j + 1], After(r, j + 1));
    }
    forall x | x in r[1..]
      ensures x in r && x != r[0]
    {
    }
  }

  /** Moving one item to its new bucket. */
  lemma {:induction false} MoveOne<K>(m: map<Item<K>, Ends<K>>, S: set<Item<K>>, bks: seq<Bucket<K>>,
                                      chains: seq<seq<Item<K>>>, moved: set<Item<K>>,
                                      from: seq<seq<Item<K>>>, i: nat, r: seq<Item<K>>, b: nat, mult: nat)
    requires Moving(m, S, bks, chains, moved, from, i, r) && r != [] && b < |bks| && b == r[0].hashv % |bks|
    ensures Moving(Pushed(m, chains[b], r[0]), S, bks[b := Bucket(r[0], bks[b].count + 1, mult)],
                   chains[b := [r[0]] + chains[b]],
                   moved + {r[0]}, from, i, r[1..])
  {
    var x := r[0];
    WaitingRest(m, S, moved, r, |from|, i);
    InBucket(m, bks, chains, moved, b);
    HeadOf(m, bks[b], chains[b], |bks|, b, moved);
    PushBucketed(m, bks, chains, moved, x, b, mult);
    var m1 := Pushed(m, chains[b], x);
    assert m1.Keys == S;
    hide Pushed, Bucketed, BucketOk;
    StillWaiting(m, S, moved, r[1..], |from|, i, chains[b], x);
    forall d | i < d < |from|
      ensures Waiting(m1, S, moved + {x}, from[d], |from|, d)
    {
      assert x !in from[d];
      StillWaiting(m, S, moved, from[d], |from|, d, chains[b], x);
    }
    forall y | y in S
      ensures y in moved + {x} || y in r[1..] || y.hashv % |from| > i
    {
      assert r == [x] + r[1..];
    }
  }

  lemma {:induction false} NextBucket<K>(m: map<Item<K>, Ends<K>>, S: set<Item<K>>, bks: seq<Bucket<K>>,
                                         chains: seq<seq<Item<K>>>, moved: set<Item<K>>,
                                         from: seq<seq<Item<K>>>, i: nat)
    requires Moving(m, S, bks, chains, moved, from, i, [])
             && (i + 1 < |from| ==> forall x :: x in S && x.hashv % |from| == i + 1 ==> x in from[i + 1])
    ensures i + 1 < |from| ==> Moving(m, S, bks, chains, moved, from, i + 1, from[i + 1])
    ensures i + 1 >= |from| > 0 ==> moved == S
  {
    hide Waiting, Bucketed;
    if i + 1 >= |from| > 0 {
      forall x | x in S
        ensures x in moved
      {
        assert x.hashv % |from| < |from|;
      }
    }
  }

  lemma {:induction false} StartMoving<K>(m: map<Item<K>, Ends<K>>, S: set<Item<K>>, old_: seq<Bucket<K>>,
                                          from: seq<seq<Item<K>>>, bks: seq<Bucket<K>>,
                                          chains: seq<seq<Item<K>>>)
    requires Bucketed(m, old_, from, S) && m.Keys == S && |from| > 0 && |chains| == |bks| == 2 * |from|
    requires forall b :: 0 <= b < |bks| ==> bks[b] == Bucket(null, 0, 0) && chains[b] == []
    ensures Moving(m, S, bks, chains, {}, from, 0, from[0])
  {
    forall b | 0 <= b < |from|
      ensures Waiting(m, S, {}, from[b], |from|, b)
    {
      InBucket(m, old_, from, S, b);
    }
    InBucket(m, old_, from, S, 0);
  }

  // ---------- how evenly the items spread ----------

  function Over(count: nat, ideal: nat): nat {
    if count > ideal then count - ideal else 0
  }

  /** How many items lie beyond the ideal chain length. */
  function Excess<K>(bks: seq<Bucket<K>>, ideal: nat): nat {
    if bks == [] then 0 else Over(bks[0].count, ideal) + Excess(bks[1..], ideal)
  }

  lemma {:induction false} ExcessUpdate<K>(bks: seq<Bucket<K>>, ideal: nat, b: nat, bk: Bucket<K>)
    requires b < |bks|
    ensures Excess(bks[b := bk], ideal) == Excess(bks, ideal) - Over(bks[b].count, ideal) + Over(bk.count, ideal)
  {
    if b == 0 {
      assert bks[b := bk][1..] == bks[1..];
    } else {
      assert bks[b := bk][1..] == bks[1..][b - 1 := bk];
      ExcessUpdate(bks[1..], ideal, b - 1, bk);
    }
  }

  lemma {:induction false} ExcessNone<K>(bks: seq<Bucket<K>>, ideal: nat)
    requires forall b :: 0 <= b < |bks| ==> bks[b].count == 0
    ensures Excess(bks, ideal) == 0
  {
    if bks != [] {
      ExcessNone(bks[1..], ideal);
    }
  }

  function NewMult(mult: nat, count: nat, ideal: nat): nat {
    if count > ideal && count > mult * ideal then mult + 1 else mult
  }

  /** What the counting makes of it: none up to the ideal length, and then as many as the chain is
      longer, but no more than ideal lengths it takes. */
  function MultFor(count: nat, ideal: nat): nat {
    if count <= ideal then 0
    else if ideal == 0 || count - ideal <= CeilDiv(count, ideal) then count - ideal
    else CeilDiv(count, ideal)
  }

  lemma {:induction false} MulMono(a: int, b: int, d: nat)
    ensures a <= b ==> a * d <= b * d
  {
  }

  lemma {:induction false} CeilLess(a: nat, d: nat, k: int)
    requires d > 0
    ensures a > k * d <==> k < CeilDiv(a, d)
  {
    var q := CeilDiv(a, d);
    assert a <= q * d < a + d;
    hide CeilDiv;
    MulMono(q, k, d);
    MulMono(k + 1, q, d);
    assert (k + 1) * d == k * d + d;
  }

  lemma {:induction false} MultStep(count: nat, ideal: nat)
    ensures NewMult(MultFor(count, ideal), count + 1, ideal) == MultFor(count + 1, ideal)
  {
    if ideal > 0 && count >= ideal {
      hide CeilDiv;
      var q, r, m := CeilDiv(count, ideal), CeilDiv(count + 1, ideal), MultFor(count, ideal);
      CeilLess(count, ideal, q - 1);
      CeilLess(count + 1, ideal, q - 1);
      CeilLess(count, ideal, r - 2);
      CeilLess(count + 1, ideal, r - 1);
      CeilLess(count, ideal, 0);
      CeilLess(count + 1, ideal, 0);
      CeilLess(count + 1, ideal, 1);
      CeilLess(count + 1, ideal, m);
      assert (r - 1) * ideal == (r - 2) * ideal + ideal;
      assert q <= r <= q + 1;
      assert NewMult(m, count + 1, ideal) == if m < r then m + 1 else m;
    }
  }

  /** Every bucket has that. */
  ghost predicate Mults<K>(bks: seq<Bucket<K>>, ideal: nat) {
    forall b :: 0 <= b < |bks| ==> bks[b].mult == MultFor(bks[b].count, ideal)
  }

  lemma {:induction false} MultsNone<K>(bks: seq<Bucket<K>>, ideal: nat)
    requires forall b :: 0 <= b < |bks| ==> bks[b].count == 0 && bks[b].mult == 0
    ensures Mults(bks, ideal)
  {
  }

  lemma {:induction false} MultsUpdate<K>(bks: seq<Bucket<K>>, ideal: nat, b: nat, bk: Bucket<K>)
    requires b < |bks| && bk.count == bks[b].count + 1 && bk.mult == NewMult(bks[b].mult, bk.count, ideal)
    ensures Mults(bks, ideal) ==> Mults(bks[b := bk], ideal)
  {
    MultStep(bks[b].count, ideal);
  }

  /** The move of one item during an expansion. */
  method MoveItem<K>(ghost S: set<Item<K>>, nb: array<Bucket<K>>, ghost c: seq<Item<K>>, x: Item<K>, b: nat,
                     ideal: nat, nonideal0: nat)
    returns (nonideal: nat)
    requires x in S && b < nb.Length && nb[b].head == First(c) && (c != [] ==> c[0] in S && c[0] != x)
    modifies S, nb
    ensures nb[..] == old(nb[..])[b := Bucket(x, old(nb[b].count) + 1,
                                              NewMult(old(nb[b].mult), old(nb[b].count) + 1, ideal))]
    ensures ChainLinks(S) == Pushed(old(ChainLinks(S)), c, x) && OrderLinks(S) == old(OrderLinks(S))
    ensures nonideal == nonideal0 + Over(old(nb[b].count) + 1, ideal) - Over(old(nb[b].count), ideal)
  {
    nonideal := nonideal0;
    var count, mult := nb[b].count + 1, nb[b].mult;
    if count > ideal {
      nonideal := nonideal + 1;
      if count > mult * ideal {
        mult := mult + 1;
      }
    }
    x.hhPrev := null;
    x.hhNext := nb[b].head;
    if nb[b].head != null {
      nb[b].head.hhPrev := x;
    }
    nb[b] := Bucket(x, count, mult);
  }

  /** What has to hold to move the first item of r. */
  lemma {:induction false} ReadyToMove<K>(m: map<Item<K>, Ends<K>>, S: set<Item<K>>, bks: seq<Bucket<K>>,
                                          chains: seq<seq<Item<K>>>,
                                          moved: set<Item<K>>, from: seq<seq<Item<K>>>, i: nat, r: seq<Item<K>>, b: nat)
    requires Moving(m, S, bks, chains, moved, from, i, r) && r != [] && b < |bks|
    ensures |chains| == |bks| && m.Keys == S
    ensures r[0] in S && m[r[0]].next == First(r[1..]) && bks[b].head == First(chains[b])
    ensures chains[b] != [] ==> chains[b][0] in S && chains[b][0] != r[0]
  {
    hide Waiting, BucketOk;
    WaitingRest(m, S, moved, r, |from|, i);
    InBucket(m, bks, chains, moved, b);
    HeadOf(m, bks[b], chains[b], |bks|, b, moved);
  }

  /** One round of the inner loop of the expansion. */
  method MoveNext<K>(ghost S: set<Item<K>>, nb: array<Bucket<K>>, lg: nat, ideal: nat, nonideal0: nat,
                     ghost nc0: seq<seq<Item<K>>>,
                     ghost moved0: set<Item<K>>, ghost from: seq<seq<Item<K>>>, ghost i: nat, ghost r: seq<Item<K>>,
                       x: Item<K>)
    returns (nonideal: nat, nxt: Item?<K>, ghost nc: seq<seq<Item<K>>>, ghost moved: set<Item<K>>)
    requires r != [] && x == r[0] && nb.Length == Pow2(lg)
    requires Moving(ChainLinks(S), S, nb[..], nc0, moved0, from, i, r) && nonideal0 == Excess(nb[..], ideal)
    requires Mults(nb[..], ideal)
    modifies S, nb
    ensures Mults(nb[..], ideal)
    ensures Moving(ChainLinks(S), S, nb[..], nc, moved, from, i, r[1..]) && nonideal == Excess(nb[..], ideal)
    ensures OrderLinks(S) == old(OrderLinks(S)) && nxt == First(r[1..])
  {
    hide Moving, Excess, Pushed, Pow2, BucketOf, Over, NewMult, BitAnd, Mults;
    ghost var m, was := ChainLinks(S), nb[..];
    BucketOfIs(x.hashv, lg);
    var b := BucketOf(x.hashv, nb.Length);
    ReadyToMove(m, S, was, nc0, moved0, from, i, r, b);
    nxt := x.hhNext;
    ghost var bk := was[b];
    nonideal := MoveItem(S, nb, nc0[b], x, b, ideal, nonideal0);
    ghost var mult := nb[b].mult;
    assert nb[b] == Bucket(x, bk.count + 1, mult);
    MoveOne(m, S, was, nc0, moved0, from, i, r, b, mult);
    ExcessUpdate(was, ideal, b, Bucket(x, bk.count + 1, mult));
    MultsUpdate(was, ideal, b, nb[b]);
    nc := nc0[b := [x] + nc0[b]];
    moved := moved0 + {x};
  }

  /** The inner loop of the expansion: all of bucket i is moved. */
  method EmptyBucket<K>(ghost S: set<Item<K>>, first: Item?<K>, nb: array<Bucket<K>>, lg: nat, ideal: nat,
                        nonideal0: nat,
                        ghost nc0: seq<seq<Item<K>>>, ghost moved0: set<Item<K>>, ghost from: seq<seq<Item<K>>>,
                          ghost i: nat)
    returns (nonideal: nat, ghost nc: seq<seq<Item<K>>>, ghost moved: set<Item<K>>)
    requires i < |from| && first == First(from[i]) && nb.Length == Pow2(lg)
    requires Moving(ChainLinks(S), S, nb[..], nc0, moved0, from, i, from[i]) && nonideal0 == Excess(nb[..], ideal)
    requires Mults(nb[..], ideal)
    modifies S, nb
    ensures Mults(nb[..], ideal)
    ensures Moving(ChainLinks(S), S, nb[..], nc, moved, from, i, []) && nonideal == Excess(nb[..], ideal)
    ensures OrderLinks(S) == old(OrderLinks(S))
  {
    hide Moving, Excess, Pow2, Mults;
    nonideal, nc, moved := nonideal0, nc0, moved0;
    var x := first;
    ghost var r := from[i];
    while x != null
      invariant x == First(r) && Moving(ChainLinks(S), S, nb[..], nc, moved, from, i, r)
      invariant nonideal == Excess(nb[..], ideal) && OrderLinks(S) == old(OrderLinks(S)) && Mults(nb[..], ideal)
      decreases |r|
    {
      nonideal, x, nc, moved := MoveNext(S, nb, lg, ideal, nonideal, nc, moved, from, i, r, x);
      r := r[1..];
    }
  }

  /** The state before bucket i is emptied. */
  ghost predicate Rehashing<K>(m: map<Item<K>, Ends<K>>, S: set<Item<K>>, bks: seq<Bucket<K>>,
                               chains: seq<seq<Item<K>>>, moved: set<Item<K>>,
                               from: seq<seq<Item<K>>>, i: nat) {
    if i < |from| then Moving(m, S, bks, chains, moved, from, i, from[i]) else Bucketed(m, bks, chains, S)
  }

  lemma {:induction false} RehashNext<K>(m: map<Item<K>, Ends<K>>, S: set<Item<K>>, bks: seq<Bucket<K>>,
                                         chains: seq<seq<Item<K>>>, moved: set<Item<K>>,
                                         m0: map<Item<K>, Ends<K>>, bks0: seq<Bucket<K>>, from: seq<seq<Item<K>>>,
                                           i: nat)
    requires Bucketed(m0, bks0, from, S) && Moving(m, S, bks, chains, moved, from, i, []) && i < |from|
    ensures Rehashing(m, S, bks, chains, moved, from, i + 1)
  {
    FromBucket(m0, bks0, from, S, i + 1);
    SameCount(m0, bks0, from, S);
    hide Waiting;
    MovedBucketed(m, S, bks, chains, moved, from, i);
    hide Moving, Bucketed;
    NextBucket(m, S, bks, chains, moved, from, i);
  }

  lemma {:induction false} MovedBucketed<K>(m: map<Item<K>, Ends<K>>, S: set<Item<K>>, bks: seq<Bucket<K>>,
                                            chains: seq<seq<Item<K>>>,
                                            moved: set<Item<K>>, from: seq<seq<Item<K>>>, i: nat)
    ensures Moving(m, S, bks, chains, moved, from, i, []) ==> Bucketed(m, bks, chains, moved)
  {
  }

  /** The outer loop of the expansion. */
  method Rehash<K>(ghost S: set<Item<K>>, buckets: array<Bucket<K>>, nb: array<Bucket<K>>, lg: nat, ideal: nat,
                   ghost from: seq<seq<Item<K>>>,
                   ghost nc0: seq<seq<Item<K>>>)
    returns (nonideal: nat, ghost nc: seq<seq<Item<K>>>)
    requires Bucketed(ChainLinks(S), buckets[..], from, S) && nb.Length == Pow2(lg) && nb != buckets && |from| > 0
    requires Moving(ChainLinks(S), S, nb[..], nc0, {}, from, 0, from[0]) && Excess(nb[..], ideal) == 0
    requires Mults(nb[..], ideal)
    modifies S, nb
    ensures Mults(nb[..], ideal)
    ensures Bucketed(ChainLinks(S), nb[..], nc, S) && nonideal == Excess(nb[..], ideal)
    ensures OrderLinks(S) == old(OrderLinks(S)) && buckets[..] == old(buckets[..])
  {
    hide Moving, Excess, Pow2, Mults;
    ghost var was, m := buckets[..], ChainLinks(S);
    SameCount(m, was, from, S);
    hide Bucketed;
    nonideal, nc := 0, nc0;
    ghost var moved: set<Item<K>> := {};
    var i := 0;
    while i < buckets.Length
      invariant 0 <= i <= buckets.Length && buckets[..] == was && OrderLinks(S) == old(OrderLinks(S))
      invariant Rehashing(ChainLinks(S), S, nb[..], nc, moved, from, i)
      invariant nonideal == Excess(nb[..], ideal) && Mults(nb[..], ideal)
    {
      FromBucket(m, was, from, S, i);
      assert buckets[i] == was[i];
      nonideal, nc, moved := EmptyBucket(S, buckets[i].head, nb, lg, ideal, nonideal, nc, moved, from, i);
      RehashNext(ChainLinks(S), S, nb[..], nc, moved, m, was, from, i);
      i := i + 1;
    }
  }

  /** HASH_EXPAND_BUCKETS: twice as many buckets, holding the same items. */
  method ExpandBuckets<K>(ghost S: set<Item<K>>, buckets: array<Bucket<K>>, lg: nat, numItems: nat,
                          ghost from: seq<seq<Item<K>>>)
    returns (nb: array<Bucket<K>>, ideal: nat, nonideal: nat, ghost nc: seq<seq<Item<K>>>)
    requires Bucketed(ChainLinks(S), buckets[..], from, S) && buckets.Length == Pow2(lg)
    modifies S
    ensures fresh(nb) && nb.Length == Pow2(lg + 1) && Bucketed(ChainLinks(S), nb[..], nc, S)
    ensures OrderLinks(S) == old(OrderLinks(S)) && buckets[..] == old(buckets[..])
    ensures ideal == CeilDiv(numItems, nb.Length) && nonideal == Excess(nb[..], ideal) && Mults(nb[..], ideal)
  {
    ghost var was, m := buckets[..], ChainLinks(S);
    SameCount(m, was, from, S);
    hide Moving, Bucketed, Excess, BitAnd, IdealChain, CeilDiv, Mults;
    nb := new Bucket<K>[2 * buckets.Length](_ => Bucket(null, 0, 0));
    IdealIsCeiling(numItems, lg);
    ideal := IdealChain(numItems, buckets.Length, lg);
    ExcessNone(nb[..], ideal);
    MultsNone(nb[..], ideal);
    nc := seq(nb.Length, _ => []);
    assert m == ChainLinks(S);
    StartMoving(m, S, was, from, nb[..], nc);
    nonideal, nc := Rehash(S, buckets, nb, lg + 1, ideal, from, nc);
  }

  lemma {:induction false} SameCount<K>(m: map<Item<K>, Ends<K>>, bks: seq<Bucket<K>>, chains: seq<seq<Item<K>>>,
                                        items: set<Item<K>>)
    requires Bucketed(m, bks, chains, items)
    ensures |chains| == |bks|
  {
  }

  lemma {:induction false} FromBucket<K>(m: map<Item<K>, Ends<K>>, bks: seq<Bucket<K>>, from: seq<seq<Item<K>>>,
                                         S: set<Item<K>>, i: nat)
    requires Bucketed(m, bks, from, S)
    ensures i < |bks| == |from| ==> bks[i].head == First(from[i]) && forall x :: x in S && x.hashv % |from| == i ==>
              x in from[i]
  {
    if i < |bks| {
      InBucket(m, bks, from, S, i);
    }
  }

  // ---------- the table ----------

  /** HASH_TO_BKT */
  function BucketOf(hashv: nat, buckets: nat): nat {
    BitAnd(hashv, if buckets == 0 then 0 else buckets - 1)
  }

  lemma {:induction false} BucketOfIs(hashv: nat, lg: nat)
    ensures BucketOf(hashv, Pow2(lg)) == hashv % Pow2(lg) < Pow2(lg)
  {
    MaskIsModulo(hashv, lg);
  }

  ghost function Items<K>(s: seq<Item<K>>): set<Item<K>> {
    set x | x in s
  }

  /** Distinct keys, each with the hash of its item. */
  ghost predicate Keyed<K>(hash: K -> nat, s: seq<Item<K>>) {
    && (forall x :: x in s ==> x.hashv == hash(x.key))
    && (forall x, y :: x in s && y in s && x.key == y.key ==> x == y)
  }

  /** Bucketed only looks at the links of its items. */
  lemma {:induction false} BucketedFrame<K>(m: map<Item<K>, Ends<K>>, m1: map<Item<K>, Ends<K>>, bks: seq<Bucket<K>>,
                                            chains: seq<seq<Item<K>>>,
                                            items: set<Item<K>>)
    requires Bucketed(m, bks, chains, items) && forall x :: x in items && x in m ==> x in m1 && m1[x] == m[x]
    ensures Bucketed(m1, bks, chains, items)
  {
    forall b | 0 <= b < |bks|
      ensures BucketOk(m1, bks[b], chains[b], |bks|, b, items)
    {
      InBucket(m, bks, chains, items, b);
      OtherBucket(m, m1, bks[b], chains[b], |bks|, b, items, items);
    }
  }

  lemma {:induction false} EmptyBuckets<K>(m: map<Item<K>, Ends<K>>, bks: seq<Bucket<K>>, chains: seq<seq<Item<K>>>)
    requires |chains| == |bks| && forall b :: 0 <= b < |bks| ==> bks[b] == Bucket(null, 0, 0) && chains[b] == []
    ensures Bucketed(m, bks, chains, {})
  {
  }

  /** HASH_DEL_IN_BKT */
  lemma {:induction false} UnlinkBucketed<K>(m: map<Item<K>, Ends<K>>, bks: seq<Bucket<K>>, chains: seq<seq<Item<K>>>,
                                             items: set<Item<K>>, b: nat, i: nat)
    requires Bucketed(m, bks, chains, items) && b < |bks| && i < |chains[b]|
    ensures var c := Without(chains[b], i);
            Bucketed(Unlinked(m, chains[b], i), bks[b := Bucket(First(c), bks[b].count - 1, bks[b].mult)],
                     chains[b := c], items - {chains[b][i]})
  {
    var c, x := Without(chains[b], i), chains[b][i];
    var m1, bks1, items1 := Unlinked(m, chains[b], i), bks[b := Bucket(First(c), bks[b].count - 1, bks[b].mult)],
        items - {x};
    InBucket(m, bks, chains, items, b);
    assert x in chains[b];
    forall d | 0 <= d < |bks|
      ensures BucketOk(m1, bks1[d], chains[b := c][d], |bks|, d, items1)
    {
      hide Chain, Same, Unlinked;
      if d == b {
        UnlinkOne(m, bks[b], chains[b], |bks|, b, items, i);
      } else {
        InBucket(m, bks, chains, items, d);
        UnlinkTouches(m, chains[b], i, chains[d]);
        OtherBucket(m, m1, bks[d], chains[d], |bks|, d, items, items1);
      }
    }
  }

  lemma {:induction false} UnlinkOne<K>(m: map<Item<K>, Ends<K>>, bk: Bucket<K>, c: seq<Item<K>>, n: nat, b: int,
                                        items: set<Item<K>>, i: nat)
    requires BucketOk(m, bk, c, n, b, items) && i < |c|
    ensures BucketOk(Unlinked(m, c, i), Bucket(First(Without(c, i)), bk.count - 1, bk.mult), Without(c, i), n, b,
                     items - {c[i]})
  {
    UnlinkChain(m, c, i);
    WithoutMembers(c, i);
    hide Chain, Unlinked, Without;
    WithoutLength(c, i);
  }

  lemma {:induction false} WithoutLength<T>(c: seq<T>, i: nat)
    ensures i < |c| ==> |Without(c, i)| == |c| - 1
  {
  }

  lemma {:induction false} WithoutMembers<K>(c: seq<Item<K>>, i: nat)
    requires i < |c| && NoDup(c)
    ensures Items(Without(c, i)) == Items(c) - {c[i]}
    ensures forall x :: x in Without(c, i) ==> x in c && x != c[i]
    ensures forall x :: x in c && x != c[i] ==> x in Without(c, i)
  {
    var d := Without(c, i);
    forall x | x in c && x != c[i]
      ensures x in d
    {
      var j :| 0 <= j < |c| && c[j] == x;
      assert d[if j < i then j else j - 1] == x;
    }
    forall x | x in d
      ensures x in c && x != c[i]
    {
      var j :| 0 <= j < |d| && d[j] == x;
      assert x == c[if j < i then j else j + 1];
    }
  }

  lemma {:induction false} UnlinkTouches<K>(m: map<Item<K>, Ends<K>>, c: seq<Item<K>>, i: nat, s: seq<Item<K>>)
    requires i < |c| && forall x :: x in c ==> x !in s
    ensures Same(m, Unlinked(m, c, i), s)
  {
    if i > 0 {
      assert c[i - 1] in c;
    }
    if i + 1 < |c| {
      assert c[i + 1] in c;
    }
  }

  lemma {:induction false} ItemsMore<K>(s: seq<Item<K>>, x: Item<K>)
    ensures Items(s + [x]) == Items(s) + {x}
  {
  }

  lemma {:induction false} FirstMore<K>(s: seq<Item<K>>, x: Item<K>)
    ensures First(s + [x]) == if s == [] then x else First(s)
    ensures s == [] <==> First(s) == null
  {
  }

  lemma {:induction false} KeyedMore<K>(hash: K -> nat, s: seq<Item<K>>, x: Item<K>)
    ensures Keyed(hash, s) && x.hashv == hash(x.key) && (forall y :: y in s ==> y.key != x.key) ==> Keyed(hash, s + [x])
  {
  }

  lemma {:induction false} KeyedLess<K>(hash: K -> nat, s: seq<Item<K>>, i: nat)
    ensures Keyed(hash, s) ==> Keyed(hash, Without(s, i))
  {
    forall x | x in Without(s, i)
      ensures x in s
    {
    }
  }

  /** HASH_APPEND_LIST */
  method AppendList<K>(ghost S: set<Item<K>>, ghost s: seq<Item<K>>, tail: Item<K>, add: Item<K>)
    requires s != [] && tail == Last(s) && tail in S && add in S && tail != add
    modifies S
    ensures OrderLinks(S) == Appended(old(OrderLinks(S)), s, add) && ChainLinks(S) == old(ChainLinks(S))
  {
    add.next := null;
    add.prev := tail;
    tail.next := add;
  }

  lemma {:induction false} LinksAt<K>(m: map<Item<K>, Ends<K>>, s: seq<Item<K>>, i: nat)
    requires Chain(m, s) && i < |s|
    ensures s[i] in m && m[s[i]] == Ends(After(s, i), Ahead(s, i))
    ensures s[i] == Last(s) <==> i == |s| - 1
    ensures Ahead(s, i) == null <==> i == 0
    ensures After(s, i) == null <==> i == |s| - 1
  {
    assert Leads(m, s[i], After(s, i)) && Follows(m, s[i], Ahead(s, i));
  }

  lemma {:induction false} NeighboursIn<K>(s: seq<Item<K>>, i: nat)
    requires i < |s|
    ensures Ahead(s, i) != null ==> Ahead(s, i) in Items(s)
    ensures After(s, i) != null ==> After(s, i) in Items(s)
    ensures After(s, i) != null && Ahead(s, i) == After(s, i) ==> !NoDup(s)
  {
    if After(s, i) != null && Ahead(s, i) == After(s, i) {
      assert s[i - 1] == s[i + 1];
    }
  }

  lemma {:induction false} WithoutEnds<K>(s: seq<Item<K>>, i: nat)
    requires i < |s| && |s| > 1
    ensures First(Without(s, i)) == if i == 0 then After(s, i) else First(s)
    ensures Last(Without(s, i)) == if i == |s| - 1 then Ahead(s, i) else Last(s)
  {
  }

  /** The neighbours of a deleted item are linked to each other. */
  method Bypass<K>(ghost S: set<Item<K>>, ghost s: seq<Item<K>>, ghost i: nat, del: Item<K>)
    requires del in S && OrderLinks(S)[del] == Ends(After(s, i), Ahead(s, i))
    requires (Ahead(s, i) != null ==> Ahead(s, i) in S) && (After(s, i) != null ==> After(s, i) in S)
             && del != Ahead(s, i)
    modifies S
    ensures OrderLinks(S) == Unlinked(old(OrderLinks(S)), s, i) && ChainLinks(S) == old(ChainLinks(S))
  {
    hide After, Ahead;
    if del.prev != null {
      del.prev.next := del.next;
    }
    if del.next != null {
      del.next.prev := del.prev;
    }
  }

  /** The removal of an item from the insertion order. */
  method UnlinkList<K>(ghost S: set<Item<K>>, ghost s: seq<Item<K>>, ghost i: nat, head: Item<K>, tail: Item<K>,
                       del: Item<K>)
    returns (head1: Item?<K>, tail1: Item?<K>)
    requires i < |s| && |s| > 1 && s[i] == del && S == Items(s) && Chain(OrderLinks(S), s) && head == First(s)
             && tail == Last(s)
    modifies S
    ensures OrderLinks(S) == Unlinked(old(OrderLinks(S)), s, i) && ChainLinks(S) == old(ChainLinks(S))
    ensures head1 == First(Without(s, i)) && tail1 == Last(Without(s, i))
  {
    LinksAt(OrderLinks(S), s, i);
    NeighboursIn(s, i);
    WithoutEnds(s, i);
    assert i > 0 ==> s[i - 1] != s[i];
    hide Chain, Unlinked, Without;
    head1, tail1 := head, tail;
    if del == tail {
      tail1 := del.prev;
    }
    if del.prev == null {
      head1 := del.next;
    }
    Bypass(S, s, i, del);
  }

  /** A table with the given list, and with items in its buckets. */
  ghost predicate Built<K>(om: map<Item<K>, Ends<K>>, cm: map<Item<K>, Ends<K>>, bks: seq<Bucket<K>>,
                           chains: seq<seq<Item<K>>>,
                           order: seq<Item<K>>, items: set<Item<K>>, tail: Item?<K>, lg: nat, numItems: nat) {
    && tail == Last(order) && Chain(om, order) && |bks| == Pow2(lg) && numItems == |order|
       && Bucketed(cm, bks, chains, items)
  }

  /** HASH_APPEND_LIST keeps the buckets and makes the list longer. */
  lemma {:induction false} BuiltNext<K>(items: set<Item<K>>, S: set<Item<K>>, bks: seq<Bucket<K>>,
                                        chains: seq<seq<Item<K>>>, order: seq<Item<K>>,
                                        tail: Item?<K>, lg: nat, numItems: nat, x: Item<K>)
    requires Built(OrderLinks(items), ChainLinks(items), bks, chains, order, items, tail, lg, numItems)
    requires x !in order && items <= S && items == Items(order)
    ensures Built(Appended(OrderLinks(S), order, x), ChainLinks(S), bks, chains, order + [x], items, x, lg,
                  numItems + 1)
    ensures tail == Last(order) && (order != [] ==> tail != null && tail in S && tail != x)
  {
    BucketedFrame(ChainLinks(items), ChainLinks(S), bks, chains, items);
    OrderGrows(items, S, order);
    AppendChain(OrderLinks(S), order, x);
    hide Bucketed, Chain, Appended;
  }

  /** The parts of Built that the buckets need, and back. */
  lemma {:induction false} BuiltParts<K>(om: map<Item<K>, Ends<K>>, cm: map<Item<K>, Ends<K>>, bks: seq<Bucket<K>>,
                                         chains: seq<seq<Item<K>>>,
                                         order: seq<Item<K>>, items: set<Item<K>>, tail: Item?<K>, lg: nat,
                                           numItems: nat)
    requires Built(om, cm, bks, chains, order, items, tail, lg, numItems)
    ensures |bks| == Pow2(lg) && Bucketed(cm, bks, chains, items) && numItems == |order|
    ensures order != [] ==> tail == Last(order) && Chain(om, order)
  {
  }

  lemma {:induction false} BuiltOf<K>(om: map<Item<K>, Ends<K>>, cm0: map<Item<K>, Ends<K>>, bks0: seq<Bucket<K>>,
                                      chains0: seq<seq<Item<K>>>,
                                      order: seq<Item<K>>, items0: set<Item<K>>, tail: Item?<K>, lg0: nat,
                                        numItems: nat,
                                      cm: map<Item<K>, Ends<K>>, bks: seq<Bucket<K>>, chains: seq<seq<Item<K>>>,
                                        items: set<Item<K>>, lg: nat)
    requires Built(om, cm0, bks0, chains0, order, items0, tail, lg0, numItems)
    requires |bks| == Pow2(lg) && Bucketed(cm, bks, chains, items)
    ensures Built(om, cm, bks, chains, order, items, tail, lg, numItems)
  {
  }

  class Table<K(==)> {
    const hash: K -> nat
    var head: Item?<K>
    var tail: Item?<K>
    var buckets: array<Bucket<K>>
    var log2: nat
    var numItems: nat
    var ideal: nat
    var nonideal: nat
    var ineff: nat
    var noexpand: bool
    ghost var order: seq<Item<K>>
    ghost var chains: seq<seq<Item<K>>>

    /** What the table looks like when it has items. */
    ghost predicate Filled()
      reads this, buckets, Items(order)
    {
      Built(OrderLinks(Items(order)), ChainLinks(Items(order)), buckets[..], chains, order, Items(order), tail, log2,
            numItems)
    }

    ghost predicate Valid()
      reads this, buckets, Items(order)
    {
      head == First(order) && Keyed(hash, order) && (order != [] ==> Filled())
    }

    constructor (hash: K -> nat)
      ensures Valid() && order == [] && this.hash == hash
    {
      this.hash := hash;
      head, tail := null, null;
      buckets := new Bucket<K>[0](_ => Bucket(null, 0, 0));
      log2, numItems, ideal, nonideal, ineff, noexpand := 0, 0, 0, 0, 0, false;
      order, chains := [], [];
    }

    /** HASH_FIND: the item with the key, or null if there is none. */
    method Find(key: K) returns (out: Item?<K>)
      requires Valid()
      ensures out != null ==> out in order && out.key == key
      ensures out == null ==> forall x :: x in order ==> x.key != key
    {
      out := null;
      if head != null {
        var b := BucketOf(hash(key), buckets.Length);
        BucketOfIs(hash(key), log2);
        ghost var S := Items(order);
        hide Pow2, BitAnd, BucketOf, Bucketed, Chain;
        InBucket(ChainLinks(S), buckets[..], chains, S, b);
        assert buckets[..][b] == buckets[b];
        ChainForward(ChainLinks(S), chains[b]);
        out := FindInBkt(S, chains[b], buckets[b].head, key, hash(key));
      }
    }

    /** HASH_MAKE_TABLE */
    method MakeTable(first: Item<K>)
      modifies this`tail, this`buckets, this`log2, this`numItems, this`ideal, this`nonideal, this`ineff,
               this`noexpand, this`chains
      ensures fresh(buckets) && buckets.Length == Pow2(log2) && tail == first && numItems == 0
              && |chains| == buckets.Length
      ensures forall b :: 0 <= b < buckets.Length ==> buckets[b] == Bucket(null, 0, 0) && chains[b] == []
    {
      tail := first;
      buckets := new Bucket<K>[INITIAL_BUCKETS](_ => Bucket(null, 0, 0));
      log2 := INITIAL_LOG2;
      numItems, ideal, nonideal, ineff, noexpand := 0, 0, 0, 0, false;
      chains := seq(INITIAL_BUCKETS, _ => []);
    }

    /** The expansion, and whether it is worth expanding again. */
    method Expand(ghost S: set<Item<K>>)
      requires Bucketed(ChainLinks(S), buckets[..], chains, S) && buckets.Length == Pow2(log2)
      modifies this`buckets, this`log2, this`ideal, this`nonideal, this`ineff, this`noexpand, this`chains, S
      ensures Bucketed(ChainLinks(S), buckets[..], chains, S) && buckets.Length == Pow2(log2) && fresh(buckets)
              && log2 == old(log2) + 1
      ensures ideal == CeilDiv(numItems, buckets.Length) && nonideal == Excess(buckets[..], ideal)
              && Mults(buckets[..], ideal)
      ensures ineff == if nonideal > numItems / 2 then old(ineff) + 1 else 0
      ensures noexpand == (old(noexpand) || (old(ineff) > 0 && nonideal > numItems / 2))
              && OrderLinks(S) == old(OrderLinks(S))
    {
      hide Bucketed, Excess, CeilDiv, Pow2, Mults, ChainLinks, OrderLinks;
      buckets, ideal, nonideal, chains := ExpandBuckets(S, buckets, log2, numItems, chains);
      log2 := log2 + 1;
      ineff := if nonideal > numItems / 2 then ineff + 1 else 0;
      if ineff > 1 {
        noexpand := true;
      }
    }

    /** The push of HASH_ADD_TO_BKT. */
    method PushBkt(x: Item<K>, b: nat, ghost items: set<Item<K>>)
      requires Bucketed(ChainLinks(items + {x}), buckets[..], chains, items) && x !in items && b < buckets.Length
      requires b == x.hashv % buckets.Length
      modifies this`chains, buckets, items + {x}
      ensures Bucketed(ChainLinks(items + {x}), buckets[..], chains, items + {x})
              && OrderLinks(items + {x}) == old(OrderLinks(items + {x}))
      ensures buckets[b].count == old(buckets[b].count) + 1 && buckets[b].mult == old(buckets[b].mult)
    {
      hide Bucketed, BucketOk, Pushed, ChainLinks, OrderLinks;
      ghost var S, m, was := items + {x}, ChainLinks(items + {x}), buckets[..];
      SameCount(m, was, chains, items);
      InBucket(m, was, chains, items, b);
      HeadOf(m, was[b], chains[b], |was|, b, items);
      PushBucketed(m, was, chains, items, x, b, was[b].mult);
      PushFront(S, buckets, chains[b], x, b);
      chains := chains[b := [x] + chains[b]];
    }

    /** HASH_ADD_TO_BKT */
    method AddToBkt(x: Item<K>, ghost items: set<Item<K>>)
      requires Bucketed(ChainLinks(items + {x}), buckets[..], chains, items) && x !in items
               && buckets.Length == Pow2(log2)
      modifies this`buckets, this`log2, this`ideal, this`nonideal, this`ineff, this`noexpand, this`chains, buckets,
               items + {x}
      ensures Bucketed(ChainLinks(items + {x}), buckets[..], chains, items + {x}) && buckets.Length == Pow2(log2)
      ensures (buckets == old(buckets) || fresh(buckets)) && OrderLinks(items + {x}) == old(OrderLinks(items + {x}))
      ensures var k := old(buckets[..])[x.hashv % old(buckets.Length)];
              log2 == old(log2) + if k.count + 1 >= 10 * (k.mult + 1) && !old(noexpand) then 1 else 0
      ensures log2 == old(log2) ==>
                buckets == old(buckets) && noexpand == old(noexpand) && ineff == old(ineff) && ideal == old(ideal)
    {
      hide Bucketed, Excess, CeilDiv, Pow2, BucketOf, BitAnd, Mults;
      BucketOfIs(x.hashv, log2);
      var b := BucketOf(x.hashv, buckets.Length);
      PushBkt(x, b, items);
      if buckets[b].count >= (buckets[b].mult + 1) * CAPACITY && !noexpand {
        Expand(items + {x});
      }
    }

    /** The first item makes the table. */
    method ListFirst(x: Item<K>)
      requires order == []
      modifies this, x
      ensures Built(OrderLinks(Items(order) + {x}), ChainLinks(Items(order) + {x}), buckets[..], chains, order + [x],
                    Items(order), tail, log2, numItems + 1)
      ensures order == [] && head == x && fresh(buckets)
    {
      x.next, x.prev := null, null;
      MakeTable(x);
      head := x;
      EmptyBuckets(ChainLinks({x}), buckets[..], chains);
      hide Bucketed;
      assert Items(order) + {x} == {x} && order + [x] == [x];
      assert Chain(OrderLinks({x}), [x]);
    }

    method ListNext(x: Item<K>)
      requires order != [] && x !in order
      requires Built(OrderLinks(Items(order)), ChainLinks(Items(order)), buckets[..], chains, order, Items(order),
                     tail, log2, numItems)
      modifies this`tail, Items(order) + {x}
      ensures Built(OrderLinks(Items(order) + {x}), ChainLinks(Items(order) + {x}), buckets[..], chains, order + [x],
                    Items(order), tail, log2, numItems + 1)
    {
      hide *;
      ghost var items := Items(order);
      ghost var S := items + {x};
      BuiltNext(items, S, buckets[..], chains, order, tail, log2, numItems, x);
      AppendList(S, order, tail, x);
      tail := x;
    }

    /** HASH_ADD_TO_TABLE */
    method Insert(x: Item<K>)
      requires Built(OrderLinks(Items(order) + {x}), ChainLinks(Items(order) + {x}), buckets[..], chains,
                     order + [x], Items(order), tail, log2, numItems + 1)
      requires x !in Items(order)
      modifies this`buckets, this`log2, this`numItems, this`ideal, this`nonideal, this`ineff, this`noexpand,
               this`chains, buckets, Items(order) + {x}
      ensures var S := Items(order) + {x};
              Built(OrderLinks(S), ChainLinks(S), buckets[..], chains, order + [x], S, tail, log2, numItems)
      ensures buckets == old(buckets) || fresh(buckets)
    {
      hide *;
      ghost var items, S := Items(order), Items(order) + {x};
      ghost var om, cm, bks, cs, lg := OrderLinks(S), ChainLinks(S), buckets[..], chains, log2;
      BuiltParts(om, cm, bks, cs, order + [x], items, tail, lg, numItems + 1);
      numItems := numItems + 1;
      AddToBkt(x, items);
      BuiltOf(om, cm, bks, cs, order + [x], items, tail, lg, numItems, ChainLinks(S), buckets[..], chains, S, log2);
    }

    method AddAny(x: Item<K>)
      requires (head == null <==> order == []) && x !in order && x !in Items(order)
      requires order != [] ==>
                 Built(OrderLinks(Items(order)), ChainLinks(Items(order)), buckets[..], chains, order, Items(order),
                       tail, log2, numItems)
      modifies this, buckets, Items(order), x
      ensures var S := Items(old(order)) + {x};
              Built(OrderLinks(S), ChainLinks(S), buckets[..], chains, order, S, tail, log2, numItems)
      ensures order == old(order) + [x] && head == (if old(order) == [] then x else old(head))
              && (buckets == old(buckets) || fresh(buckets))
    {
      hide *;
      if head == null {
        ListFirst(x);
      } else {
        ListNext(x);
      }
      Insert(x);
      order := order + [x];
    }

    /** HASH_ADD: a new key goes to the end of the list and into its bucket; nothing else changes place. */
    method Add(x: Item<K>)
      requires Valid() && x !in order && x.hashv == hash(x.key) && forall y :: y in order ==> y.key != x.key
      modifies this, buckets, Items(order), x
      ensures Valid() && order == old(order) + [x] && (buckets == old(buckets) || fresh(buckets))
    {
      KeyedMore(hash, order, x);
      ItemsMore(order, x);
      FirstMore(order, x);
      assert x !in Items(order);
      hide Keyed, Built, Items, OrderLinks, ChainLinks, First, Last;
      AddAny(x);
    }

    /** HASH_DEL_IN_BKT */
    method DelInBkt(del: Item<K>, ghost S: set<Item<K>>)
      requires del in S && buckets.Length == Pow2(log2) && Bucketed(ChainLinks(S), buckets[..], chains, S)
      modifies this`chains, buckets, S
      ensures Bucketed(ChainLinks(S), buckets[..], chains, S - {del}) && OrderLinks(S) == old(OrderLinks(S))
    {
      hide *;
      BucketOfIs(del.hashv, log2);
      var b := BucketOf(del.hashv, buckets.Length);
      ghost var m, was := ChainLinks(S), buckets[..];
      ghost var j := PlaceIn(m, was, chains, S, b, del);
      BucketLinks(m, was, chains, S, b, j);
      UnlinkBucketed(m, was, chains, S, b, j);
      BypassChain(S, buckets, chains[b], j, b, del);
      chains := chains[b := Without(chains[b], j)];
    }

    /** HASH_DELETE for a table with more than one item. */
    method DeleteOne(del: Item<K>, ghost i: nat)
      requires i < |order| && order[i] == del && |order| > 1 && head == First(order)
      requires Built(OrderLinks(Items(order)), ChainLinks(Items(order)), buckets[..], chains, order, Items(order),
                     tail, log2, numItems)
      modifies this`head, this`tail, this`numItems, this`chains, this`order, buckets, Items(order)
      ensures order == Without(old(order), i) && head == First(order)
      ensures Built(OrderLinks(Items(order)), ChainLinks(Items(order)), buckets[..], chains, order, Items(order),
                    tail, log2, numItems)
    {
      hide *;
      ghost var S := Items(order);
      ghost var om, cm, was, cs := OrderLinks(S), ChainLinks(S), buckets[..], chains;
      BuiltParts(om, cm, was, cs, order, S, tail, log2, numItems);
      InItems(order, i);
      head, tail := UnlinkList(S, order, i, head, tail, del);
      UnlinkChain(om, order, i);
      DelInBkt(del, S);
      numItems := numItems - 1;
      order := Without(order, i);
      Shrunk(S, buckets[..], chains, old(order), i, tail, log2, numItems);
    }

    method DeleteAny(del: Item<K>, ghost i: nat)
      requires i < |order| && order[i] == del && head == First(order)
      requires Built(OrderLinks(Items(order)), ChainLinks(Items(order)), buckets[..], chains, order, Items(order),
                     tail, log2, numItems)
      modifies this`head, this`tail, this`numItems, this`chains, this`order, buckets, Items(order)
      ensures order == Without(old(order), i) && head == First(order)
      ensures order != [] ==>
                Built(OrderLinks(Items(order)), ChainLinks(Items(order)), buckets[..], chains, order, Items(order),
                      tail, log2, numItems)
    {
      hide *;
      ghost var S := Items(order);
      BuiltParts(OrderLinks(S), ChainLinks(S), buckets[..], chains, order, S, tail, log2, numItems);
      OrderAt(S, order, i);
      WithoutNone(order, i);
      if del.prev == null && del.next == null {
        head := null;
        order := [];
        FirstNone<K>();
      } else {
        DeleteOne(del, i);
      }
    }

    /** HASH_DELETE: the item is taken out of the list and of its bucket. */
    method Delete(del: Item<K>)
      requires Valid() && del in order
      modifies this, buckets, Items(order)
      ensures Valid() && order == Without(old(order), Index(old(order), del)) && buckets == old(buckets)
    {
      ghost var i := Index(order, del);
      KeyedLess(hash, order, i);
      hide Keyed, Built, Items, OrderLinks, ChainLinks, Without, Index, First, Last;
      DeleteAny(del, i);
    }
  }

  lemma {:induction false} FirstNone<K>()
    ensures First<K>([]) == null
  {
  }

  lemma {:induction false} OrderAt<K>(S: set<Item<K>>, s: seq<Item<K>>, i: nat)
    requires Chain(OrderLinks(S), s) && i < |s|
    ensures s[i].prev == null && s[i].next == null <==> |s| == 1
  {
    LinksAt(OrderLinks(S), s, i);
  }

  ghost function Index<T>(s: seq<T>, x: T): (i: nat)
    ensures x in s ==> i < |s| && s[i] == x
  {
    if x in s then (if s[0] == x then 0 else 1 + Index(s[1..], x)) else 0
  }

  lemma {:induction false} WithoutNone<T>(s: seq<T>, i: nat)
    ensures |s| == 1 && i == 0 ==> Without(s, i) == []
    ensures |s| > 1 && i < |s| ==> Without(s, i) != []
  {
  }

  lemma {:induction false} InItems<K>(s: seq<Item<K>>, i: nat)
    ensures i < |s| ==> s[i] in Items(s)
    ensures s != [] ==> First(s) != null && Last(s) != null && First(s) in Items(s) && Last(s) in Items(s)
  {
  }

  /** Where an item is in its chain. */
  lemma {:induction false} PlaceIn<K>(m: map<Item<K>, Ends<K>>, bks: seq<Bucket<K>>, chains: seq<seq<Item<K>>>,
                                      S: set<Item<K>>, b: nat, x: Item<K>)
    returns (j: nat)
    requires Bucketed(m, bks, chains, S) && b < |bks| && x in S && x.hashv % |bks| == b
    ensures |chains| == |bks| && j < |chains[b]| && chains[b][j] == x
  {
    InBucket(m, bks, chains, S, b);
    j :| j < |chains[b]| && chains[b][j] == x;
  }

  lemma {:induction false} BucketLinks<K>(m: map<Item<K>, Ends<K>>, bks: seq<Bucket<K>>, chains: seq<seq<Item<K>>>,
                                          S: set<Item<K>>, b: nat, j: nat)
    requires Bucketed(m, bks, chains, S) && b < |bks| && |chains| == |bks| && j < |chains[b]|
    ensures var c := chains[b];
            && c[j] in m && m[c[j]] == Ends(After(c, j), Ahead(c, j)) && bks[b].head == First(c) && bks[b].count == |c|
            && (Ahead(c, j) != null ==> Ahead(c, j) in S) && (After(c, j) != null ==> After(c, j) in S)
               && c[j] != Ahead(c, j)
            && (c[j] == First(c) <==> j == 0)
            && First(Without(c, j)) == (if j == 0 then After(c, j) else First(c))
  {
    InBucket(m, bks, chains, S, b);
    LinksAt(m, chains[b], j);
    NeighboursIn(chains[b], j);
  }

  /** The neighbours of a deleted item in its chain are linked to each other. */
  method BypassChain<K>(ghost S: set<Item<K>>, bks: array<Bucket<K>>, ghost c: seq<Item<K>>, ghost j: nat, b: nat,
                        del: Item<K>)
    requires del in S && ChainLinks(S)[del] == Ends(After(c, j), Ahead(c, j)) && b < bks.Length && bks[b].count > 0
    requires (Ahead(c, j) != null ==> Ahead(c, j) in S) && (After(c, j) != null ==> After(c, j) in S)
             && del != Ahead(c, j)
    requires bks[b].head == First(c) && (del == First(c) <==> j == 0)
    requires First(Without(c, j)) == if j == 0 then After(c, j) else First(c)
    modifies S, bks
    ensures ChainLinks(S) == Unlinked(old(ChainLinks(S)), c, j) && OrderLinks(S) == old(OrderLinks(S))
    ensures bks[..] == old(bks[..])[b := Bucket(First(Without(c, j)), old(bks[b].count) - 1, old(bks[b].mult))]
  {
    hide After, Ahead, First, Without;
    var bk := bks[b];
    var head := bk.head;
    if head == del {
      head := del.hhNext;
    }
    if del.hhPrev != null {
      del.hhPrev.hhNext := del.hhNext;
    }
    if del.hhNext != null {
      del.hhNext.hhPrev := del.hhPrev;
    }
    bks[b] := Bucket(head, bk.count - 1, bk.mult);
  }

  /** The table without one item, seen through the links of the others. */
  lemma {:induction false} Shrunk<K>(S: set<Item<K>>, bks: seq<Bucket<K>>, chains: seq<seq<Item<K>>>, s: seq<Item<K>>,
                                     i: nat, tail: Item?<K>,
                                     lg: nat, numItems: nat)
    requires i < |s| && S == Items(s) && NoDup(s) && Chain(OrderLinks(S), Without(s, i))
             && Bucketed(ChainLinks(S), bks, chains, S - {s[i]})
    requires tail == Last(Without(s, i)) && |bks| == Pow2(lg) && numItems == |s| - 1
    ensures var t := Without(s, i);
            Built(OrderLinks(Items(t)), ChainLinks(Items(t)), bks, chains, t, Items(t), tail, lg, numItems)
  {
    var t := Without(s, i);
    WithoutMembers(s, i);
    SameChain(OrderLinks(S), OrderLinks(Items(t)), t);
    BucketedFrame(ChainLinks(S), ChainLinks(Items(t)), bks, chains, Items(t));
    hide Chain, Bucketed;
  }

  /** The links of HASH_ADD_TO_BKT. */
  method PushFront<K>(ghost S: set<Item<K>>, bks: array<Bucket<K>>, ghost c: seq<Item<K>>, x: Item<K>, b: nat)
    requires x in S && b < bks.Length && bks[b].head == First(c) && (c != [] ==> c[0] in S && c[0] != x)
    modifies S, bks
    ensures bks[..] == old(bks[..])[b := Bucket(x, old(bks[b].count) + 1, old(bks[b].mult))]
    ensures ChainLinks(S) == Pushed(old(ChainLinks(S)), c, x) && OrderLinks(S) == old(OrderLinks(S))
  {
    var bk := bks[b];
    x.hhNext := bk.head;
    x.hhPrev := null;
    if bk.head != null {
      bk.head.hhPrev := x;
    }
    bks[b] := Bucket(x, bk.count + 1, bk.mult);
  }

  lemma {:induction false} OrderGrows<K>(items: set<Item<K>>, S: set<Item<K>>, s: seq<Item<K>>)
    requires Chain(OrderLinks(items), s) && items <= S
    ensures Chain(OrderLinks(S), s)
  {
    SameChain(OrderLinks(items), OrderLinks(S), s);
  }

  lemma {:induction false} ChainForward<K>(m: map<Item<K>, Ends<K>>, c: seq<Item<K>>)
    requires Chain(m, c)
    ensures Forward(m, c)
  {
  }

  /** HASH_FIND_IN_BKT */
  method FindInBkt<K(==)>(ghost S: set<Item<K>>, ghost c: seq<Item<K>>, first: Item?<K>, key: K, hashv: nat)
    returns (out: Item?<K>)
    requires first == First(c) && Forward(ChainLinks(S), c)
    ensures out != null ==> out in c && out.key == key && out.hashv == hashv
    ensures out == null ==> forall x :: x in c ==> !(x.key == key && x.hashv == hashv)
  {
    out := first;
    ghost var i := 0;
    while out != null && !(out.hashv == hashv && out.key == key)
      invariant 0 <= i <= |c| && out == First(c[i..])
      invariant forall j :: 0 <= j < i ==> !(c[j].key == key && c[j].hashv == hashv)
      decreases |c| - i
    {
      assert Leads(ChainLinks(S), c[i], After(c, i));
      out := out.hhNext;
      i := i + 1;
    }
  }

  // ---------- the table as a map ----------

  /** The map that the table stands for. */
  ghost function MapOf<K>(s: seq<Item<K>>): map<K, Item<K>> {
    if s == [] then map[] else MapOf(s[..|s| - 1])[s[|s| - 1].key := s[|s| - 1]]
  }

  lemma {:induction false} MapHas<K>(hash: K -> nat, s: seq<Item<K>>, key: K)
    requires Keyed(hash, s)
    ensures key in MapOf(s) ==> MapOf(s)[key] in s && MapOf(s)[key].key == key
    ensures forall x :: x in s && x.key == key ==> key in MapOf(s) && MapOf(s)[key] == x
  {
    if s != [] {
      var t, y := s[..|s| - 1], s[|s| - 1];
      assert s == t + [y];
      assert Keyed(hash, t);
      MapHas(hash, t, key);
    }
  }

  /** What HASH_FIND returns is what the map says. */
  lemma {:induction false} FoundIsMapped<K>(hash: K -> nat, s: seq<Item<K>>, key: K, out: Item?<K>)
    requires Keyed(hash, s)
    ensures (out != null && out in s && out.key == key) || (out == null && forall x :: x in s ==> x.key != key)
            <==> out == if key in MapOf(s) then MapOf(s)[key] else null
  {
    MapHas(hash, s, key);
  }

  lemma {:induction false} AddedToMap<K>(s: seq<Item<K>>, x: Item<K>)
    ensures MapOf(s + [x]) == MapOf(s)[x.key := x]
  {
    assert (s + [x])[..|s|] == s;
  }

  /** Deleting an item takes its key out of the map and leaves the rest. */
  lemma {:induction false} DeletedFromMap<K>(hash: K -> nat, s: seq<Item<K>>, i: nat)
    requires Keyed(hash, s) && NoDup(s) && i < |s|
    ensures MapOf(Without(s, i)) == MapOf(s) - {s[i].key}
  {
    var t := Without(s, i);
    var a, b := MapOf(t), MapOf(s) - {s[i].key};
    forall key | key in a
      ensures key in b && a[key] == b[key]
    {
      DeletedKey(hash, s, i, key);
    }
    forall key | key in b
      ensures key in a
    {
      DeletedKey(hash, s, i, key);
    }
    assert a == b;
  }

  lemma {:induction false} DeletedKey<K>(hash: K -> nat, s: seq<Item<K>>, i: nat, key: K)
    requires Keyed(hash, s) && NoDup(s) && i < |s|
    ensures key in MapOf(Without(s, i)) <==> key in MapOf(s) && key != s[i].key
    ensures key in MapOf(Without(s, i)) ==> key in MapOf(s) && MapOf(Without(s, i))[key] == MapOf(s)[key]
  {
    var t := Without(s, i);
    KeyedLess(hash, s, i);
    WithoutMembers(s, i);
    MapHas(hash, s, key);
    MapHas(hash, t, key);
    hide MapOf, Without;
    if key in MapOf(s) && key != s[i].key {
      assert MapOf(s)[key] in t;
    }
    if key in MapOf(t) {
      assert MapOf(t)[key] in s && MapOf(t)[key] != s[i] && s[i] in s;
    }
  }
}
