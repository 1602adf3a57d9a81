/** Bottom-up merge sort on sequences: what DL_SORT does to a list. */
module ListSortSpec {
  import opened Sequences

  function Take<T>(s: seq<T>, k: nat): seq<T> {
    if |s| <= k then s else s[..k]
  }

  function Drop<T>(s: seq<T>, k: nat): seq<T> {
    if |s| <= k then [] else s[k..]
  }

  /** Two runs merged; the left one goes first where they tie. */
  function Merge<T>(cmp: (T, T) -> int, a: seq<T>, b: seq<T>): (r: seq<T>)
    ensures |r| == |a| + |b|
    decreases |a| + |b|
  {
    if a == [] then b
    else if b == [] then a
    else if cmp(a[0], b[0]) <= 0 then [a[0]] + Merge(cmp, a[1..], b)
    else [b[0]] + Merge(cmp, a, b[1..])
  }

  /** One pass: each two neighbouring runs of k elements become one. */
  function Pass<T>(cmp: (T, T) -> int, s: seq<T>, k: nat): (r: seq<T>)
    ensures |r| == |s|
    decreases |s|
  {
    if s == [] || k == 0 then s
    else Merge(cmp, Take(s, k), Take(Drop(s, k), k)) + Pass(cmp, Drop(s, 2 * k), k)
  }

  /** Passes until one of them makes a single run. */
  function Sorted<T>(cmp: (T, T) -> int, s: seq<T>, k: nat): seq<T>
    decreases |s| - k
  {
    if k == 0 || |s| <= 2 * k then Pass(cmp, s, k) else Sorted(cmp, Pass(cmp, s, k), 2 * k)
  }

  // ---------- sorted and stable ----------

  /** a goes before b: it compares lower, or the same and a came first. */
  predicate Before<T>(cmp: (T, T) -> int, rank: T -> int, a: T, b: T) {
    cmp(a, b) <= 0 && (cmp(b, a) <= 0 ==> rank(a) < rank(b))
  }

  ghost predicate TotalPreorder<T>(cmp: (T, T) -> int, S: set<T>) {
    && (forall a, b :: a in S && b in S ==> cmp(a, b) <= 0 || cmp(b, a) <= 0)
    && (forall a, b, c :: a in S && b in S && c in S && cmp(a, b) <= 0 && cmp(b, c) <= 0 ==> cmp(a, c) <= 0)
  }

  ghost predicate Within<T>(s: seq<T>, S: set<T>) {
    forall x :: x in s ==> x in S
  }

  /** x goes before every element of s. */
  ghost predicate BeforeAll<T>(cmp: (T, T) -> int, rank: T -> int, x: T, s: seq<T>) {
    forall y :: y in s ==> Before(cmp, rank, x, y)
  }

  /** Every element goes before all later ones: sorted, and elements that tie keep their order. */
  ghost predicate InOrder<T>(cmp: (T, T) -> int, rank: T -> int, s: seq<T>) {
    s == [] || (BeforeAll(cmp, rank, s[0], s[1..]) && InOrder(cmp, rank, s[1..]))
  }

  ghost predicate RanksBelow<T>(rank: T -> int, a: seq<T>, b: seq<T>) {
    forall x, y :: x in a && y in b ==> rank(x) < rank(y)
  }

  /** Runs of k elements, each in order, that follow each other as at the start. */
  ghost predicate Runs<T>(cmp: (T, T) -> int, rank: T -> int, s: seq<T>, k: nat)
    decreases |s|
  {
    s == [] || k == 0 ||
    (InOrder(cmp, rank, Take(s, k)) && RanksBelow(rank, Take(s, k), Drop(s, k)) && Runs(cmp, rank, Drop(s, k), k))
  }

  lemma {:induction false} BeforeTransitive<T>(cmp: (T, T) -> int, rank: T -> int, S: set<T>, a: T, b: T, c: T)
    ensures TotalPreorder(cmp, S) && a in S && b in S && c in S && Before(cmp, rank, a, b) && Before(cmp, rank, b, c)
            ==> Before(cmp, rank, a, c)
  {
  }

  lemma {:induction false} TakeDrop<T>(s: seq<T>, k: nat)
    ensures Take(s, k) + Drop(s, k) == s
    ensures Drop(Drop(s, k), k) == Drop(s, 2 * k)
  {
  }

  lemma {:induction false} SameMembers<T>(a: seq<T>, b: seq<T>, x: T)
    ensures multiset(a) == multiset(b) ==> (x in a <==> x in b)
  {
    assert x in a <==> x in multiset(a);
    assert x in b <==> x in multiset(b);
  }

  lemma {:induction false} MergeMultiset<T>(cmp: (T, T) -> int, a: seq<T>, b: seq<T>)
    ensures multiset(Merge(cmp, a, b)) == multiset(a) + multiset(b)
    decreases |a| + |b|
  {
    if a != [] && b != [] {
      assert a == [a[0]] + a[1..] && b == [b[0]] + b[1..];
      MergeMultiset(cmp, a[1..], b);
      MergeMultiset(cmp, a, b[1..]);
    }
  }

  lemma {:induction false} MergeMember<T>(cmp: (T, T) -> int, a: seq<T>, b: seq<T>, x: T)
    ensures x in Merge(cmp, a, b) <==> x in a || x in b
  {
    MergeMultiset(cmp, a, b);
    assert x in Merge(cmp, a, b) <==> x in multiset(Merge(cmp, a, b));
    assert x in a <==> x in multiset(a);
    assert x in b <==> x in multiset(b);
  }

  /** One element goes before a run when it goes before the first element. */
  lemma {:induction false} BeforeRun<T>(cmp: (T, T) -> int, rank: T -> int, S: set<T>, x: T, s: seq<T>)
    requires TotalPreorder(cmp, S) && Within(s, S) && x in S && InOrder(cmp, rank, s)
    ensures s != [] && Before(cmp, rank, x, s[0]) ==> BeforeAll(cmp, rank, x, s)
  {
    if s != [] && Before(cmp, rank, x, s[0]) {
      hide TotalPreorder, Before;
      forall y | y in s
        ensures Before(cmp, rank, x, y)
      {
        if y != s[0] {
          assert y in s[1..];
          BeforeTransitive(cmp, rank, S, x, s[0], y);
        }
      }
    }
  }

  lemma {:induction false} MergeBeforeAll<T>(cmp: (T, T) -> int, rank: T -> int, x: T, a: seq<T>, b: seq<T>)
    ensures BeforeAll(cmp, rank, x, a) && BeforeAll(cmp, rank, x, b) ==> BeforeAll(cmp, rank, x, Merge(cmp, a, b))
  {
    forall y | y in Merge(cmp, a, b)
      ensures y in a || y in b
    {
      MergeMember(cmp, a, b, y);
    }
  }

  /** Merging two runs in order, the left one from earlier, gives one in order. */
  lemma {:induction false} MergeInOrder<T>(cmp: (T, T) -> int, rank: T -> int, S: set<T>, a: seq<T>, b: seq<T>)
    requires TotalPreorder(cmp, S) && Within(a, S) && Within(b, S)
    requires InOrder(cmp, rank, a) && InOrder(cmp, rank, b) && RanksBelow(rank, a, b)
    ensures InOrder(cmp, rank, Merge(cmp, a, b))
    decreases |a| + |b|
  {
    if a != [] && b != [] {
      var x, y := a[0], b[0];
      assert Before(cmp, rank, x, y) || Before(cmp, rank, y, x);
      if cmp(x, y) <= 0 {
        BeforeRun(cmp, rank, S, x, b);
        MergeBeforeAll(cmp, rank, x, a[1..], b);
        MergeInOrder(cmp, rank, S, a[1..], b);
      } else {
        BeforeRun(cmp, rank, S, y, a);
        MergeBeforeAll(cmp, rank, y, a, b[1..]);
        MergeInOrder(cmp, rank, S, a, b[1..]);
      }
    }
  }

  lemma {:induction false} PassMultiset<T>(cmp: (T, T) -> int, s: seq<T>, k: nat)
    ensures multiset(Pass(cmp, s, k)) == multiset(s)
    decreases |s|
  {
    if s != [] && k != 0 {
      var a, b, r := Take(s, k), Take(Drop(s, k), k), Drop(s, 2 * k);
      TakeDrop(s, k);
      TakeDrop(Drop(s, k), k);
      assert s == a + (b + r);
      MergeMultiset(cmp, a, b);
      PassMultiset(cmp, r, k);
    }
  }

  lemma {:induction false} RanksOf<T>(rank: T -> int, a: seq<T>, b: seq<T>, r: seq<T>, m: seq<T>, r1: seq<T>)
    requires RanksBelow(rank, a, b + r) && RanksBelow(rank, b, r)
    requires multiset(m) == multiset(a) + multiset(b) && multiset(r1) == multiset(r)
    ensures RanksBelow(rank, a, b) && RanksBelow(rank, m, r1)
  {
    forall x, y | x in m && y in r1
      ensures rank(x) < rank(y)
    {
      assert x in multiset(m);
      assert y in multiset(r1);
      assert x in a || x in b;
      assert y in r && y in b + r;
    }
    forall x, y | x in a && y in b
      ensures rank(x) < rank(y)
    {
      assert y in b + r;
    }
  }

  /** A pass makes runs of k into runs of 2k. */
  lemma {:induction false} PassRuns<T>(cmp: (T, T) -> int, rank: T -> int, S: set<T>, s: seq<T>, k: nat)
    requires TotalPreorder(cmp, S) && Within(s, S) && Runs(cmp, rank, s, k) && k > 0
    ensures Runs(cmp, rank, Pass(cmp, s, k), 2 * k)
    decreases |s|
  {
    if s != [] {
      var a, d := Take(s, k), Drop(s, k);
      var b, r := Take(d, k), Drop(s, 2 * k);
      var m, r1 := Merge(cmp, a, b), Pass(cmp, r, k);
      TakeDrop(s, k);
      TakeDrop(d, k);
      MergeMultiset(cmp, a, b);
      PassMultiset(cmp, r, k);
      assert Runs(cmp, rank, d, k) && Runs(cmp, rank, r, k) && InOrder(cmp, rank, b);
      assert RanksBelow(rank, b, r);
      RanksOf(rank, a, b, r, m, r1);
      MergeInOrder(cmp, rank, S, a, b);
      PassRuns(cmp, rank, S, r, k);
      assert Take(m + r1, 2 * k) == m && Drop(m + r1, 2 * k) == r1;
    }
  }

  /** The list comes out in order, with the same elements. */
  lemma {:induction false} SortedFrom<T>(cmp: (T, T) -> int, rank: T -> int, S: set<T>, s: seq<T>, k: nat)
    requires TotalPreorder(cmp, S) && Within(s, S) && Runs(cmp, rank, s, k) && k > 0
    ensures InOrder(cmp, rank, Sorted(cmp, s, k)) && multiset(Sorted(cmp, s, k)) == multiset(s)
    decreases |s| - k
  {
    var t := Pass(cmp, s, k);
    PassMultiset(cmp, s, k);
    PassRuns(cmp, rank, S, s, k);
    if |s| <= 2 * k {
      assert Take(t, 2 * k) == t;
    } else {
      forall x | x in t
        ensures x in S
      {
        SameMembers(s, t, x);
      }
      SortedFrom(cmp, rank, S, t, 2 * k);
    }
  }

  /** The ranks go up along s. */
  ghost predicate Ranked<T>(rank: T -> int, s: seq<T>) {
    s == [] || (RanksBelow(rank, [s[0]], s[1..]) && Ranked(rank, s[1..]))
  }

  lemma {:induction false} RunsOfOne<T>(cmp: (T, T) -> int, rank: T -> int, s: seq<T>)
    requires Ranked(rank, s)
    ensures Runs(cmp, rank, s, 1)
  {
    if s != [] {
      assert Take(s, 1) == [s[0]] && Drop(s, 1) == s[1..];
      RunsOfOne(cmp, rank, s[1..]);
    }
  }

  /** DL_SORT sorts, keeps ties in order and loses nothing. */
  lemma {:induction false} StableSort<T>(cmp: (T, T) -> int, rank: T -> int, s: seq<T>)
    requires TotalPreorder(cmp, (set x | x in s)) && Ranked(rank, s)
    ensures InOrder(cmp, rank, Sorted(cmp, s, 1)) && multiset(Sorted(cmp, s, 1)) == multiset(s)
  {
    RunsOfOne(cmp, rank, s);
    SortedFrom(cmp, rank, (set x | x in s), s, 1);
  }

  lemma {:induction false} FirstBefore<T>(cmp: (T, T) -> int, rank: T -> int, s: seq<T>, x: T)
    ensures InOrder(cmp, rank, s) && x in s ==> x == s[0] || Before(cmp, rank, s[0], x)
  {
    if x in s && x != s[0] {
      assert x in s[1..];
    }
  }

  /** There is only one such list. */
  lemma {:induction false} OneStableOrder<T>(cmp: (T, T) -> int, rank: T -> int, s: seq<T>, t: seq<T>)
    requires InOrder(cmp, rank, s) && InOrder(cmp, rank, t) && multiset(s) == multiset(t)
    ensures s == t
    decreases |s|
  {
    assert |s| == |multiset(s)| == |multiset(t)| == |t|;
    if s != [] {
      SameMembers(s, t, s[0]);
      SameMembers(s, t, t[0]);
      FirstBefore(cmp, rank, s, t[0]);
      FirstBefore(cmp, rank, t, s[0]);
      assert s == [s[0]] + s[1..] && t == [t[0]] + t[1..];
      assert multiset(s[1..]) == multiset(s) - multiset{s[0]};
      assert multiset(t[1..]) == multiset(t) - multiset{t[0]};
      OneStableOrder(cmp, rank, s[1..], t[1..]);
    }
  }

  // ---------- the order the list had ----------

  /** Where x is in s. */
  function IndexIn<T(==)>(s: seq<T>, x: T): (i: nat)
    ensures x in s ==> i < |s| && s[i] == x
  {
    if s == [] || s[0] == x then 0 else 1 + IndexIn(s[1..], x)
  }

  lemma {:induction false} SuffixRanked<T>(s: seq<T>, k: nat)
    requires NoDup(s) && k <= |s|
    ensures Ranked(x => IndexIn(s, x), s[k..])
    decreases |s| - k
  {
    if k < |s| {
      var t := s[k..];
      SuffixRanked(s, k + 1);
      assert t[1..] == s[k + 1..];
      forall y | y in t[1..]
        ensures IndexIn(s, t[0]) < IndexIn(s, y)
      {
        var j :| 0 <= j < |t[1..]| && t[1..][j] == y;
        assert s[k + 1 + j] == y && t[0] == s[k];
        assert y in s && t[0] in s;
      }
    }
  }

  /** DL_SORT on the distinct nodes of a list: sorted, and nodes that tie stay in the order they
      had in the list. */
  lemma {:induction false} StableByPosition<T>(cmp: (T, T) -> int, s: seq<T>)
    requires TotalPreorder(cmp, (set x | x in s)) && NoDup(s)
    ensures Ranked(x => IndexIn(s, x), s)
    ensures InOrder(cmp, x => IndexIn(s, x), Sorted(cmp, s, 1)) && multiset(Sorted(cmp, s, 1)) == multiset(s)
  {
    SuffixRanked(s, 0);
    assert s[0..] == s;
    StableSort(cmp, x => IndexIn(s, x), s);
  }
}
