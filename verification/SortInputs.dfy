/** The sort module: outputs that show the sorted values of the inputs. */
module SortInputs {
  import opened Chans

  predicate Sorted(s: seq<int>) {
    forall i, j :: 0 <= i < j < |s| ==> s[i] <= s[j]
  }

  // ---------- the reference: a full sort ----------

  function Insert(x: int, s: seq<int>): seq<int> {
    if s == [] || x <= s[0] then [x] + s else [s[0]] + Insert(x, s[1..])
  }

  function Sort(s: seq<int>): seq<int> {
    if s == [] then [] else Insert(s[0], Sort(s[1..]))
  }

  lemma {:induction false} InsertSame(x: int, s: seq<int>)
    ensures multiset(Insert(x, s)) == multiset(s) + multiset{x}
  {
    if s == [] || x <= s[0] {
    } else {
      assert s == [s[0]] + s[1..];
      InsertSame(x, s[1..]);
    }
  }

  lemma {:induction false} SortedCons(x: int, s: seq<int>)
    requires Sorted(s) && (s != [] ==> x <= s[0])
    ensures Sorted([x] + s)
  {
  }

  lemma {:induction false} InsertSorted(x: int, s: seq<int>)
    requires Sorted(s)
    ensures Sorted(Insert(x, s)) && Insert(x, s)[0] == (if s == [] || x <= s[0] then x else s[0])
  {
    if s == [] || x <= s[0] {
      SortedCons(x, s);
    } else {
      InsertSorted(x, s[1..]);
      SortedCons(s[0], Insert(x, s[1..]));
    }
  }

  lemma {:induction false} SortIs(s: seq<int>)
    ensures Sorted(Sort(s)) && multiset(Sort(s)) == multiset(s) && |Sort(s)| == |s|
  {
    if s == [] {
    } else {
      assert s == [s[0]] + s[1..];
      SortIs(s[1..]);
      InsertSame(s[0], Sort(s[1..]));
      InsertSorted(s[0], Sort(s[1..]));
      assert |multiset(Sort(s))| == |multiset(s)|;
    }
  }

  lemma {:induction false} First(a: seq<int>, b: seq<int>)
    requires Sorted(a) && multiset(a) == multiset(b) && a != []
    ensures b != [] && a[0] <= b[0]
  {
    assert |multiset(a)| == |multiset(b)|;
    assert b[0] in multiset(a);
    assert b[0] in a;
  }

  lemma {:induction false} RestOf(a: seq<int>)
    requires a != []
    ensures multiset(a[1..]) == multiset(a) - multiset{a[0]}
  {
    assert a == [a[0]] + a[1..];
  }

  /** A multiset has only one sorted sequence. */
  lemma {:induction false} SortedUnique(a: seq<int>, b: seq<int>)
    requires Sorted(a) && Sorted(b) && multiset(a) == multiset(b)
    ensures a == b
  {
    if a == [] {
      assert |multiset(a)| == |multiset(b)|;
    } else {
      First(a, b);
      First(b, a);
      RestOf(a);
      RestOf(b);
      SortedUnique(a[1..], b[1..]);
      assert a == [a[0]] + a[1..] && b == [b[0]] + b[1..];
    }
  }

  // ---------- moving a hole ----------

  /** Sorted but for the element at i. */
  predicate SortedBut(s: seq<int>, i: nat) {
    forall a, b :: 0 <= a < b < |s| && a != i && b != i ==> s[a] <= s[b]
  }

  /** With x in the hole at i, s is a rearrangement of s0. */
  ghost predicate Hole(s0: seq<int>, s: seq<int>, i: nat, x: int) {
    i < |s| == |s0| && SortedBut(s, i) && multiset(s[i := x]) == multiset(s0)
  }

  ghost predicate Below(s: seq<int>, i: nat, y: int) {
    forall a :: 0 <= a < i && a < |s| ==> s[a] <= y
  }

  ghost predicate Above(s: seq<int>, i: nat, y: int) {
    forall a :: i < a < |s| ==> y <= s[a]
  }

  lemma {:induction false} StartHole(s: seq<int>, i: nat)
    requires Sorted(s) && i < |s|
    ensures Hole(s, s, i, s[i]) && Below(s, i, s[i]) && Above(s, i, s[i])
  {
    assert s[i := s[i]] == s;
  }

  lemma {:induction false} SwapSame(s: seq<int>, i: nat, j: nat)
    requires i < j < |s|
    ensures multiset(s[i := s[j]][j := s[i]]) == multiset(s)
  {
    var a, b, c := s[..i], s[i + 1..j], s[j + 1..];
    assert s == a + [s[i]] + b + [s[j]] + c;
    assert s[i := s[j]][j := s[i]] == a + [s[j]] + b + [s[i]] + c;
  }

  lemma {:induction false} MoveSame(s: seq<int>, i: nat, j: nat, x: int)
    requires i < |s| && j < |s| && i != j
    ensures multiset(s[i := s[j]][j := x]) == multiset(s[i := x])
  {
    var t := s[i := x];
    if i < j {
      SwapSame(t, i, j);
      assert s[i := s[j]][j := x] == t[i := t[j]][j := t[i]];
    } else {
      SwapSame(t, j, i);
      assert s[i := s[j]][j := x] == t[j := t[i]][i := t[j]];
    }
  }

  lemma {:induction false} MoveSorted(s: seq<int>, i: nat, j: nat)
    requires i < |s| && j < |s| && (j == i + 1 || i == j + 1) && SortedBut(s, i)
    ensures SortedBut(s[i := s[j]], j)
  {
  }

  /** Copying a neighbour into the hole moves the hole there. */
  lemma {:induction false} MoveHole(s0: seq<int>, s: seq<int>, i: nat, j: nat, x: int, y: int)
    requires Hole(s0, s, i, x) && j < |s| && (j == i + 1 || i == j + 1)
    ensures Hole(s0, s[i := s[j]], j, x)
    ensures Below(s, i, y) && s[j] <= y && j == i + 1 ==> Below(s[i := s[j]], j, y)
    ensures Above(s, i, y) && y <= s[j] && i == j + 1 ==> Above(s[i := s[j]], j, y)
  {
    MoveSame(s, i, j, x);
    MoveSorted(s, i, j);
    hide SortedBut;
  }

  lemma {:induction false} FillSame(s: seq<int>, i: nat, x: int, y: int)
    requires i < |s|
    ensures multiset(s[i := y]) == multiset(s[i := x]) - multiset{x} + multiset{y}
  {
    var a, c := s[..i], s[i + 1..];
    assert s[i := x] == a + [x] + c;
    assert s[i := y] == a + [y] + c;
  }

  lemma {:induction false} FillSorted(s: seq<int>, i: nat, y: int)
    requires i < |s| && SortedBut(s, i) && Below(s, i, y) && Above(s, i, y)
    ensures Sorted(s[i := y])
  {
  }

  /** Filling the hole in the right place. */
  lemma {:induction false} FillHole(s0: seq<int>, s: seq<int>, i: nat, x: int, y: int)
    requires Hole(s0, s, i, x) && Below(s, i, y) && Above(s, i, y)
    ensures Sorted(s[i := y]) && multiset(s[i := y]) == multiset(s0) - multiset{x} + multiset{y}
  {
    FillSorted(s, i, y);
    FillSame(s, i, x, y);
  }

  /** Where the place is: what follows, or comes before, is on the other side. */
  lemma {:induction false} PlaceFound(s0: seq<int>, s: seq<int>, i: nat, x: int, y: int)
    requires Hole(s0, s, i, x)
    ensures (i + 1 < |s| ==> y <= s[i + 1]) ==> Above(s, i, y)
    ensures (i > 0 ==> s[i - 1] <= y) ==> Below(s, i, y)
  {
    if i + 1 < |s| {
      forall a | i + 1 < a < |s| ensures s[i + 1] <= s[a] {
      }
    }
    if i > 0 {
      forall a | 0 <= a < i - 1 ensures s[a] <= s[i - 1] {
      }
    }
  }

  /** sort_replace: arr becomes the sorted array with old' taken out and new' put in. */
  method SortReplace(arr: array<int>, old': int, new': int)
    requires Sorted(arr[..]) && old' in arr[..] && old' != new'
    modifies arr
    ensures Sorted(arr[..])
    ensures multiset(arr[..]) == multiset(old(arr[..])) - multiset{old'} + multiset{new'}
  {
    var n := arr.Length;
    ghost var s0 := arr[..];
    hide Sorted, Hole, Below, Above;
    var i := 0;
    if old' < new' {
      var m := n / 2;
      if arr[m] < old' {
        i := m;
      }
      i := FindOld(arr, i, old');
      StartHole(s0, i);
      i := ShiftLeft(arr, i, old', new', s0);
    } else {
      i := FindOld(arr, i, old');
      StartHole(s0, i);
      i := ShiftRight(arr, i, old', new', s0);
    }
    ghost var s1 := arr[..];
    FillHole(s0, s1, i, old', new');
    arr[i] := new';
    assert arr[..] == s1[i := new'];
  }

  lemma {:induction false} BeforeOld(s: seq<int>, i: nat, at: nat)
    requires Sorted(s) && i < |s| && at < |s|
    ensures (s[i] < s[at] ==> i < at) && (i <= at ==> s[i] <= s[at])
  {
  }

  /** The loops that find the old value. */
  method FindOld(arr: array<int>, from: nat, old': int) returns (i: nat)
    requires Sorted(arr[..]) && old' in arr[..] && from < arr.Length && (from > 0 ==> arr[from] < old')
    ensures i < arr.Length && arr[i] == old'
  {
    ghost var s := arr[..];
    ghost var at: nat :| at < |s| && s[at] == old';
    hide Sorted;
    i := from;
    BeforeOld(s, i, at);
    while arr[i] < old'
      invariant i <= at
      decreases at - i
    {
      BeforeOld(s, i, at);
      i := i + 1;
    }
    BeforeOld(s, i, at);
  }

  method Copy(arr: array<int>, i: nat, j: nat)
    requires i < arr.Length && j < arr.Length
    modifies arr
    ensures arr[..] == old(arr[..])[i := old(arr[j])]
  {
    arr[i] := arr[j];
  }

  /** The middle section moves down over the old value, up to the place of the new one. */
  method ShiftLeft(arr: array<int>, from: nat, old': int, new': int, ghost s0: seq<int>) returns (i: nat)
    requires Hole(s0, arr[..], from, old') && Below(arr[..], from, new')
    modifies arr
    ensures Hole(s0, arr[..], i, old') && Below(arr[..], i, new') && Above(arr[..], i, new')
  {
    i := from;
    var n := arr.Length;
    HoleIn(s0, arr[..], i, old');
    hide *;
    while i < n - 1 && arr[i + 1] <= new'
      invariant i < n && Hole(s0, arr[..], i, old') && Below(arr[..], i, new')
      decreases n - i
    {
      ghost var s := arr[..];
      MoveHole(s0, s, i, i + 1, old', new');
      Copy(arr, i, i + 1);
      i := i + 1;
    }
    PlaceFound(s0, arr[..], i, old', new');
  }

  /** The section above the place of the new value moves up over the old one. */
  method ShiftRight(arr: array<int>, from: nat, old': int, new': int, ghost s0: seq<int>) returns (i: nat)
    requires Hole(s0, arr[..], from, old') && Above(arr[..], from, new')
    modifies arr
    ensures Hole(s0, arr[..], i, old') && Below(arr[..], i, new') && Above(arr[..], i, new')
  {
    i := from;
    HoleIn(s0, arr[..], i, old');
    hide *;
    while i > 0 && arr[i - 1] > new'
      invariant i < arr.Length && Hole(s0, arr[..], i, old') && Above(arr[..], i, new')
      decreases i
    {
      ghost var s := arr[..];
      MoveHole(s0, s, i, i - 1, old', new');
      Copy(arr, i, i - 1);
      i := i - 1;
    }
    PlaceFound(s0, arr[..], i, old', new');
  }

  lemma {:induction false} HoleIn(s0: seq<int>, s: seq<int>, i: nat, x: int)
    requires Hole(s0, s, i, x)
    ensures i < |s|
  {
  }

  // ---------- the module itself ----------

  /** The output channels take several writes and duplicates, as sort_init makes them. */
  ghost predicate OutputsOk(outputs: seq<Chan>, n: nat) {
    |outputs| == n && forall i :: 0 <= i < n ==> !outputs[i].stack && outputs[i].dirtyWrite && outputs[i].allowDup
  }

  ghost predicate OutputsShow(outputs: seq<Chan>, sorted: seq<int>) {
    |outputs| == |sorted| && forall i :: 0 <= i < |outputs| ==> Read(outputs[i]) == Int(sorted[i])
  }

  /** Replacing one value in the sorted array gives the sorted array of the new values. */
  lemma {:induction false} ReplacedIsSort(values: seq<int>, index: nat, new': int, sorted: seq<int>)
    requires index < |values| && Sorted(sorted)
    requires multiset(sorted) == multiset(Sort(values)) - multiset{values[index]} + multiset{new'}
    ensures sorted == Sort(values[index := new'])
  {
    SortIs(values);
    SortIs(values[index := new']);
    FillSame(values, index, values[index], new');
    assert values[index := values[index]] == values;
    SortedUnique(sorted, Sort(values[index := new']));
  }

  lemma {:induction false} SortOfZeros(s: seq<int>)
    requires forall i :: 0 <= i < |s| ==> s[i] == 0
    ensures Sort(s) == s
  {
    SortIs(s);
    SortedUnique(s, Sort(s));
  }

  lemma {:induction false} OldInSorted(values: seq<int>, index: nat)
    requires index < |values|
    ensures values[index] in Sort(values)
  {
    SortIs(values);
    assert values[index] in multiset(values);
    assert values[index] in multiset(Sort(values));
  }

  class Inputs {
    const values: array<int>
    const sorted: array<int>
    var outputs: seq<Chan>
    var copied: bool
    /** Some input has changed. */
    ghost var changed: bool

    /** The sorted array is that of a full sort of the values; once something has changed
        the outputs show it. */
    ghost predicate Valid()
      reads this, values, sorted
    {
      && values != sorted && values.Length == sorted.Length
      && sorted[..] == Sort(values[..])
      && OutputsOk(outputs, values.Length)
      && (changed ==> OutputsShow(outputs, sorted[..]))
    }

    /** sort_init: all values are 0, and the outputs null. */
    constructor (n: nat)
      ensures Valid() && fresh(values) && fresh(sorted) && !changed && values.Length == n
      ensures forall i :: 0 <= i < n ==> values[i] == 0
    {
      values := new int[n](i => 0);
      sorted := new int[n](i => 0);
      outputs := seq(n, i => NewChan(false).(dirtyWrite := true, allowDup := true));
      copied, changed := false, false;
      new;
      assert values[..] == sorted[..];
      SortOfZeros(values[..]);
    }

    /** memcpy and qsort, by its contract. */
    method FullSort()
      requires values != sorted && values.Length == sorted.Length
      modifies sorted
      ensures sorted[..] == Sort(values[..])
    {
      ghost var v := values[..];
      SortIs(v);
      forall i | 0 <= i < sorted.Length {
        sorted[i] := values[i];
      }
      assert sorted[..] == v;
      var r := Sort(sorted[..]);
      forall i | 0 <= i < sorted.Length {
        sorted[i] := r[i];
      }
      assert values[..] == v && sorted[..] == r;
    }

    /** The sorted array follows the change of one value. */
    method Follow(index: nat, new': int)
      requires values != sorted && values.Length == sorted.Length && sorted[..] == Sort(values[..])
      requires index < values.Length && values[index] != new'
      modifies this`copied, values, sorted
      ensures values[..] == old(values[..])[index := new'] && sorted[..] == Sort(values[..]) && copied
    {
      var old' := values[index];
      ghost var v0 := values[..];
      OldInSorted(v0, index);
      SortIs(v0);
      hide *;
      values[index] := new';
      assert values[..] == v0[index := new'];
      if copied {
        SortReplace(sorted, old', new');
        assert values[..] == v0[index := new'];
        ReplacedIsSort(v0, index, new', sorted[..]);
      } else {
        FullSort();
        copied := true;
      }
    }

    /** Writes every output that differs from its slot; in the propagating bay none fails. */
    method WriteOutputs() returns (ret: int)
      requires OutputsOk(outputs, sorted.Length)
      modifies this`outputs
      ensures ret == 0 && OutputsOk(outputs, sorted.Length) && OutputsShow(outputs, sorted[..])
      ensures forall i :: 0 <= i < sorted.Length && Read(old(outputs)[i]) == Int(sorted[i]) ==>
                outputs[i] == old(outputs)[i]
    {
      var i := 0;
      while i < sorted.Length
        invariant i <= sorted.Length && OutputsOk(outputs, sorted.Length)
        invariant forall j :: 0 <= j < i ==> Read(outputs[j]) == Int(sorted[j])
        invariant forall j :: i <= j < sorted.Length ==> outputs[j] == old(outputs)[j]
        invariant forall j :: 0 <= j < i && Read(old(outputs)[j]) == Int(sorted[j]) ==> outputs[j] == old(outputs)[j]
      {
        var val := Int(sorted[i]);
        if Read(outputs[i]) != val {
          match Set(outputs[i], val) {
            case Fail => return -1;
            case Ignored =>
            case Write(c) => outputs := outputs[i := c.(dirty := true)];
          }
        }
        i := i + 1;
      }
      return 0;
    }

    /** sort_cb_input; an input that is not an integer counts as 0. */
    method CbInput(index: nat, cur: Value) returns (ret: int)
      requires Valid() && index < values.Length
      modifies this`outputs, this`copied, this`changed, values, sorted
      ensures ret == 0 && Valid()
      ensures var x := match cur case Int(i) => i case Null => 0 case Double(_) => 0;
              values[..] == old(values[..])[index := x] && changed == (old(changed) || x != old(values[index]))
    {
      var new' := 0;
      if cur.Int? {
        new' := cur.i;
      }
      if values[index] == new' {
        assert values[..][index := new'] == values[..];
        return 0;
      }
      hide Sort, OutputsOk, OutputsShow;
      Follow(index, new');
      ret := WriteOutputs();
      changed := true;
    }
  }
}
