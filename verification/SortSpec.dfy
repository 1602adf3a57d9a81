/** The windowed sorter: events are kept in a ring of recent positions, and each region of
    unsorted events is merged back into the part of the stream it belongs to. */
module SortSpec {
  import opened Event

  predicate Starts(e: Ev) { Is(e, 'O', 'U', '[') }

  predicate Ends(e: Ev) { Is(e, 'O', 'U', ']') }

  // ---------- regions ----------

  /** Sorted, just after OU[, or inside a region whose first event has the given index. */
  datatype Region = S | U | X(bad0: nat)

  function Advance(st: Region, e: Ev, k: nat): Region {
    match st
    case S => if Starts(e) then U else S
    case U => if Ends(e) then S else X(k)
    case X(_) => if Ends(e) then S else st
  }

  /** The region state before event k. */
  function StateAt(evs: seq<Ev>, k: nat): Region
    requires k <= |evs|
  {
    if k == 0 then S else Advance(StateAt(evs, k - 1), evs[k - 1], k - 1)
  }

  /** Before event k a region was opened and not closed. */
  predicate Within(evs: seq<Ev>, k: nat)
    requires k <= |evs|
  {
    exists j :: 0 <= j < k && Is(evs[j], 'O', 'U', '[') && forall i :: j < i < k ==> !Is(evs[i], 'O', 'U', ']')
  }

  /** Event b is the first after the opening of a region that is still open before event k. */
  predicate FirstWithin(evs: seq<Ev>, b: nat, k: nat)
    requires k <= |evs|
  {
    && 0 < b < k && !Within(evs, b - 1) && Is(evs[b - 1], 'O', 'U', '[')
    && forall i :: b <= i < k ==> !Is(evs[i], 'O', 'U', ']')
  }

  /** The state of the sorter says whether a region is open, and which event is its first. */
  lemma {:induction false} StatesAre(evs: seq<Ev>, k: nat)
    requires k <= |evs|
    ensures StateAt(evs, k).S? <==> !Within(evs, k)
    ensures forall b: nat :: StateAt(evs, k) == X(b) <==> FirstWithin(evs, b, k)
    ensures StateAt(evs, k).U? <==>
            k > 0 && !Within(evs, k - 1) && Is(evs[k - 1], 'O', 'U', '[')
  {
    if k > 0 {
      StatesAre(evs, k - 1);
      hide Is;
      WithinNext(evs, k - 1);
      forall b: nat
        ensures StateAt(evs, k) == X(b) <==> FirstWithin(evs, b, k)
      {
        assert FirstWithin(evs, b, k) ==> FirstWithin(evs, b, k - 1) || b == k - 1;
      }
    }
  }

  lemma {:induction false} WithinNext(evs: seq<Ev>, k: nat)
    requires k < |evs|
    ensures Within(evs, k + 1) <==> Is(evs[k], 'O', 'U', '[') || (Within(evs, k) && !Is(evs[k], 'O', 'U', ']'))
  {
    hide Is;
    if Within(evs, k) && !Is(evs[k], 'O', 'U', ']') {
      var j :| 0 <= j < k && Is(evs[j], 'O', 'U', '[') && forall i :: j < i < k ==> !Is(evs[i], 'O', 'U', ']');
      assert forall i :: j < i < k + 1 ==> !Is(evs[i], 'O', 'U', ']');
    }
  }

  /** Event k is not inside a region; the markers are outside. */
  predicate Outside(evs: seq<Ev>, k: nat)
    requires k < |evs|
  {
    StateAt(evs, k).S? || Ends(evs[k])
  }

  lemma {:induction false} OutsideIs(evs: seq<Ev>, k: nat)
    requires k < |evs|
    ensures Outside(evs, k) <==> !Within(evs, k) || Is(evs[k], 'O', 'U', ']')
  {
    StatesAre(evs, k);
  }

  /** Only events inside regions may come late. */
  ghost predicate WellBehaved(evs: seq<Ev>) {
    forall j, k :: 0 <= j < k < |evs| && Outside(evs, k) ==> Clock(evs[j]) <= Clock(evs[k])
  }

  predicate AllClosed(evs: seq<Ev>) {
    !StateAt(evs, |evs|).X?
  }

  /** Half of the range of clocks: from here on a clock is negative as a signed number. */
  const HALF := 0x8000_0000_0000_0000

  /** Clocks on both sides of the half. */
  ghost predicate Mixed(evs: seq<Ev>) {
    (exists e :: e in evs && Clock(e) < HALF) && (exists e :: e in evs && Clock(e) >= HALF)
  }

  ghost predicate SmallClocks(evs: seq<Ev>) {
    forall e :: e in evs ==> Clock(e) < HALF
  }

  ghost predicate Sorted(evs: seq<Ev>) {
    forall i, j :: 0 <= i < j < |evs| ==> Clock(evs[i]) <= Clock(evs[j])
  }

  // ---------- the effect of one sort plan ----------

  /** Replacing the records d..k by the records seg. */
  function Splice(cur: seq<Ev>, d: nat, seg: seq<Ev>): seq<Ev>
    requires d + |seg| <= |cur|
  {
    cur[..d] + seg + cur[d + |seg|..]
  }

  ghost predicate Permutes(a: seq<Ev>, b: seq<Ev>) {
    |a| == |b| && multiset(a) == multiset(b)
  }

  lemma {:induction false} PermutesMembers(a: seq<Ev>, b: seq<Ev>)
    requires Permutes(a, b)
    ensures forall e :: e in a <==> e in b
  {
    forall e ensures e in a <==> e in b {
      assert e in a <==> e in multiset(a);
      assert e in b <==> e in multiset(b);
    }
  }

  lemma {:induction false} SpliceFlatten(cur: seq<Ev>, d: nat, k: nat, seg: seq<Ev>)
    requires d <= k <= |cur| && |seg| == k - d
    ensures Flatten(cur) == Flatten(cur[..d]) + Flatten(cur[d..k]) + Flatten(cur[k..])
    ensures Flatten(Splice(cur, d, seg)) == Flatten(cur[..d]) + Flatten(seg) + Flatten(cur[k..])
    ensures Off(cur, d) == |Flatten(cur[..d])| && Off(cur, k) == Off(cur, d) + |Flatten(cur[d..k])|
  {
    assert cur[..k] == cur[..d] + cur[d..k];
    FlattenSplit(cur, k);
    FlattenConcat(cur[..d], cur[d..k]);
    FlattenConcat(cur[..d] + seg, cur[k..]);
    FlattenConcat(cur[..d], seg);
  }

  /** The bytes of the records do not move outside the spliced segment. */
  lemma {:induction false} SpliceBytes(cur: seq<Ev>, d: nat, k: nat, seg: seq<Ev>)
    requires d <= k <= |cur| && Permutes(seg, cur[d..k])
    ensures var r := Splice(cur, d, seg);
            && Permutes(r, cur) && Permutes(r[..k], cur[..k])
            && r[..d] == cur[..d] && r[d..k] == seg && r[k..] == cur[k..]
            && Flatten(r) == Flatten(cur[..d]) + Flatten(seg) + Flatten(cur[k..])
            && |Flatten(seg)| == |Flatten(cur[d..k])|
            && (forall i :: 0 <= i <= d || k <= i <= |cur| ==> Off(r, i) == Off(cur, i))
  {
    var r := Splice(cur, d, seg);
    assert cur == cur[..d] + cur[d..k] + cur[k..];
    assert cur[..k] == cur[..d] + cur[d..k];
    assert r[..k] == cur[..d] + seg;
    FlattenConcat(cur[..d] + seg, cur[k..]);
    FlattenConcat(cur[..d], seg);
    FlattenLengthPerm(seg, cur[d..k]);
    forall i | 0 <= i <= d || k <= i <= |cur| ensures Off(r, i) == Off(cur, i) {
      if i <= d {
        assert r[..i] == cur[..i];
      } else {
        assert r[..i] == cur[..d] + seg + cur[k..i];
        assert cur[..i] == cur[..d] + cur[d..k] + cur[k..i];
        assert Permutes(r[..i], cur[..i]);
        FlattenLengthPerm(r[..i], cur[..i]);
      }
    }
  }

  /** Destination d suits the region b..k: nothing before it is later than what it sorts. */
  ghost predicate Suits(cur: seq<Ev>, d: nat, b: nat, k: nat)
    requires d <= b <= k <= |cur|
  {
    forall i, j :: 0 <= i < d <= j < k ==> Clock(cur[i]) <= Clock(cur[j])
  }

  /** Sorting from a suitable destination sorts everything before event k. */
  lemma {:induction false} PlanSorts(cur: seq<Ev>, d: nat, b: nat, k: nat, seg: seq<Ev>)
    requires d <= b <= k <= |cur| && Suits(cur, d, b, k)
    requires Sorted(cur[..b]) && Sorted(seg) && Permutes(seg, cur[d..k])
    ensures Sorted(Splice(cur, d, seg)[..k])
  {
    var r := Splice(cur, d, seg)[..k];
    PermutesMembers(seg, cur[d..k]);
    forall i, j | 0 <= i < j < k ensures Clock(r[i]) <= Clock(r[j]) {
      if j < d {
        assert r[i] == cur[..b][i] && r[j] == cur[..b][j];
      } else if i >= d {
        assert r[i] == seg[i - d] && r[j] == seg[j - d];
      } else {
        assert r[j] == seg[j - d] && seg[j - d] in cur[d..k];
      }
    }
  }

  /** A destination found by scanning back: its clock is below every clock of the region,
      and no later event before the region is. */
  lemma {:induction false} FoundSuits(cur: seq<Ev>, d: nat, b: nat, k: nat, m: nat)
    requires d < b <= k <= |cur| && Sorted(cur[..b])
    requires Clock(cur[d]) < m && forall i :: b <= i < k ==> m <= Clock(cur[i])
    ensures Suits(cur, d, b, k)
  {
    forall i, j | 0 <= i < d <= j < k ensures Clock(cur[i]) <= Clock(cur[j]) {
      assert cur[..b][i] == cur[i] && cur[..b][d] == cur[d];
      if j < b {
        assert cur[..b][j] == cur[j];
      }
    }
  }

  /** An event outside a region extends the sorted prefix, even after it was permuted. */
  lemma {:induction false} OutsideExtends(evs: seq<Ev>, cur: seq<Ev>, k: nat)
    requires WellBehaved(evs) && |cur| == |evs| && k < |evs| && Outside(evs, k)
    requires Permutes(cur[..k], evs[..k]) && cur[k] == evs[k] && Sorted(cur[..k])
    ensures Sorted(cur[..k + 1])
  {
    PermutesMembers(cur[..k], evs[..k]);
    var r := cur[..k + 1];
    forall i, j | 0 <= i < j < k + 1 ensures Clock(r[i]) <= Clock(r[j]) {
      if j == k {
        assert cur[..k][i] in evs[..k];
      } else {
        assert cur[..k][i] == cur[i] && cur[..k][j] == cur[j];
      }
    }
  }
}
