/** The binary layout of events and streams: little-endian integers, the packed
    event record, its self-described size, and concatenations of records. */
module Event {

  type Byte = x: int | 0 <= x < 256

  const EV_HEADER_SIZE := 12
  const EV_PAYLOAD_SIZE := 16
  const EV_JUMBO := 0x10
  const STREAM_HEADER_SIZE := 8
  const MAX_EV_BUF := 2 * 1024 * 1024
  const INT32_LIMIT := 0x8000_0000

  // ---------- little-endian integers ----------

  function Pow256(n: nat): (p: nat)
    ensures p > 0
  {
    if n == 0 then 1 else 256 * Pow256(n - 1)
  }

  /** A read past the end of a mapped file gives the zero padding of its last page. */
  function ByteAt(b: seq<Byte>, i: int): Byte {
    if 0 <= i < |b| then b[i] else 0
  }

  function Slice(b: seq<Byte>, o: int, n: nat): (s: seq<Byte>)
    ensures |s| == n
    ensures forall i :: 0 <= i < n ==> s[i] == ByteAt(b, o + i)
  {
    seq<Byte>(n, i requires 0 <= i < n => ByteAt(b, o + i))
  }

  function UintOf(s: seq<Byte>): nat {
    if s == [] then 0 else s[0] + 256 * UintOf(s[1..])
  }

  function UintAt(b: seq<Byte>, o: int, n: nat): nat {
    UintOf(Slice(b, o, n))
  }

  function UintBytes(x: nat, n: nat): (b: seq<Byte>)
    ensures |b| == n
  {
    if n == 0 then [] else [x % 256] + UintBytes(x / 256, n - 1)
  }

  lemma {:induction false} UintRoundTrip(x: nat, n: nat)
    requires x < Pow256(n)
    ensures UintOf(UintBytes(x, n)) == x
  {
    if n > 0 {
      UintRoundTrip(x / 256, n - 1);
      assert UintBytes(x, n)[1..] == UintBytes(x / 256, n - 1);
    }
  }

  /** Four bytes as a number, the first the least significant. */
  function Word(s: seq<Byte>, o: nat): int
    requires o + 4 <= |s|
  {
    (s[o] as int) + 0x100 * (s[o + 1] as int) + 0x1_0000 * (s[o + 2] as int) + 0x100_0000 * (s[o + 3] as int)
  }

  lemma {:induction false} LittleEndian(s: seq<Byte>)
    ensures |s| == 4 ==> UintOf(s) == Word(s, 0)
    ensures |s| == 8 ==> UintOf(s) == Word(s, 0) + 0x1_0000_0000 * Word(s, 4)
  {
    if |s| == 4 {
      FourBytes(s);
      assert s[4..] == [];
    } else if |s| == 8 {
      FourBytes(s);
      FourBytes(s[4..]);
      assert s[4..][4..] == [];
    }
  }

  lemma {:induction false} FourBytes(s: seq<Byte>)
    requires |s| >= 4
    ensures UintOf(s) == Word(s, 0) + 0x1_0000_0000 * UintOf(s[4..])
  {
    var a, b, c := s[1..], s[2..], s[3..];
    assert a[1..] == b && b[1..] == c && c[1..] == s[4..];
    assert UintOf(s) == s[0] + 256 * UintOf(a);
    assert UintOf(a) == s[1] + 256 * UintOf(b);
    assert UintOf(b) == s[2] + 256 * UintOf(c);
    assert UintOf(c) == s[3] + 256 * UintOf(s[4..]);
  }

  /** The conversion of a size_t to int. */
  function ToInt32(x: nat): int {
    var r := x % (2 * INT32_LIMIT);
    if r >= INT32_LIMIT then r - 2 * INT32_LIMIT else r
  }

  function ToInt64(x: nat): int {
    var m := 0x1_0000_0000_0000_0000;
    var r := x % m;
    if r >= m / 2 then r - m else r
  }

  // ---------- reading an event in place ----------

  predicate IsJumbo(flags: Byte) {
    (flags / EV_JUMBO) % 2 == 1
  }

  function PayloadSize(b: seq<Byte>, o: int): int {
    var flags := ByteAt(b, o);
    if IsJumbo(flags) then
      ToInt32(4 + UintAt(b, o + EV_HEADER_SIZE, 4))
    else if flags % 16 == 0 then
      0
    else
      flags % 16 + 1
  }

  function EvSize(b: seq<Byte>, o: int): int {
    EV_HEADER_SIZE + PayloadSize(b, o)
  }

  function EvClock(b: seq<Byte>, o: int): nat {
    UintAt(b, o + 4, 8)
  }

  predicate HasMcv(b: seq<Byte>, o: int, m: char, c: char, v: char) {
    && ByteAt(b, o + 1) == m as int
    && ByteAt(b, o + 2) == c as int
    && ByteAt(b, o + 3) == v as int
  }

  // ---------- records ----------

  /** A complete event: its bytes are as many as it says. */
  predicate IsEvent(e: seq<Byte>) {
    && EV_HEADER_SIZE <= |e| < INT32_LIMIT
    && (IsJumbo(e[0]) ==> |e| >= EV_HEADER_SIZE + 4)
    && EvSize(e, 0) == |e|
  }

  type Ev = e: seq<Byte> | IsEvent(e) witness [0, 0, 0, 0, 0, 0, 0, 0, 0, 0, 0, 0]

  function Clock(e: seq<Byte>): nat {
    EvClock(e, 0)
  }

  predicate Is(e: seq<Byte>, m: char, c: char, v: char) {
    HasMcv(e, 0, m, c, v)
  }

  lemma {:induction false} SliceOfSlice<T>(s: seq<T>, a: nat, b: nat, i: nat, j: nat)
    requires a <= b <= |s| && i <= j <= b - a
    ensures s[a..b][i..j] == s[a + i..a + j]
  {
    forall k | 0 <= k < j - i
      ensures s[a..b][i..j][k] == s[a + i..a + j][k]
    {
      assert s[a..b][i + k] == s[a + i + k];
    }
  }

  lemma {:induction false} SliceLocal(b: seq<Byte>, o: nat, e: seq<Byte>, p: nat, n: nat)
    requires o + |e| <= |b| && b[o..o + |e|] == e && p + n <= |e|
    ensures Slice(b, o + p, n) == Slice(e, p, n) == e[p..p + n]
  {
    forall i | 0 <= i < n
      ensures Slice(b, o + p, n)[i] == Slice(e, p, n)[i] == e[p..p + n][i]
    {
      assert b[o..o + |e|][p + i] == b[o + p + i];
    }
  }

  /** An event reads the same wherever it is stored. */
  lemma {:induction false} EventAt(b: seq<Byte>, o: nat, e: Ev)
    requires o + |e| <= |b| && b[o..o + |e|] == e
    ensures EvSize(b, o) == |e|
    ensures EvClock(b, o) == Clock(e)
    ensures forall m, c, v :: HasMcv(b, o, m, c, v) == Is(e, m, c, v)
  {
    assert b[o] == b[o..o + |e|][0];
    assert b[o] == e[0] && b[o + 1] == e[1] && b[o + 2] == e[2] && b[o + 3] == e[3];
    SliceLocal(b, o, e, 4, 8);
    if IsJumbo(e[0]) {
      SliceLocal(b, o, e, 12, 4);
    }
  }

  /** What the header says of an event: the bit 0x10 of the flags makes it a jumbo event, whose
      payload begins with its own size; in others their low half is one less than the size of the
      payload, or zero without one. */
  lemma {:induction false} EventLayout(e: Ev)
    ensures var n := |e| - 12;
            && n >= 0
            && (e[0] / 16 % 2 == 1 ==> n >= 4 && n == 4 + Word(e, 12))
            && (e[0] / 16 % 2 == 0 ==> if n == 0 then e[0] % 16 == 0 else n <= 16 && e[0] % 16 == n - 1 > 0)
            && Clock(e) == Word(e, 4) + 0x1_0000_0000 * Word(e, 8)
            && (forall m, c, v :: Is(e, m, c, v) <==> e[1] == m as int && e[2] == c as int && e[3] == v as int)
  {
    assert Slice(e, 4, 8) == e[4..12];
    LittleEndian(e[4..12]);
    if IsJumbo(e[0]) {
      assert Slice(e, 12, 4) == e[12..16];
      LittleEndian(e[12..16]);
      JumboBelow(4 + UintAt(e, 12, 4), |e| - 12);
    }
    hide UintOf;
  }

  lemma {:induction false} JumboBelow(x: nat, n: int)
    requires 4 <= x < 4 + 0x1_0000_0000 && n >= 4 && n == ToInt32(x)
    ensures n == x
  {
  }

  // ---------- concatenations of records ----------

  function Flatten(evs: seq<seq<Byte>>): seq<Byte> {
    if evs == [] then [] else evs[0] + Flatten(evs[1..])
  }

  lemma {:induction false} FlattenConcat(a: seq<seq<Byte>>, b: seq<seq<Byte>>)
    ensures Flatten(a + b) == Flatten(a) + Flatten(b)
  {
    if a == [] {
      assert a + b == b;
    } else {
      assert (a + b)[0] == a[0] && (a + b)[1..] == a[1..] + b;
      FlattenConcat(a[1..], b);
    }
  }

  lemma {:induction false} FlattenOne(e: seq<Byte>)
    ensures Flatten([e]) == e
  {
    assert [e][1..] == [];
    assert Flatten([e]) == e + Flatten([]);
  }

  lemma {:induction false} FlattenSnoc(a: seq<seq<Byte>>, e: seq<Byte>)
    ensures Flatten(a + [e]) == Flatten(a) + e
  {
    FlattenConcat(a, [e]);
    FlattenOne(e);
  }

  /** The byte offset of record k. */
  ghost function Off(evs: seq<seq<Byte>>, k: nat): nat
    requires k <= |evs|
  {
    |Flatten(evs[..k])|
  }

  lemma {:induction false} OffStep(evs: seq<seq<Byte>>, k: nat)
    requires k < |evs|
    ensures Off(evs, k + 1) == Off(evs, k) + |evs[k]|
    ensures Flatten(evs[..k + 1]) == Flatten(evs[..k]) + evs[k]
  {
    assert evs[..k + 1] == evs[..k] + [evs[k]];
    FlattenSnoc(evs[..k], evs[k]);
  }

  lemma {:induction false} OffMono(evs: seq<seq<Byte>>, i: nat, j: nat)
    requires i <= j <= |evs|
    ensures Off(evs, i) <= Off(evs, j)
    decreases j - i
  {
    if i < j {
      OffStep(evs, i);
      OffMono(evs, i + 1, j);
    }
  }

  /** Offsets of non-empty records are strictly increasing. */
  lemma {:induction false} OffStrict(evs: seq<Ev>, i: nat, j: nat)
    requires i < j <= |evs|
    ensures Off(evs, i) < Off(evs, j)
  {
    OffStep(evs, i);
    OffMono(evs, i + 1, j);
  }

  lemma {:induction false} FlattenSplit(evs: seq<seq<Byte>>, k: nat)
    requires k <= |evs|
    ensures Flatten(evs) == Flatten(evs[..k]) + Flatten(evs[k..])
  {
    assert evs == evs[..k] + evs[k..];
    FlattenConcat(evs[..k], evs[k..]);
  }

  /** Record k sits between its offset and the next one. */
  lemma {:induction false} RecordAt(evs: seq<seq<Byte>>, k: nat)
    requires k < |evs|
    ensures Off(evs, k) + |evs[k]| == Off(evs, k + 1) <= |Flatten(evs)|
    ensures Flatten(evs)[Off(evs, k)..Off(evs, k + 1)] == evs[k]
  {
    OffStep(evs, k);
    FlattenSplit(evs, k + 1);
  }

  lemma {:induction false} OffEnd(evs: seq<seq<Byte>>)
    ensures Off(evs, |evs|) == |Flatten(evs)|
  {
    assert evs[..|evs|] == evs;
  }

  // ---------- permutations of records ----------

  function RemoveAt<T>(s: seq<T>, i: nat): seq<T>
    requires i < |s|
  {
    s[..i] + s[i + 1..]
  }

  lemma {:induction false} RemoveAtMultiset<T>(s: seq<T>, i: nat)
    requires i < |s|
    ensures multiset(s) == multiset(RemoveAt(s, i)) + multiset{s[i]}
    ensures multiset(RemoveAt(s, i)) == multiset(s) - multiset{s[i]}
  {
    assert s == s[..i] + [s[i]] + s[i + 1..];
  }

  lemma {:induction false} FlattenRemoveAt(evs: seq<seq<Byte>>, i: nat)
    requires i < |evs|
    ensures |Flatten(evs)| == |Flatten(RemoveAt(evs, i))| + |evs[i]|
  {
    FlattenConcat(evs[..i], evs[i + 1..]);
    FlattenSplit(evs, i + 1);
    OffStep(evs, i);
  }

  /** The total number of bytes does not depend on the order of the records. */
  lemma {:induction false} FlattenLengthPerm(a: seq<seq<Byte>>, b: seq<seq<Byte>>)
    requires multiset(a) == multiset(b)
    ensures |Flatten(a)| == |Flatten(b)|
    decreases |a|
  {
    if a == [] {
      assert |multiset(b)| == |b|;
    } else {
      assert a[0] in multiset(b);
      var i :| 0 <= i < |b| && b[i] == a[0];
      RemoveAtMultiset(a, 0);
      RemoveAtMultiset(b, i);
      FlattenLengthPerm(RemoveAt(a, 0), RemoveAt(b, i));
      FlattenRemoveAt(a, 0);
      FlattenRemoveAt(b, i);
    }
  }

  function SeqMap<A, B>(f: A -> B, s: seq<A>): (r: seq<B>)
    ensures |r| == |s| && forall i :: 0 <= i < |s| ==> r[i] == f(s[i])
  {
    seq<B>(|s|, i requires 0 <= i < |s| => f(s[i]))
  }

  lemma {:induction false} SeqMapPermutes<A, B>(f: A -> B, s: seq<A>, t: seq<A>)
    requires multiset(s) == multiset(t)
    ensures multiset(SeqMap(f, s)) == multiset(SeqMap(f, t))
    decreases |s|
  {
    if s == [] {
      assert |multiset(t)| == |t|;
    } else {
      assert s[0] in multiset(t);
      var i :| 0 <= i < |t| && t[i] == s[0];
      hide RemoveAt, SeqMap;
      RemoveAtMultiset(s, 0);
      RemoveAtMultiset(t, i);
      SeqMapPermutes(f, RemoveAt(s, 0), RemoveAt(t, i));
      SeqMapRemove(f, s, 0);
      SeqMapRemove(f, t, i);
    }
  }

  lemma {:induction false} SeqMapRemove<A, B>(f: A -> B, s: seq<A>, i: nat)
    requires i < |s|
    ensures multiset(SeqMap(f, s)) == multiset(SeqMap(f, RemoveAt(s, i))) + multiset{f(s[i])}
  {
    assert SeqMap(f, RemoveAt(s, i)) == RemoveAt(SeqMap(f, s), i);
    RemoveAtMultiset(SeqMap(f, s), i);
  }
}
