/** JSON strings: escaping, unescaping and UTF-8. */
module JsonString {
  import opened Wrappers
  import opened Event

  const QUOTE: Byte := 0x22
  const BACKSLASH: Byte := 0x5C
  const SLASH: Byte := 0x2F

  /** A C string is followed by zeros. */
  function At(t: seq<Byte>, p: nat): Byte {
    if p < |t| then t[p] else 0
  }

  /** s stands at position p of t. */
  predicate Here(t: seq<Byte>, p: nat, s: seq<Byte>) {
    p + |s| <= |t| && t[p..p + |s|] == s
  }

  lemma {:induction false} HereSplit(t: seq<Byte>, p: nat, a: seq<Byte>, b: seq<Byte>)
    requires Here(t, p, a + b)
    ensures Here(t, p, a) && Here(t, p + |a|, b)
  {
    assert t[p..p + |a|] == (a + b)[..|a|];
    assert t[p + |a|..p + |a| + |b|] == (a + b)[|a|..];
  }

  lemma {:induction false} HereAt(t: seq<Byte>, p: nat, s: seq<Byte>, i: nat)
    requires Here(t, p, s) && i < |s|
    ensures At(t, p + i) == s[i]
  {
    assert t[p..p + |s|][i] == s[i];
  }

  // ---------- UTF-8, as section 3 of RFC 3629 has it ----------

  /** The bytes parse_utf16 writes for a code point. */
  function Utf8(cp: nat): (s: seq<Byte>)
    requires cp < 0x110000
    ensures 1 <= |s| <= 4
  {
    if cp < 0x80 then [cp]
    else if cp < 0x800 then [0xC0 + cp / 64, 0x80 + cp % 64]
    else if cp < 0x10000 then [0xE0 + cp / 64 / 64, 0x80 + cp / 64 % 64, 0x80 + cp % 64]
    else [0xF0 + cp / 64 / 64 / 64, 0x80 + cp / 64 / 64 % 64, 0x80 + cp / 64 % 64, 0x80 + cp % 64]
  }

  predicate IsCont(b: Byte) {
    0x80 <= b < 0xC0
  }

  /** num_bytes_in_utf8_sequence */
  function SequenceLength(c: Byte): nat {
    if c == 0xC0 || c == 0xC1 || c > 0xF4 || IsCont(c) then 0
    else if c < 0x80 then 1
    else if c < 0xE0 then 2
    else if c < 0xF0 then 3
    else 4
  }

  /** The payload bits of a sequence of len bytes. */
  function RawCodePoint(len: nat, c: Byte, b1: Byte, b2: Byte, b3: Byte): Option<nat> {
    if len == 1 then Some(c)
    else if len == 2 && IsCont(b1) then Some(c % 32 * 64 + b1 % 64)
    else if len == 3 && IsCont(b1) && IsCont(b2) then Some((c % 16 * 64 + b1 % 64) * 64 + b2 % 64)
    else if len == 4 && IsCont(b1) && IsCont(b2) && IsCont(b3) then
      Some(((c % 8 * 64 + b1 % 64) * 64 + b2 % 64) * 64 + b3 % 64)
    else None
  }

  lemma {:induction false} RawOfUtf8(cp: nat, b1: Byte, b2: Byte, b3: Byte)
    requires cp < 0x110000
    requires var s := Utf8(cp); (|s| > 1 ==> b1 == s[1]) && (|s| > 2 ==> b2 == s[2]) && (|s| > 3 ==> b3 == s[3])
    ensures SequenceLength(Utf8(cp)[0]) == |Utf8(cp)|
    ensures RawCodePoint(|Utf8(cp)|, Utf8(cp)[0], b1, b2, b3) == Some(cp)
  {
    var q := cp / 64;
    var h := q / 64;
    assert cp == q * 64 + cp % 64 && q == h * 64 + q % 64 && h == h / 64 * 64 + h % 64;
    var d, c, b := cp % 64, q % 64, h % 64;
    hide RawCodePoint;
    if cp < 0x80 {
      RawBits(1, 0, 0, 0, cp, b1, b2, b3);
    } else if cp < 0x800 {
      RawBits(2, 0, 0, q, d, b1, b2, b3);
    } else if cp < 0x10000 {
      RawBits(3, 0, h, c, d, b1, b2, b3);
    } else {
      RawBits(4, h / 64, b, c, d, b1, b2, b3);
    }
  }

  /** Taking the payload bits apart again. */
  lemma {:induction false} RawBits(len: nat, a: nat, b: nat, c: nat, d: nat, b1: Byte, b2: Byte, b3: Byte)
    requires d < 0x80 && (len > 1 ==> d < 64)
    requires (len == 2 ==> c < 32 && b1 == 0x80 + d)
    requires (len == 3 ==> b < 16 && c < 64 && b1 == 0x80 + c && b2 == 0x80 + d)
    requires (len == 4 ==> a < 5 && b < 64 && c < 64 && b1 == 0x80 + b && b2 == 0x80 + c && b3 == 0x80 + d)
    ensures len == 1 ==> RawCodePoint(1, d, b1, b2, b3) == Some(d)
    ensures len == 2 ==> RawCodePoint(2, 0xC0 + c, b1, b2, b3) == Some(c * 64 + d)
    ensures len == 3 ==> RawCodePoint(3, 0xE0 + b, b1, b2, b3) == Some((b * 64 + c) * 64 + d)
    ensures len == 4 ==> RawCodePoint(4, 0xF0 + a, b1, b2, b3) == Some(((a * 64 + b) * 64 + c) * 64 + d)
  {
    if len == 4 {
      LowBits(b);
      LowBits(c);
      LowBits(d);
      assert (0xF0 + a) % 8 == a;
    } else if len == 3 {
      LowBits(c);
      LowBits(d);
      assert (0xE0 + b) % 16 == b;
    } else if len == 2 {
      LowBits(d);
      assert (0xC0 + c) % 32 == c;
    }
  }

  lemma {:induction false} LowBits(k: nat)
    requires k < 64
    ensures (0x80 + k) % 64 == k && IsCont(0x80 + k)
  {
  }

  /** verify_utf8_sequence: the code point at position p and its length, if it is valid. */
  function VerifyUtf8(t: seq<Byte>, p: nat): Option<(nat, nat)> {
    var c, len := At(t, p), SequenceLength(At(t, p));
    var raw := RawCodePoint(len, c, At(t, p + 1), At(t, p + 2), At(t, p + 3));
    match raw
    case None => None
    case Some(cp) =>
      if (cp < 0x80 && len > 1) || (cp < 0x800 && len > 2) || (cp < 0x10000 && len > 3) then None
      else if cp > 0x10FFFF then None
      else if 0xD800 <= cp <= 0xDFFF then None
      else Some((cp, len))
  }

  predicate Surrogate(cp: nat) {
    0xD800 <= cp <= 0xDFFF
  }

  /** What is written for a code point is accepted and read as that code point. */
  lemma {:induction false} Utf8Verified(cp: nat, t: seq<Byte>, p: nat)
    requires cp < 0x110000 && !Surrogate(cp) && Here(t, p, Utf8(cp))
    ensures VerifyUtf8(t, p) == Some((cp, |Utf8(cp)|))
  {
    var s := Utf8(cp);
    HereAt(t, p, s, 0);
    if |s| > 1 {
      HereAt(t, p, s, 1);
    }
    if |s| > 2 {
      HereAt(t, p, s, 2);
    }
    if |s| > 3 {
      HereAt(t, p, s, 3);
    }
    RawOfUtf8(cp, At(t, p + 1), At(t, p + 2), At(t, p + 3));
    hide RawCodePoint, SequenceLength, At;
  }

  // ---------- escaping ----------

  function HexDigit(n: nat): Byte
    requires n < 16
  {
    if n < 10 then 0x30 + n else 0x61 + n - 10
  }

  /** hex_char_to_int */
  function HexValue(c: Byte): int {
    if 0x30 <= c <= 0x39 then c - 0x30
    else if 0x61 <= c <= 0x66 then c - 0x61 + 10
    else if 0x41 <= c <= 0x46 then c - 0x41 + 10
    else -1
  }

  /** The letter after the backslash, for the bytes that have a short escape. */
  function ShortEscape(c: Byte): Option<Byte> {
    if c == QUOTE then Some(QUOTE)
    else if c == BACKSLASH then Some(BACKSLASH)
    else if c == 8 then Some(0x62)
    else if c == 12 then Some(0x66)
    else if c == 10 then Some(0x6E)
    else if c == 13 then Some(0x72)
    else if c == 9 then Some(0x74)
    else None
  }

  /** What json_serialize_string writes for a byte. */
  function EscapeByte(c: Byte, slashes: bool): (s: seq<Byte>)
    ensures 1 <= |s| <= 6
  {
    var e := ShortEscape(c);
    if e.Some? then [BACKSLASH, e.value]
    else if c < 0x20 then [BACKSLASH, 0x75, 0x30, 0x30, HexDigit(c / 16), HexDigit(c % 16)]
    else if c == SLASH && slashes then [BACKSLASH, SLASH]
    else [c]
  }

  function Escape(s: seq<Byte>, slashes: bool): seq<Byte> {
    if s == [] then [] else EscapeByte(s[0], slashes) + Escape(s[1..], slashes)
  }

  /** json_serialize_string */
  function PrintString(s: seq<Byte>, slashes: bool): seq<Byte> {
    [QUOTE] + Escape(s, slashes) + [QUOTE]
  }

  // ---------- unescaping ----------

  /** parse_utf16_hex: the number of four hexadecimal digits. */
  function Hex4(t: seq<Byte>, p: nat): Option<nat> {
    var a, b, c, d := HexValue(At(t, p)), HexValue(At(t, p + 1)), HexValue(At(t, p + 2)), HexValue(At(t, p + 3));
    if a == -1 || b == -1 || c == -1 || d == -1 then None
    else Some(((a * 16 + b) * 16 + c) * 16 + d)
  }

  /** parse_utf16, from the position of the u: the bytes, and the position after. */
  function ParseUtf16(t: seq<Byte>, u: nat): Option<(seq<Byte>, nat)> {
    match Hex4(t, u + 1)
    case None => None
    case Some(cp) =>
      if cp < 0xD800 || 0xDFFF < cp then (if cp < 0x110000 then Some((Utf8(cp), u + 5)) else None)
      else if cp <= 0xDBFF then
        if At(t, u + 5) != BACKSLASH || At(t, u + 6) != 0x75 then None
        else
          match Hex4(t, u + 7)
          case None => None
          case Some(trail) =>
            if trail < 0xDC00 || trail > 0xDFFF then None
            else Some((Utf8((cp - 0xD800) * 1024 + (trail - 0xDC00) + 0x10000), u + 11))
      else None
  }

  /** Whatever a \u escape or a surrogate pair gives is valid UTF-8 for one code point. */
  lemma {:induction false} EscapeIsUtf8(t: seq<Byte>, u: nat) returns (cp: nat)
    requires ParseUtf16(t, u).Some?
    ensures cp < 0x110000 && !Surrogate(cp)
    ensures var s := ParseUtf16(t, u).value.0; s == Utf8(cp) && VerifyUtf8(s, 0) == Some((cp, |s|))
  {
    var c := Hex4(t, u + 1).value;
    cp := if 0xD800 <= c <= 0xDBFF then (c - 0xD800) * 1024 + (Hex4(t, u + 7).value - 0xDC00) + 0x10000 else c;
    var s := Utf8(cp);
    assert s[0..|s|] == s;
    Utf8Verified(cp, s, 0);
  }

  /** One round of the loop of process_string. */
  function UnescapeAt(t: seq<Byte>, i: nat): (r: Option<(seq<Byte>, nat)>)
    ensures r.Some? ==> r.value.1 > i && |r.value.0| <= r.value.1 - i
  {
    if At(t, i) == BACKSLASH then
      var d := At(t, i + 1);
      if d == QUOTE || d == BACKSLASH || d == SLASH then Some(([d], i + 2))
      else if d == 0x62 then Some(([8], i + 2))
      else if d == 0x66 then Some(([12], i + 2))
      else if d == 0x6E then Some(([10], i + 2))
      else if d == 0x72 then Some(([13], i + 2))
      else if d == 0x74 then Some(([9], i + 2))
      else if d == 0x75 then ParseUtf16(t, i + 1)
      else None
    else if At(t, i) < 0x20 then None
    else Some(([At(t, i)], i + 1))
  }

  /** process_string on the len bytes from start on, seen from position i. */
  function Process(t: seq<Byte>, start: nat, i: nat, len: nat): Option<seq<Byte>>
    requires start <= i
    decreases |t| - i
  {
    if At(t, i) == 0 || i - start >= len then Some([])
    else
      match UnescapeAt(t, i)
      case None => None
      case Some(r) =>
        match Process(t, start, r.1, len)
        case None => None
        case Some(s) => Some(r.0 + s)
  }

  /** skip_quotes after the first quote: where the closing quote is. */
  function SkipBody(t: seq<Byte>, p: nat): (r: Option<nat>)
    ensures r.Some? ==> p <= r.value < |t| && t[r.value] == QUOTE
    decreases |t| - p
  {
    if At(t, p) == QUOTE then Some(p)
    else if At(t, p) == 0 then None
    else if At(t, p) == BACKSLASH then (if At(t, p + 1) == 0 then None else SkipBody(t, p + 2))
    else SkipBody(t, p + 1)
  }

  /** get_quoted_string: the string at position p, and the position after it. */
  function GetQuoted(t: seq<Byte>, p: nat): (r: Option<(seq<Byte>, nat)>)
    ensures r.Some? ==> p < r.value.1 <= |t|
  {
    if At(t, p) != QUOTE then None
    else
      match SkipBody(t, p + 1)
      case None => None
      case Some(q) =>
        match Process(t, p + 1, p + 1, q - (p + 1))
        case None => None
        case Some(s) => Some((s, q + 1))
  }

  // ---------- round trip ----------

  lemma {:induction false} HexRoundTrip(n: nat)
    requires n < 16
    ensures HexValue(HexDigit(n)) == n && HexDigit(n) != 0
    ensures HexDigit(n) != QUOTE && HexDigit(n) != BACKSLASH
  {
  }

  /** What is written for one byte is read back as that byte, and does not close the string. */
  lemma {:induction false} EscapedByte(t: seq<Byte>, i: nat, c: Byte, slashes: bool)
    requires Here(t, i, EscapeByte(c, slashes))
    ensures At(t, i) != 0
    ensures UnescapeAt(t, i) == Some(([c], i + |EscapeByte(c, slashes)|))
    ensures SkipBody(t, i) == SkipBody(t, i + |EscapeByte(c, slashes)|)
  {
    var s := EscapeByte(c, slashes);
    HereAt(t, i, s, 0);
    if |s| > 1 {
      HereAt(t, i, s, 1);
    }
    if |s| > 2 {
      HereAt(t, i, s, 2);
      HereAt(t, i, s, 3);
      HereAt(t, i, s, 4);
      HereAt(t, i, s, 5);
      HexRoundTrip(0);
      HexRoundTrip(c / 16);
      HexRoundTrip(c % 16);
      EscapedUnicode(t, i, c);
    }
  }

  lemma {:induction false} EscapedUnicode(t: seq<Byte>, i: nat, c: Byte)
    requires c < 0x20 && At(t, i) == BACKSLASH && At(t, i + 1) == 0x75 && At(t, i + 2) == 0x30 && At(t, i + 3) == 0x30
    requires At(t, i + 4) == HexDigit(c / 16) && At(t, i + 5) == HexDigit(c % 16)
    ensures UnescapeAt(t, i) == Some(([c], i + 6)) && SkipBody(t, i) == SkipBody(t, i + 6)
  {
    HexRoundTrip(c / 16);
    HexRoundTrip(c % 16);
    hide HexDigit;
    assert Hex4(t, i + 2) == Some(c);
    assert SkipBody(t, i) == SkipBody(t, i + 2);
    assert SkipBody(t, i + 2) == SkipBody(t, i + 3);
    assert SkipBody(t, i + 3) == SkipBody(t, i + 4);
    assert SkipBody(t, i + 4) == SkipBody(t, i + 5);
  }

  lemma {:induction false} Assoc<T>(a: seq<T>, b: seq<T>, c: seq<T>)
    ensures a + b + c == a + (b + c)
  {
  }

  lemma {:induction false} PrintedLength(s: seq<Byte>, slashes: bool)
    ensures |PrintString(s, slashes)| == |Escape(s, slashes)| + 2
  {
  }

  lemma {:induction false} EscapedBody(t: seq<Byte>, start: nat, i: nat, s: seq<Byte>, len: nat, slashes: bool)
    requires start <= i && Here(t, i, Escape(s, slashes) + [QUOTE]) && i + |Escape(s, slashes)| == start + len
    ensures SkipBody(t, i) == Some(start + len)
    ensures Process(t, start, i, len) == Some(s)
    decreases |s|
  {
    if s == [] {
      assert [] + [QUOTE] == [QUOTE];
      HereAt(t, i, [QUOTE], 0);
    } else {
      var e, rest := EscapeByte(s[0], slashes), Escape(s[1..], slashes);
      assert Escape(s, slashes) == e + rest;
      assert s == [s[0]] + s[1..];
      hide Escape, EscapeByte, UnescapeAt;
      Assoc(e, rest, [QUOTE]);
      HereSplit(t, i, e, rest + [QUOTE]);
      EscapedByte(t, i, s[0], slashes);
      hide Here;
      EscapedBody(t, start, i + |e|, s[1..], len, slashes);
    }
  }

  /** Reading back what was printed for a string. */
  lemma {:induction false} StringRoundTrip(t: seq<Byte>, p: nat, s: seq<Byte>, slashes: bool)
    requires Here(t, p, PrintString(s, slashes))
    ensures GetQuoted(t, p) == Some((s, p + |PrintString(s, slashes)|))
  {
    hide *;
    PrintedBody(t, p, s, slashes);
    PrintedLength(s, slashes);
    QuotedIs(t, p, s, |Escape(s, slashes)|);
  }

  lemma {:induction false} PrintedBody(t: seq<Byte>, p: nat, s: seq<Byte>, slashes: bool)
    requires Here(t, p, PrintString(s, slashes))
    ensures var n := |Escape(s, slashes)|;
            At(t, p) == QUOTE && SkipBody(t, p + 1) == Some(p + 1 + n) && Process(t, p + 1, p + 1, n) == Some(s)
  {
    hide *;
    PrintedParts(t, p, s, slashes);
    EscapedBody(t, p + 1, p + 1, s, |Escape(s, slashes)|, slashes);
  }

  lemma {:induction false} QuotedIs(t: seq<Byte>, p: nat, s: seq<Byte>, n: nat)
    requires At(t, p) == QUOTE && SkipBody(t, p + 1) == Some(p + 1 + n) && Process(t, p + 1, p + 1, n) == Some(s)
    ensures GetQuoted(t, p) == Some((s, p + n + 2))
  {
    hide SkipBody, Process;
  }

  lemma {:induction false} PrintedParts(t: seq<Byte>, p: nat, s: seq<Byte>, slashes: bool)
    requires Here(t, p, PrintString(s, slashes))
    ensures At(t, p) == QUOTE && Here(t, p + 1, Escape(s, slashes) + [QUOTE])
  {
    var e, q: seq<Byte> := Escape(s, slashes), [QUOTE];
    Assoc(q, e, q);
    assert PrintString(s, slashes) == q + (e + q);
    hide Escape, PrintString;
    HereSplit(t, p, q, e + q);
    assert t[p..p + 1] == q && t[p..p + 1][0] == t[p];
  }

  // ---------- the loops ----------

  /** skip_quotes: the position after the closing quote. */
  method SkipQuotes(t: seq<Byte>, p: nat) returns (r: Option<nat>)
    ensures r == if At(t, p) != QUOTE || SkipBody(t, p + 1).None? then None else Some(SkipBody(t, p + 1).value + 1)
  {
    if At(t, p) != QUOTE {
      return None;
    }
    var i := p + 1;
    while At(t, i) != QUOTE
      invariant SkipBody(t, p + 1) == SkipBody(t, i)
      decreases |t| - i
    {
      if At(t, i) == 0 {
        return None;
      } else if At(t, i) == BACKSLASH {
        i := i + 1;
        if At(t, i) == 0 {
          return None;
        }
      }
      i := i + 1;
    }
    return Some(i + 1);
  }

  /** An escape does not run over the closing quote, but for a backslash right before it. */
  lemma {:induction false} StaysInside(t: seq<Byte>, i: nat, end: nat)
    requires i < end && At(t, end) == QUOTE && UnescapeAt(t, i).Some?
    ensures var (bs, next) := UnescapeAt(t, i).value; next <= end || (next == end + 1 && |bs| == 1)
  {
    HexIsNoQuote(t, i + 2);
    HexIsNoQuote(t, i + 8);
    hide Hex4, Utf8;
  }

  lemma {:induction false} HexIsNoQuote(t: seq<Byte>, p: nat)
    ensures Hex4(t, p).Some? ==>
              At(t, p) != QUOTE && At(t, p + 1) != QUOTE && At(t, p + 2) != QUOTE && At(t, p + 3) != QUOTE
  {
  }

  /** process_string on the text before a closing quote: the buffer of len + 1 bytes is
      never overrun. */
  method ProcessString(t: seq<Byte>, start: nat, len: nat) returns (r: Option<seq<Byte>>)
    requires At(t, start + len) == QUOTE
    ensures r == Process(t, start, start, len)
  {
    hide Process, UnescapeAt;
    var output := new Byte[len + 1];
    var i, k := start, 0;
    assert forall s: seq<Byte> {:trigger output[..0] + s} :: output[..0] + s == s;
    while At(t, i) != 0 && i - start < len
      invariant start <= i && 0 <= k <= len && (i <= start + len ==> k <= i - start)
      invariant Process(t, start, start, len) ==
                match Process(t, start, i, len) case None => None case Some(rest) => Some(output[..k] + rest)
      decreases |t| - i
    {
      ProcessStep(t, start, i, len);
      var u := UnescapeAt(t, i);
      if u.None? {
        return None;
      }
      StaysInside(t, i, start + len);
      var (bs, next) := u.value;
      ghost var before := output[..k];
      WriteBytes(output, k, bs);
      assert output[..k + |bs|] == before + bs;
      Spliced(before, bs, Process(t, start, next, len));
      k := k + |bs|;
      i := next;
    }
    ProcessStep(t, start, i, len);
    ghost var all := output[..k];
    assert all + [] == all;
    output[k] := 0;
    assert output[..k] == all;
    return Some(output[..k]);
  }

  lemma {:induction false} ProcessStep(t: seq<Byte>, start: nat, i: nat, len: nat)
    requires start <= i
    ensures At(t, i) == 0 || i - start >= len ==> Process(t, start, i, len) == Some([])
    ensures At(t, i) != 0 && i - start < len ==>
              match UnescapeAt(t, i)
              case None => Process(t, start, i, len) == None
              case Some(r) =>
                && r.1 > i
                && Process(t, start, i, len)
                   == match Process(t, start, r.1, len) case None => None case Some(s) => Some(r.0 + s)
  {
    hide UnescapeAt;
  }

  lemma {:induction false} Spliced(a: seq<Byte>, b: seq<Byte>, rest: Option<seq<Byte>>)
    ensures rest.Some? ==> a + b + rest.value == a + (b + rest.value)
  {
  }

  method WriteBytes(output: array<Byte>, k: nat, bs: seq<Byte>)
    requires k + |bs| <= output.Length
    modifies output
    ensures output[..k] == old(output[..k]) && output[k..k + |bs|] == bs
    ensures output[k + |bs|..] == old(output[k + |bs|..])
  {
    var j := 0;
    while j < |bs|
      invariant j <= |bs| && output[..k] == old(output[..k]) && output[k..k + j] == bs[..j]
      invariant output[k + |bs|..] == old(output[k + |bs|..])
    {
      output[k + j] := bs[j];
      assert output[k..k + j + 1] == output[k..k + j] + [bs[j]];
      j := j + 1;
    }
  }
}
