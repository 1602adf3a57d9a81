/** What each escape of a JSON string stands for, digit by digit, and what is refused. */
module JsonEscapes {
  import opened Wrappers
  import opened Event
  import opened JsonString

  // ---------- UTF-8, byte by byte ----------

  /** The bytes of a code point carry its bits, most significant first, six in every byte after
      the first, and the first tells how many there are (section 3 of RFC 3629). */
  lemma {:induction false} Utf8Bits(cp: nat)
    requires cp < 0x110000
    ensures var s := Utf8(cp);
            && |s| == (if cp < 0x80 then 1 else if cp < 0x800 then 2 else if cp < 0x10000 then 3 else 4)
            && (forall i :: 0 < i < |s| ==> 0x80 <= s[i] <= 0xBF)
            && (|s| == 1 ==> s[0] == cp)
            && (|s| == 2 ==> s[0] <= 0xDF && cp == (s[0] as int - 0xC0) * 64 + (s[1] as int - 0x80))
            && (|s| == 3 ==>
                  s[0] <= 0xEF && cp == ((s[0] as int - 0xE0) * 64 + (s[1] as int - 0x80)) * 64 + (s[2] as int - 0x80))
            && (|s| == 4 ==>
                  && s[0] <= 0xF4
                  && cp == ((s[0] as int - 0xF0) * 64 + (s[1] as int - 0x80)) * 4096
                           + (s[2] as int - 0x80) * 64 + (s[3] as int - 0x80))
  {
    var q := cp / 64;
    var h := q / 64;
    assert cp == q * 64 + cp % 64 && q == h * 64 + q % 64 && h == h / 64 * 64 + h % 64;
  }

  // ---------- hexadecimal digits ----------

  /** c is the digit n, in either case. */
  predicate IsDigit(c: Byte, n: nat) {
    if n < 10 then c == '0' as int + n
    else n < 16 && (c == 'a' as int + (n - 10) || c == 'A' as int + (n - 10))
  }

  /** The four digits of n stand at p. */
  predicate Digits4(t: seq<Byte>, p: nat, n: nat) {
    && n < 0x10000 && IsDigit(At(t, p), n / 0x1000) && IsDigit(At(t, p + 1), n / 0x100 % 16)
    && IsDigit(At(t, p + 2), n / 0x10 % 16) && IsDigit(At(t, p + 3), n % 16)
  }

  lemma {:induction false} DigitRead(c: Byte, n: nat)
    ensures IsDigit(c, n) <==> HexValue(c) == n
    ensures HexValue(c) == -1 || 0 <= HexValue(c) < 16
  {
  }

  lemma {:induction false} DigitsOf(a: nat, b: nat, c: nat, d: nat)
    requires a < 16 && b < 16 && c < 16 && d < 16
    ensures var n := ((a * 16 + b) * 16 + c) * 16 + d;
            n < 0x10000 && n / 0x1000 == a && n / 0x100 % 16 == b && n / 0x10 % 16 == c && n % 16 == d
  {
    var n := ((a * 16 + b) * 16 + c) * 16 + d;
    assert n / 0x10 == (a * 16 + b) * 16 + c;
    assert n / 0x100 == a * 16 + b;
    assert n / 0x1000 == a;
  }

  lemma {:induction false} FromDigits(n: nat)
    requires n < 0x10000
    ensures n == ((n / 0x1000 * 16 + n / 0x100 % 16) * 16 + n / 0x10 % 16) * 16 + n % 16
  {
    assert n / 0x100 == n / 0x1000 * 16 + n / 0x100 % 16;
    assert n / 0x10 == n / 0x100 * 16 + n / 0x10 % 16;
  }

  /** parse_utf16_hex reads exactly the number whose digits stand there. */
  lemma {:induction false} Hex4Exactly(t: seq<Byte>, p: nat, n: nat)
    ensures Hex4(t, p) == Some(n) <==> Digits4(t, p, n)
    ensures Hex4(t, p) == Some(n) ==> n < 0x10000
  {
    var a, b, c, d := HexValue(At(t, p)), HexValue(At(t, p + 1)), HexValue(At(t, p + 2)), HexValue(At(t, p + 3));
    DigitRead(At(t, p), n / 0x1000);
    DigitRead(At(t, p + 1), n / 0x100 % 16);
    DigitRead(At(t, p + 2), n / 0x10 % 16);
    DigitRead(At(t, p + 3), n % 16);
    if n < 0x10000 {
      FromDigits(n);
    }
    if a >= 0 && b >= 0 && c >= 0 && d >= 0 {
      DigitsOf(a, b, c, d);
    }
    hide HexValue, IsDigit, At;
  }

  // ---------- one code point ----------

  /** From the u on: the four digits of a code point that is no surrogate. */
  predicate OneEscape(t: seq<Byte>, u: nat, cp: nat) {
    cp < 0x10000 && !(0xD800 <= cp <= 0xDFFF) && Digits4(t, u + 1, cp)
  }

  /** From the u on: the digits of the high half of a code point beyond the first 65536, and an
      escape with those of its low half. */
  predicate TwoEscapes(t: seq<Byte>, u: nat, cp: nat) {
    && 0x10000 <= cp < 0x110000 && Digits4(t, u + 1, 0xD800 + (cp - 0x10000) / 0x400)
    && At(t, u + 5) == '\\' as int && At(t, u + 6) == 'u' as int
    && Digits4(t, u + 7, 0xDC00 + (cp - 0x10000) % 0x400)
  }

  /** A \u escape gives the UTF-8 of exactly the code point that its digits, or the digits of both
      halves, denote, and ends after them. */
  lemma {:induction false} EscapeExactly(t: seq<Byte>, u: nat, cp: nat)
    ensures OneEscape(t, u, cp) ==> ParseUtf16(t, u) == Some((Utf8(cp), u + 5))
    ensures TwoEscapes(t, u, cp) ==> ParseUtf16(t, u) == Some((Utf8(cp), u + 11))
  {
    hide Hex4, Utf8, Digits4, ParseUtf16;
    Hex4Exactly(t, u + 1, cp);
    if OneEscape(t, u, cp) {
      OneParsed(t, u, cp);
    }
    if TwoEscapes(t, u, cp) {
      var h, l := (cp - 0x10000) / 0x400, (cp - 0x10000) % 0x400;
      assert cp == h * 1024 + l + 0x10000 && h < 0x400;
      Hex4Exactly(t, u + 1, 0xD800 + h);
      Hex4Exactly(t, u + 7, 0xDC00 + l);
      TwoParsed(t, u, h, l);
    }
  }

  lemma {:induction false} OneParsed(t: seq<Byte>, u: nat, cp: nat)
    requires cp < 0x10000 && !(0xD800 <= cp <= 0xDFFF) && Hex4(t, u + 1) == Some(cp)
    ensures ParseUtf16(t, u) == Some((Utf8(cp), u + 5))
  {
    hide Hex4, Utf8, At;
  }

  lemma {:induction false} TwoParsed(t: seq<Byte>, u: nat, h: nat, l: nat)
    requires h < 0x400 && l < 0x400 && Hex4(t, u + 1) == Some(0xD800 + h) && Hex4(t, u + 7) == Some(0xDC00 + l)
    requires At(t, u + 5) == '\\' as int && At(t, u + 6) == 'u' as int
    ensures ParseUtf16(t, u) == Some((Utf8(h * 1024 + l + 0x10000), u + 11))
  {
    hide Hex4, Utf8, At;
  }

  /** Everything else is refused: wrong digits, a half without the other, halves in the wrong order. */
  lemma {:induction false} EscapeOnly(t: seq<Byte>, u: nat) returns (cp: nat)
    requires ParseUtf16(t, u).Some?
    ensures OneEscape(t, u, cp) || TwoEscapes(t, u, cp)
  {
    hide Hex4, Utf8, Digits4;
    var c := Hex4(t, u + 1).value;
    Hex4Exactly(t, u + 1, c);
    if 0xD800 <= c <= 0xDFFF {
      var d := Hex4(t, u + 7).value;
      Hex4Exactly(t, u + 7, d);
      var x := (c - 0xD800) * 0x400 + (d - 0xDC00);
      assert x / 0x400 == c - 0xD800 && x % 0x400 == d - 0xDC00;
      cp := x + 0x10000;
    } else {
      cp := c;
    }
  }

  // ---------- the other escapes ----------

  /** The byte that a letter after the backslash stands for. */
  predicate LetterFor(c: Byte, b: Byte) {
    || (c == '"' as int && b == '"' as int) || (c == '\\' as int && b == '\\' as int)
    || (c == '/' as int && b == '/' as int) || (c == 'b' as int && b == 8) || (c == 'f' as int && b == 12)
    || (c == 'n' as int && b == 10) || (c == 'r' as int && b == 13) || (c == 't' as int && b == 9)
  }

  /** One piece of a string: its bytes, and where the next begins. Bytes below 32 are no piece, and
      neither is a backslash before any other letter. */
  predicate Piece(t: seq<Byte>, i: nat, s: seq<Byte>, next: nat) {
    if At(t, i) != '\\' as int then At(t, i) >= 32 && s == [At(t, i)] && next == i + 1
    else if At(t, i + 1) != 'u' as int then |s| == 1 && LetterFor(At(t, i + 1), s[0]) && next == i + 2
    else ParseUtf16(t, i + 1) == Some((s, next))
  }

  lemma {:induction false} PieceExactly(t: seq<Byte>, i: nat, s: seq<Byte>, next: nat)
    ensures UnescapeAt(t, i) == Some((s, next)) <==> Piece(t, i, s, next)
  {
    hide ParseUtf16, At;
    assert |s| == 1 ==> s == [s[0]];
  }

  // ---------- whole strings ----------

  /** The positions ps are those of the pieces of a string of len bytes from start on, but the last. */
  ghost predicate Steps(t: seq<Byte>, start: nat, len: nat, ps: seq<nat>) {
    && ps != []
    && forall k :: 0 <= k < |ps| - 1 ==>
         && At(t, ps[k]) != 0 && ps[k] < start + len && UnescapeAt(t, ps[k]).Some?
         && ps[k + 1] == UnescapeAt(t, ps[k]).value.1
  }

  function Pieces(t: seq<Byte>, ps: seq<nat>): seq<Byte> {
    if |ps| <= 1 || UnescapeAt(t, ps[0]).None? then [] else UnescapeAt(t, ps[0]).value.0 + Pieces(t, ps[1..])
  }

  /** A string is the concatenation of its pieces up to its end or a zero; if some part is no piece,
      there is no string. */
  lemma {:induction false} ProcessExactly(t: seq<Byte>, start: nat, i: nat, len: nat) returns (ps: seq<nat>)
    requires start <= i
    ensures Steps(t, start, len, ps) && ps[0] == i
    ensures var e := ps[|ps| - 1];
            match Process(t, start, i, len)
            case Some(s) => (At(t, e) == 0 || e >= start + len) && s == Pieces(t, ps)
            case None => At(t, e) != 0 && e < start + len && UnescapeAt(t, e).None?
    decreases |t| - i
  {
    hide UnescapeAt;
    ProcessStep(t, start, i, len);
    if At(t, i) == 0 || i - start >= len || UnescapeAt(t, i).None? {
      ps := [i];
    } else {
      var rest := ProcessExactly(t, start, UnescapeAt(t, i).value.1, len);
      ps := [i] + rest;
      assert ps[1..] == rest && ps[|ps| - 1] == rest[|rest| - 1];
    }
  }

  // ---------- the closing quote ----------

  /** From p on, q is reached without meeting a quote, a backslash taking the byte after it along. */
  predicate Inside(t: seq<Byte>, p: nat, q: nat)
    decreases q - p
  {
    || p == q
    || (p < q && At(t, p) != 0 && At(t, p) != '"' as int
        && if At(t, p) == '\\' as int then At(t, p + 1) != 0 && p + 2 <= q && Inside(t, p + 2, q)
           else Inside(t, p + 1, q))
  }

  /** The closing quote is the first that is reached so; there is none exactly if none is reached. */
  lemma {:induction false} ClosingQuote(t: seq<Byte>, p: nat, q: nat)
    ensures SkipBody(t, p) == Some(q) <==> Inside(t, p, q) && At(t, q) == '"' as int
    decreases |t| - p
  {
    if p < |t| && At(t, p) != 0 && At(t, p) != QUOTE {
      if At(t, p) != BACKSLASH {
        ClosingQuote(t, p + 1, q);
      } else if At(t, p + 1) != 0 {
        ClosingQuote(t, p + 2, q);
      }
    }
  }

  /** A quoted string goes from a quote to its closing one, and is what its pieces say. */
  lemma {:induction false} QuotedExactly(t: seq<Byte>, p: nat, s: seq<Byte>, q: nat)
    ensures GetQuoted(t, p) == Some((s, q)) <==>
              && At(t, p) == '"' as int && q > p + 1 && Inside(t, p + 1, q - 1) && At(t, q - 1) == '"' as int
              && Process(t, p + 1, p + 1, q - 1 - (p + 1)) == Some(s)
  {
    hide Process, SkipBody, Inside;
    if q > p + 1 {
      ClosingQuote(t, p + 1, q - 1);
    }
    if SkipBody(t, p + 1).Some? {
      ClosingQuote(t, p + 1, SkipBody(t, p + 1).value);
    }
  }
}
