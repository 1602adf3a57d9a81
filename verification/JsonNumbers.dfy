/** One way to write and read numbers: whole numbers in decimal. */
module JsonNumbers {
  import opened Wrappers
  import opened Event
  import opened JsonString
  import opened Json

  const MINUS: Byte := 0x2D

  function Digits(n: nat): (s: seq<Byte>)
    ensures s != [] && forall i :: 0 <= i < |s| ==> IsDigit(s[i])
  {
    if n < 10 then [0x30 + n] else Digits(n / 10) + [0x30 + n % 10]
  }

  predicate IsDigit(c: Byte) {
    0x30 <= c <= 0x39
  }

  function ShowWhole(n: int): seq<Byte> {
    if n < 0 then [MINUS] + Digits(-n) else Digits(n)
  }

  /** The number that the digits from p on add to acc, and where they end. */
  function ReadDigits(t: seq<Byte>, p: nat, acc: nat): (nat, nat)
    decreases |t| - p
  {
    if IsDigit(At(t, p)) then ReadDigits(t, p + 1, acc * 10 + (At(t, p) - 0x30)) else (acc, p)
  }

  function ReadWhole(t: seq<Byte>, p: nat): Option<(int, nat)> {
    if At(t, p) == MINUS then
      (if IsDigit(At(t, p + 1)) then var r := ReadDigits(t, p + 1, 0); Some((-(r.0 as int), r.1)) else None)
    else if IsDigit(At(t, p)) then var r := ReadDigits(t, p, 0); Some((r.0 as int, r.1))
    else None
  }

  function WholeNumbers(): Numbers {
    Numbers(n => ShowWhole(n), (t, p) => ReadWhole(t, p))
  }

  lemma {:induction false} DigitsRead(t: seq<Byte>, p: nat, n: nat)
    requires Here(t, p, Digits(n))
    ensures ReadDigits(t, p, 0) == ReadDigits(t, p + |Digits(n)|, n)
    decreases n
  {
    var d := Digits(n);
    HereAt(t, p, d, |d| - 1);
    if n >= 10 {
      HereSplit(t, p, Digits(n / 10), [0x30 + n % 10]);
      DigitsRead(t, p, n / 10);
    }
  }

  lemma {:induction false} WholeRead(t: seq<Byte>, p: nat, n: int)
    requires Here(t, p, ShowWhole(n)) && Delimiter(At(t, p + |ShowWhole(n)|))
    ensures ReadWhole(t, p) == Some((n, p + |ShowWhole(n)|))
  {
    if n < 0 {
      HereSplit(t, p, [MINUS], Digits(-n));
      HereAt(t, p, [MINUS], 0);
      HereAt(t, p + 1, Digits(-n), 0);
      DigitsRead(t, p + 1, -n);
    } else {
      HereAt(t, p, Digits(n), 0);
      DigitsRead(t, p, n);
    }
  }

  lemma {:induction false} ShownWell()
    ensures forall n :: ShowWhole(n) != [] && StartsNumber(ShowWhole(n)[0])
    ensures forall n, i :: 0 <= i < |ShowWhole(n)| ==>
              ShowWhole(n)[i] != QUOTE && ShowWhole(n)[i] != BACKSLASH && ShowWhole(n)[i] != SLASH
                && ShowWhole(n)[i] != 0
  {
  }

  /** Numbers that meet what printing and reading back ask of them exist. */
  lemma {:induction false} WholeNumbersOk()
    ensures NumbersOk(WholeNumbers())
  {
    var nm := WholeNumbers();
    ShownWell();
    hide ShowWhole, ReadWhole, Here, At, Delimiter;
    forall t, p: nat, n | Here(t, p, nm.show(n)) && Delimiter(At(t, p + |nm.show(n)|))
      ensures ReadsAs(nm, t, p, n, p + |nm.show(n)|)
    {
      WholeRead(t, p, n);
    }
  }
}
