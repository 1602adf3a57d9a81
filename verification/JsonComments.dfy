/** Removing comments from JSON text, and why that leaves printed text alone. */
module JsonComments {
  import opened Wrappers
  import opened Event
  import opened JsonString
  import opened Json

  /** The two kinds of comments. */
  const BLOCK_START: seq<Byte> := [SLASH, STAR]
  const BLOCK_END: seq<Byte> := [STAR, SLASH]
  const LINE_START: seq<Byte> := [SLASH, SLASH]
  const LINE_END: seq<Byte> := [NEWLINE]

  datatype Tokens = Tokens(start: seq<Byte>, end: seq<Byte>)

  predicate ValidTokens(k: Tokens) {
    |k.start| > 0 && |k.end| > 0 && k.start[0] == SLASH && 0 !in k.start && 0 !in k.end
  }

  /** strstr: where the token first is from i on, before the end of the string. */
  function Find(t: seq<Byte>, i: nat, tok: seq<Byte>): (r: Option<nat>)
    ensures r.Some? ==> i <= r.value && Here(t, r.value, tok)
    ensures r.Some? ==> forall j :: i <= j < r.value ==> !Here(t, j, tok) && At(t, j) != 0
    ensures r.None? ==> exists z :: i <= z && At(t, z) == 0 && forall j :: i <= j <= z ==> !Here(t, j, tok)
    decreases |t| - i
  {
    if Here(t, i, tok) then Some(i) else if At(t, i) == 0 then None else Find(t, i + 1, tok)
  }

  /** Spaces from i to j. */
  function Blank(t: seq<Byte>, i: nat, j: nat): (r: seq<Byte>)
    ensures |r| == |t|
  {
    seq<Byte>(|t|, n requires 0 <= n < |t| => if i <= n < j then SPACE else t[n])
  }

  /** The text, the position and the two flags of remove_comments; done when it returns. */
  datatype Round = Round(text: seq<Byte>, pos: nat, inString: bool, escaped: bool, done: bool)

  /** One round of its loop. */
  function Next(t: seq<Byte>, i: nat, inString: bool, escaped: bool, k: Tokens): (r: Round)
    requires ValidTokens(k)
    ensures |r.text| == |t| && (!r.done ==> i < |t| && r.pos > i)
  {
    if At(t, i) == 0 then Round(t, i, inString, escaped, true)
    else if At(t, i) == BACKSLASH && !escaped then Round(t, i + 1, inString, true, false)
    else if At(t, i) == QUOTE && !escaped then Round(t, i + 1, !inString, false, false)
    else if !inString && Here(t, i, k.start) then
      var b := i + |k.start|;
      match Find(t, b, k.end)
      case None => Round(Blank(t, i, b), b, inString, escaped, true)
      case Some(e) => Round(Blank(t, i, e + |k.end|), e + |k.end|, inString, false, false)
    else Round(t, i + 1, inString, false, false)
  }

  /** remove_comments from position i on. */
  function Remove(t: seq<Byte>, i: nat, inString: bool, escaped: bool, k: Tokens): (r: seq<Byte>)
    requires ValidTokens(k)
    ensures |r| == |t|
    decreases |t| - i
  {
    var r := Next(t, i, inString, escaped, k);
    if r.done then r.text else Remove(r.text, r.pos, r.inString, r.escaped, k)
  }

  /** remove_comments, in place. */
  method RemoveComments(a: array<Byte>, k: Tokens)
    requires ValidTokens(k)
    modifies a
    ensures a[..] == Remove(old(a[..]), 0, false, false, k)
  {
    var i, inString, escaped, done := 0, false, false, false;
    ghost var want := Remove(a[..], 0, false, false, k);
    hide Next;
    while !done
      invariant 0 <= i
      invariant (if done then a[..] else Remove(a[..], i, inString, escaped, k)) == want
      decreases !done, if i < a.Length then a.Length - i else 0
    {
      i, inString, escaped, done := RemoveRound(a, i, inString, escaped, k);
    }
  }

  method RemoveRound(a: array<Byte>, i: nat, inString: bool, escaped: bool, k: Tokens)
    returns (i': nat, inString': bool, escaped': bool, done: bool)
    requires ValidTokens(k)
    modifies a
    ensures Round(a[..], i', inString', escaped', done) == Next(old(a[..]), i, inString, escaped, k)
  {
    var t := a[..];
    i', inString', escaped', done := i, inString, escaped, false;
    hide Find, Here, Blank;
    var c := At(t, i);
    if c == 0 {
      done := true;
    } else if c == BACKSLASH && !escaped {
      escaped' := true;
      i' := i + 1;
    } else if c == QUOTE && !escaped {
      inString' := !inString;
      escaped' := false;
      i' := i + 1;
    } else if !inString && Here(t, i, k.start) {
      i', escaped', done := BlankComment(a, i, escaped, k);
    } else {
      escaped' := false;
      i' := i + 1;
    }
  }

  /** A comment becomes spaces; if its end is missing, only its start does. */
  method BlankComment(a: array<Byte>, i: nat, escaped: bool, k: Tokens) returns (i': nat, escaped': bool, done: bool)
    requires ValidTokens(k) && Here(a[..], i, k.start)
    modifies a
    ensures var t, b := old(a[..]), i + |k.start|;
            match Find(t, b, k.end)
            case None => a[..] == Blank(t, i, b) && i' == b && escaped' == escaped && done
            case Some(e) => a[..] == Blank(t, i, e + |k.end|) && i' == e + |k.end| && !escaped' && !done
  {
    var b := i + |k.start|;
    var e := Find(a[..], b, k.end);
    hide Find, Blank;
    if e.None? {
      BlankOut(a, i, b);
      return b, escaped, true;
    }
    BlankOut(a, i, e.value + |k.end|);
    return e.value + |k.end|, false, false;
  }

  method BlankOut(a: array<Byte>, i: nat, j: nat)
    requires i <= j <= a.Length
    modifies a
    ensures a[..] == Blank(old(a[..]), i, j)
  {
    var n := i;
    while n < j
      invariant i <= n <= j
      invariant a[..] == Blank(old(a[..]), i, n)
    {
      a[n] := SPACE;
      n := n + 1;
    }
  }

  // ---------- printed text has no comments ----------

  /** Outside strings, going from p to q changes nothing. */
  ghost predicate Passes(t: seq<Byte>, p: nat, q: nat, k: Tokens)
    requires ValidTokens(k)
  {
    Remove(t, p, false, false, k) == Remove(t, q, false, false, k)
  }

  predicate Plain(s: seq<Byte>) {
    forall i :: 0 <= i < |s| ==> s[i] != QUOTE && s[i] != BACKSLASH && s[i] != SLASH && s[i] != 0
  }

  lemma {:induction false} PlainPasses(t: seq<Byte>, p: nat, s: seq<Byte>, k: Tokens)
    requires ValidTokens(k)
    ensures Here(t, p, s) && Plain(s) ==> Passes(t, p, p + |s|, k)
    decreases |s|
  {
    if s != [] && Here(t, p, s) && Plain(s) {
      HereAt(t, p, s, 0);
      assert s == [s[0]] + s[1..];
      HereSplit(t, p, [s[0]], s[1..]);
      PlainPasses(t, p + 1, s[1..], k);
      StartSlash(t, p, k);
    }
  }

  lemma {:induction false} StartSlash(t: seq<Byte>, p: nat, k: Tokens)
    requires ValidTokens(k)
    ensures Here(t, p, k.start) ==> At(t, p) == SLASH
  {
    if Here(t, p, k.start) {
      HereAt(t, p, k.start, 0);
    }
  }

  /** Inside a string, the text of one byte stays inside. */
  lemma {:induction false} BytePasses(t: seq<Byte>, i: nat, c: Byte, slashes: bool, k: Tokens)
    requires ValidTokens(k)
    ensures Here(t, i, EscapeByte(c, slashes)) ==>
              Remove(t, i, true, false, k) == Remove(t, i + |EscapeByte(c, slashes)|, true, false, k)
  {
    var s := EscapeByte(c, slashes);
    hide Remove;
    if Here(t, i, s) {
      HereAt(t, i, s, 0);
      if |s| == 1 {
        InsideStep(t, i, k);
      } else {
        HereAt(t, i, s, 1);
        EscapeStep(t, i, k);
      }
      if |s| > 2 {
        HereAt(t, i, s, 2);
        HereAt(t, i, s, 3);
        HereAt(t, i, s, 4);
        HereAt(t, i, s, 5);
        HexRoundTrip(c / 16);
        HexRoundTrip(c % 16);
        InsideStep(t, i + 2, k);
        InsideStep(t, i + 3, k);
        InsideStep(t, i + 4, k);
        InsideStep(t, i + 5, k);
      }
    }
  }

  lemma {:induction false} InsideStep(t: seq<Byte>, i: nat, k: Tokens)
    requires ValidTokens(k)
    ensures At(t, i) != 0 && At(t, i) != QUOTE && At(t, i) != BACKSLASH ==>
              Remove(t, i, true, false, k) == Remove(t, i + 1, true, false, k)
  {
  }

  lemma {:induction false} EscapeStep(t: seq<Byte>, i: nat, k: Tokens)
    requires ValidTokens(k)
    ensures At(t, i) == BACKSLASH && At(t, i + 1) != 0 ==>
              Remove(t, i, true, false, k) == Remove(t, i + 2, true, false, k)
  {
    if At(t, i) == BACKSLASH && At(t, i + 1) != 0 {
      assert Remove(t, i, true, false, k) == Remove(t, i + 1, true, true, k);
      assert Remove(t, i + 1, true, true, k) == Remove(t, i + 2, true, false, k);
    }
  }

  lemma {:induction false} BodyPasses(t: seq<Byte>, i: nat, s: seq<Byte>, slashes: bool, k: Tokens)
    requires ValidTokens(k)
    ensures Here(t, i, Escape(s, slashes)) ==>
              Remove(t, i, true, false, k) == Remove(t, i + |Escape(s, slashes)|, true, false, k)
    decreases |s|
  {
    hide Remove, Here, EscapeByte;
    if s != [] {
      Split2(t, i, EscapeByte(s[0], slashes), Escape(s[1..], slashes));
      BytePasses(t, i, s[0], slashes, k);
      BodyPasses(t, i + |EscapeByte(s[0], slashes)|, s[1..], slashes, k);
    }
  }

  /** A printed string is left alone, whatever is in it. */
  lemma {:induction false} StringPasses(t: seq<Byte>, p: nat, s: seq<Byte>, slashes: bool, k: Tokens)
    requires ValidTokens(k)
    ensures Here(t, p, PrintString(s, slashes)) ==> Passes(t, p, p + |PrintString(s, slashes)|, k)
  {
    hide *;
    var e, q: seq<Byte> := Escape(s, slashes), [QUOTE];
    PrintStringIs(s, slashes);
    Split2(t, p, q + e, q);
    Split2(t, p, q, e);
    BodyPasses(t, p + 1, s, slashes, k);
    QuoteToggles(t, p, false, k);
    QuoteToggles(t, p + 1 + |e|, true, k);
    PassesIs(t, p, p + |e| + 2, k);
  }

  lemma {:induction false} PassesIs(t: seq<Byte>, p: nat, q: nat, k: Tokens)
    requires ValidTokens(k)
    ensures Passes(t, p, q, k) <==> Remove(t, p, false, false, k) == Remove(t, q, false, false, k)
  {
  }

  lemma {:induction false} PrintStringIs(s: seq<Byte>, slashes: bool)
    ensures PrintString(s, slashes) == [QUOTE] + Escape(s, slashes) + [QUOTE]
  {
  }

  /** A quote enters or leaves a string. */
  lemma {:induction false} QuoteToggles(t: seq<Byte>, p: nat, inString: bool, k: Tokens)
    requires ValidTokens(k)
    ensures Here(t, p, [QUOTE]) ==> Remove(t, p, inString, false, k) == Remove(t, p + 1, !inString, false, k)
  {
    if Here(t, p, [QUOTE]) {
      HereAt(t, p, [QUOTE], 0);
    }
  }

  lemma {:induction false} NumbersPlain(nm: Numbers, n: int)
    ensures NumbersOk(nm) ==> Plain(nm.show(n))
  {
  }

  lemma {:induction false} WhitePlain(st: Style, level: nat)
    ensures Plain(IfPretty(st, Indent(level))) && Plain(IfPretty(st, [NEWLINE])) && Plain(IfPretty(st, [SPACE]))
    ensures Plain(Separator(true)) && Plain(Separator(false)) && Plain([COLON])
    ensures Plain([OPEN_ARRAY]) && Plain([CLOSE_ARRAY]) && Plain([OPEN_OBJECT]) && Plain([CLOSE_OBJECT])
    ensures Plain(NULL_TEXT) && Plain(TRUE_TEXT) && Plain(FALSE_TEXT)
  {
  }

  /** The text x, wherever it stands, changes nothing. */
  ghost predicate Harmless(t: seq<Byte>, p: nat, x: seq<Byte>, k: Tokens) {
    Here(t, p, x) && ValidTokens(k) ==> Passes(t, p, p + |x|, k)
  }

  lemma {:induction false} PlainHarmless(t: seq<Byte>, p: nat, x: seq<Byte>, k: Tokens)
    ensures Plain(x) ==> Harmless(t, p, x, k)
  {
    if ValidTokens(k) {
      PlainPasses(t, p, x, k);
    }
  }

  lemma {:induction false} ThenHarmless(t: seq<Byte>, p: nat, x: seq<Byte>, y: seq<Byte>, k: Tokens)
    ensures Harmless(t, p, x, k) && Harmless(t, p + |x|, y, k) ==> Harmless(t, p, x + y, k)
  {
    hide Here, Remove;
    Split2(t, p, x, y);
  }

  lemma {:induction false} Cat3Is(a: seq<Byte>, b: seq<Byte>, c: seq<Byte>)
    ensures Cat3(a, b, c) == a + (b + c)
  {
  }

  lemma {:induction false} Cat4Is(a: seq<Byte>, b: seq<Byte>, c: seq<Byte>, d: seq<Byte>)
    ensures Cat4(a, b, c, d) == a + (b + (c + d))
  {
  }

  lemma {:induction false} Cat3Harmless(t: seq<Byte>, p: nat, a: seq<Byte>, b: seq<Byte>, c: seq<Byte>, k: Tokens)
    ensures Harmless(t, p, a, k) && Harmless(t, p + |a|, b, k) && Harmless(t, p + |a| + |b|, c, k) ==>
              Harmless(t, p, Cat3(a, b, c), k)
  {
    hide *;
    Cat3Is(a, b, c);
    ThenHarmless(t, p, a, b + c, k);
    ThenHarmless(t, p + |a|, b, c, k);
  }

  lemma {:induction false} Cat4Harmless(t: seq<Byte>, p: nat, a: seq<Byte>, b: seq<Byte>, c: seq<Byte>, d: seq<Byte>,
                                        k: Tokens)
    ensures Harmless(t, p, a, k) && Harmless(t, p + |a|, b, k) && Harmless(t, p + |a| + |b|, c, k) ==>
            Harmless(t, p + |a| + |b| + |c|, d, k) ==> Harmless(t, p, Cat4(a, b, c, d), k)
  {
    hide *;
    Cat4Is(a, b, c, d);
    ThenHarmless(t, p, a, b + (c + d), k);
    ThenHarmless(t, p + |a|, b, c + d, k);
    ThenHarmless(t, p + |a| + |b|, c, d, k);
  }

  lemma {:induction false} ListHarmless(st: Style, level: nat, t: seq<Byte>, p: nat, head: seq<Byte>, more: bool,
                                        rest: seq<Byte>, k: Tokens)
    ensures Harmless(t, HeadAt(st, level, p), head, k) && Harmless(t, RestAt(st, level, p, head, more), rest, k) ==>
              Harmless(t, p, ListText(st, level, head, more, rest), k)
  {
    hide *;
    var w, s, n := IfPretty(st, Indent(level + 1)), Separator(more), IfPretty(st, [NEWLINE]);
    WhitePlain(st, level + 1);
    ListIs(st, level, p, head, more, rest);
    FiveHarmless(t, p, w, head, s, n, rest, k);
  }

  lemma {:induction false} ListIs(st: Style, level: nat, p: nat, head: seq<Byte>, more: bool, rest: seq<Byte>)
    ensures var w, s, n := IfPretty(st, Indent(level + 1)), Separator(more), IfPretty(st, [NEWLINE]);
            && HeadAt(st, level, p) == p + |w| && RestAt(st, level, p, head, more) == p + |w| + |head| + |s| + |n|
            && ListText(st, level, head, more, rest) == w + Cat4(head, s, n, rest)
            && (s == Separator(true) || s == Separator(false))
  {
  }

  lemma {:induction false} FiveHarmless(t: seq<Byte>, p: nat, w: seq<Byte>, x: seq<Byte>, s: seq<Byte>, n: seq<Byte>,
                                        rest: seq<Byte>, k: Tokens)
    ensures Plain(w) && Plain(s) && Plain(n) && Harmless(t, p + |w|, x, k)
            && Harmless(t, p + |w| + |x| + |s| + |n|, rest, k) ==>
              Harmless(t, p, w + Cat4(x, s, n, rest), k)
  {
    hide *;
    PlainHarmless(t, p, w, k);
    PlainHarmless(t, p + |w| + |x|, s, k);
    PlainHarmless(t, p + |w| + |x| + |s|, n, k);
    Cat4Harmless(t, p + |w|, x, s, n, rest, k);
    ThenHarmless(t, p, w, Cat4(x, s, n, rest), k);
  }

  lemma {:induction false} StringHarmless(t: seq<Byte>, p: nat, s: seq<Byte>, slashes: bool, k: Tokens)
    ensures Harmless(t, p, PrintString(s, slashes), k)
  {
    if ValidTokens(k) {
      StringPasses(t, p, s, slashes, k);
    }
  }

  lemma {:induction false} FieldHarmless(st: Style, key: seq<Byte>, x: seq<Byte>, t: seq<Byte>, i: nat, k: Tokens)
    ensures Harmless(t, i + |PrintString(key, st.slashes)| + 1 + |IfPretty(st, [SPACE])|, x, k) ==>
              Harmless(t, i, FieldText(st, key, x), k)
  {
    hide *;
    var n, w := PrintString(key, st.slashes), IfPretty(st, [SPACE]);
    WhitePlain(st, 0);
    FieldTextIs(st, key, x);
    StringHarmless(t, i, key, st.slashes, k);
    FourHarmless(t, i, n, [COLON], w, x, k);
  }

  lemma {:induction false} FieldTextIs(st: Style, key: seq<Byte>, x: seq<Byte>)
    ensures FieldText(st, key, x) == Cat4(PrintString(key, st.slashes), [COLON], IfPretty(st, [SPACE]), x)
  {
  }

  lemma {:induction false} FourHarmless(t: seq<Byte>, p: nat, a: seq<Byte>, b: seq<Byte>, c: seq<Byte>, x: seq<Byte>,
                                        k: Tokens)
    ensures Harmless(t, p, a, k) && Plain(b) && Plain(c) && Harmless(t, p + |a| + |b| + |c|, x, k) ==>
              Harmless(t, p, Cat4(a, b, c, x), k)
  {
    hide *;
    PlainHarmless(t, p + |a|, b, k);
    PlainHarmless(t, p + |a| + |b|, c, k);
    Cat4Harmless(t, p, a, b, c, x, k);
  }

  /** The end of a list. */
  lemma {:induction false} CloseHarmless(st: Style, level: nat, t: seq<Byte>, p: nat, close: Byte, k: Tokens)
    ensures close == CLOSE_ARRAY || close == CLOSE_OBJECT ==> Harmless(t, p, IfPretty(st, Indent(level)) + [close], k)
  {
    hide *;
    var w := IfPretty(st, Indent(level));
    WhitePlain(st, level);
    PlainHarmless(t, p, w, k);
    PlainHarmless(t, p + |w|, [close], k);
    ThenHarmless(t, p, w, [close], k);
  }

  lemma {:induction false} ItemsHarmless(st: Style, items: Items, level: nat, t: seq<Byte>, p: nat, k: Tokens)
    ensures NumbersOk(st.numbers) ==> Harmless(t, p, PrintItems(st, items, level), k)
    decreases items, 1
  {
    hide Harmless, Print, NumbersOk, ListText, HeadAt, RestAt, Indent, IfPretty;
    match items {
      case NoItem => CloseHarmless(st, level, t, p, CLOSE_ARRAY, k);
      case Item(v, tail) =>
        var x, rest := Print(st, v, level + 1), PrintItems(st, tail, level);
        ValueHarmless(st, v, level + 1, t, HeadAt(st, level, p), k);
        ItemsHarmless(st, tail, level, t, RestAt(st, level, p, x, tail.Item?), k);
        ListHarmless(st, level, t, p, x, tail.Item?, rest, k);
    }
  }

  lemma {:induction false} FieldsHarmless(st: Style, fields: Fields, level: nat, t: seq<Byte>, p: nat, k: Tokens)
    ensures NumbersOk(st.numbers) ==> Harmless(t, p, PrintFields(st, fields, level), k)
    decreases fields, 1
  {
    hide Harmless, Print, NumbersOk, ListText, HeadAt, RestAt, Indent, IfPretty, FieldText, PrintString;
    match fields {
      case NoField => CloseHarmless(st, level, t, p, CLOSE_OBJECT, k);
      case Field(key, v, rest) =>
        var x := Print(st, v, level + 1);
        var f, i := FieldText(st, key, x), HeadAt(st, level, p);
        ValueHarmless(st, v, level + 1, t, i + |PrintString(key, st.slashes)| + 1 + |IfPretty(st, [SPACE])|, k);
        FieldHarmless(st, key, x, t, i, k);
        FieldsHarmless(st, rest, level, t, RestAt(st, level, p, f, rest.Field?), k);
        ListHarmless(st, level, t, p, f, rest.Field?, PrintFields(st, rest, level), k);
    }
  }

  lemma {:induction false} ValueHarmless(st: Style, v: Value, level: nat, t: seq<Byte>, p: nat, k: Tokens)
    ensures NumbersOk(st.numbers) ==> Harmless(t, p, Print(st, v, level), k)
    decreases v, 0
  {
    WhitePlain(st, level);
    hide Harmless, NumbersOk, PrintItems, PrintFields, Plain, PrintString, IfPretty, Cat3;
    match v {
      case Null => PlainHarmless(t, p, NULL_TEXT, k);
      case Bool(b) =>
        PlainHarmless(t, p, TRUE_TEXT, k);
        PlainHarmless(t, p, FALSE_TEXT, k);
      case Number(n) =>
        NumbersPlain(st.numbers, n);
        PlainHarmless(t, p, st.numbers.show(n), k);
      case Str(s) => StringHarmless(t, p, s, st.slashes, k);
      case Array(items) =>
        var n := IfPretty(st, [NEWLINE]);
        PlainHarmless(t, p, [OPEN_ARRAY], k);
        PlainHarmless(t, p + 1, [CLOSE_ARRAY], k);
        PlainHarmless(t, p + 1, n, k);
        ThenHarmless(t, p, [OPEN_ARRAY], [CLOSE_ARRAY], k);
        ItemsHarmless(st, items, level, t, p + 1 + |n|, k);
        Cat3Harmless(t, p, [OPEN_ARRAY], n, PrintItems(st, items, level), k);
      case Object(fields) =>
        var n := IfPretty(st, [NEWLINE]);
        PlainHarmless(t, p, [OPEN_OBJECT], k);
        PlainHarmless(t, p + 1, [CLOSE_OBJECT], k);
        PlainHarmless(t, p + 1, n, k);
        ThenHarmless(t, p, [OPEN_OBJECT], [CLOSE_OBJECT], k);
        FieldsHarmless(st, fields, level, t, p + 1 + |n|, k);
        Cat3Harmless(t, p, [OPEN_OBJECT], n, PrintFields(st, fields, level), k);
    }
  }

  /** Removing comments of either kind leaves printed text as it is, even when its strings
      look like comments. */
  lemma {:induction false} PrintedUntouched(st: Style, v: Value, k: Tokens)
    requires NumbersOk(st.numbers) && ValidTokens(k)
    ensures Remove(Print(st, v, 0), 0, false, false, k) == Print(st, v, 0)
  {
    var t := Print(st, v, 0);
    assert t[0..|t|] == t;
    hide Print, NumbersOk;
    ValueHarmless(st, v, 0, t, 0, k);
  }

  /** json_parse_string_with_comments on printed text gives back the value as well. */
  lemma {:induction false} RoundTripWithComments(st: Style, v: Value)
    requires NumbersOk(st.numbers) && WellKeyed(v) && Depth(v) <= MAX_NESTING
    ensures ValidTokens(Tokens(BLOCK_START, BLOCK_END)) && ValidTokens(Tokens(LINE_START, LINE_END))
    ensures var t := Remove(Print(st, v, 0), 0, false, false, Tokens(BLOCK_START, BLOCK_END));
            var u := Remove(t, 0, false, false, Tokens(LINE_START, LINE_END));
            Parse(st.numbers, u, 0, 0) == Some((v, |Print(st, v, 0)|))
  {
    PrintedUntouched(st, v, Tokens(BLOCK_START, BLOCK_END));
    PrintedUntouched(st, v, Tokens(LINE_START, LINE_END));
    RoundTrip(st, v);
  }

  // ---------- what happens to a comment ----------

  lemma {:induction false} HereShift(a: seq<Byte>, t: seq<Byte>, i: nat, tok: seq<Byte>)
    ensures Here(a + t, |a| + i, tok) <==> Here(t, i, tok)
    ensures At(a + t, |a| + i) == At(t, i)
  {
    if i + |tok| <= |t| {
      assert (a + t)[|a| + i..|a| + i + |tok|] == t[i..i + |tok|];
    }
  }

  lemma {:induction false} FindShift(a: seq<Byte>, t: seq<Byte>, i: nat, tok: seq<Byte>)
    ensures Find(a + t, |a| + i, tok)
            == match Find(t, i, tok) case None => None case Some(e) => Some(|a| + e)
    decreases |t| - i
  {
    hide Here;
    HereShift(a, t, i, tok);
    if !Here(t, i, tok) && At(t, i) != 0 {
      FindShift(a, t, i + 1, tok);
    }
  }

  lemma {:induction false} BlankShift(a: seq<Byte>, t: seq<Byte>, i: nat, j: nat)
    ensures Blank(a + t, |a| + i, |a| + j) == a + Blank(t, i, j)
  {
  }

  /** What comes before the position does not matter. */
  lemma {:induction false} NextShift(a: seq<Byte>, t: seq<Byte>, i: nat, inString: bool, escaped: bool, k: Tokens)
    requires ValidTokens(k)
    ensures var r := Next(t, i, inString, escaped, k);
            Next(a + t, |a| + i, inString, escaped, k) == r.(text := a + r.text, pos := |a| + r.pos)
  {
    hide Find, Blank, Here, At, ValidTokens;
    HereShift(a, t, i, k.start);
    FindShift(a, t, i + |k.start|, k.end);
    BlankShift(a, t, i, i + |k.start|);
    var f := Find(t, i + |k.start|, k.end);
    if f.Some? {
      BlankShift(a, t, i, f.value + |k.end|);
    }
  }

  lemma {:induction false} RemoveShift(a: seq<Byte>, t: seq<Byte>, i: nat, inString: bool, escaped: bool, k: Tokens)
    requires ValidTokens(k)
    ensures Remove(a + t, |a| + i, inString, escaped, k) == a + Remove(t, i, inString, escaped, k)
    decreases |t| - i
  {
    hide Next, ValidTokens;
    NextShift(a, t, i, inString, escaped, k);
    var r := Next(t, i, inString, escaped, k);
    if !r.done {
      RemoveShift(a, r.text, r.pos, r.inString, r.escaped, k);
    }
  }

  /** Text that leaves the removal outside strings, as it was. */
  ghost predicate Neutral(a: seq<Byte>, k: Tokens) {
    forall t, p: nat :: Harmless(t, p, a, k)
  }

  lemma {:induction false} NeutralText(st: Style, v: Value, level: nat, x: seq<Byte>, y: seq<Byte>, k: Tokens)
    ensures NumbersOk(st.numbers) ==> Neutral(Print(st, v, level), k)
    ensures Plain(x) ==> Neutral(x, k)
    ensures Neutral(x, k) && Neutral(y, k) ==> Neutral(x + y, k)
  {
    hide Harmless, Print, Plain, NumbersOk;
    forall t: seq<Byte>, p: nat
      ensures NumbersOk(st.numbers) ==> Harmless(t, p, Print(st, v, level), k)
      ensures Plain(x) ==> Harmless(t, p, x, k)
      ensures Neutral(x, k) && Neutral(y, k) ==> Harmless(t, p, x + y, k)
    {
      ValueHarmless(st, v, level, t, p, k);
      PlainHarmless(t, p, x, k);
      if Neutral(x, k) && Neutral(y, k) {
        assert Harmless(t, p, x, k) && Harmless(t, p + |x|, y, k);
      }
      ThenHarmless(t, p, x, y, k);
    }
  }

  lemma {:induction false} PastNeutral(a: seq<Byte>, t: seq<Byte>, k: Tokens)
    requires ValidTokens(k) && Neutral(a, k)
    ensures Remove(a + t, 0, false, false, k) == a + Remove(t, 0, false, false, k)
  {
    assert Here(a + t, 0, a);
    hide Here;
    assert Harmless(a + t, 0, a, k);
    RemoveShift(a, t, 0, false, false, k);
  }

  function Spaces(n: nat): (s: seq<Byte>)
    ensures |s| == n
  {
    seq<Byte>(n, _ => ' ' as int)
  }

  /** The end token is nowhere in c followed by it, but for the end. */
  predicate Unended(c: seq<Byte>, end: seq<Byte>) {
    forall j :: 0 <= j < |c| ==> !Here(c + end, j, end)
  }

  /** A comment goes up to the first end token after its start, and becomes as many spaces; the
      text before it stays, and what follows is done as if it stood alone. */
  lemma {:induction false} CommentRemoved(a: seq<Byte>, c: seq<Byte>, rest: seq<Byte>, k: Tokens)
    requires ValidTokens(k) && Neutral(a, k) && 0 !in c
    requires Unended(c, k.end)
    ensures Remove(a + (k.start + c + k.end + rest), 0, false, false, k)
            == a + Spaces(|k.start| + |c| + |k.end|) + Remove(rest, 0, false, false, k)
  {
    hide Neutral, Next, Blank, Spaces, Here, ValidTokens, Unended, Remove;
    var t := k.start + c + k.end + rest;
    var n := |k.start| + |c| + |k.end|;
    PastNeutral(a, t, k);
    CommentFirst(c, rest, k);
    assert a + (Spaces(n) + Remove(rest, 0, false, false, k)) == a + Spaces(n) + Remove(rest, 0, false, false, k);
  }

  lemma {:induction false} CommentFirst(c: seq<Byte>, rest: seq<Byte>, k: Tokens)
    requires ValidTokens(k) && 0 !in c && Unended(c, k.end)
    ensures var n := |k.start| + |c| + |k.end|;
            Remove(k.start + c + k.end + rest, 0, false, false, k) == Spaces(n) + Remove(rest, 0, false, false, k)
  {
    hide Next, Blank, Spaces, Here, ValidTokens, Unended;
    FirstRound(c, rest, k);
    BlankComment'(c, rest, k);
    RemoveShift(Spaces(|k.start| + |c| + |k.end|), rest, 0, false, false, k);
  }

  lemma {:induction false} BlankComment'(c: seq<Byte>, rest: seq<Byte>, k: Tokens)
    ensures var n := |k.start| + |c| + |k.end|; Blank(k.start + c + k.end + rest, 0, n) == Spaces(n) + rest
  {
  }

  lemma {:induction false} FirstRound(c: seq<Byte>, rest: seq<Byte>, k: Tokens)
    requires ValidTokens(k) && 0 !in c && Unended(c, k.end)
    ensures var t, n := k.start + c + k.end + rest, |k.start| + |c| + |k.end|;
            Next(t, 0, false, false, k) == Round(Blank(t, 0, n), n, false, false, false)
  {
    var t := k.start + c + k.end + rest;
    assert t[0..|k.start|] == k.start && t[0] == SLASH;
    EndFound(c, rest, k);
    hide Find, Blank;
  }

  lemma {:induction false} EndFound(c: seq<Byte>, rest: seq<Byte>, k: Tokens)
    requires ValidTokens(k) && 0 !in c && Unended(c, k.end)
    ensures Find(k.start + c + k.end + rest, |k.start|, k.end) == Some(|k.start| + |c|)
  {
    hide *;
    Assoc(k.start, c, k.end);
    Assoc(k.start, c + k.end, rest);
    EndAfter(c, rest, k.end, 0);
    FindShift(k.start, c + k.end + rest, 0, k.end);
  }

  lemma {:induction false} EndAfter(c: seq<Byte>, rest: seq<Byte>, end: seq<Byte>, j: nat)
    requires j <= |c| && 0 !in c && Unended(c, end)
    ensures Find(c + end + rest, j, end) == Some(|c|)
    decreases |c| - j
  {
    var t := c + end + rest;
    if j == |c| {
      assert t[j..j + |end|] == end;
    } else {
      assert t[j] == c[j] && c[j] in c;
      hide Here;
      HerePrefix(c + end, rest, j, end);
      EndAfter(c, rest, end, j + 1);
    }
  }

  lemma {:induction false} HerePrefix(a: seq<Byte>, rest: seq<Byte>, j: nat, tok: seq<Byte>)
    requires j + |tok| <= |a|
    ensures Here(a + rest, j, tok) <==> Here(a, j, tok)
  {
    assert (a + rest)[j..j + |tok|] == a[j..j + |tok|];
  }

  /** A comment that is not closed loses only its start token, and ends the removal. */
  lemma {:induction false} UnclosedComment(a: seq<Byte>, c: seq<Byte>, k: Tokens)
    requires ValidTokens(k) && Neutral(a, k) && forall j :: 0 <= j < |c| ==> !Here(c, j, k.end)
    ensures Remove(a + (k.start + c), 0, false, false, k) == a + Spaces(|k.start|) + c
  {
    hide Neutral;
    var t, n := k.start + c, |k.start|;
    PastNeutral(a, t, k);
    assert t[0..n] == k.start && t[0] == SLASH;
    NotFound(c, k, 0);
    hide Find;
    assert Blank(t, 0, n) == Spaces(n) + c;
  }

  lemma {:induction false} NotFound(c: seq<Byte>, k: Tokens, j: nat)
    requires ValidTokens(k) && forall j :: 0 <= j < |c| ==> !Here(c, j, k.end)
    ensures Find(k.start + c, |k.start| + j, k.end) == None
    decreases |c| - j
  {
    HereShift(k.start, c, j, k.end);
    if j < |c| {
      NotFound(c, k, j + 1);
    }
  }

  // json_parse_string_with_comments gives the value after a comment in front of printed text.
  lemma {:induction false} CommentInFront(st: Style, v: Value, c: seq<Byte>)
    requires NumbersOk(st.numbers) && WellKeyed(v) && Depth(v) <= MAX_NESTING && 0 !in c
    requires Unended(c, ['*' as int, '/' as int])
    ensures ValidTokens(Tokens(BLOCK_START, BLOCK_END)) && ValidTokens(Tokens(LINE_START, LINE_END))
    ensures var t := ['/' as int, '*' as int] + c + ['*' as int, '/' as int] + Print(st, v, 0);
            var u := Remove(t, 0, false, false, Tokens(BLOCK_START, BLOCK_END));
            var w := Remove(u, 0, false, false, Tokens(LINE_START, LINE_END));
            Parse(st.numbers, w, 0, 0) == Some((v, |t|))
  {
    hide Print, Remove, NumbersOk, Spaces, Unended, Parse, WellKeyed;
    FrontBlanked(st, v, c, Tokens(BLOCK_START, BLOCK_END));
    SpacesKept(st, v, |c| + 4, Tokens(LINE_START, LINE_END));
    AfterSpaces(st, v, |c| + 4);
  }

  lemma {:induction false} FrontBlanked(st: Style, v: Value, c: seq<Byte>, k: Tokens)
    requires ValidTokens(k) && NumbersOk(st.numbers) && 0 !in c && Unended(c, k.end)
    ensures Remove(k.start + c + k.end + Print(st, v, 0), 0, false, false, k)
            == Spaces(|k.start| + |c| + |k.end|) + Print(st, v, 0)
  {
    var x := Print(st, v, 0);
    assert [] + (k.start + c + k.end + x) == k.start + c + k.end + x;
    hide Print, Neutral, Remove, Plain, NumbersOk, Spaces, Unended;
    NoText(k);
    CommentRemoved([], c, x, k);
    PrintedUntouched(st, v, k);
  }

  lemma {:induction false} NoText(k: Tokens)
    ensures Neutral([], k)
  {
  }

  lemma {:induction false} SpacesKept(st: Style, v: Value, n: nat, k: Tokens)
    requires ValidTokens(k) && NumbersOk(st.numbers)
    ensures Remove(Spaces(n) + Print(st, v, 0), 0, false, false, k) == Spaces(n) + Print(st, v, 0)
  {
    assert Plain(Spaces(n));
    hide Print, Neutral, Remove, Plain, NumbersOk, Spaces;
    NeutralText(st, v, 0, Spaces(n), [], k);
    PastNeutral(Spaces(n), Print(st, v, 0), k);
    PrintedUntouched(st, v, k);
  }

  lemma {:induction false} AfterSpaces(st: Style, v: Value, n: nat)
    requires NumbersOk(st.numbers) && WellKeyed(v) && Depth(v) <= MAX_NESTING
    ensures Parse(st.numbers, Spaces(n) + Print(st, v, 0), 0, 0) == Some((v, n + |Print(st, v, 0)|))
  {
    hide Print, NumbersOk, Parse, WellKeyed, Depth, Skip;
    var s, x := Spaces(n), Print(st, v, 0);
    var t := s + x;
    assert t[0..n] == s && t[n..n + |x|] == x;
    assert AllSpaces(s);
    hide Spaces, AllSpaces;
    ValueParsed(st, v, 0, t, n, 0);
    SkipOver(t, 0, s);
    SameSkip(st.numbers, t, 0, n, 0);
  }
}
