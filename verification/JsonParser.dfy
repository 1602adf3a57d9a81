/** The parser of JSON text: the loops that move the position forward. */
module JsonParser {
  import opened Wrappers
  import opened Event
  import opened JsonString
  import opened Json

  /** SKIP_WHITESPACES */
  method SkipSpaces(t: seq<Byte>, p: nat) returns (q: nat)
    ensures q == Skip(t, p)
  {
    q := p;
    while q < |t| && IsSpace(t[q])
      invariant p <= q && Skip(t, p) == Skip(t, q)
      decreases |t| - q
    {
      q := q + 1;
    }
  }

  /** get_quoted_string */
  method ReadQuoted(t: seq<Byte>, p: nat) returns (r: Option<(seq<Byte>, nat)>)
    ensures r == GetQuoted(t, p)
  {
    var end := SkipQuotes(t, p);
    if end.None? {
      return None;
    }
    var len := end.value - p - 2;
    assert At(t, p + 1 + len) == QUOTE;
    var s := ProcessString(t, p + 1, len);
    return match s case None => None case Some(x) => Some((x, end.value));
  }

  // ---------- values read so far ----------

  function Concat(a: Items, b: Items): Items {
    match a
    case NoItem => b
    case Item(v, tail) => Item(v, Concat(tail, b))
  }

  lemma {:induction false} ConcatAssoc(a: Items, b: Items, c: Items)
    ensures Concat(Concat(a, b), c) == Concat(a, Concat(b, c))
    decreases a
  {
    if a.Item? {
      ConcatAssoc(a.tail, b, c);
    }
  }

  /** What the loop returns if it has read the items of acc and the rest gives r. */
  function After(acc: Items, r: Option<(Items, nat)>): Option<(Items, nat)> {
    match r
    case None => None
    case Some(x) => Some((Concat(acc, x.0), x.1))
  }

  lemma {:induction false} AfterOne(acc: Items, v: Value, r: Option<(Items, nat)>)
    ensures After(Concat(acc, Item(v, NoItem)), r)
            == After(acc, match r case None => None case Some(x) => Some((Item(v, x.0), x.1)))
  {
    if r.Some? {
      ConcatAssoc(acc, Item(v, NoItem), r.value.0);
    }
  }

  function ConcatFields(a: Fields, b: Fields): Fields {
    match a
    case NoField => b
    case Field(k, v, rest) => Field(k, v, ConcatFields(rest, b))
  }

  lemma {:induction false} ConcatFieldsAssoc(a: Fields, b: Fields, c: Fields)
    ensures ConcatFields(ConcatFields(a, b), c) == ConcatFields(a, ConcatFields(b, c))
    decreases a
  {
    if a.Field? {
      ConcatFieldsAssoc(a.rest, b, c);
    }
  }

  function AfterFields(acc: Fields, r: Option<(Fields, nat)>): Option<(Fields, nat)> {
    match r
    case None => None
    case Some(x) => Some((ConcatFields(acc, x.0), x.1))
  }

  lemma {:induction false} AfterField(acc: Fields, k: seq<Byte>, v: Value, r: Option<(Fields, nat)>)
    ensures AfterFields(ConcatFields(acc, Field(k, v, NoField)), r)
            == AfterFields(acc, match r case None => None case Some(x) => Some((Field(k, v, x.0), x.1)))
  {
    if r.Some? {
      ConcatFieldsAssoc(acc, Field(k, v, NoField), r.value.0);
    }
  }

  /** json_object_getn_value: whether the object has the key. */
  method HasKey(fields: Fields, key: seq<Byte>) returns (found: bool)
    ensures found <==> key in KeysOf(fields)
  {
    var rest := fields;
    while rest.Field?
      invariant key in KeysOf(fields) <==> key in KeysOf(rest)
      decreases rest
    {
      if rest.key == key {
        return true;
      }
      rest := rest.rest;
    }
    return false;
  }

  lemma {:induction false} KeysMore(a: Fields, k: seq<Byte>, v: Value)
    ensures KeysOf(ConcatFields(a, Field(k, v, NoField))) == KeysOf(a) + {k}
    decreases a
  {
    if a.Field? {
      KeysMore(a.rest, k, v);
    }
  }

  // ---------- the parser ----------

  /** parse_value */
  method ReadValue(nm: Numbers, t: seq<Byte>, p: nat, nesting: nat) returns (r: Option<(Value, nat)>)
    ensures r == Parse(nm, t, p, nesting)
    decreases |t| - p, 2
  {
    hide Skip, GetQuoted, ParseItems, ParseFields, ReadNumber, Here;
    if nesting > MAX_NESTING || p > |t| {
      return None;
    }
    var q := SkipSpaces(t, p);
    var c := At(t, q);
    if c == OPEN_OBJECT {
      r := ReadObject(nm, t, q, nesting + 1);
    } else if c == OPEN_ARRAY {
      r := ReadArray(nm, t, q, nesting + 1);
    } else if c == QUOTE {
      var s := ReadQuoted(t, q);
      r := match s case None => None case Some(x) => Some((Str(x.0), x.1));
    } else if c == FALSE_TEXT[0] || c == TRUE_TEXT[0] {
      r := if Here(t, q, TRUE_TEXT) then Some((Bool(true), q + 4))
           else if Here(t, q, FALSE_TEXT) then Some((Bool(false), q + 5))
           else None;
    } else if StartsNumber(c) {
      var x := ReadNumber(nm, t, q);
      r := match x case None => None case Some(y) => Some((Number(y.0), y.1));
    } else if c == NULL_TEXT[0] {
      r := if Here(t, q, NULL_TEXT) then Some((Null, q + 4)) else None;
    } else {
      r := None;
    }
  }

  /** parse_array_value */
  method ReadArray(nm: Numbers, t: seq<Byte>, p: nat, nesting: nat) returns (r: Option<(Value, nat)>)
    ensures r == ParseArray(nm, t, p, nesting)
    decreases |t| - p, 1
  {
    if p >= |t| {
      return None;
    }
    hide Skip, Parse, ParseItems;
    var q := SkipSpaces(t, p + 1);
    if At(t, q) == CLOSE_ARRAY {
      return Some((Array(NoItem), q + 1));
    }
    var items := ReadItems(nm, t, q, nesting);
    return match items case None => None case Some(x) => Some((Array(x.0), x.1));
  }

  /** One value of an array and what follows it. */
  lemma {:induction false} ItemsAt(nm: Numbers, t: seq<Byte>, p: nat, nesting: nat)
    ensures At(t, p) == 0 || Parse(nm, t, p, nesting).None? ==> ParseItems(nm, t, p, nesting) == None
    ensures At(t, p) != 0 && Parse(nm, t, p, nesting).Some? ==>
              var v := Parse(nm, t, p, nesting).value;
              var q := Skip(t, v.1);
              var next := ParseItems(nm, t, Skip(t, q + 1), nesting);
              ParseItems(nm, t, p, nesting)
              == if At(t, q) == COMMA then (match next case None => None case Some(x) => Some((Item(v.0, x.0), x.1)))
                 else if At(t, q) == CLOSE_ARRAY then Some((Item(v.0, NoItem), q + 1))
                 else None
    ensures Parse(nm, t, p, nesting).Some? ==> p <= Parse(nm, t, p, nesting).value.1 <= |t|
  {
    hide Skip, Parse;
  }

  /** The loop of parse_array_value. */
  method ReadItems(nm: Numbers, t: seq<Byte>, p: nat, nesting: nat) returns (r: Option<(Items, nat)>)
    ensures r == ParseItems(nm, t, p, nesting)
    decreases |t| - p, 3
  {
    hide Skip, Parse, ParseItems, Concat;
    var q, acc := p, NoItem;
    AfterNothing(ParseItems(nm, t, p, nesting));
    while At(t, q) != 0
      invariant p <= q && After(acc, ParseItems(nm, t, q, nesting)) == ParseItems(nm, t, p, nesting)
      decreases |t| - q
    {
      ItemsAt(nm, t, q, nesting);
      var v := ReadValue(nm, t, q, nesting);
      if v.None? {
        return None;
      }
      var c := SkipSpaces(t, v.value.1);
      var next := SkipSpaces(t, c + 1);
      AfterOne(acc, v.value.0, ParseItems(nm, t, next, nesting));
      AfterOne(acc, v.value.0, None);
      AfterLast(acc, v.value.0, c + 1);
      acc := Concat(acc, Item(v.value.0, NoItem));
      if At(t, c) != COMMA {
        return if At(t, c) == CLOSE_ARRAY then Some((acc, c + 1)) else None;
      }
      q := next;
    }
    ItemsAt(nm, t, q, nesting);
    return None;
  }

  lemma {:induction false} AfterNothing(r: Option<(Items, nat)>)
    ensures After(NoItem, r) == r
  {
  }

  lemma {:induction false} AfterLast(acc: Items, v: Value, end: nat)
    ensures After(acc, Some((Item(v, NoItem), end))) == Some((Concat(acc, Item(v, NoItem)), end))
  {
  }

  /** parse_object_value */
  method ReadObject(nm: Numbers, t: seq<Byte>, p: nat, nesting: nat) returns (r: Option<(Value, nat)>)
    ensures r == ParseObject(nm, t, p, nesting)
    decreases |t| - p, 1
  {
    if p >= |t| {
      return None;
    }
    hide Skip, Parse, ParseFields;
    var q := SkipSpaces(t, p + 1);
    if At(t, q) == CLOSE_OBJECT {
      return Some((Object(NoField), q + 1));
    }
    var fields := ReadFields(nm, t, q, nesting);
    return match fields case None => None case Some(x) => Some((Object(x.0), x.1));
  }

  /** One field: its key, its value and what follows. */
  method ReadField(nm: Numbers, t: seq<Byte>, p: nat, nesting: nat, acc: Fields, ghost p0: nat)
    returns (r: Option<(seq<Byte>, Value, nat)>)
    requires At(t, p) != 0 && p0 <= p
    ensures r == FieldAt(nm, t, p, nesting, KeysOf(acc))
    decreases |t| - p0, 2
  {
    hide Skip, Parse, GetQuoted, KeysOf;
    var key := ReadQuoted(t, p);
    if key.None? || 0 in key.value.0 {
      return None;
    }
    var c := SkipSpaces(t, key.value.1);
    if At(t, c) != COLON {
      return None;
    }
    var v := ReadValue(nm, t, c + 1, nesting);
    if v.None? {
      return None;
    }
    var found := HasKey(acc, key.value.0);
    if found {
      return None;
    }
    return Some((key.value.0, v.value.0, v.value.1));
  }

  /** The field at a position, if it can be added. */
  function FieldAt(nm: Numbers, t: seq<Byte>, p: nat, nesting: nat,
                   seen: set<seq<Byte>>): (r: Option<(seq<Byte>, Value, nat)>)
    ensures r.Some? ==> p < r.value.2 <= |t|
  {
    match GetQuoted(t, p)
    case None => None
    case Some(key) =>
      var c := Skip(t, key.1);
      if 0 in key.0 || At(t, c) != COLON then None
      else
        match Parse(nm, t, c + 1, nesting)
        case None => None
        case Some(v) => if key.0 in seen then None else Some((key.0, v.0, v.1))
  }

  /** One field of an object and what follows it. */
  lemma {:induction false} FieldsAt(nm: Numbers, t: seq<Byte>, p: nat, nesting: nat, seen: set<seq<Byte>>)
    ensures At(t, p) == 0 || FieldAt(nm, t, p, nesting, seen).None? ==> ParseFields(nm, t, p, nesting, seen) == None
    ensures At(t, p) != 0 && FieldAt(nm, t, p, nesting, seen).Some? ==>
              var f := FieldAt(nm, t, p, nesting, seen).value;
              var q := Skip(t, f.2);
              var next := ParseFields(nm, t, Skip(t, q + 1), nesting, seen + {f.0});
              ParseFields(nm, t, p, nesting, seen)
              == if At(t, q) == COMMA then
                   (match next case None => None case Some(x) => Some((Field(f.0, f.1, x.0), x.1)))
                 else if At(t, q) == CLOSE_OBJECT then Some((Field(f.0, f.1, NoField), q + 1))
                 else None
  {
    hide Skip, Parse, GetQuoted;
  }

  /** The loop of parse_object_value. */
  method ReadFields(nm: Numbers, t: seq<Byte>, p: nat, nesting: nat) returns (r: Option<(Fields, nat)>)
    ensures r == ParseFields(nm, t, p, nesting, {})
    decreases |t| - p, 3
  {
    hide Skip, Parse, ParseFields, ConcatFields, FieldAt;
    var q, acc := p, NoField;
    NoFieldsYet(ParseFields(nm, t, p, nesting, {}));
    while At(t, q) != 0
      invariant p <= q
      invariant AfterFields(acc, ParseFields(nm, t, q, nesting, KeysOf(acc))) == ParseFields(nm, t, p, nesting, {})
      decreases |t| - q
    {
      FieldsAt(nm, t, q, nesting, KeysOf(acc));
      var f := ReadField(nm, t, q, nesting, acc, p);
      if f.None? {
        return None;
      }
      var (key, v, end) := f.value;
      var c := SkipSpaces(t, end);
      var next := SkipSpaces(t, c + 1);
      KeysMore(acc, key, v);
      AfterField(acc, key, v, ParseFields(nm, t, next, nesting, KeysOf(acc) + {key}));
      LastField(acc, key, v, c + 1);
      acc := ConcatFields(acc, Field(key, v, NoField));
      if At(t, c) != COMMA {
        return if At(t, c) == CLOSE_OBJECT then Some((acc, c + 1)) else None;
      }
      q := next;
    }
    FieldsAt(nm, t, q, nesting, KeysOf(acc));
    return None;
  }

  lemma {:induction false} NoFieldsYet(r: Option<(Fields, nat)>)
    ensures AfterFields(NoField, r) == r && KeysOf(NoField) == {}
  {
  }

  lemma {:induction false} LastField(acc: Fields, k: seq<Byte>, v: Value, end: nat)
    ensures AfterFields(acc, Some((Field(k, v, NoField), end))) == Some((ConcatFields(acc, Field(k, v, NoField)), end))
  {
  }

  // ---------- whole texts ----------

  predicate ByteOrderMark(t: seq<Byte>) {
    At(t, 0) == 0xEF && At(t, 1) == 0xBB && At(t, 2) == 0xBF
  }

  /** json_parse_string: a byte order mark is skipped, and what follows the value is ignored. */
  method ParseString(nm: Numbers, t: seq<Byte>) returns (v: Option<Value>)
    ensures var marked := |t| >= 3 && t[0] == 0xEF && t[1] == 0xBB && t[2] == 0xBF;
            v == match Parse(nm, t, if marked then 3 else 0, 0) case None => None case Some(x) => Some(x.0)
  {
    hide Parse;
    var r := ReadValue(nm, t, if ByteOrderMark(t) then 3 else 0, 0);
    return match r case None => None case Some(x) => Some(x.0);
  }

  /** Printed text has no byte order mark, so it parses to the value it was printed from. */
  lemma {:induction false} PrintedHasNoMark(st: Style, v: Value)
    requires NumbersOk(st.numbers)
    ensures !ByteOrderMark(Print(st, v, 0))
  {
    var t := Print(st, v, 0);
    if v.Number? {
      assert StartsNumber(st.numbers.show(v.n)[0]);
    }
    if v.Str? {
      assert PrintString(v.s, st.slashes)[0] == QUOTE;
    }
  }
}
