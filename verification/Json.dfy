/** JSON values: printing, parsing, and that one undoes the other. */
module Json {
  import opened Wrappers
  import opened Event
  import opened JsonString

  /** Arrays and objects keep their members in order. Numbers stand for doubles. */
  datatype Value =
    | Null
    | Bool(b: bool)
    | Number(n: int)
    | Str(s: seq<Byte>)
    | Array(items: Items)
    | Object(fields: Fields)

  datatype Items = NoItem | Item(head: Value, tail: Items)
  datatype Fields = NoField | Field(key: seq<Byte>, val: Value, rest: Fields)

  /** How numbers are written and read: their text is not modelled. */
  datatype Numbers = Numbers(show: int -> seq<Byte>, read: (seq<Byte>, nat) -> Option<(int, nat)>)

  const MAX_NESTING := 2048

  const COMMA: Byte := 0x2C
  const COLON: Byte := 0x3A
  const OPEN_ARRAY: Byte := 0x5B
  const CLOSE_ARRAY: Byte := 0x5D
  const OPEN_OBJECT: Byte := 0x7B
  const CLOSE_OBJECT: Byte := 0x7D
  const NEWLINE: Byte := 0x0A
  const SPACE: Byte := 0x20
  const STAR: Byte := 0x2A

  const NULL_TEXT: seq<Byte> := [0x6E, 0x75, 0x6C, 0x6C]
  const TRUE_TEXT: seq<Byte> := [0x74, 0x72, 0x75, 0x65]
  const FALSE_TEXT: seq<Byte> := [0x66, 0x61, 0x6C, 0x73, 0x65]

  // ---------- printing ----------

  datatype Style = Style(pretty: bool, slashes: bool, numbers: Numbers)

  /** append_indent */
  function Indent(level: nat): seq<Byte> {
    seq<Byte>(4 * level, (i: nat) => SPACE)
  }

  function IfPretty(st: Style, s: seq<Byte>): seq<Byte> {
    if st.pretty then s else []
  }

  /** json_serialize_to_buffer_r */
  function Print(st: Style, v: Value, level: nat): seq<Byte> {
    match v
    case Null => NULL_TEXT
    case Bool(b) => if b then TRUE_TEXT else FALSE_TEXT
    case Number(n) => st.numbers.show(n)
    case Str(s) => PrintString(s, st.slashes)
    case Array(items) =>
      if items.NoItem? then [OPEN_ARRAY] + [CLOSE_ARRAY]
      else Cat3([OPEN_ARRAY], IfPretty(st, [NEWLINE]), PrintItems(st, items, level))
    case Object(fields) =>
      if fields.NoField? then [OPEN_OBJECT] + [CLOSE_OBJECT]
      else Cat3([OPEN_OBJECT], IfPretty(st, [NEWLINE]), PrintFields(st, fields, level))
  }

  /** The loop over the items of an array at the given level, and the end of the array. */
  function PrintItems(st: Style, items: Items, level: nat): seq<Byte> {
    match items
    case NoItem => IfPretty(st, Indent(level)) + [CLOSE_ARRAY]
    case Item(v, tail) =>
      ListText(st, level, Print(st, v, level + 1), tail.Item?, PrintItems(st, tail, level))
  }

  /** The loop over the fields of an object at the given level, and the end of the object. */
  function PrintFields(st: Style, fields: Fields, level: nat): seq<Byte> {
    match fields
    case NoField => IfPretty(st, Indent(level)) + [CLOSE_OBJECT]
    case Field(key, v, rest) =>
      ListText(st, level, FieldText(st, key, Print(st, v, level + 1)), rest.Field?, PrintFields(st, rest, level))
  }

  function FieldText(st: Style, key: seq<Byte>, x: seq<Byte>): seq<Byte> {
    Cat4(PrintString(key, st.slashes), [COLON], IfPretty(st, [SPACE]), x)
  }

  /** A member of an array or object at the given level, and what follows it. */
  function ListText(st: Style, level: nat, head: seq<Byte>, more: bool, rest: seq<Byte>): seq<Byte> {
    IfPretty(st, Indent(level + 1)) + Cat4(head, Separator(more), IfPretty(st, [NEWLINE]), rest)
  }

  function Cat3(a: seq<Byte>, b: seq<Byte>, c: seq<Byte>): (r: seq<Byte>)
    ensures |r| == |a| + |b| + |c|
  {
    a + (b + c)
  }

  function Cat4(a: seq<Byte>, b: seq<Byte>, c: seq<Byte>, d: seq<Byte>): (r: seq<Byte>)
    ensures |r| == |a| + |b| + |c| + |d|
  {
    a + (b + (c + d))
  }

  function Separator(more: bool): seq<Byte> {
    if more then [COMMA] else []
  }

  // ---------- parsing ----------

  /** isspace */
  predicate IsSpace(c: Byte) {
    c == 0x20 || 0x09 <= c <= 0x0D
  }

  /** SKIP_WHITESPACES */
  function Skip(t: seq<Byte>, p: nat): (q: nat)
    ensures p <= q && (p <= |t| ==> q <= |t|) && !IsSpace(At(t, q))
    decreases |t| - p
  {
    if p < |t| && IsSpace(t[p]) then Skip(t, p + 1) else p
  }

  /** parse_number_value, by strtod, which stays within the text */
  function ReadNumber(nm: Numbers, t: seq<Byte>, p: nat): (r: Option<(int, nat)>)
    ensures r.Some? ==> p <= r.value.1 <= |t|
  {
    match nm.read(t, p)
    case None => None
    case Some(x) => if p <= x.1 <= |t| then Some(x) else None
  }

  predicate StartsNumber(c: Byte) {
    c == 0x2D || 0x30 <= c <= 0x39
  }

  function KeysOf(fields: Fields): set<seq<Byte>> {
    match fields
    case NoField => {}
    case Field(k, _, rest) => {k} + KeysOf(rest)
  }

  /** parse_value: the value at position p and the position after it. */
  function Parse(nm: Numbers, t: seq<Byte>, p: nat, nesting: nat): (r: Option<(Value, nat)>)
    ensures r.Some? ==> p <= r.value.1 <= |t|
    decreases |t| - p, 2
  {
    if nesting > MAX_NESTING || p > |t| then None
    else
      var q := Skip(t, p);
      var c := At(t, q);
      if c == OPEN_OBJECT then ParseObject(nm, t, q, nesting + 1)
      else if c == OPEN_ARRAY then ParseArray(nm, t, q, nesting + 1)
      else if c == QUOTE then
        (match GetQuoted(t, q) case None => None case Some(s) => Some((Str(s.0), s.1)))
      else if c == FALSE_TEXT[0] || c == TRUE_TEXT[0] then
        (if Here(t, q, TRUE_TEXT) then Some((Bool(true), q + 4))
         else if Here(t, q, FALSE_TEXT) then Some((Bool(false), q + 5))
         else None)
      else if StartsNumber(c) then
        (match ReadNumber(nm, t, q) case None => None case Some(x) => Some((Number(x.0), x.1)))
      else if c == NULL_TEXT[0] then (if Here(t, q, NULL_TEXT) then Some((Null, q + 4)) else None)
      else None
  }

  /** parse_array_value */
  function ParseArray(nm: Numbers, t: seq<Byte>, p: nat, nesting: nat): (r: Option<(Value, nat)>)
    ensures r.Some? ==> p <= r.value.1 <= |t|
    decreases |t| - p, 1
  {
    var q := Skip(t, p + 1);
    if p >= |t| then None
    else if At(t, q) == CLOSE_ARRAY then Some((Array(NoItem), q + 1))
    else
      match ParseItems(nm, t, q, nesting)
      case None => None
      case Some(r) => Some((Array(r.0), r.1))
  }

  /** The loop of parse_array_value. */
  function ParseItems(nm: Numbers, t: seq<Byte>, p: nat, nesting: nat): (r: Option<(Items, nat)>)
    ensures r.Some? ==> p <= r.value.1 <= |t|
    decreases |t| - p, 3
  {
    if At(t, p) == 0 then None
    else
      match Parse(nm, t, p, nesting)
      case None => None
      case Some(v) =>
        var q := Skip(t, v.1);
        if At(t, q) == COMMA then
          (match ParseItems(nm, t, Skip(t, q + 1), nesting)
           case None => None
           case Some(r) => Some((Item(v.0, r.0), r.1)))
        else if At(t, q) == CLOSE_ARRAY then Some((Item(v.0, NoItem), q + 1))
        else None
  }

  /** parse_object_value */
  function ParseObject(nm: Numbers, t: seq<Byte>, p: nat, nesting: nat): (r: Option<(Value, nat)>)
    ensures r.Some? ==> p <= r.value.1 <= |t|
    decreases |t| - p, 1
  {
    var q := Skip(t, p + 1);
    if p >= |t| then None
    else if At(t, q) == CLOSE_OBJECT then Some((Object(NoField), q + 1))
    else
      match ParseFields(nm, t, q, nesting, {})
      case None => None
      case Some(r) => Some((Object(r.0), r.1))
  }

  /** The loop of parse_object_value; seen are the keys so far. */
  function ParseFields(nm: Numbers, t: seq<Byte>, p: nat, nesting: nat,
                       seen: set<seq<Byte>>): (r: Option<(Fields, nat)>)
    ensures r.Some? ==> p <= r.value.1 <= |t|
    decreases |t| - p, 3
  {
    if At(t, p) == 0 then None
    else
      match GetQuoted(t, p)
      case None => None
      case Some(key) =>
        var c := Skip(t, key.1);
        if 0 in key.0 || At(t, c) != COLON then None
        else
          match Parse(nm, t, c + 1, nesting)
          case None => None
          case Some(v) =>
            var q := Skip(t, v.1);
            if key.0 in seen then None
            else if At(t, q) == COMMA then
              (match ParseFields(nm, t, Skip(t, q + 1), nesting, seen + {key.0})
               case None => None
               case Some(r) => Some((Field(key.0, v.0, r.0), r.1)))
            else if At(t, q) == CLOSE_OBJECT then Some((Field(key.0, v.0, NoField), q + 1))
            else None
  }

  // ---------- what can be printed and read back ----------

  /** How deep arrays and objects nest around the innermost value. */
  function Depth(v: Value): nat {
    match v
    case Array(items) => DepthItems(items)
    case Object(fields) => DepthFields(fields)
    case _ => 0
  }

  function DepthItems(items: Items): nat {
    match items
    case NoItem => 0
    case Item(v, tail) => Max(1 + Depth(v), DepthItems(tail))
  }

  function DepthFields(fields: Fields): nat {
    match fields
    case NoField => 0
    case Field(_, v, rest) => Max(1 + Depth(v), DepthFields(rest))
  }

  function Max(a: nat, b: nat): nat {
    if a < b then b else a
  }

  /** Objects have distinct keys with no zero byte. */
  predicate WellKeyed(v: Value) {
    match v
    case Array(items) => WellKeyedItems(items)
    case Object(fields) => WellKeyedFields(fields)
    case _ => true
  }

  predicate WellKeyedItems(items: Items) {
    match items
    case NoItem => true
    case Item(v, tail) => WellKeyed(v) && WellKeyedItems(tail)
  }

  predicate WellKeyedFields(fields: Fields) {
    match fields
    case NoField => true
    case Field(k, v, rest) => 0 !in k && k !in KeysOf(rest) && WellKeyed(v) && WellKeyedFields(rest)
  }

  /** What may follow a number in printed text. */
  predicate Delimiter(c: Byte) {
    c == COMMA || c == CLOSE_ARRAY || c == CLOSE_OBJECT || c == NEWLINE || c == 0
  }

  predicate ReadsAs(nm: Numbers, t: seq<Byte>, p: nat, n: int, end: nat) {
    nm.read(t, p) == Some((n, end))
  }

  /** Numbers are written so that they can be read back, and without quotes or slashes. */
  ghost predicate NumbersOk(nm: Numbers) {
    && (forall n :: nm.show(n) != [] && StartsNumber(nm.show(n)[0]))
    && (forall n, i :: 0 <= i < |nm.show(n)| ==>
          nm.show(n)[i] != QUOTE && nm.show(n)[i] != BACKSLASH && nm.show(n)[i] != SLASH && nm.show(n)[i] != 0)
    && (forall t, p: nat, n :: Here(t, p, nm.show(n)) && Delimiter(At(t, p + |nm.show(n)|)) ==>
          ReadsAs(nm, t, p, n, p + |nm.show(n)|))
  }

  // ---------- reading back what was printed ----------

  predicate AllSpaces(s: seq<Byte>) {
    forall i :: 0 <= i < |s| ==> IsSpace(s[i])
  }

  lemma {:induction false} SkipOver(t: seq<Byte>, p: nat, s: seq<Byte>)
    requires Here(t, p, s) && AllSpaces(s)
    ensures Skip(t, p) == Skip(t, p + |s|)
    decreases |s|
  {
    if s != [] {
      HereAt(t, p, s, 0);
      assert s == [s[0]] + s[1..];
      HereSplit(t, p, [s[0]], s[1..]);
      SkipOver(t, p + 1, s[1..]);
    }
  }

  lemma {:induction false} SpacesIf(st: Style, level: nat)
    ensures AllSpaces(IfPretty(st, Indent(level))) && AllSpaces(IfPretty(st, [NEWLINE]))
            && AllSpaces(IfPretty(st, [SPACE]))
  {
  }

  /** How printed text begins. */
  predicate Begins(c: Byte) {
    !IsSpace(c) && c != 0 && c != CLOSE_ARRAY && c != CLOSE_OBJECT && c != COMMA
  }

  predicate BeginsText(s: seq<Byte>) {
    s != [] && Begins(s[0])
  }

  lemma {:induction false} PrintBegins(st: Style, v: Value, level: nat)
    ensures NumbersOk(st.numbers) ==> BeginsText(Print(st, v, level))
  {
    if NumbersOk(st.numbers) {
      match v {
        case Number(n) => assert StartsNumber(st.numbers.show(n)[0]);
        case Str(s) => assert PrintString(s, st.slashes)[0] == QUOTE;
        case _ =>
      }
    }
  }

  lemma {:induction false} Split2(t: seq<Byte>, p: nat, a: seq<Byte>, b: seq<Byte>)
    ensures Here(t, p, a + b) ==> Here(t, p, a) && Here(t, p + |a|, b)
  {
    if Here(t, p, a + b) {
      HereSplit(t, p, a, b);
    }
  }

  lemma {:induction false} Split3(t: seq<Byte>, p: nat, a: seq<Byte>, b: seq<Byte>, c: seq<Byte>)
    ensures Here(t, p, Cat3(a, b, c)) ==> Here(t, p, a) && Here(t, p + |a|, b) && Here(t, p + |a| + |b|, c)
  {
    assert Cat3(a, b, c) == a + (b + c);
    hide Here, Cat3;
    Split2(t, p, a, b + c);
    Split2(t, p + |a|, b, c);
  }

  lemma {:induction false} Split4(t: seq<Byte>, p: nat, a: seq<Byte>, b: seq<Byte>, c: seq<Byte>, d: seq<Byte>)
    ensures Here(t, p, Cat4(a, b, c, d)) ==>
              && Here(t, p, a) && Here(t, p + |a|, b) && Here(t, p + |a| + |b|, c) && Here(t, p + |a| + |b| + |c|, d)
  {
    assert Cat4(a, b, c, d) == a + (b + (c + d));
    hide Here, Cat4;
    Split2(t, p, a, b + (c + d));
    Split2(t, p + |a|, b, c + d);
    Split2(t, p + |a| + |b|, c, d);
  }

  /** The text after a value inside an array or object, if there is more: a comma, spaces,
      and the rest. */
  lemma {:induction false} RestMore(t: seq<Byte>, a: nat, n: seq<Byte>)
    ensures Here(t, a, [COMMA]) && Here(t, a + 1, n) && AllSpaces(n) ==>
              At(t, a) == COMMA && Skip(t, a) == a && Skip(t, a + 1) == Skip(t, a + 1 + |n|)
  {
    if Here(t, a, [COMMA]) && Here(t, a + 1, n) && AllSpaces(n) {
      HereAt(t, a, [COMMA], 0);
      SkipOver(t, a + 1, n);
    }
  }

  /** If there is no more: spaces and the closing bracket. */
  lemma {:induction false} RestLast(st: Style, t: seq<Byte>, a: nat, level: nat, close: Byte)
    ensures var n, w := IfPretty(st, [NEWLINE]), IfPretty(st, Indent(level));
            Here(t, a, n) && Here(t, a + |n|, w + [close]) && (close == CLOSE_ARRAY || close == CLOSE_OBJECT) ==>
              Delimiter(At(t, a)) && Skip(t, a) == a + |n| + |w| && At(t, a + |n| + |w|) == close
  {
    var n, w := IfPretty(st, [NEWLINE]), IfPretty(st, Indent(level));
    if Here(t, a, n) && Here(t, a + |n|, w + [close]) && (close == CLOSE_ARRAY || close == CLOSE_OBJECT) {
      SpacesIf(st, 0);
      SkipOver(t, a, n);
      AtClose(st, t, a + |n|, level, close);
      if st.pretty {
        HereAt(t, a, n, 0);
      }
    }
  }

  lemma {:induction false} HereWithin(t: seq<Byte>, p: nat, s: seq<Byte>)
    ensures Here(t, p, s) ==> p + |s| <= |t|
  {
  }

  /** The end of an array: spaces, then the bracket. */
  lemma {:induction false} AtClose(st: Style, t: seq<Byte>, p: nat, level: nat, close: Byte)
    requires Here(t, p, IfPretty(st, Indent(level)) + [close]) && !IsSpace(close)
    ensures var q := p + |IfPretty(st, Indent(level))|; q + 1 <= |t| && Skip(t, p) == q && At(t, q) == close
  {
    var w := IfPretty(st, Indent(level));
    HereSplit(t, p, w, [close]);
    SpacesIf(st, level);
    SkipOver(t, p, w);
    HereAt(t, p + |w|, [close], 0);
  }

  /** Where the first member of a printed list begins, and where the rest does. */
  function HeadAt(st: Style, level: nat, p: nat): nat {
    p + |IfPretty(st, Indent(level + 1))|
  }

  function RestAt(st: Style, level: nat, p: nat, head: seq<Byte>, more: bool): nat {
    HeadAt(st, level, p) + |head| + |Separator(more)| + |IfPretty(st, [NEWLINE])|
  }

  /** A member of a list begins at i, after spaces from p on; it ends at a. If there is more,
      a comma follows and the next member begins after spaces from b on; if not, the closing
      bracket follows after spaces and ends the list at end. */
  ghost predicate Laid(t: seq<Byte>, p: nat, i: nat, a: nat, b: nat, end: nat, more: bool, close: Byte) {
    && Skip(t, p) == i && Skip(t, i) == i && At(t, i) != 0 && At(t, i) != CLOSE_ARRAY && At(t, i) != CLOSE_OBJECT
    && Delimiter(At(t, a)) && 0 < end <= |t|
    && (more ==> At(t, a) == COMMA && Skip(t, a) == a && Skip(t, a + 1) == Skip(t, b))
    && (!more ==> Skip(t, a) == end - 1 && At(t, end - 1) == close)
  }

  // What the lemmas below say of each other, as predicates without their bodies.

  /** Value v can be read back at this nesting. */
  ghost predicate Readable(st: Style, v: Value, nesting: nat) {
    NumbersOk(st.numbers) && WellKeyed(v) && nesting + Depth(v) <= MAX_NESTING
  }

  ghost predicate ItemsReadable(st: Style, items: Items, nesting: nat) {
    NumbersOk(st.numbers) && WellKeyedItems(items) && nesting > 0 && nesting - 1 + DepthItems(items) <= MAX_NESTING
  }

  ghost predicate FieldsReadable(st: Style, fields: Fields, nesting: nat) {
    NumbersOk(st.numbers) && WellKeyedFields(fields) && nesting > 0 && nesting - 1 + DepthFields(fields) <= MAX_NESTING
  }

  /** The printed text of v stands at p, and what follows may follow a value. */
  ghost predicate Printed(st: Style, v: Value, level: nat, t: seq<Byte>, p: nat) {
    Here(t, p, Print(st, v, level)) && Delimiter(At(t, p + |Print(st, v, level)|))
  }

  ghost predicate ItemsPrinted(st: Style, items: Items, level: nat, t: seq<Byte>, p: nat) {
    items.Item? && Here(t, p, PrintItems(st, items, level))
  }

  ghost predicate FieldsPrinted(st: Style, fields: Fields, level: nat, t: seq<Byte>, p: nat) {
    fields.Field? && Here(t, p, PrintFields(st, fields, level))
  }

  /** Parsing at p gives v and ends right after its text. */
  ghost predicate Reads(st: Style, v: Value, level: nat, t: seq<Byte>, p: nat, nesting: nat) {
    Parse(st.numbers, t, p, nesting) == Some((v, p + |Print(st, v, level)|))
  }

  ghost predicate ItemsRead(st: Style, items: Items, level: nat, t: seq<Byte>, p: nat, nesting: nat) {
    ParseItems(st.numbers, t, Skip(t, p), nesting) == Some((items, p + |PrintItems(st, items, level)|))
  }

  ghost predicate FieldsRead(st: Style, fields: Fields, level: nat, t: seq<Byte>, p: nat, nesting: nat,
                             seen: set<seq<Byte>>) {
    KeysOf(fields) !! seen ==>
      ParseFields(st.numbers, t, Skip(t, p), nesting, seen) == Some((fields, p + |PrintFields(st, fields, level)|))
  }

  lemma {:induction false} BeginsNow(t: seq<Byte>, i: nat)
    ensures Begins(At(t, i)) ==> Skip(t, i) == i && At(t, i) != 0 && At(t, i) != CLOSE_ARRAY && At(t, i) != CLOSE_OBJECT
  {
  }

  /** Spaces, then the beginning of something. */
  lemma {:induction false} Lead(t: seq<Byte>, p: nat, w: seq<Byte>, x: seq<Byte>)
    ensures Here(t, p, w) && AllSpaces(w) && Here(t, p + |w|, x) && BeginsText(x) ==>
              && Skip(t, p) == p + |w| && Skip(t, p + |w|) == p + |w|
              && At(t, p + |w|) == x[0] && At(t, p + |w|) != 0 && At(t, p + |w|) != CLOSE_ARRAY
                 && At(t, p + |w|) != CLOSE_OBJECT
  {
    if Here(t, p, w) && AllSpaces(w) && Here(t, p + |w|, x) && x != [] {
      SkipOver(t, p, w);
      HereAt(t, p + |w|, x, 0);
      BeginsNow(t, p + |w|);
    }
  }

  /** The five parts of a printed member, one after the other. */
  ghost predicate Parts(t: seq<Byte>, p: nat, w: seq<Byte>, x: seq<Byte>, s: seq<Byte>, n: seq<Byte>, rest: seq<Byte>) {
    && Here(t, p, w) && Here(t, p + |w|, x) && Here(t, p + |w| + |x|, s)
    && Here(t, p + |w| + |x| + |s|, n) && Here(t, p + |w| + |x| + |s| + |n|, rest)
  }

  lemma {:induction false} ListSplit(st: Style, level: nat, t: seq<Byte>, p: nat, head: seq<Byte>, more: bool,
                                     rest: seq<Byte>)
    ensures Here(t, p, ListText(st, level, head, more, rest)) ==>
              Parts(t, p, IfPretty(st, Indent(level + 1)), head, Separator(more), IfPretty(st, [NEWLINE]), rest)
    ensures p + |ListText(st, level, head, more, rest)| == RestAt(st, level, p, head, more) + |rest|
  {
    var text := Cat4(head, Separator(more), IfPretty(st, [NEWLINE]), rest);
    hide Indent, IfPretty, Separator, Here, Cat4;
    Split2(t, p, IfPretty(st, Indent(level + 1)), text);
    Split4(t, HeadAt(st, level, p), head, Separator(more), IfPretty(st, [NEWLINE]), rest);
  }

  /** How the text after a member of a list ends it. */
  ghost predicate RestIs(st: Style, level: nat, more: bool, close: Byte, rest: seq<Byte>) {
    rest != [] && (!more ==> rest == IfPretty(st, Indent(level)) + [close])
  }

  lemma {:induction false} MemberMore(st: Style, t: seq<Byte>, p: nat, w: seq<Byte>, x: seq<Byte>, rest: seq<Byte>,
                                      close: Byte)
    requires var n := IfPretty(st, [NEWLINE]); Parts(t, p, w, x, Separator(true), n, rest) && rest != []
    requires AllSpaces(w) && BeginsText(x)
    ensures var b := p + |w| + |x| + 1 + |IfPretty(st, [NEWLINE])|;
            Laid(t, p, p + |w|, p + |w| + |x|, b, b + |rest|, true, close)
  {
    var n := IfPretty(st, [NEWLINE]);
    var a := p + |w| + |x|;
    SpacesIf(st, 0);
    hide IfPretty, AllSpaces, Skip, At, Here, BeginsText;
    Lead(t, p, w, x);
    HereWithin(t, a + 1 + |n|, rest);
    RestMore(t, a, n);
  }

  lemma {:induction false} MemberLast(st: Style, t: seq<Byte>, p: nat, w: seq<Byte>, x: seq<Byte>, rest: seq<Byte>,
                                      level: nat, close: Byte)
    requires var n := IfPretty(st, [NEWLINE]); Parts(t, p, w, x, Separator(false), n, rest)
    requires AllSpaces(w) && BeginsText(x) && rest == IfPretty(st, Indent(level)) + [close]
    requires close == CLOSE_ARRAY || close == CLOSE_OBJECT
    ensures var b := p + |w| + |x| + |IfPretty(st, [NEWLINE])|;
            Laid(t, p, p + |w|, p + |w| + |x|, b, b + |rest|, false, close)
  {
    var n := IfPretty(st, [NEWLINE]);
    var a := p + |w| + |x|;
    hide Indent, IfPretty, AllSpaces, Skip, At, Here, BeginsText, Delimiter;
    Lead(t, p, w, x);
    HereWithin(t, a + |n|, rest);
    RestLast(st, t, a, level, close);
  }

  /** Where everything is in a printed list with its first member. */
  ghost predicate ListParts(st: Style, level: nat, t: seq<Byte>, p: nat, head: seq<Byte>, more: bool, rest: seq<Byte>,
                            close: Byte) {
    var i, b := HeadAt(st, level, p), RestAt(st, level, p, head, more);
    && Here(t, i, head) && Here(t, b, rest)
    && p + |ListText(st, level, head, more, rest)| == b + |rest|
    && Laid(t, p, i, i + |head|, b, b + |rest|, more, close)
  }

  lemma {:induction false} ListAssembled(st: Style, level: nat, t: seq<Byte>, p: nat, head: seq<Byte>, more: bool,
                                         rest: seq<Byte>, close: Byte)
    requires Parts(t, p, IfPretty(st, Indent(level + 1)), head, Separator(more), IfPretty(st, [NEWLINE]), rest)
    requires AllSpaces(IfPretty(st, Indent(level + 1))) && BeginsText(head) && RestIs(st, level, more, close, rest)
    requires close == CLOSE_ARRAY || close == CLOSE_OBJECT
    requires p + |ListText(st, level, head, more, rest)| == RestAt(st, level, p, head, more) + |rest|
    ensures ListParts(st, level, t, p, head, more, rest, close)
  {
    hide Indent, IfPretty, BeginsText, AllSpaces, Here, Laid, ListText;
    if more {
      MemberMore(st, t, p, IfPretty(st, Indent(level + 1)), head, rest, close);
    } else {
      MemberLast(st, t, p, IfPretty(st, Indent(level + 1)), head, rest, level, close);
    }
  }

  lemma {:induction false} ListLayout(st: Style, level: nat, t: seq<Byte>, p: nat, head: seq<Byte>, more: bool,
                                      rest: seq<Byte>, close: Byte)
    ensures Here(t, p, ListText(st, level, head, more, rest)) && BeginsText(head)
            && RestIs(st, level, more, close, rest)
            && (close == CLOSE_ARRAY || close == CLOSE_OBJECT)
            ==> ListParts(st, level, t, p, head, more, rest, close)
  {
    hide *;
    ListSplit(st, level, t, p, head, more, rest);
    SpacesIf(st, level + 1);
    if Here(t, p, ListText(st, level, head, more, rest)) && BeginsText(head) && RestIs(st, level, more, close, rest)
       && (close == CLOSE_ARRAY || close == CLOSE_OBJECT)
    {
      ListAssembled(st, level, t, p, head, more, rest, close);
    }
  }

  // ----- arrays -----

  lemma {:induction false} ItemsRest(st: Style, items: Items, level: nat)
    ensures NumbersOk(st.numbers) ==> RestIs(st, level, items.Item?, CLOSE_ARRAY, PrintItems(st, items, level))
  {
    if items.Item? {
      PrintBegins(st, items.head, level + 1);
      assert |PrintItems(st, items, level)| >= |Print(st, items.head, level + 1)|;
    }
  }

  ghost predicate ItemParts(st: Style, items: Items, level: nat, t: seq<Byte>, p: nat) {
    items.Item? &&
    ListParts(st, level, t, p, Print(st, items.head, level + 1), items.tail.Item?, PrintItems(st, items.tail, level),
              CLOSE_ARRAY)
  }

  function ItemsRestAt(st: Style, items: Items, level: nat, p: nat): nat {
    if items.NoItem? then p else RestAt(st, level, p, Print(st, items.head, level + 1), items.tail.Item?)
  }

  lemma {:induction false} ItemLayout(st: Style, items: Items, level: nat, t: seq<Byte>, p: nat)
    ensures NumbersOk(st.numbers) && ItemsPrinted(st, items, level, t, p) ==> ItemParts(st, items, level, t, p)
  {
    hide Print, NumbersOk, Here, ListParts, RestIs, ListText, BeginsText;
    if items.Item? {
      PrintBegins(st, items.head, level + 1);
      ItemsRest(st, items.tail, level);
      ListLayout(st, level, t, p, Print(st, items.head, level + 1), items.tail.Item?,
                 PrintItems(st, items.tail, level), CLOSE_ARRAY);
    }
  }

  lemma {:induction false} ReadableItem(st: Style, items: Items, nesting: nat)
    ensures ItemsReadable(st, items, nesting) && items.Item? ==>
              Readable(st, items.head, nesting) && (items.tail.Item? ==> ItemsReadable(st, items.tail, nesting))
  {
    hide NumbersOk;
  }

  lemma {:induction false} PartsPrinted(st: Style, items: Items, level: nat, t: seq<Byte>, p: nat)
    ensures ItemParts(st, items, level, t, p) ==>
              && items.Item? && Printed(st, items.head, level + 1, t, HeadAt(st, level, p))
              && (items.tail.Item? ==> ItemsPrinted(st, items.tail, level, t, ItemsRestAt(st, items, level, p)))
  {
    hide Print, PrintItems, Here, Skip, At, Delimiter, HeadAt, RestAt, ListText;
  }

  lemma {:induction false} ItemPremises(st: Style, items: Items, level: nat, t: seq<Byte>, p: nat, nesting: nat)
    ensures ItemsReadable(st, items, nesting) && ItemsPrinted(st, items, level, t, p) ==>
              && ItemParts(st, items, level, t, p) && items.Item?
              && Readable(st, items.head, nesting) && Printed(st, items.head, level + 1, t, HeadAt(st, level, p))
              && (items.tail.Item? ==> ItemsReadable(st, items.tail, nesting)
                                       && ItemsPrinted(st, items.tail, level, t, ItemsRestAt(st, items, level, p)))
  {
    assert ItemsReadable(st, items, nesting) ==> NumbersOk(st.numbers);
    hide *;
    ItemLayout(st, items, level, t, p);
    PartsPrinted(st, items, level, t, p);
    ReadableItem(st, items, nesting);
  }

  /** One round of the loop of parse_array_value. */
  lemma {:induction false} ItemsStep(st: Style, items: Items, level: nat, t: seq<Byte>, p: nat, nesting: nat)
    ensures ItemParts(st, items, level, t, p) && Reads(st, items.head, level + 1, t, HeadAt(st, level, p), nesting)
            && (items.tail.Item? ==> ItemsRead(st, items.tail, level, t, ItemsRestAt(st, items, level, p), nesting))
            ==> ItemsRead(st, items, level, t, p, nesting)
  {
    hide Print, Here, Skip, At, Parse, IfPretty, Indent, ListText, HeadAt, RestAt;
  }

  /** Reading back the items of an array. */
  lemma {:induction false} ItemsParsed(st: Style, items: Items, level: nat, t: seq<Byte>, p: nat, nesting: nat)
    ensures ItemsReadable(st, items, nesting) && ItemsPrinted(st, items, level, t, p) ==>
              ItemsRead(st, items, level, t, p, nesting)
    decreases items, 1
  {
    hide *;
    ItemPremises(st, items, level, t, p, nesting);
    if items.Item? {
      ItemsStep(st, items, level, t, p, nesting);
      ValueParsed(st, items.head, level + 1, t, HeadAt(st, level, p), nesting);
      ItemsParsed(st, items.tail, level, t, ItemsRestAt(st, items, level, p), nesting);
    }
  }

  /** Reading back what was printed gives the value, and ends right after it. */
  lemma {:induction false} ValueParsed(st: Style, v: Value, level: nat, t: seq<Byte>, p: nat, nesting: nat)
    ensures Readable(st, v, nesting) && Printed(st, v, level, t, p) ==> Reads(st, v, level, t, p, nesting)
    decreases v, 0
  {
    match v {
      case Array(items) =>
        hide *;
        ItemsParsed(st, items, level, t, ListAt(st, p), nesting + 1);
        ArrayParsed(st, items, level, t, p, nesting);
      case Object(fields) =>
        hide *;
        FieldsParsed(st, fields, level, t, ListAt(st, p), nesting + 1, {});
        ObjectParsed(st, fields, level, t, p, nesting);
      case _ => LeafParsed(st, v, level, t, p, nesting);
    }
  }

  lemma {:induction false} LeafParsed(st: Style, v: Value, level: nat, t: seq<Byte>, p: nat, nesting: nat)
    ensures !v.Array? && !v.Object? && Readable(st, v, nesting) && Printed(st, v, level, t, p) ==>
              Reads(st, v, level, t, p, nesting)
  {
    if !v.Array? && !v.Object? && Readable(st, v, nesting) && Printed(st, v, level, t, p) {
      var x := Print(st, v, level);
      PrintBegins(st, v, level);
      HereAt(t, p, x, 0);
      BeginsNow(t, p);
      match v {
        case Number(n) => assert ReadsAs(st.numbers, t, p, n, p + |x|);
        case Str(s) =>
          StringRoundTrip(t, p, s, st.slashes);
          assert At(t, p) == QUOTE;
        case _ =>
      }
    }
  }

  /** Where the first member of a list is printed, after the bracket. */
  function ListAt(st: Style, p: nat): nat {
    p + 1 + |IfPretty(st, [NEWLINE])|
  }

  /** The bracket or brace, and the spaces before the first member. */
  lemma {:induction false} OpenedList(st: Style, t: seq<Byte>, p: nat, open: Byte, rest: seq<Byte>)
    requires Here(t, p, Cat3([open], IfPretty(st, [NEWLINE]), rest))
    ensures p < ListAt(st, p) <= |t| && At(t, p) == open && Here(t, ListAt(st, p), rest)
            && Skip(t, p + 1) == Skip(t, ListAt(st, p))
  {
    var n := IfPretty(st, [NEWLINE]);
    Split3(t, p, [open], n, rest);
    HereAt(t, p, [open], 0);
    SpacesIf(st, 0);
    SkipOver(t, p + 1, n);
  }

  lemma {:induction false} ArrayIs(st: Style, items: Items, level: nat)
    ensures items.Item? ==> Print(st, Array(items), level) == Cat3([OPEN_ARRAY], IfPretty(st, [NEWLINE]),
                                                                   PrintItems(st, items, level))
    ensures items.Item? ==>
              |Print(st, Array(items), level)| == 1 + |IfPretty(st, [NEWLINE])| + |PrintItems(st, items, level)|
  {
  }

  lemma {:induction false} ArrayParsed(st: Style, items: Items, level: nat, t: seq<Byte>, p: nat, nesting: nat)
    ensures Readable(st, Array(items), nesting) && Printed(st, Array(items), level, t, p)
            && (ItemsReadable(st, items, nesting + 1) && ItemsPrinted(st, items, level, t, ListAt(st, p))
                ==> ItemsRead(st, items, level, t, ListAt(st, p), nesting + 1))
            ==> Reads(st, Array(items), level, t, p, nesting)
  {
    ArrayIs(st, items, level);
    hide Print, PrintItems, IfPretty, Here, NumbersOk, ItemParts, Skip, At, Reads, ItemsRead, Delimiter;
    if Readable(st, Array(items), nesting) && Printed(st, Array(items), level, t, p) {
      if items.NoItem? {
        EmptyList(st, Array(items), level, t, p, nesting);
      } else {
        OpenedList(st, t, p, OPEN_ARRAY, PrintItems(st, items, level));
        ItemLayout(st, items, level, t, ListAt(st, p));
        ArrayStep(st, items, level, t, p, nesting);
      }
    }
  }

  lemma {:induction false} ArrayStep(st: Style, items: Items, level: nat, t: seq<Byte>, p: nat, nesting: nat)
    ensures nesting <= MAX_NESTING && p < |t| && At(t, p) == OPEN_ARRAY && ItemParts(st, items, level, t, ListAt(st, p))
            && Skip(t, p + 1) == Skip(t, ListAt(st, p)) && ItemsRead(st, items, level, t, ListAt(st, p), nesting + 1)
            ==> Reads(st, Array(items), level, t, p, nesting)
  {
    ArrayIs(st, items, level);
    SkipsNothing(t, p);
    hide Print, PrintItems, Here, IfPretty, Indent, ParseItems, Skip, ListText, HeadAt, RestAt;
    if nesting <= MAX_NESTING && p < |t| && At(t, p) == OPEN_ARRAY && ItemParts(st, items, level, t, ListAt(st, p))
       && Skip(t, p + 1) == Skip(t, ListAt(st, p)) && ItemsRead(st, items, level, t, ListAt(st, p), nesting + 1)
    {
      assert Parse(st.numbers, t, p, nesting) == ParseArray(st.numbers, t, p, nesting + 1);
    }
  }

  lemma {:induction false} SkipsNothing(t: seq<Byte>, p: nat)
    ensures !IsSpace(At(t, p)) ==> Skip(t, p) == p
  {
  }

  lemma {:induction false} EmptyList(st: Style, v: Value, level: nat, t: seq<Byte>, p: nat, nesting: nat)
    requires v == Array(NoItem) || v == Object(NoField)
    requires nesting <= MAX_NESTING && Here(t, p, Print(st, v, level))
    ensures Reads(st, v, level, t, p, nesting)
  {
    var x := Print(st, v, level);
    HereAt(t, p, x, 0);
    HereAt(t, p, x, 1);
  }

  // ----- objects -----

  /** A field: the key, a colon, perhaps a space, and the value. */
  ghost predicate FieldParts(st: Style, key: seq<Byte>, x: seq<Byte>, t: seq<Byte>, i: nat) {
    var k := PrintString(key, st.slashes);
    var c := i + |k|;
    var v := c + 1 + |IfPretty(st, [SPACE])|;
    && GetQuoted(t, i) == Some((key, c)) && At(t, c) == COLON && Skip(t, c) == c && Skip(t, c + 1) == Skip(t, v)
    && Here(t, v, x) && v <= |t| && v + |x| == i + |FieldText(st, key, x)|
  }

  lemma {:induction false} FieldSplit(st: Style, key: seq<Byte>, x: seq<Byte>, t: seq<Byte>, i: nat)
    ensures Here(t, i, FieldText(st, key, x)) ==> FieldParts(st, key, x, t, i)
  {
    var k, w := PrintString(key, st.slashes), IfPretty(st, [SPACE]);
    hide PrintString, IfPretty, Cat4, GetQuoted, Skip, At;
    Split4(t, i, k, [COLON], w, x);
    SpacesIf(st, 0);
    if Here(t, i, FieldText(st, key, x)) {
      hide Cat4, FieldText, AllSpaces;
      StringRoundTrip(t, i, key, st.slashes);
      HereAt(t, i + |k|, [COLON], 0);
      SkipsNothing(t, i + |k|);
      SkipOver(t, i + |k| + 1, w);
    }
  }

  lemma {:induction false} FieldBegins(st: Style, key: seq<Byte>, x: seq<Byte>)
    ensures BeginsText(FieldText(st, key, x))
  {
    assert FieldText(st, key, x)[0] == PrintString(key, st.slashes)[0] == QUOTE;
  }

  lemma {:induction false} FieldsRest(st: Style, fields: Fields, level: nat)
    ensures RestIs(st, level, fields.Field?, CLOSE_OBJECT, PrintFields(st, fields, level))
  {
    if fields.Field? {
      var x := FieldText(st, fields.key, Print(st, fields.val, level + 1));
      assert |PrintFields(st, fields, level)| >= |x| > 0;
    }
  }

  function HeadField(st: Style, fields: Fields, level: nat): seq<Byte> {
    if fields.NoField? then [] else FieldText(st, fields.key, Print(st, fields.val, level + 1))
  }

  function FieldsRestAt(st: Style, fields: Fields, level: nat, p: nat): nat {
    if fields.NoField? then p else RestAt(st, level, p, HeadField(st, fields, level), fields.rest.Field?)
  }

  /** Where the value of the first field begins. */
  function FieldValueAt(st: Style, fields: Fields, level: nat, p: nat): nat {
    if fields.NoField? then p
    else HeadAt(st, level, p) + |PrintString(fields.key, st.slashes)| + 1 + |IfPretty(st, [SPACE])|
  }

  ghost predicate ObjectParts(st: Style, fields: Fields, level: nat, t: seq<Byte>, p: nat) {
    && fields.Field?
    && ListParts(st, level, t, p, HeadField(st, fields, level), fields.rest.Field?,
                 PrintFields(st, fields.rest, level), CLOSE_OBJECT)
    && FieldParts(st, fields.key, Print(st, fields.val, level + 1), t, HeadAt(st, level, p))
  }

  lemma {:induction false} FieldLayout(st: Style, fields: Fields, level: nat, t: seq<Byte>, p: nat)
    ensures FieldsPrinted(st, fields, level, t, p) ==> ObjectParts(st, fields, level, t, p)
  {
    hide Print, Here, RestIs, ListText, BeginsText, FieldText, FieldParts, Laid, RestAt;
    if fields.Field? {
      var x := Print(st, fields.val, level + 1);
      FieldBegins(st, fields.key, x);
      FieldsRest(st, fields.rest, level);
      ListLayout(st, level, t, p, FieldText(st, fields.key, x), fields.rest.Field?,
                 PrintFields(st, fields.rest, level), CLOSE_OBJECT);
      FieldSplit(st, fields.key, x, t, HeadAt(st, level, p));
    }
  }

  lemma {:induction false} ReadableField(st: Style, fields: Fields, nesting: nat)
    ensures FieldsReadable(st, fields, nesting) && fields.Field? ==>
              Readable(st, fields.val, nesting) && (fields.rest.Field? ==> FieldsReadable(st, fields.rest, nesting))
  {
    hide NumbersOk;
  }

  lemma {:induction false} FieldsShown(st: Style, fields: Fields, level: nat, t: seq<Byte>, p: nat)
    ensures ObjectParts(st, fields, level, t, p) ==>
              && fields.Field? && Printed(st, fields.val, level + 1, t, FieldValueAt(st, fields, level, p))
              && (fields.rest.Field? ==> FieldsPrinted(st, fields.rest, level, t, FieldsRestAt(st, fields, level, p)))
  {
    hide Print, PrintFields, Here, Skip, At, Delimiter, HeadAt, RestAt, ListText, FieldText, PrintString, GetQuoted,
         IfPretty;
  }

  lemma {:induction false} FieldPremises(st: Style, fields: Fields, level: nat, t: seq<Byte>, p: nat, nesting: nat)
    ensures FieldsReadable(st, fields, nesting) && FieldsPrinted(st, fields, level, t, p) ==>
              && ObjectParts(st, fields, level, t, p) && fields.Field?
              && Readable(st, fields.val, nesting)
                 && Printed(st, fields.val, level + 1, t, FieldValueAt(st, fields, level, p))
              && (fields.rest.Field? ==> FieldsReadable(st, fields.rest, nesting)
                                         && FieldsPrinted(st, fields.rest, level, t,
                                                          FieldsRestAt(st, fields, level, p)))
  {
    hide *;
    FieldLayout(st, fields, level, t, p);
    FieldsShown(st, fields, level, t, p);
    ReadableField(st, fields, nesting);
  }

  /** Only the position after the spaces matters to the parser. */
  lemma {:induction false} SameSkip(nm: Numbers, t: seq<Byte>, p: nat, q: nat, nesting: nat)
    ensures p <= |t| && q <= |t| && Skip(t, p) == Skip(t, q) ==> Parse(nm, t, p, nesting) == Parse(nm, t, q, nesting)
  {
    hide Skip, ParseArray, ParseObject, At, Here, GetQuoted;
  }

  /** One round of the loop of parse_object_value. */
  lemma {:induction false} FieldsStep(st: Style, fields: Fields, level: nat, t: seq<Byte>, p: nat, nesting: nat,
                                      seen: set<seq<Byte>>)
    ensures fields.Field? && 0 !in fields.key && fields.key !in KeysOf(fields.rest)
            && ObjectParts(st, fields, level, t, p)
               && Reads(st, fields.val, level + 1, t, FieldValueAt(st, fields, level, p), nesting)
            && (fields.rest.Field? ==> FieldsRead(st, fields.rest, level, t, FieldsRestAt(st, fields, level, p),
                                                  nesting, seen + {fields.key}))
            ==> FieldsRead(st, fields, level, t, p, nesting, seen)
  {
    hide Print, PrintFields, Here, Skip, At, Parse, IfPretty, Indent, ListText, HeadAt, RestAt, FieldText,
         PrintString, GetQuoted,
         FieldParts, ParseFields, KeysOf, ListParts;
    if fields.Field? {
      var x, i, v := Print(st, fields.val, level + 1), HeadAt(st, level, p), FieldValueAt(st, fields, level, p);
      var b, end := FieldsRestAt(st, fields, level, p), p + |PrintFields(st, fields, level)|;
      SameSkip(st.numbers, t, i + |PrintString(fields.key, st.slashes)| + 1, v, nesting);
      FieldFacts(st, fields, level, t, p);
      FieldRound(st.numbers, fields, t, i, i + |PrintString(fields.key, st.slashes)|, v + |x|, b, end, nesting, seen);
      FieldKeys(fields, seen);
      if 0 !in fields.key && fields.key !in KeysOf(fields.rest)
         && ObjectParts(st, fields, level, t, p) && Reads(st, fields.val, level + 1, t, v, nesting)
         && (fields.rest.Field? ==> FieldsRead(st, fields.rest, level, t, b, nesting, seen + {fields.key}))
         && KeysOf(fields) !! seen
      {
        assert b + |PrintFields(st, fields.rest, level)| == end;
        assert ParseFields(st.numbers, t, i, nesting, seen) == Some((fields, end));
      }
    }
  }

  lemma {:induction false} FieldKeys(fields: Fields, seen: set<seq<Byte>>)
    ensures fields.Field? && KeysOf(fields) !! seen && fields.key !in KeysOf(fields.rest) ==>
              fields.key !in seen && KeysOf(fields.rest) !! seen + {fields.key}
  {
  }

  lemma {:induction false} FieldFacts(st: Style, fields: Fields, level: nat, t: seq<Byte>, p: nat)
    requires fields.Field?
    ensures ObjectParts(st, fields, level, t, p) ==>
              var x, i, v := Print(st, fields.val, level + 1), HeadAt(st, level, p), FieldValueAt(st, fields, level, p);
              var c, b, end := i + |PrintString(fields.key, st.slashes)|, FieldsRestAt(st, fields, level, p),
                  p + |PrintFields(st, fields, level)|;
              && GetQuoted(t, i) == Some((fields.key, c)) && At(t, c) == COLON && Skip(t, c) == c
                 && Skip(t, c + 1) == Skip(t, v)
              && c + 1 <= |t| && v <= |t| && Skip(t, p) == i && b + |PrintFields(st, fields.rest, level)| == end
              && Laid(t, p, i, v + |x|, b, end, fields.rest.Field?, CLOSE_OBJECT)
  {
    hide Print, Here, Skip, At, IfPretty, Indent, ListText, HeadAt, RestAt, FieldText, PrintString, GetQuoted,
         Delimiter;
  }

  lemma {:induction false} FieldRound(nm: Numbers, fields: Fields, t: seq<Byte>, i: nat, c: nat, a: nat, b: nat,
                                      end: nat, nesting: nat, seen: set<seq<Byte>>)
    requires fields.Field?
    ensures GetQuoted(t, i) == Some((fields.key, c)) && At(t, c) == COLON && Skip(t, c) == c && 0 !in fields.key
            && fields.key !in seen
            && At(t, i) != 0 && 0 < end <= |t|
            && Parse(nm, t, c + 1, nesting) == Some((fields.val, a))
            && (fields.rest.Field? ==> At(t, a) == COMMA && Skip(t, a) == a && Skip(t, a + 1) == Skip(t, b)
                                       && ParseFields(nm, t, Skip(t, b), nesting,
                                                      seen + {fields.key}) == Some((fields.rest, end)))
            && (fields.rest.NoField? ==> Skip(t, a) == end - 1 && At(t, end - 1) == CLOSE_OBJECT)
            ==> ParseFields(nm, t, i, nesting, seen) == Some((fields, end))
  {
    hide Parse, Skip, At, GetQuoted;
  }

  lemma {:induction false} KeysDistinct(st: Style, fields: Fields, nesting: nat)
    ensures FieldsReadable(st, fields, nesting) && fields.Field? ==>
              0 !in fields.key && fields.key !in KeysOf(fields.rest)
  {
    hide NumbersOk;
  }

  /** Reading back the fields of an object. */
  lemma {:induction false} FieldsParsed(st: Style, fields: Fields, level: nat, t: seq<Byte>, p: nat, nesting: nat,
                                        seen: set<seq<Byte>>)
    ensures FieldsReadable(st, fields, nesting) && FieldsPrinted(st, fields, level, t, p) ==>
              FieldsRead(st, fields, level, t, p, nesting, seen)
    decreases fields, 1
  {
    hide *;
    FieldPremises(st, fields, level, t, p, nesting);
    if fields.Field? {
      KeysDistinct(st, fields, nesting);
      FieldsStep(st, fields, level, t, p, nesting, seen);
      ValueParsed(st, fields.val, level + 1, t, FieldValueAt(st, fields, level, p), nesting);
      FieldsParsed(st, fields.rest, level, t, FieldsRestAt(st, fields, level, p), nesting, seen + {fields.key});
    }
  }

  lemma {:induction false} ObjectIs(st: Style, fields: Fields, level: nat)
    ensures fields.Field? ==> Print(st, Object(fields), level) == Cat3([OPEN_OBJECT], IfPretty(st, [NEWLINE]),
              PrintFields(st, fields, level))
    ensures fields.Field? ==>
              |Print(st, Object(fields), level)| == 1 + |IfPretty(st, [NEWLINE])| + |PrintFields(st, fields, level)|
  {
  }

  lemma {:induction false} ObjectParsed(st: Style, fields: Fields, level: nat, t: seq<Byte>, p: nat, nesting: nat)
    ensures Readable(st, Object(fields), nesting) && Printed(st, Object(fields), level, t, p)
            && (FieldsReadable(st, fields, nesting + 1) && FieldsPrinted(st, fields, level, t, ListAt(st, p))
                ==> FieldsRead(st, fields, level, t, ListAt(st, p), nesting + 1, {}))
            ==> Reads(st, Object(fields), level, t, p, nesting)
  {
    ObjectIs(st, fields, level);
    hide Print, PrintFields, IfPretty, Here, NumbersOk, ObjectParts, Skip, At, Reads, FieldsRead, Delimiter;
    if Readable(st, Object(fields), nesting) && Printed(st, Object(fields), level, t, p) {
      if fields.NoField? {
        EmptyList(st, Object(fields), level, t, p, nesting);
      } else {
        OpenedList(st, t, p, OPEN_OBJECT, PrintFields(st, fields, level));
        FieldLayout(st, fields, level, t, ListAt(st, p));
        ObjectStep(st, fields, level, t, p, nesting);
      }
    }
  }

  lemma {:induction false} ObjectStep(st: Style, fields: Fields, level: nat, t: seq<Byte>, p: nat, nesting: nat)
    ensures nesting <= MAX_NESTING && p < |t| && At(t, p) == OPEN_OBJECT
            && ObjectParts(st, fields, level, t, ListAt(st, p))
            && Skip(t, p + 1) == Skip(t, ListAt(st, p))
               && FieldsRead(st, fields, level, t, ListAt(st, p), nesting + 1, {})
            ==> Reads(st, Object(fields), level, t, p, nesting)
  {
    ObjectIs(st, fields, level);
    SkipsNothing(t, p);
    hide Print, PrintFields, Here, IfPretty, Indent, ParseFields, Skip, ListText, HeadAt, RestAt, FieldParts;
    if nesting <= MAX_NESTING && p < |t| && At(t, p) == OPEN_OBJECT && ObjectParts(st, fields, level, t, ListAt(st, p))
       && Skip(t, p + 1) == Skip(t, ListAt(st, p)) && FieldsRead(st, fields, level, t, ListAt(st, p), nesting + 1, {})
    {
      assert Parse(st.numbers, t, p, nesting) == ParseObject(st.numbers, t, p, nesting + 1);
    }
  }

  /** json_parse_string of what json_serialize_to_string wrote gives back the same value, for
      compact and pretty text, whether or not slashes are escaped. */
  lemma {:induction false} RoundTrip(st: Style, v: Value)
    requires NumbersOk(st.numbers) && WellKeyed(v) && Depth(v) <= MAX_NESTING
    ensures Parse(st.numbers, Print(st, v, 0), 0, 0) == Some((v, |Print(st, v, 0)|))
  {
    var t := Print(st, v, 0);
    assert t[0..|t|] == t;
    assert Printed(st, v, 0, t, 0);
    ValueParsed(st, v, 0, t, 0, 0);
  }
}
