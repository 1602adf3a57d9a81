/** The grammar of JSON with any white space, and that the parser accepts exactly that. */
module JsonGrammar {
  import opened Wrappers
  import opened Event
  import opened JsonString
  import opened Json

  /** From p to q there is only white space. */
  predicate White(t: seq<Byte>, p: nat, q: nat) {
    p <= q <= |t| && forall i :: p <= i < q ==>
      t[i] == ' ' as int || t[i] == '\t' as int || t[i] == '\n' as int || t[i] == 11 || t[i] == 12
        || t[i] == '\r' as int
  }

  /** The letters of a word stand at p. */
  predicate Word(t: seq<Byte>, p: nat, w: string) {
    p + |w| <= |t| && forall i :: 0 <= i < |w| ==> t[p + i] == w[i] as int
  }

  /** Character c stands at p, after white space from a on. */
  predicate Sign(t: seq<Byte>, a: nat, p: nat, c: char) {
    White(t, a, p) && p < |t| && t[p] == c as int
  }

  /** After the last member of a list its closing sign stands at p, after the others a comma. */
  predicate Stop(t: seq<Byte>, a: nat, p: nat, last: bool, close: char) {
    Sign(t, a, p, if last then close else ',')
  }

  /** The text from p to q says the value v, after white space: arrays and objects in no more than
      2048 others. Strings and numbers are what their own readers take. */
  ghost predicate Says(nm: Numbers, t: seq<Byte>, p: nat, v: Value, q: nat, nesting: nat)
    decreases v, 1
  {
    nesting <= 2048 && exists i: nat :: White(t, p, i) && SaysAt(nm, t, i, v, q, nesting)
  }

  ghost predicate SaysAt(nm: Numbers, t: seq<Byte>, i: nat, v: Value, q: nat, nesting: nat)
    decreases v, 0
  {
    match v
    case Null => Word(t, i, "null") && q == i + 4
    case Bool(b) => if b then Word(t, i, "true") && q == i + 4 else Word(t, i, "false") && q == i + 5
    case Number(n) => StartsNumber(At(t, i)) && ReadNumber(nm, t, i) == Some((n, q))
    case Str(s) => GetQuoted(t, i) == Some((s, q))
    case Array(items) =>
      && Sign(t, i, i, '[')
      && if items.NoItem? then q > 0 && Sign(t, i + 1, q - 1, ']') else SaysItems(nm, t, i + 1, items, q, nesting + 1)
    case Object(fields) =>
      && Sign(t, i, i, '{')
      && if fields.NoField? then q > 0 && Sign(t, i + 1, q - 1, '}')
         else SaysFields(nm, t, i + 1, fields, q, nesting + 1)
  }

  /** Values with commas between them, up to the closing bracket. */
  ghost predicate SaysItems(nm: Numbers, t: seq<Byte>, p: nat, items: Items, q: nat, nesting: nat)
    decreases items, 0
  {
    items.Item? && exists a: nat, b: nat ::
      && Says(nm, t, p, items.head, a, nesting)
      && Stop(t, a, b, items.tail.NoItem?, ']')
      && if items.tail.NoItem? then q == b + 1 else SaysItems(nm, t, b + 1, items.tail, q, nesting)
  }

  /** Where the key of a field, its colon and its value end. */
  ghost predicate SaysField(nm: Numbers, t: seq<Byte>, p: nat, key: seq<Byte>, v: Value, a: nat, nesting: nat)
    decreases v, 2
  {
    exists i: nat, c: nat, d: nat ::
      White(t, p, i) && GetQuoted(t, i) == Some((key, c)) && Sign(t, c, d, ':') && Says(nm, t, d + 1, v, a, nesting)
  }

  /** Fields with commas between them, up to the closing brace. */
  ghost predicate SaysFields(nm: Numbers, t: seq<Byte>, p: nat, fields: Fields, q: nat, nesting: nat)
    decreases fields, 0
  {
    fields.Field? && exists a: nat, b: nat ::
      && SaysField(nm, t, p, fields.key, fields.val, a, nesting)
      && Stop(t, a, b, fields.rest.NoField?, '}')
      && if fields.rest.NoField? then q == b + 1 else SaysFields(nm, t, b + 1, fields.rest, q, nesting)
  }

  // ---------- white space ----------

  lemma {:induction false} SkipsWhite(t: seq<Byte>, p: nat)
    ensures p <= |t| ==> White(t, p, Skip(t, p))
    decreases |t| - p
  {
    if p < |t| && IsSpace(t[p]) {
      SkipsWhite(t, p + 1);
    }
  }

  /** Where something else than white space begins is where the parser looks. */
  lemma {:induction false} WhiteEnds(t: seq<Byte>, p: nat, i: nat)
    ensures White(t, p, i) && !IsSpace(At(t, i)) ==> Skip(t, p) == i
    decreases i - p
  {
    if p < i {
      WhiteEnds(t, p + 1, i);
    }
  }

  /** A sign can only stand where the parser looks for it. */
  lemma {:induction false} SignThere(t: seq<Byte>, a: nat, c: char)
    requires c as int < 256 && !IsSpace(c as int) && c != '\0'
    ensures forall b: nat :: Sign(t, a, b, c) ==> b == Skip(t, a)
    ensures a <= |t| ==> (Sign(t, a, Skip(t, a), c) <==> At(t, Skip(t, a)) == c as int)
  {
    hide Skip, White;
    SkipsWhite(t, a);
    forall b: nat | Sign(t, a, b, c)
      ensures b == Skip(t, a)
    {
      WhiteEnds(t, a, b);
    }
  }

  lemma {:induction false} WordHere(t: seq<Byte>, p: nat)
    ensures Word(t, p, "null") <==> Here(t, p, NULL_TEXT)
    ensures Word(t, p, "true") <==> Here(t, p, TRUE_TEXT)
    ensures Word(t, p, "false") <==> Here(t, p, FALSE_TEXT)
  {
    LettersHere(t, p, "null", NULL_TEXT);
    LettersHere(t, p, "true", TRUE_TEXT);
    LettersHere(t, p, "false", FALSE_TEXT);
  }

  lemma {:induction false} LettersHere(t: seq<Byte>, p: nat, w: string, s: seq<Byte>)
    requires |s| == |w| && forall i :: 0 <= i < |w| ==> s[i] == w[i] as int
    ensures Word(t, p, w) <==> Here(t, p, s)
  {
    if Here(t, p, s) {
      forall i | 0 <= i < |w|
        ensures t[p + i] == s[i]
      {
        assert t[p..p + |s|][i] == s[i];
      }
    }
  }

  /** What begins a value is neither space nor a zero. */
  lemma {:induction false} StartsAt(nm: Numbers, t: seq<Byte>, i: nat, v: Value, q: nat, nesting: nat)
    ensures SaysAt(nm, t, i, v, q, nesting) ==> i < |t| && !IsSpace(t[i]) && t[i] != 0
    ensures SaysAt(nm, t, i, v, q, nesting) ==> t[i] != ']' as int && t[i] != '}' as int
  {
    hide SaysItems, SaysFields, ReadNumber, SkipBody, Process;
    FirstLetter(t, i, "null");
    FirstLetter(t, i, "true");
    FirstLetter(t, i, "false");
  }

  lemma {:induction false} FirstLetter(t: seq<Byte>, p: nat, w: string)
    requires w != ""
    ensures Word(t, p, w) ==> p < |t| && t[p] == w[0] as int
  {
    if Word(t, p, w) {
      assert t[p + 0] == w[0] as int;
    }
  }

  lemma {:induction false} SaysWhere(nm: Numbers, t: seq<Byte>, p: nat, v: Value, q: nat, nesting: nat)
    requires p <= |t|
    ensures Says(nm, t, p, v, q, nesting) <==> nesting <= 2048 && SaysAt(nm, t, Skip(t, p), v, q, nesting)
  {
    hide SaysAt, White, Skip;
    SkipsWhite(t, p);
    if Says(nm, t, p, v, q, nesting) {
      var i: nat :| White(t, p, i) && SaysAt(nm, t, i, v, q, nesting);
      StartsAt(nm, t, i, v, q, nesting);
      WhiteEnds(t, p, i);
    }
  }

  // ---------- the parser ----------

  /** The parser accepts a value exactly if the text says it and its objects repeat no key, nor
      have a zero in one; for any white space, and whatever follows. */
  lemma {:induction false} ParseExactly(nm: Numbers, t: seq<Byte>, p: nat, v: Value, q: nat, nesting: nat)
    requires p <= |t|
    ensures Parse(nm, t, p, nesting) == Some((v, q)) <==> Says(nm, t, p, v, q, nesting) && WellKeyed(v)
    decreases v, 1
  {
    hide Says, SaysAt, Skip, Parse, WellKeyed;
    SaysWhere(nm, t, p, v, q, nesting);
    SkipsWhite(t, p);
    Nested(nm, t, p, nesting);
    if nesting <= 2048 {
      ValueExactly(nm, t, p, v, q, nesting);
    }
  }

  lemma {:induction false} Nested(nm: Numbers, t: seq<Byte>, p: nat, nesting: nat)
    ensures nesting > 2048 ==> Parse(nm, t, p, nesting) == None
  {
    hide Skip, ParseObject, ParseArray, GetQuoted, ReadNumber;
  }

  lemma {:induction false} ValueExactly(nm: Numbers, t: seq<Byte>, p: nat, v: Value, q: nat, nesting: nat)
    requires p <= |t| && nesting <= 2048
    ensures Parse(nm, t, p, nesting) == Some((v, q)) <==> SaysAt(nm, t, Skip(t, p), v, q, nesting) && WellKeyed(v)
    decreases v, 0
  {
    var i := Skip(t, p);
    SkipsWhite(t, p);
    match v {
      case Array(items) =>
        if items.Item? {
          ItemsExactly(nm, t, i + 1, items, q, nesting + 1);
        }
        ArrayExactly(nm, t, p, items, q, nesting);
      case Object(fields) =>
        if fields.Field? {
          FieldsExactly(nm, t, i + 1, fields, q, nesting + 1, {});
        }
        ObjectExactly(nm, t, p, fields, q, nesting);
      case _ => LeafExactly(nm, t, p, v, q, nesting);
    }
  }

  lemma {:induction false} LeafExactly(nm: Numbers, t: seq<Byte>, p: nat, v: Value, q: nat, nesting: nat)
    requires p <= |t| && nesting <= 2048 && !v.Array? && !v.Object?
    ensures Parse(nm, t, p, nesting) == Some((v, q)) <==> SaysAt(nm, t, Skip(t, p), v, q, nesting) && WellKeyed(v)
  {
    hide Skip, GetQuoted, ReadNumber, Here, Word, ParseItems, ParseFields;
    var i := Skip(t, p);
    WordHere(t, i);
    FirstLetter(t, i, "null");
    FirstLetter(t, i, "true");
    FirstLetter(t, i, "false");
    QuoteFirst(t, i);
  }

  /** A bracket or brace begins a list, and nothing else does. */
  lemma {:induction false} Opens(nm: Numbers, t: seq<Byte>, p: nat, nesting: nat)
    requires p <= |t| && nesting <= 2048
    ensures var i, r := Skip(t, p), Parse(nm, t, p, nesting);
            && (At(t, i) == '[' as int ==> r == ParseArray(nm, t, i, nesting + 1))
            && (At(t, i) == '{' as int ==> r == ParseObject(nm, t, i, nesting + 1))
            && (r.Some? && r.value.0.Array? ==> At(t, i) == '[' as int)
            && (r.Some? && r.value.0.Object? ==> At(t, i) == '{' as int)
  {
    hide Skip, GetQuoted, ReadNumber, Here, ParseItems, ParseFields;
  }

  lemma {:induction false} ArrayExactly(nm: Numbers, t: seq<Byte>, p: nat, items: Items, q: nat, nesting: nat)
    requires p <= |t| && nesting <= 2048
    requires items.Item? ==> ItemsRightly(nm, t, Skip(t, p) + 1, items, q, nesting + 1)
    ensures Parse(nm, t, p, nesting) == Some((Array(items), q))
            <==> SaysAt(nm, t, Skip(t, p), Array(items), q, nesting) && WellKeyedItems(items)
  {
    hide Parse;
    var i := Skip(t, p);
    Opens(nm, t, p, nesting);
    NoSpace(t, i);
    if At(t, i) == OPEN_ARRAY {
      ArrayAt(nm, t, i, items, q, nesting + 1);
      hide ParseArray, Skip, White;
    }
  }

  lemma {:induction false} ArrayAt(nm: Numbers, t: seq<Byte>, i: nat, items: Items, q: nat, nesting: nat)
    requires i < |t| && (items.Item? ==> ItemsRightly(nm, t, i + 1, items, q, nesting))
    ensures ParseArray(nm, t, i, nesting) == Some((Array(items), q)) <==>
              if items.NoItem? then q > 0 && Sign(t, i + 1, q - 1, ']')
              else SaysItems(nm, t, i + 1, items, q, nesting) && WellKeyedItems(items)
  {
    hide Skip, ParseItems, SaysItems, WellKeyedItems, White, Sign;
    SignThere(t, i + 1, ']');
    ItemsStart(nm, t, Skip(t, i + 1), nesting);
    SkipsNothing(t, Skip(t, i + 1));
  }

  lemma {:induction false} ObjectExactly(nm: Numbers, t: seq<Byte>, p: nat, fields: Fields, q: nat, nesting: nat)
    requires p <= |t| && nesting <= 2048
    requires fields.Field? ==> FieldsRightly(nm, t, Skip(t, p) + 1, fields, q, nesting + 1, {})
    ensures Parse(nm, t, p, nesting) == Some((Object(fields), q))
            <==> SaysAt(nm, t, Skip(t, p), Object(fields), q, nesting) && WellKeyedFields(fields)
  {
    hide Parse;
    var i := Skip(t, p);
    Opens(nm, t, p, nesting);
    NoSpace(t, i);
    if At(t, i) == OPEN_OBJECT {
      ObjectAt(nm, t, i, fields, q, nesting + 1);
      hide ParseObject, Skip, White;
    }
  }

  lemma {:induction false} ObjectAt(nm: Numbers, t: seq<Byte>, i: nat, fields: Fields, q: nat, nesting: nat)
    requires i < |t| && (fields.Field? ==> FieldsRightly(nm, t, i + 1, fields, q, nesting, {}))
    ensures ParseObject(nm, t, i, nesting) == Some((Object(fields), q)) <==>
              if fields.NoField? then q > 0 && Sign(t, i + 1, q - 1, '}')
              else SaysFields(nm, t, i + 1, fields, q, nesting) && WellKeyedFields(fields)
  {
    hide Skip, ParseFields, SaysFields, WellKeyedFields, White, Sign, KeysOf;
    SignThere(t, i + 1, '}');
    FieldsStart(nm, t, Skip(t, i + 1), nesting, {});
  }

  lemma {:induction false} ItemsStart(nm: Numbers, t: seq<Byte>, i: nat, nesting: nat)
    ensures ParseItems(nm, t, i, nesting).Some? ==> ParseItems(nm, t, i, nesting).value.0.Item?
    ensures ParseItems(nm, t, i, nesting).Some? && Skip(t, i) == i ==> At(t, i) != CLOSE_ARRAY
  {
    hide Skip, ParseArray, ParseObject, GetQuoted, ReadNumber, Here;
    assert Skip(t, i) == i && At(t, i) == CLOSE_ARRAY ==> Parse(nm, t, i, nesting) == None;
  }

  lemma {:induction false} FieldsStart(nm: Numbers, t: seq<Byte>, i: nat, nesting: nat, seen: set<seq<Byte>>)
    ensures ParseFields(nm, t, i, nesting, seen).Some? ==>
              ParseFields(nm, t, i, nesting, seen).value.0.Field? && At(t, i) != CLOSE_OBJECT
  {
    hide Skip, Parse;
  }

  lemma {:induction false} NoSpace(t: seq<Byte>, i: nat)
    ensures i <= |t| ==> White(t, i, i)
  {
  }

  /** The loop over the items of an array accepts exactly what the text says. */
  ghost predicate ItemsRightly(nm: Numbers, t: seq<Byte>, p: nat, items: Items, q: nat, nesting: nat) {
    p <= |t| ==>
      (ParseItems(nm, t, Skip(t, p), nesting) == Some((items, q))
       <==> SaysItems(nm, t, p, items, q, nesting) && WellKeyedItems(items))
  }

  ghost predicate FieldsRightly(nm: Numbers, t: seq<Byte>, p: nat, fields: Fields, q: nat, nesting: nat,
                                seen: set<seq<Byte>>) {
    p <= |t| ==>
      (ParseFields(nm, t, Skip(t, p), nesting, seen) == Some((fields, q))
       <==> SaysFields(nm, t, p, fields, q, nesting) && WellKeyedFields(fields) && KeysOf(fields) !! seen)
  }

  lemma {:induction false} QuoteFirst(t: seq<Byte>, i: nat)
    ensures GetQuoted(t, i).Some? ==> At(t, i) == '"' as int
  {
  }

  /** Where white space ends the parser may as well begin. */
  lemma {:induction false} StartAnywhere(nm: Numbers, t: seq<Byte>, p: nat, nesting: nat)
    ensures p <= |t| ==> Parse(nm, t, Skip(t, p), nesting) == Parse(nm, t, p, nesting)
  {
    SkipsNothing(t, Skip(t, p));
    SameSkip(nm, t, p, Skip(t, p), nesting);
  }

  lemma {:induction false} NonzeroStart(nm: Numbers, t: seq<Byte>, p: nat, v: Value, a: nat, nesting: nat)
    ensures p <= |t| && Says(nm, t, p, v, a, nesting) ==> At(t, Skip(t, p)) != 0
  {
    hide Says, Skip, SaysAt;
    if p <= |t| {
      SaysWhere(nm, t, p, v, a, nesting);
      StartsAt(nm, t, Skip(t, p), v, a, nesting);
    }
  }

  lemma {:induction false} ItemsExactly(nm: Numbers, t: seq<Byte>, p: nat, items: Items, q: nat, nesting: nat)
    requires items.Item?
    ensures ItemsRightly(nm, t, p, items, q, nesting)
    decreases items, 1
  {
    if p <= |t| {
      hide ItemsRightly;
      StartAnywhere(nm, t, p, nesting);
      forall a: nat
        ensures ItemMet(nm, t, p, items, q, nesting, a)
      {
        ItemRound(nm, t, p, items, q, nesting, a);
      }
      ItemsMet(nm, t, p, items, q, nesting);
    }
  }

  /** One item that ends at a: the parser's part and the text's, the sign after it, and the rest. */
  ghost predicate ItemMet(nm: Numbers, t: seq<Byte>, p: nat, items: Items, q: nat, nesting: nat, a: nat) {
    items.Item? && p <= |t| ==>
      && (Parse(nm, t, p, nesting) == Some((items.head, a))
          <==> Says(nm, t, p, items.head, a, nesting) && WellKeyed(items.head))
      && (Says(nm, t, p, items.head, a, nesting) ==> At(t, Skip(t, p)) != 0)
      && Stopped(t, a, items.tail.NoItem?, ']')
      && (items.tail.Item? ==> ItemsRightly(nm, t, Skip(t, a) + 1, items.tail, q, nesting))
  }

  /** The sign after a member can only be where the parser looks for it. */
  ghost predicate Stopped(t: seq<Byte>, a: nat, last: bool, close: char) {
    && (forall b: nat :: Stop(t, a, b, last, close) ==> b == Skip(t, a))
    && (a <= |t| ==>
          (Stop(t, a, Skip(t, a), last, close) <==> At(t, Skip(t, a)) == if last then close as int else ',' as int))
  }

  lemma {:induction false} StopThere(t: seq<Byte>, a: nat, last: bool, close: char)
    requires close == ']' || close == '}'
    ensures Stopped(t, a, last, close)
  {
    hide Skip, Sign, At;
    SignThere(t, a, close);
    SignThere(t, a, ',');
  }

  lemma {:induction false} ItemRound(nm: Numbers, t: seq<Byte>, p: nat, items: Items, q: nat, nesting: nat, a: nat)
    requires p <= |t| && items.Item?
    ensures ItemMet(nm, t, p, items, q, nesting, a)
    decreases items, 0
  {
    hide Skip, Parse, Says, WellKeyed, At, Stopped, ItemsRightly;
    ParseExactly(nm, t, p, items.head, a, nesting);
    NonzeroStart(nm, t, p, items.head, a, nesting);
    StopThere(t, a, items.tail.NoItem?, ']');
    if items.tail.Item? {
      ItemsExactly(nm, t, Skip(t, a) + 1, items.tail, q, nesting);
    }
  }

  lemma {:induction false} ItemsMet(nm: Numbers, t: seq<Byte>, p: nat, items: Items, q: nat, nesting: nat)
    requires p <= |t| && items.Item? && Parse(nm, t, Skip(t, p), nesting) == Parse(nm, t, p, nesting)
    requires forall a: nat :: ItemMet(nm, t, p, items, q, nesting, a)
    ensures ItemsRightly(nm, t, p, items, q, nesting)
  {
    hide ItemMet, Parse, Says, ParseItems, SaysItems, WellKeyedItems, Skip;
    if ParseItems(nm, t, Skip(t, p), nesting) == Some((items, q)) {
      ItemsTaken(nm, t, p, items, q, nesting);
    }
    if SaysItems(nm, t, p, items, q, nesting) && WellKeyedItems(items) {
      ItemsSaid(nm, t, p, items, q, nesting);
    }
  }

  lemma {:induction false} ItemsTaken(nm: Numbers, t: seq<Byte>, p: nat, items: Items, q: nat, nesting: nat)
    requires p <= |t| && items.Item? && Parse(nm, t, Skip(t, p), nesting) == Parse(nm, t, p, nesting)
    requires forall a: nat :: ItemMet(nm, t, p, items, q, nesting, a)
    requires ParseItems(nm, t, Skip(t, p), nesting) == Some((items, q))
    ensures SaysItems(nm, t, p, items, q, nesting) && WellKeyedItems(items)
  {
    hide Skip, Parse, Says, WellKeyed, Stop;
    var a := Parse(nm, t, p, nesting).value.1;
    assert ItemMet(nm, t, p, items, q, nesting, a);
    ItemsStart(nm, t, Skip(t, Skip(t, a) + 1), nesting);
    assert Stop(t, a, Skip(t, a), items.tail.NoItem?, ']');
    assert Says(nm, t, p, items.head, a, nesting);
  }

  lemma {:induction false} ItemsSaid(nm: Numbers, t: seq<Byte>, p: nat, items: Items, q: nat, nesting: nat)
    requires p <= |t| && items.Item? && Parse(nm, t, Skip(t, p), nesting) == Parse(nm, t, p, nesting)
    requires forall a: nat :: ItemMet(nm, t, p, items, q, nesting, a)
    requires SaysItems(nm, t, p, items, q, nesting) && WellKeyedItems(items)
    ensures ParseItems(nm, t, Skip(t, p), nesting) == Some((items, q))
  {
    hide Skip, Parse, Says, WellKeyed, Stop;
    var a: nat, b: nat :|
      && Says(nm, t, p, items.head, a, nesting) && Stop(t, a, b, items.tail.NoItem?, ']')
      && if items.tail.NoItem? then q == b + 1 else SaysItems(nm, t, b + 1, items.tail, q, nesting);
    assert ItemMet(nm, t, p, items, q, nesting, a);
    assert b == Skip(t, a);
    assert Parse(nm, t, p, nesting) == Some((items.head, a)) && a <= |t|;
    assert At(t, b) == if items.tail.NoItem? then CLOSE_ARRAY else COMMA;
    if items.tail.Item? {
      assert ParseItems(nm, t, Skip(t, b + 1), nesting) == Some((items.tail, q));
    }
  }

  lemma {:induction false} FieldsExactly(nm: Numbers, t: seq<Byte>, p: nat, fields: Fields, q: nat, nesting: nat,
                                         seen: set<seq<Byte>>)
    requires fields.Field?
    ensures FieldsRightly(nm, t, p, fields, q, nesting, seen)
    decreases fields, 1
  {
    if p <= |t| {
      hide FieldsRightly;
      forall a: nat
        ensures FieldMet(nm, t, p, fields, q, nesting, seen, a)
      {
        FieldRound(nm, t, p, fields, q, nesting, seen, a);
      }
      FieldsMet(nm, t, p, fields, q, nesting, seen);
    }
  }

  /** What the parser does with a key, its colon and its value. */
  ghost predicate FieldTaken(nm: Numbers, t: seq<Byte>, p: nat, key: seq<Byte>, v: Value, a: nat, nesting: nat) {
    var k := GetQuoted(t, Skip(t, p));
    && k.Some? && k.value.0 == key && At(t, Skip(t, k.value.1)) == COLON
    && Parse(nm, t, Skip(t, k.value.1) + 1, nesting) == Some((v, a))
  }

  lemma {:induction false} TakesField(nm: Numbers, t: seq<Byte>, p: nat, key: seq<Byte>, v: Value, a: nat, nesting: nat)
    requires p <= |t|
    requires forall d: nat :: d <= |t| ==>
               (Parse(nm, t, d, nesting) == Some((v, a)) <==> Says(nm, t, d, v, a, nesting) && WellKeyed(v))
    ensures FieldTaken(nm, t, p, key, v, a, nesting) <==> SaysField(nm, t, p, key, v, a, nesting) && WellKeyed(v)
    ensures SaysField(nm, t, p, key, v, a, nesting) ==> At(t, Skip(t, p)) != 0
  {
    hide Skip, Parse, Says, WellKeyed, White, GetQuoted;
    SkipsWhite(t, p);
    QuoteFirst(t, Skip(t, p));
    if FieldTaken(nm, t, p, key, v, a, nesting) {
      var c := GetQuoted(t, Skip(t, p)).value.1;
      SignThere(t, c, ':');
      assert White(t, p, Skip(t, p)) && Sign(t, c, Skip(t, c), ':');
      assert SaysField(nm, t, p, key, v, a, nesting);
    }
    if SaysField(nm, t, p, key, v, a, nesting) {
      var i: nat, c: nat, d: nat :| White(t, p, i) && GetQuoted(t, i) == Some((key, c)) && Sign(t, c, d, ':')
                                    && Says(nm, t, d + 1, v, a, nesting);
      QuoteFirst(t, i);
      WhiteEnds(t, p, i);
      SignThere(t, c, ':');
    }
  }

  ghost predicate FieldMet(nm: Numbers, t: seq<Byte>, p: nat, fields: Fields, q: nat, nesting: nat,
                           seen: set<seq<Byte>>, a: nat) {
    fields.Field? && p <= |t| ==>
      && (FieldTaken(nm, t, p, fields.key, fields.val, a, nesting)
          <==> SaysField(nm, t, p, fields.key, fields.val, a, nesting) && WellKeyed(fields.val))
      && (SaysField(nm, t, p, fields.key, fields.val, a, nesting) ==> At(t, Skip(t, p)) != 0)
      && Stopped(t, a, fields.rest.NoField?, '}')
      && (fields.rest.Field? ==>
            FieldsRightly(nm, t, Skip(t, a) + 1, fields.rest, q, nesting, seen + {fields.key}))
  }

  lemma {:induction false} FieldRound(nm: Numbers, t: seq<Byte>, p: nat, fields: Fields, q: nat, nesting: nat,
                                      seen: set<seq<Byte>>, a: nat)
    requires p <= |t| && fields.Field?
    ensures FieldMet(nm, t, p, fields, q, nesting, seen, a)
    decreases fields, 0
  {
    hide Skip, Parse, Says, WellKeyed, At, Stopped, FieldsRightly, FieldTaken, SaysField;
    forall d: nat | d <= |t|
      ensures Parse(nm, t, d, nesting) == Some((fields.val, a))
              <==> Says(nm, t, d, fields.val, a, nesting) && WellKeyed(fields.val)
    {
      ParseExactly(nm, t, d, fields.val, a, nesting);
    }
    TakesField(nm, t, p, fields.key, fields.val, a, nesting);
    StopThere(t, a, fields.rest.NoField?, '}');
    if fields.rest.Field? {
      FieldsExactly(nm, t, Skip(t, a) + 1, fields.rest, q, nesting, seen + {fields.key});
    }
  }

  lemma {:induction false} KeysApart(fields: Fields, seen: set<seq<Byte>>)
    requires fields.Field?
    ensures WellKeyedFields(fields) && KeysOf(fields) !! seen <==>
              && 0 !in fields.key && WellKeyed(fields.val) && fields.key !in seen
              && (fields.rest.Field? ==> WellKeyedFields(fields.rest) && KeysOf(fields.rest) !! seen + {fields.key})
  {
    hide WellKeyed;
    var key, rest := fields.key, KeysOf(fields.rest);
    assert KeysOf(fields) == {key} + rest && key in KeysOf(fields);
    assert rest !! seen + {key} <==> rest !! seen && key !in rest by {
      assert key in seen + {key};
    }
    assert KeysOf(fields) !! seen <==> key !in seen && rest !! seen;
  }

  lemma {:induction false} FieldsMet(nm: Numbers, t: seq<Byte>, p: nat, fields: Fields, q: nat, nesting: nat,
                                     seen: set<seq<Byte>>)
    requires p <= |t| && fields.Field?
    requires forall a: nat :: FieldMet(nm, t, p, fields, q, nesting, seen, a)
    ensures FieldsRightly(nm, t, p, fields, q, nesting, seen)
  {
    hide FieldMet, SaysFields, ParseFields, WellKeyedFields, KeysOf, Skip;
    if ParseFields(nm, t, Skip(t, p), nesting, seen) == Some((fields, q)) {
      FieldsTaken(nm, t, p, fields, q, nesting, seen);
    }
    if SaysFields(nm, t, p, fields, q, nesting) && WellKeyedFields(fields) && KeysOf(fields) !! seen {
      FieldsSaid(nm, t, p, fields, q, nesting, seen);
    }
  }

  lemma {:induction false} FieldsTaken(nm: Numbers, t: seq<Byte>, p: nat, fields: Fields, q: nat, nesting: nat,
                                       seen: set<seq<Byte>>)
    requires p <= |t| && fields.Field?
    requires forall a: nat :: FieldMet(nm, t, p, fields, q, nesting, seen, a)
    requires ParseFields(nm, t, Skip(t, p), nesting, seen) == Some((fields, q))
    ensures SaysFields(nm, t, p, fields, q, nesting) && WellKeyedFields(fields) && KeysOf(fields) !! seen
  {
    hide Skip, Parse, Says, WellKeyed, Stop, GetQuoted, SaysField, KeysOf, WellKeyedFields;
    KeysApart(fields, seen);
    var c := GetQuoted(t, Skip(t, p)).value.1;
    var a := Parse(nm, t, Skip(t, c) + 1, nesting).value.1;
    assert FieldMet(nm, t, p, fields, q, nesting, seen, a);
    FieldsStart(nm, t, Skip(t, Skip(t, a) + 1), nesting, seen + {fields.key});
    assert Stop(t, a, Skip(t, a), fields.rest.NoField?, '}');
    assert SaysField(nm, t, p, fields.key, fields.val, a, nesting);
  }

  lemma {:induction false} FieldsSaid(nm: Numbers, t: seq<Byte>, p: nat, fields: Fields, q: nat, nesting: nat,
                                      seen: set<seq<Byte>>)
    requires p <= |t| && fields.Field?
    requires forall a: nat :: FieldMet(nm, t, p, fields, q, nesting, seen, a)
    requires SaysFields(nm, t, p, fields, q, nesting) && WellKeyedFields(fields) && KeysOf(fields) !! seen
    ensures ParseFields(nm, t, Skip(t, p), nesting, seen) == Some((fields, q))
  {
    hide Skip, Parse, Says, WellKeyed, Stop, GetQuoted, SaysField, KeysOf, WellKeyedFields;
    KeysApart(fields, seen);
    var a: nat, b: nat :|
      && SaysField(nm, t, p, fields.key, fields.val, a, nesting) && Stop(t, a, b, fields.rest.NoField?, '}')
      && if fields.rest.NoField? then q == b + 1 else SaysFields(nm, t, b + 1, fields.rest, q, nesting);
    assert FieldMet(nm, t, p, fields, q, nesting, seen, a);
    assert b == Skip(t, a) && a <= |t|;
    assert At(t, b) == if fields.rest.NoField? then CLOSE_OBJECT else COMMA;
    if fields.rest.Field? {
      assert ParseFields(nm, t, Skip(t, b + 1), nesting, seen + {fields.key}) == Some((fields.rest, q));
    }
  }

  // ---------- the two layouts of the printer ----------

  function Line(level: nat): (s: seq<Byte>)
    ensures |s| == 4 * level && forall i :: 0 <= i < |s| ==> s[i] == ' ' as int
  {
    seq<Byte>(4 * level, _ => ' ' as int)
  }

  /** White space of the pretty text, none in the compact one. */
  function Pretty(st: Style, s: seq<Byte>): seq<Byte> {
    if st.pretty then s else []
  }

  /** Compact text has no white space at all. Pretty text has every member and every closing sign
      on a line of its own, four spaces in for each level, and a space after each colon. */
  lemma {:induction false} ArrayText(st: Style, v: Value, tail: Items, level: nat)
    ensures var comma := if tail.NoItem? then [] else [',' as int];
            PrintItems(st, Item(v, tail), level)
            == Pretty(st, Line(level + 1)) + (Print(st, v, level + 1)
               + (comma + (Pretty(st, ['\n' as int]) + PrintItems(st, tail, level))))
    ensures PrintItems(st, NoItem, level) == Pretty(st, Line(level)) + [']' as int]
    ensures Print(st, Array(Item(v, tail)), level)
            == ['[' as int] + (Pretty(st, ['\n' as int]) + PrintItems(st, Item(v, tail), level))
    ensures Print(st, Array(NoItem), level) == ['[' as int, ']' as int]
  {
    assert Indent(level + 1) == Line(level + 1) && Indent(level) == Line(level);
    hide Indent, Line;
  }

  lemma {:induction false} ObjectText(st: Style, key: seq<Byte>, v: Value, rest: Fields, level: nat)
    ensures var comma := if rest.NoField? then [] else [',' as int];
            var field := PrintString(key, st.slashes)
                         + ([':' as int] + (Pretty(st, [' ' as int]) + Print(st, v, level + 1)));
            PrintFields(st, Field(key, v, rest), level)
            == Pretty(st, Line(level + 1))
               + (field + (comma + (Pretty(st, ['\n' as int]) + PrintFields(st, rest, level))))
    ensures PrintFields(st, NoField, level) == Pretty(st, Line(level)) + ['}' as int]
    ensures Print(st, Object(Field(key, v, rest)), level)
            == ['{' as int] + (Pretty(st, ['\n' as int]) + PrintFields(st, Field(key, v, rest), level))
    ensures Print(st, Object(NoField), level) == ['{' as int, '}' as int]
  {
    assert Indent(level + 1) == Line(level + 1) && Indent(level) == Line(level);
    hide Indent, Line, PrintString;
  }
}
