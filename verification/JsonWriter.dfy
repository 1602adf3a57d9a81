/** Writing a JSON value to a buffer; with no buffer the same code only counts. */
module JsonWriter {
  import opened Event
  import opened JsonString
  import opened Json

  /** Text s written over b at off. */
  function Overwrite(b: seq<Byte>, off: nat, s: seq<Byte>): seq<Byte> {
    if off + |s| <= |b| then b[..off] + s + b[off + |s|..] else b
  }

  /** The buffer, or none. */
  function Target(buf: array?<Byte>): set<array<Byte>> {
    if buf == null then {} else {buf}
  }

  ghost function Content(buf: array?<Byte>): seq<Byte>
    reads Target(buf)
  {
    if buf == null then [] else buf[..]
  }

  /** There is room for n bytes at off. */
  ghost predicate Room(buf: array?<Byte>, off: nat, n: nat) {
    buf != null ==> off + n <= buf.Length
  }

  /** What writing s at off of b gives: its length, and the new bytes if there is a buffer. */
  ghost predicate Wrote(buf: array?<Byte>, b: seq<Byte>, now: seq<Byte>, off: nat, s: seq<Byte>, written: int) {
    written == |s| && (buf != null ==> now == Overwrite(b, off, s))
  }

  lemma {:induction false} Nothing(buf: array?<Byte>, b: seq<Byte>, off: nat)
    ensures (buf != null ==> off <= |b|) ==> Wrote(buf, b, b, off, [], 0)
  {
    if off <= |b| {
      assert b[..off] + [] + b[off..] == b;
    }
  }

  lemma {:induction false} OneMore(b: seq<Byte>, off: nat, done: seq<Byte>, c: Byte)
    requires off + |done| < |b|
    ensures |Overwrite(b, off, done)| == |b|
    ensures Overwrite(b, off, done)[off + |done| := c] == Overwrite(b, off, done + [c])
  {
  }

  /** append_string, or the copy of a byte: s goes after the n bytes of done. */
  method Put(buf: array?<Byte>, off: nat, ghost b: seq<Byte>, ghost done: seq<Byte>, n: nat, s: seq<Byte>)
    returns (m: nat)
    requires Wrote(buf, b, Content(buf), off, done, n) && Room(buf, off, n + |s|) && (buf != null ==> |b| == buf.Length)
    modifies Target(buf)
    ensures Wrote(buf, b, Content(buf), off, done + s, m)
  {
    if buf == null {
      return n + |s|;
    }
    var i := 0;
    assert done + s[..0] == done;
    while i < |s|
      invariant 0 <= i <= |s| && buf[..] == Overwrite(b, off, done + s[..i])
    {
      ghost var c := buf[..];
      buf[off + n + i] := s[i];
      assert buf[..] == c[off + n + i := s[i]];
      OneMore(b, off, done + s[..i], s[i]);
      assert done + s[..i] + [s[i]] == done + s[..i + 1];
      i := i + 1;
    }
    assert s[..i] == s;
    return n + |s|;
  }

  /** append_indent, when the text is pretty */
  method PutIndent(buf: array?<Byte>, off: nat, ghost b: seq<Byte>, ghost done: seq<Byte>, n: nat, st: Style,
                   level: nat) returns (m: nat)
    requires Wrote(buf, b, Content(buf), off, done, n) && Room(buf, off, n + |IfPretty(st, Indent(level))|)
             && (buf != null ==> |b| == buf.Length)
    modifies Target(buf)
    ensures Wrote(buf, b, Content(buf), off, done + IfPretty(st, Indent(level)), m)
  {
    m := n;
    assert done + [] == done;
    if st.pretty {
      var i := 0;
      while i < level
        invariant 0 <= i <= level && m == n + 4 * i
        invariant Wrote(buf, b, Content(buf), off, done + Indent(i), m)
      {
        assert done + Indent(i) + [SPACE, SPACE, SPACE, SPACE] == done + Indent(i + 1);
        m := Put(buf, off, b, done + Indent(i), m, [SPACE, SPACE, SPACE, SPACE]);
        i := i + 1;
      }
    }
  }

  lemma {:induction false} EscapeSnoc(s: seq<Byte>, c: Byte, slashes: bool)
    ensures Escape(s + [c], slashes) == Escape(s, slashes) + EscapeByte(c, slashes)
  {
    if s != [] {
      assert (s + [c])[1..] == s[1..] + [c];
      EscapeSnoc(s[1..], c, slashes);
    } else {
      assert [c][1..] == [];
    }
  }

  lemma {:induction false} EscapePrefix(s: seq<Byte>, i: nat, slashes: bool)
    requires i <= |s|
    ensures |Escape(s[..i], slashes)| <= |Escape(s, slashes)|
    decreases |s| - i
  {
    if i < |s| {
      assert s[..i + 1] == s[..i] + [s[i]];
      EscapeSnoc(s[..i], s[i], slashes);
      EscapePrefix(s, i + 1, slashes);
    } else {
      assert s[..i] == s;
    }
  }

  /** The quote and the escaped bytes up to i. */
  function Opened(s: seq<Byte>, i: nat, slashes: bool): seq<Byte> {
    if i <= |s| then [QUOTE] + Escape(s[..i], slashes) else []
  }

  lemma {:induction false} OpenedNext(s: seq<Byte>, i: nat, slashes: bool)
    requires i < |s|
    ensures Opened(s, i, slashes) + EscapeByte(s[i], slashes) == Opened(s, i + 1, slashes)
  {
    EscapeSnoc(s[..i], s[i], slashes);
    assert s[..i + 1] == s[..i] + [s[i]];
    hide Escape, EscapeByte;
    Assoc([QUOTE], Escape(s[..i], slashes), EscapeByte(s[i], slashes));
  }

  lemma {:induction false} OpenedEnds(s: seq<Byte>, slashes: bool)
    ensures Opened(s, 0, slashes) == [QUOTE]
    ensures Opened(s, |s|, slashes) + [QUOTE] == PrintString(s, slashes)
  {
    assert s[..|s|] == s && s[..0] == [];
  }

  lemma {:induction false} OpenedFits(s: seq<Byte>, i: nat, slashes: bool)
    requires i <= |s|
    ensures |Opened(s, i, slashes)| + 1 <= |PrintString(s, slashes)|
  {
    EscapePrefix(s, i, slashes);
    hide Escape;
  }

  lemma {:induction false} OpenedSteps(s: seq<Byte>, i: nat, slashes: bool, done: seq<Byte>)
    ensures i < |s| ==> done + Opened(s, i, slashes) + EscapeByte(s[i], slashes) == done + Opened(s, i + 1, slashes)
    ensures i <= |s| ==> |Opened(s, i, slashes)| + 1 <= |PrintString(s, slashes)|
    ensures Opened(s, 0, slashes) == [QUOTE]
    ensures done + Opened(s, |s|, slashes) + [QUOTE] == done + PrintString(s, slashes)
  {
    hide *;
    OpenedEnds(s, slashes);
    Assoc(done, Opened(s, |s|, slashes), [QUOTE]);
    if i <= |s| {
      OpenedFits(s, i, slashes);
    }
    if i < |s| {
      OpenedNext(s, i, slashes);
      Assoc(done, Opened(s, i, slashes), EscapeByte(s[i], slashes));
    }
  }

  /** json_serialize_string */
  method PutString(buf: array?<Byte>, off: nat, ghost b: seq<Byte>, ghost done: seq<Byte>, n: nat, s: seq<Byte>,
                   slashes: bool) returns (m: nat)
    requires Wrote(buf, b, Content(buf), off, done, n) && Room(buf, off, n + |PrintString(s, slashes)|)
             && (buf != null ==> |b| == buf.Length)
    modifies Target(buf)
    ensures Wrote(buf, b, Content(buf), off, done + PrintString(s, slashes), m)
  {
    hide Opened, Escape, EscapeByte, PrintString, Overwrite;
    OpenedSteps(s, 0, slashes, done);
    m := Put(buf, off, b, done, n, [QUOTE]);
    var i := 0;
    while i < |s|
      invariant 0 <= i <= |s|
      invariant Wrote(buf, b, Content(buf), off, done + Opened(s, i, slashes), m)
    {
      OpenedSteps(s, i, slashes, done);
      OpenedSteps(s, i + 1, slashes, done);
      m := Put(buf, off, b, done + Opened(s, i, slashes), m, EscapeByte(s[i], slashes));
      i := i + 1;
    }
    OpenedSteps(s, i, slashes, done);
    m := Put(buf, off, b, done + Opened(s, i, slashes), m, [QUOTE]);
  }

  // ---------- values ----------

  function Size(v: Value): nat {
    match v
    case Array(items) => 1 + SizeItems(items)
    case Object(fields) => 1 + SizeFields(fields)
    case _ => 1
  }

  function SizeItems(items: Items): nat {
    match items
    case NoItem => 0
    case Item(v, tail) => 1 + Size(v) + SizeItems(tail)
  }

  function SizeFields(fields: Fields): nat {
    match fields
    case NoField => 0
    case Field(_, v, rest) => 1 + Size(v) + SizeFields(rest)
  }

  function IfMore(more: bool, s: seq<Byte>): seq<Byte> {
    if more then s else []
  }

  /** One member of a list with its indentation and separator. */
  function MemberText(st: Style, level: nat, x: seq<Byte>, more: bool): (r: seq<Byte>)
    ensures |r| == |IfPretty(st, Indent(level + 1))| + |x| + |IfMore(more, [COMMA])| + |IfMore(st.pretty, [NEWLINE])|
  {
    IfPretty(st, Indent(level + 1)) + x + IfMore(more, [COMMA]) + IfMore(st.pretty, [NEWLINE])
  }

  lemma {:induction false} ListTextIs(st: Style, level: nat, x: seq<Byte>, more: bool, rest: seq<Byte>)
    ensures ListText(st, level, x, more, rest) == MemberText(st, level, x, more) + rest
  {
    var i, c, n := IfPretty(st, Indent(level + 1)), Separator(more), IfPretty(st, [NEWLINE]);
    hide Indent;
    calc {
      i + x + c + n + rest;
      { Assoc(i + x + c, n, rest); Assoc(i + x, c, n + rest); Assoc(i, x, c + (n + rest)); }
      i + (x + (c + (n + rest)));
    }
  }

  lemma {:induction false} Regroup(done: seq<Byte>, a: seq<Byte>, b: seq<Byte>, c: seq<Byte>, d: seq<Byte>)
    ensures done + a + b + c + d == done + (a + b + c + d) == done + Cat4(a, b, c, d)
  {
    Assoc(a, b, c + d);
    assert a + b + c + d == a + b + (c + d);
  }

  /** The text of a list from one member on is the member and the text from the next one on. */
  lemma {:induction false} ItemSplit(st: Style, items: Items, level: nat, done: seq<Byte>)
    ensures items.Item? ==>
              var x := MemberText(st, level, Print(st, items.head, level + 1), items.tail.Item?);
              done + x + PrintItems(st, items.tail, level) == done + PrintItems(st, items, level)
              && |x| + |PrintItems(st, items.tail, level)| == |PrintItems(st, items, level)|
              && SizeItems(items) == 1 + Size(items.head) + SizeItems(items.tail)
    ensures items.NoItem? ==> PrintItems(st, items, level) == IfPretty(st, Indent(level)) + [CLOSE_ARRAY]
  {
    if items.Item? {
      var y, rest := Print(st, items.head, level + 1), PrintItems(st, items.tail, level);
      ListTextIs(st, level, y, items.tail.Item?, rest);
      assert PrintItems(st, items, level) == ListText(st, level, y, items.tail.Item?, rest);
      hide *;
      Assoc(done, MemberText(st, level, y, items.tail.Item?), rest);
    }
  }

  lemma {:induction false} FieldSplit(st: Style, fields: Fields, level: nat, done: seq<Byte>)
    ensures fields.Field? ==>
              var x := MemberText(st, level, FieldText(st, fields.key, Print(st, fields.val, level + 1)),
                                  fields.rest.Field?);
              done + x + PrintFields(st, fields.rest, level) == done + PrintFields(st, fields, level)
              && |x| + |PrintFields(st, fields.rest, level)| == |PrintFields(st, fields, level)|
              && SizeFields(fields) == 1 + Size(fields.val) + SizeFields(fields.rest)
    ensures fields.NoField? ==> PrintFields(st, fields, level) == IfPretty(st, Indent(level)) + [CLOSE_OBJECT]
  {
    if fields.Field? {
      var y, rest := FieldText(st, fields.key, Print(st, fields.val, level + 1)), PrintFields(st, fields.rest, level);
      ListTextIs(st, level, y, fields.rest.Field?, rest);
      assert PrintFields(st, fields, level) == ListText(st, level, y, fields.rest.Field?, rest);
      hide *;
      Assoc(done, MemberText(st, level, y, fields.rest.Field?), rest);
    }
  }

  /** Writes s if the condition holds. */
  method PutIf(buf: array?<Byte>, off: nat, ghost b: seq<Byte>, ghost done: seq<Byte>, n: nat, more: bool,
               s: seq<Byte>) returns (m: nat)
    requires Wrote(buf, b, Content(buf), off, done, n) && Room(buf, off, n + |IfMore(more, s)|)
             && (buf != null ==> |b| == buf.Length)
    modifies Target(buf)
    ensures Wrote(buf, b, Content(buf), off, done + IfMore(more, s), m)
  {
    m := n;
    assert done + [] == done;
    if more {
      m := Put(buf, off, b, done, n, s);
    }
  }

  /** One round of the loop over an array. */
  method PutItem(buf: array?<Byte>, off: nat, ghost b: seq<Byte>, ghost done: seq<Byte>, n: nat, st: Style, v: Value,
                 level: nat, more: bool)
    returns (m: nat)
    requires Wrote(buf, b, Content(buf), off, done, n) && (buf != null ==> |b| == buf.Length)
    requires Room(buf, off, n + |MemberText(st, level, Print(st, v, level + 1), more)|)
    modifies Target(buf)
    ensures Wrote(buf, b, Content(buf), off, done + MemberText(st, level, Print(st, v, level + 1), more), m)
    decreases Size(v), 1
  {
    ghost var i, x, c, e := IfPretty(st, Indent(level + 1)), Print(st, v, level + 1), IfMore(more, [COMMA]),
              IfMore(st.pretty, [NEWLINE]);
    hide Indent, IfPretty, Print, IfMore, Overwrite, Size;
    Regroup(done, i, x, c, e);
    m := PutIndent(buf, off, b, done, n, st, level + 1);
    m := Serialize(buf, off, b, done + i, m, st, v, level + 1);
    m := PutIf(buf, off, b, done + i + x, m, more, [COMMA]);
    m := PutIf(buf, off, b, done + i + x + c, m, st.pretty, [NEWLINE]);
  }

  /** The key of a field, its colon, and its value. */
  method PutKeyAndValue(buf: array?<Byte>, off: nat, ghost b: seq<Byte>, ghost done: seq<Byte>, n: nat, st: Style,
                        key: seq<Byte>, v: Value, level: nat)
    returns (m: nat)
    requires Wrote(buf, b, Content(buf), off, done, n) && (buf != null ==> |b| == buf.Length)
    requires Room(buf, off, n + |FieldText(st, key, Print(st, v, level))|)
    modifies Target(buf)
    ensures Wrote(buf, b, Content(buf), off, done + FieldText(st, key, Print(st, v, level)), m)
    decreases Size(v), 1
  {
    ghost var k, x, e := PrintString(key, st.slashes), Print(st, v, level), IfMore(st.pretty, [SPACE]);
    assert IfPretty(st, [SPACE]) == e;
    hide IfPretty, Print, PrintString, IfMore, Overwrite, Size, Cat4;
    Regroup(done, k, [COLON], e, x);
    m := PutString(buf, off, b, done, n, key, st.slashes);
    m := Put(buf, off, b, done + k, m, [COLON]);
    m := PutIf(buf, off, b, done + k + [COLON], m, st.pretty, [SPACE]);
    m := Serialize(buf, off, b, done + k + [COLON] + e, m, st, v, level);
  }

  /** One round of the loop over an object. */
  method PutField(buf: array?<Byte>, off: nat, ghost b: seq<Byte>, ghost done: seq<Byte>, n: nat, st: Style,
                  key: seq<Byte>, v: Value, level: nat, more: bool)
    returns (m: nat)
    requires Wrote(buf, b, Content(buf), off, done, n) && (buf != null ==> |b| == buf.Length)
    requires Room(buf, off, n + |MemberText(st, level, FieldText(st, key, Print(st, v, level + 1)), more)|)
    modifies Target(buf)
    ensures Wrote(buf, b, Content(buf), off,
                  done + MemberText(st, level, FieldText(st, key, Print(st, v, level + 1)), more), m)
    decreases Size(v), 2
  {
    ghost var i, x := IfPretty(st, Indent(level + 1)), FieldText(st, key, Print(st, v, level + 1));
    ghost var c, e := IfMore(more, [COMMA]), IfMore(st.pretty, [NEWLINE]);
    hide Indent, IfPretty, Print, FieldText, IfMore, Overwrite, Size;
    Regroup(done, i, x, c, e);
    m := PutIndent(buf, off, b, done, n, st, level + 1);
    m := PutKeyAndValue(buf, off, b, done + i, m, st, key, v, level + 1);
    m := PutIf(buf, off, b, done + i + x, m, more, [COMMA]);
    m := PutIf(buf, off, b, done + i + x + c, m, st.pretty, [NEWLINE]);
  }

  /** The loop over an array, and its closing bracket. */
  method PutItems(buf: array?<Byte>, off: nat, ghost b: seq<Byte>, ghost done: seq<Byte>, n: nat, st: Style,
                  items: Items, level: nat) returns (m: nat)
    requires Wrote(buf, b, Content(buf), off, done, n) && (buf != null ==> |b| == buf.Length)
    requires Room(buf, off, n + |PrintItems(st, items, level)|)
    modifies Target(buf)
    ensures Wrote(buf, b, Content(buf), off, done + PrintItems(st, items, level), m)
    decreases SizeItems(items), 3
  {
    hide Indent, IfPretty, Print, PrintItems, MemberText, Overwrite, Size, SizeItems;
    m := n;
    var rest := items;
    ghost var d := done;
    while rest.Item?
      invariant Wrote(buf, b, Content(buf), off, d, m)
      invariant d + PrintItems(st, rest, level) == done + PrintItems(st, items, level)
      invariant |d| + |PrintItems(st, rest, level)| == |done| + |PrintItems(st, items, level)|
      invariant SizeItems(rest) <= SizeItems(items)
      decreases SizeItems(rest)
    {
      ItemSplit(st, rest, level, d);
      m := PutItem(buf, off, b, d, m, st, rest.head, level, rest.tail.Item?);
      d := d + MemberText(st, level, Print(st, rest.head, level + 1), rest.tail.Item?);
      rest := rest.tail;
    }
    ItemSplit(st, rest, level, d);
    Assoc(d, IfPretty(st, Indent(level)), [CLOSE_ARRAY]);
    m := PutIndent(buf, off, b, d, m, st, level);
    m := Put(buf, off, b, d + IfPretty(st, Indent(level)), m, [CLOSE_ARRAY]);
  }

  /** The loop over an object, and its closing brace. */
  method PutFields(buf: array?<Byte>, off: nat, ghost b: seq<Byte>, ghost done: seq<Byte>, n: nat, st: Style,
                   fields: Fields, level: nat) returns (m: nat)
    requires Wrote(buf, b, Content(buf), off, done, n) && (buf != null ==> |b| == buf.Length)
    requires Room(buf, off, n + |PrintFields(st, fields, level)|)
    modifies Target(buf)
    ensures Wrote(buf, b, Content(buf), off, done + PrintFields(st, fields, level), m)
    decreases SizeFields(fields), 3
  {
    hide Indent, IfPretty, Print, PrintFields, FieldText, MemberText, Overwrite, Size, SizeFields;
    m := n;
    var rest := fields;
    ghost var d := done;
    while rest.Field?
      invariant Wrote(buf, b, Content(buf), off, d, m)
      invariant d + PrintFields(st, rest, level) == done + PrintFields(st, fields, level)
      invariant |d| + |PrintFields(st, rest, level)| == |done| + |PrintFields(st, fields, level)|
      invariant SizeFields(rest) <= SizeFields(fields)
      decreases SizeFields(rest)
    {
      FieldSplit(st, rest, level, d);
      m := PutField(buf, off, b, d, m, st, rest.key, rest.val, level, rest.rest.Field?);
      d := d + MemberText(st, level, FieldText(st, rest.key, Print(st, rest.val, level + 1)), rest.rest.Field?);
      rest := rest.rest;
    }
    FieldSplit(st, rest, level, d);
    Assoc(d, IfPretty(st, Indent(level)), [CLOSE_OBJECT]);
    m := PutIndent(buf, off, b, d, m, st, level);
    m := Put(buf, off, b, d + IfPretty(st, Indent(level)), m, [CLOSE_OBJECT]);
  }

  /** The brackets of an empty list: the newline and the indentation are left out. */
  method PutEmpty(buf: array?<Byte>, off: nat, ghost b: seq<Byte>, ghost done: seq<Byte>, n: nat, open: Byte,
                  close: Byte) returns (m: nat)
    requires Wrote(buf, b, Content(buf), off, done, n) && Room(buf, off, n + |[open] + [close]|)
             && (buf != null ==> |b| == buf.Length)
    modifies Target(buf)
    ensures Wrote(buf, b, Content(buf), off, done + ([open] + [close]), m)
  {
    hide Overwrite;
    Assoc(done, [open], [close]);
    m := Put(buf, off, b, done, n, [open]);
    m := Put(buf, off, b, done + [open], m, [close]);
  }

  /** An array that is not empty. */
  method PutArray(buf: array?<Byte>, off: nat, ghost b: seq<Byte>, ghost done: seq<Byte>, n: nat, st: Style,
                  items: Items, level: nat) returns (m: nat)
    requires Wrote(buf, b, Content(buf), off, done, n) && (buf != null ==> |b| == buf.Length)
    requires Room(buf, off, n + |Cat3([OPEN_ARRAY], IfPretty(st, [NEWLINE]), PrintItems(st, items, level))|)
    modifies Target(buf)
    ensures Wrote(buf, b, Content(buf), off,
                  done + Cat3([OPEN_ARRAY], IfPretty(st, [NEWLINE]), PrintItems(st, items, level)), m)
    decreases SizeItems(items), 4
  {
    ghost var e := IfMore(st.pretty, [NEWLINE]);
    assert IfPretty(st, [NEWLINE]) == e;
    Regroup3(done, [OPEN_ARRAY], e, PrintItems(st, items, level));
    hide IfMore, IfPretty, PrintItems, Overwrite, Cat3;
    m := Put(buf, off, b, done, n, [OPEN_ARRAY]);
    m := PutIf(buf, off, b, done + [OPEN_ARRAY], m, st.pretty, [NEWLINE]);
    m := PutItems(buf, off, b, done + [OPEN_ARRAY] + e, m, st, items, level);
  }

  /** An object that is not empty. */
  method PutObject(buf: array?<Byte>, off: nat, ghost b: seq<Byte>, ghost done: seq<Byte>, n: nat, st: Style,
                   fields: Fields, level: nat) returns (m: nat)
    requires Wrote(buf, b, Content(buf), off, done, n) && (buf != null ==> |b| == buf.Length)
    requires Room(buf, off, n + |Cat3([OPEN_OBJECT], IfPretty(st, [NEWLINE]), PrintFields(st, fields, level))|)
    modifies Target(buf)
    ensures Wrote(buf, b, Content(buf), off,
                  done + Cat3([OPEN_OBJECT], IfPretty(st, [NEWLINE]), PrintFields(st, fields, level)), m)
    decreases SizeFields(fields), 4
  {
    ghost var e := IfMore(st.pretty, [NEWLINE]);
    assert IfPretty(st, [NEWLINE]) == e;
    Regroup3(done, [OPEN_OBJECT], e, PrintFields(st, fields, level));
    hide IfMore, IfPretty, PrintFields, Overwrite, Cat3;
    m := Put(buf, off, b, done, n, [OPEN_OBJECT]);
    m := PutIf(buf, off, b, done + [OPEN_OBJECT], m, st.pretty, [NEWLINE]);
    m := PutFields(buf, off, b, done + [OPEN_OBJECT] + e, m, st, fields, level);
  }

  lemma {:induction false} Regroup3(done: seq<Byte>, a: seq<Byte>, b: seq<Byte>, c: seq<Byte>)
    ensures done + a + b + c == done + Cat3(a, b, c)
  {
    assert a + b + c == a + (b + c);
  }

  /** json_serialize_to_buffer_r: the text of the value goes after the n bytes of done; with no
      buffer only its length is found. */
  method Serialize(buf: array?<Byte>, off: nat, ghost b: seq<Byte>, ghost done: seq<Byte>, n: nat, st: Style,
                   v: Value, level: nat) returns (m: nat)
    requires Wrote(buf, b, Content(buf), off, done, n) && Room(buf, off, n + |Print(st, v, level)|)
             && (buf != null ==> |b| == buf.Length)
    modifies Target(buf)
    ensures Wrote(buf, b, Content(buf), off, done + Print(st, v, level), m)
    decreases Size(v), 0
  {
    hide Wrote, Room, PrintItems, PrintFields, PrintString, Cat3, IfPretty, Overwrite;
    match v {
      case Array(items) =>
        if items.NoItem? {
          m := PutEmpty(buf, off, b, done, n, OPEN_ARRAY, CLOSE_ARRAY);
        } else {
          m := PutArray(buf, off, b, done, n, st, items, level);
        }
      case Object(fields) =>
        if fields.NoField? {
          m := PutEmpty(buf, off, b, done, n, OPEN_OBJECT, CLOSE_OBJECT);
        } else {
          m := PutObject(buf, off, b, done, n, st, fields, level);
        }
      case Str(s) => m := PutString(buf, off, b, done, n, s, st.slashes);
      case Bool(t) => m := Put(buf, off, b, done, n, if t then TRUE_TEXT else FALSE_TEXT);
      case Number(k) => m := Put(buf, off, b, done, n, st.numbers.show(k));
      case Null => m := Put(buf, off, b, done, n, NULL_TEXT);
    }
  }

  /** json_serialize_to_string: the pass without a buffer gives the size, and the second pass fills
      exactly that many bytes before the final zero with the text of the value. */
  method SerializeToString(st: Style, v: Value) returns (text: array<Byte>)
    ensures text[..] == Print(st, v, 0) + [0]
  {
    var z: seq<Byte> := [];
    assert z + Print(st, v, 0) == Print(st, v, 0);
    Nothing(null, [], 0);
    var size := Serialize(null, 0, [], [], 0, st, v, 0);
    text := new Byte[size + 1](_ => 0);
    ghost var b := text[..];
    Nothing(text, b, 0);
    var written := Serialize(text, 0, b, [], 0, st, v, 0);
    assert text[..] == Overwrite(b, 0, Print(st, v, 0));
    assert b[size..] == [0];
  }
}
