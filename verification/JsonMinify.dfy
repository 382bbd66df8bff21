/** cJSON_Minify: white space and comments are removed in place, string literals are left alone.
  Minifying formatted text gives the unformatted text.
*/
module JsonMinify {
  import opened Json
  import opened JsonPrint
  import opened JsonRoundTrip

  /** The result, unless the scan runs past the end of the text. */
  datatype Minified = Overrun | Text(t: string)

  function Then(t: string, m: Minified): Minified { if m.Overrun? then Overrun else Text(t + m.t) }

  predicate IsSpace(c: char) { c == ' ' || c == '\t' || c == '\r' || c == '\n' }

  /** Where a comment to the end of the line stops. */
  function LineEnd(s: string, i: nat): (j: nat)
    requires i <= |s|
    ensures i <= j <= |s|
    decreases |s| - i
  {
    if At(s, i) == NUL || At(s, i) == '\n' then i else LineEnd(s, i + 1)
  }

  /** Where the end of a multi-line comment stands, or the end of the text. */
  function CommentEnd(s: string, i: nat): (j: nat)
    requires i <= |s|
    ensures i <= j <= |s|
    decreases |s| - i
  {
    if At(s, i) == NUL || (At(s, i) == '*' && At(s, i + 1) == '/') then i else CommentEnd(s, i + 1)
  }

  /** Where the quote that ends a literal stands; at or past the end of the text if there is none. */
  function LiteralEnd(s: string, i: nat): (j: nat)
    ensures i <= j
    decreases |s| - i
  {
    if At(s, i) == NUL || At(s, i) == '\"' then i
    else LiteralEnd(s, if At(s, i) == '\\' then i + 2 else i + 1)
  }

  /** What is left of the text from `i` on. */
  function Minify(s: string, i: nat): Minified
    requires NUL !in s
    decreases |s| - i
  {
    if i > |s| then Overrun
    else if i == |s| then Text("")
    else if IsSpace(s[i]) then Minify(s, i + 1)
    else if s[i] == '/' && At(s, i + 1) == '/' then Minify(s, LineEnd(s, i + 2))
    else if s[i] == '/' && At(s, i + 1) == '*' then Minify(s, CommentEnd(s, i + 1) + 2)
    else if s[i] == '\"' then
      var e := LiteralEnd(s, i + 1);
      if e >= |s| then Overrun else Then(s[i..e + 1], Minify(s, e + 1))
    else Then([s[i]], Minify(s, i + 1))
  }

  // ---------- minifying what was printed ----------

  lemma {:induction false} MinifySpace(s: string, i: nat, t: string)
    requires NUL !in s && Has(s, i, t) && forall k :: 0 <= k < |t| ==> IsSpace(t[k])
    ensures Minify(s, i) == Minify(s, i + |t|)
    decreases |t|
  {
    if t != "" {
      HasSplit(s, i, [t[0]], t[1..]);
      assert [t[0]] + t[1..] == t;
      HasAt(s, i, t, 0);
      MinifySpace(s, i + 1, t[1..]);
    }
  }

  predicate IsPlain(c: char) { !IsSpace(c) && c != '/' && c != '\"' }

  lemma ThenThen(a: string, b: string, m: Minified)
    ensures Then(a, Then(b, m)) == Then(a + b, m) && Then("", m) == m
  {
    if m.Text? {
      Assoc(a, b, m.t);
      assert "" + m.t == m.t;
    }
  }

  lemma {:induction false} MinifyPlain(s: string, i: nat, t: string)
    requires NUL !in s && Has(s, i, t) && forall k :: 0 <= k < |t| ==> IsPlain(t[k])
    ensures Minify(s, i) == Then(t, Minify(s, i + |t|))
    decreases |t|
  {
    var m := Minify(s, i + |t|);
    ThenThen("", "", m);
    if t != "" {
      HasSplit(s, i, [t[0]], t[1..]);
      assert [t[0]] + t[1..] == t;
      HasAt(s, i, t, 0);
      MinifyPlain(s, i + 1, t[1..]);
      ThenThen([t[0]], t[1..], m);
    }
  }

  lemma {:induction false} LiteralPasses(s: string, i: nat, t: string)
    requires IsCString(t) && Has(s, i, Escape(t))
    ensures LiteralEnd(s, i) == LiteralEnd(s, i + |Escape(t)|)
    decreases |t|
  {
    hide *;
    if t == "" {
      EscapeEmpty();
    } else {
      TailIsCString(t);
      EscapeText(t);
      HasSplit(s, i, EscapeChar(t[0]), Escape(t[1..]));
      LiteralPassesOne(s, i, t[0]);
      LiteralPasses(s, i + |EscapeChar(t[0])|, t[1..]);
    }
  }

  lemma LiteralOn(s: string, i: nat)
    requires At(s, i) != NUL && At(s, i) != '\"'
    ensures LiteralEnd(s, i) == LiteralEnd(s, if At(s, i) == '\\' then i + 2 else i + 1)
  {
  }

  lemma LiteralPassesOne(s: string, i: nat, c: char)
    requires NUL < c < 256 as char && Has(s, i, EscapeChar(c))
    ensures LiteralEnd(s, i) == LiteralEnd(s, i + |EscapeChar(c)|)
  {
    hide LiteralEnd, Has;
    var t := EscapeChar(c);
    HasAt(s, i, t, 0);
    LiteralOn(s, i);
    if |t| > 1 { HasAt(s, i, t, 1); }
    if |t| == 6 {
      HasAt(s, i, t, 2);
      HasAt(s, i, t, 3);
      HasAt(s, i, t, 4);
      HasAt(s, i, t, 5);
      LiteralOn(s, i + 2);
      LiteralOn(s, i + 3);
      LiteralOn(s, i + 4);
      LiteralOn(s, i + 5);
    }
  }

  lemma MinifyQuote(s: string, i: nat, t: string)
    requires NUL !in s && IsCString(t) && Has(s, i, Quote(t))
    ensures Minify(s, i) == Then(Quote(t), Minify(s, i + |Quote(t)|))
  {
    hide *;
    var e := i + 1 + |Escape(t)|;
    QuoteText(t);
    HasSplit(s, i, "\"" + Escape(t), "\"");
    HasSplit(s, i, "\"", Escape(t));
    HasAt(s, i, "\"", 0);
    HasAt(s, e, "\"", 0);
    LiteralPasses(s, i + 1, t);
    LiteralStops(s, e);
    HasSlice(s, i, Quote(t));
    MinifyCases(s, i);
  }

  lemma LiteralStops(s: string, i: nat)
    requires At(s, i) == '\"'
    ensures LiteralEnd(s, i) == i
  {
  }

  lemma HasSlice(s: string, i: nat, t: string)
    requires Has(s, i, t)
    ensures i + |t| <= |s| && s[i..i + |t|] == t
  {
  }

  // ---------- values ----------

  /** Minifying turns text `t` that stands at `i` into `u` and goes on behind it. */
  predicate Turns(s: string, i: nat, t: string, u: string)
    requires NUL !in s
  {
    Minify(s, i) == Then(u, Minify(s, i + |t|))
  }

  lemma TurnsJoin(s: string, i: nat, a: string, a': string, b: string, b': string)
    requires NUL !in s && Turns(s, i, a, a') && Turns(s, i + |a|, b, b')
    ensures Turns(s, i, a + b, a' + b')
  {
    ThenThen(a', b', Minify(s, i + |a| + |b|));
  }

  lemma SpaceTurns(s: string, i: nat, t: string)
    requires NUL !in s && Has(s, i, t) && forall k :: 0 <= k < |t| ==> IsSpace(t[k])
    ensures Turns(s, i, t, "")
  {
    MinifySpace(s, i, t);
    ThenThen("", "", Minify(s, i + |t|));
  }

  lemma IndentTurns(s: string, i: nat, depth: int, fmt: bool)
    requires NUL !in s
    ensures Has(s, i, Indent(depth, fmt)) ==> Turns(s, i, Indent(depth, fmt), Indent(depth, false))
    ensures Has(s, i, NewLine(fmt)) ==> Turns(s, i, NewLine(fmt), NewLine(false))
  {
    if Has(s, i, Indent(depth, fmt)) { SpaceTurns(s, i, Indent(depth, fmt)); }
    if Has(s, i, NewLine(fmt)) { SpaceTurns(s, i, NewLine(fmt)); }
  }

  /** The punctuation: a plain character, then white space. */
  lemma MarkTurns(s: string, i: nat, mark: char, space: string)
    requires NUL !in s && IsPlain(mark) && Has(s, i, [mark] + space) && forall k :: 0 <= k < |space| ==> IsSpace(space[k])
    ensures Turns(s, i, [mark] + space, [mark])
  {
    HasSplit(s, i, [mark], space);
    MinifyPlain(s, i, [mark]);
    SpaceTurns(s, i + 1, space);
    TurnsJoin(s, i, [mark], [mark], space, "");
    assert [mark] + "" == [mark];
  }

  lemma MarksTurn(s: string, i: nat, last: bool, fmt: bool)
    requires NUL !in s
    ensures Has(s, i, Separator(last, fmt)) ==> Turns(s, i, Separator(last, fmt), Separator(last, false))
    ensures Has(s, i, Colon(fmt)) ==> Turns(s, i, Colon(fmt), Colon(false))
    ensures Has(s, i, FieldEnd(last, fmt)) ==> Turns(s, i, FieldEnd(last, fmt), FieldEnd(last, false))
  {
    if Has(s, i, Separator(last, fmt)) {
      if last { SpaceTurns(s, i, ""); } else { assert ", " == "," + " " && "," + "" == ","; MarkTurns(s, i, ',', if fmt then " " else ""); }
    }
    if Has(s, i, Colon(fmt)) {
      assert ":\t" == ":" + "\t" && ":" + "" == ":";
      MarkTurns(s, i, ':', if fmt then "\t" else "");
    }
    if Has(s, i, FieldEnd(last, fmt)) {
      if last { SpaceTurns(s, i, NewLine(fmt)); } else { assert "," + "" == ","; MarkTurns(s, i, ',', NewLine(fmt)); }
    }
  }

  lemma LeafTurns(v: Value, depth: nat, fmt: bool, s: string, i: nat)
    requires NUL !in s && Printable(v) && !v.Array? && !v.Object? && Has(s, i, Print(v, depth, fmt))
    ensures Turns(s, i, Print(v, depth, fmt), Print(v, depth, false))
  {
    hide Minify, Has, Turns, Quote;
    match v
    case String(t) => QuoteTurns(s, i, t);
    case _ => PlainTurns(s, i, Print(v, depth, fmt));
  }

  lemma {:induction false} PrintTurns(v: Value, depth: nat, fmt: bool, s: string, i: nat)
    requires NUL !in s && Printable(v) && Has(s, i, Print(v, depth, fmt))
    ensures Turns(s, i, Print(v, depth, fmt), Print(v, depth, false))
    decreases v, 1
  {
    match v
    case Array(items) => ArrayTurns(items, depth, fmt, s, i);
    case Object(fields) => ObjectTurns(fields, depth, fmt, s, i);
    case _ => LeafTurns(v, depth, fmt, s, i);
  }

  lemma PlainTurns(s: string, i: nat, t: string)
    requires NUL !in s && Has(s, i, t) && forall k :: 0 <= k < |t| ==> IsPlain(t[k])
    ensures Turns(s, i, t, t)
  {
    MinifyPlain(s, i, t);
  }

  lemma {:induction false} ArrayTurns(items: Items, depth: nat, fmt: bool, s: string, i: nat)
    requires NUL !in s && PrintableItems(items) && Has(s, i, Print(Array(items), depth, fmt))
    ensures Turns(s, i, Print(Array(items), depth, fmt), Print(Array(items), depth, false))
    decreases items, 1
  {
    hide PrintItems, Minify, Has, Turns;
    var t, u := PrintItems(items, depth + 1, fmt), PrintItems(items, depth + 1, false);
    HasSplit(s, i, "[", t + "]");
    HasSplit(s, i + 1, t, "]");
    PlainTurns(s, i, "[");
    PlainTurns(s, i + 1 + |t|, "]");
    ItemsTurn(items, depth + 1, fmt, s, i + 1);
    TurnsJoin(s, i + 1, t, u, "]", "]");
    TurnsJoin(s, i, "[", "[", t + "]", u + "]");
  }

  lemma NoItemsTurn(depth: nat, fmt: bool, s: string, i: nat)
    requires NUL !in s && Has(s, i, PrintItems(NoItem, depth, fmt))
    ensures Turns(s, i, PrintItems(NoItem, depth, fmt), PrintItems(NoItem, depth, false))
  {
    SpaceTurns(s, i, "");
  }

  lemma {:induction false} ItemsTurn(items: Items, depth: nat, fmt: bool, s: string, i: nat)
    requires NUL !in s && PrintableItems(items) && Has(s, i, PrintItems(items, depth, fmt))
    ensures Turns(s, i, PrintItems(items, depth, fmt), PrintItems(items, depth, false))
    decreases items, 0
  {
    hide *;
    if items.NoItem? {
      NoItemsTurn(depth, fmt, s, i);
    } else {
      var last := items.next.NoItem?;
      var a, b, c := Print(items.value, depth, fmt), Separator(last, fmt), PrintItems(items.next, depth, fmt);
      var a', b', c' := Print(items.value, depth, false), Separator(last, false), PrintItems(items.next, depth, false);
      PrintableItem(items);
      ItemsText(items, depth, fmt);
      ItemsText(items, depth, false);
      HasSplit(s, i, a, b + c);
      HasSplit(s, i + |a|, b, c);
      PrintTurns(items.value, depth, fmt, s, i);
      MarksTurn(s, i + |a|, last, fmt);
      ItemsTurn(items.next, depth, fmt, s, i + |a| + |b|);
      TurnsJoin(s, i + |a|, b, b', c, c');
      TurnsJoin(s, i, a, a', b + c, b' + c');
    }
  }

  lemma {:induction false} ObjectTurns(fields: Fields, depth: nat, fmt: bool, s: string, i: nat)
    requires NUL !in s && PrintableFields(fields) && Has(s, i, Print(Object(fields), depth, fmt))
    ensures Turns(s, i, Print(Object(fields), depth, fmt), Print(Object(fields), depth, false))
    decreases fields, 1
  {
    if fields.NoField? {
      EmptyObjectTurns(depth, fmt, s, i);
    } else {
      FullObjectTurns(fields, depth, fmt, s, i);
    }
  }

  /** The text of an object around its fields. */
  function Braces(body: string, d: int, fmt: bool): string { "{" + (NewLine(fmt) + (body + (Indent(d, fmt) + "}"))) }

  lemma BracesTurn(s: string, i: nat, body: string, body': string, d: int, fmt: bool)
    requires NUL !in s && Has(s, i, Braces(body, d, fmt)) && Turns(s, i + 1 + |NewLine(fmt)|, body, body')
    ensures Turns(s, i, Braces(body, d, fmt), Braces(body', d, false))
  {
    hide NewLine, Indent, Minify, Has, Turns;
    var b := i + 1 + |NewLine(fmt)|;
    var e := b + |body|;
    var n, n', t, t' := NewLine(fmt), NewLine(false), Indent(d, fmt), Indent(d, false);
    HasSplit(s, i, "{", n + (body + (t + "}")));
    HasSplit(s, i + 1, n, body + (t + "}"));
    HasSplit(s, b, body, t + "}");
    HasSplit(s, e, t, "}");
    PlainTurns(s, i, "{");
    IndentTurns(s, i + 1, d, fmt);
    IndentTurns(s, e, d, fmt);
    PlainTurns(s, e + |t|, "}");
    TurnsJoin(s, e, t, t', "}", "}");
    TurnsJoin(s, b, body, body', t + "}", t' + "}");
    TurnsJoin(s, i + 1, n, n', body + (t + "}"), body' + (t' + "}"));
    TurnsJoin(s, i, "{", "{", n + (body + (t + "}")), n' + (body' + (t' + "}")));
  }

  lemma EmptyObjectTurns(depth: nat, fmt: bool, s: string, i: nat)
    requires NUL !in s && Has(s, i, Print(Object(NoField), depth, fmt))
    ensures Turns(s, i, Print(Object(NoField), depth, fmt), Print(Object(NoField), depth, false))
  {
    hide *;
    NoBody(depth, fmt);
    NoBody(depth, false);
    BodyPlace(s, i, "", depth - 1, fmt);
    SpaceTurns(s, i + 1 + |NewLine(fmt)|, "");
    BracesTurn(s, i, "", "", depth - 1, fmt);
  }

  lemma NoBody(depth: nat, fmt: bool)
    ensures Print(Object(NoField), depth, fmt) == Braces("", depth - 1, fmt)
  {
    assert "" + (Indent(depth - 1, fmt) + "}") == Indent(depth - 1, fmt) + "}";
  }

  lemma WithBody(fields: Fields, depth: nat, fmt: bool)
    requires fields.Field?
    ensures Print(Object(fields), depth, fmt) == Braces(PrintFields(fields, depth + 1, fmt), depth, fmt)
  {
  }

  lemma {:induction false} FullObjectTurns(fields: Fields, depth: nat, fmt: bool, s: string, i: nat)
    requires NUL !in s && fields.Field? && PrintableFields(fields) && Has(s, i, Print(Object(fields), depth, fmt))
    ensures Turns(s, i, Print(Object(fields), depth, fmt), Print(Object(fields), depth, false))
    decreases fields, 1, 0
  {
    hide *;
    var body, body' := PrintFields(fields, depth + 1, fmt), PrintFields(fields, depth + 1, false);
    WithBody(fields, depth, fmt);
    WithBody(fields, depth, false);
    BodyPlace(s, i, body, depth, fmt);
    FieldsTurn(fields, depth + 1, fmt, s, i + 1 + |NewLine(fmt)|);
    BracesTurn(s, i, body, body', depth, fmt);
  }

  lemma BodyPlace(s: string, i: nat, body: string, d: int, fmt: bool)
    requires Has(s, i, Braces(body, d, fmt))
    ensures Has(s, i + 1 + |NewLine(fmt)|, body)
  {
    HasSplit(s, i, "{", NewLine(fmt) + (body + (Indent(d, fmt) + "}")));
    HasSplit(s, i + 1, NewLine(fmt), body + (Indent(d, fmt) + "}"));
    HasSplit(s, i + 1 + |NewLine(fmt)|, body, Indent(d, fmt) + "}");
  }

  lemma NoFieldsTurn(depth: nat, fmt: bool, s: string, i: nat)
    requires NUL !in s && Has(s, i, PrintFields(NoField, depth, fmt))
    ensures Turns(s, i, PrintFields(NoField, depth, fmt), PrintFields(NoField, depth, false))
  {
    SpaceTurns(s, i, "");
  }

  lemma {:induction false} FieldsTurn(fields: Fields, depth: nat, fmt: bool, s: string, i: nat)
    requires NUL !in s && PrintableFields(fields) && Has(s, i, PrintFields(fields, depth, fmt))
    ensures Turns(s, i, PrintFields(fields, depth, fmt), PrintFields(fields, depth, false))
    decreases fields, 0
  {
    hide *;
    if fields.NoField? {
      NoFieldsTurn(depth, fmt, s, i);
    } else {
      var last := fields.next.NoField?;
      var a, b, c, d := Indent(depth, fmt), Quote(fields.name), Colon(fmt), Print(fields.value, depth, fmt);
      var e, r := FieldEnd(last, fmt), PrintFields(fields.next, depth, fmt);
      var a', c', d' := Indent(depth, false), Colon(false), Print(fields.value, depth, false);
      var e', r' := FieldEnd(last, false), PrintFields(fields.next, depth, false);
      var j := i + |a| + |b| + |c|;
      PrintableField(fields);
      FieldsText(fields, depth, fmt);
      FieldsText(fields, depth, false);
      HasSplitMany(s, i, a, b, c, d, e, r);
      IndentTurns(s, i, depth, fmt);
      QuoteTurns(s, i + |a|, fields.name);
      MarksTurn(s, i + |a| + |b|, last, fmt);
      PrintTurns(fields.value, depth, fmt, s, j);
      MarksTurn(s, j + |d|, last, fmt);
      FieldsTurn(fields.next, depth, fmt, s, j + |d| + |e|);
      TurnsJoin(s, j + |d|, e, e', r, r');
      TurnsJoin(s, j, d, d', e + r, e' + r');
      TurnsJoin(s, i + |a| + |b|, c, c', d + (e + r), d' + (e' + r'));
      TurnsJoin(s, i + |a|, b, b, c + (d + (e + r)), c' + (d' + (e' + r')));
      TurnsJoin(s, i, a, a', b + (c + (d + (e + r))), b + (c' + (d' + (e' + r'))));
    }
  }

  lemma QuoteTurns(s: string, i: nat, t: string)
    requires NUL !in s && IsCString(t) && Has(s, i, Quote(t))
    ensures Turns(s, i, Quote(t), Quote(t))
  {
    MinifyQuote(s, i, t);
  }

  /** cJSON_Minify of what cJSON_Print printed is what cJSON_PrintUnformatted prints. */
  lemma MinifyPrinted(v: Value, fmt: bool)
    requires Printable(v)
    ensures NUL !in Print(v, 0, fmt) && Minify(Print(v, 0, fmt), 0) == Text(Print(v, 0, false))
  {
    var s := Print(v, 0, fmt);
    PrintNoNul(v, 0, fmt);
    assert Has(s, 0, s);
    PrintTurns(v, 0, fmt, s, 0);
    assert Print(v, 0, false) + "" == Print(v, 0, false);
  }

  // ---------- in place ----------

  /** What has not been read yet is still there. */
  ghost predicate Unread(json: array<char>, from: nat, s: string)
    reads json
  {
    from <= |s| < json.Length && json[|s|] == NUL && forall k :: from <= k < |s| ==> json[k] == s[k]
  }

  /** *into++ = *json++: the copy of the text from `from0` on, which follows `base`, grows by a character. */
  method CopyChar(json: array<char>, into: nat, from: nat, ghost s: string, ghost base: string, ghost from0: nat)
    requires into <= from < |s| && Unread(json, from, s) && from0 <= from && json[..into] == base + s[from0..from]
    modifies json
    ensures Unread(json, from + 1, s) && json[..into + 1] == base + s[from0..from + 1]
  {
    json[into] := json[from];
    assert s[from0..from + 1] == s[from0..from] + [s[from]];
    Assoc(base, s[from0..from], [s[from]]);
  }

  /** The body of the loop that copies a literal: one character, or a backslash and the one after it. */
  method CopyPart(json: array<char>, into0: nat, from0: nat, ghost s: string, ghost base: string, ghost start: nat)
    returns (into: nat, from: nat)
    requires into0 <= from0 < |s| && Unread(json, from0, s) && start <= from0 && json[..into0] == base + s[start..from0]
    requires s[from0] == '\\' ==> from0 + 1 < |s|
    modifies json
    ensures from == (if s[from0] == '\\' then from0 + 2 else from0 + 1) && into == into0 + (from - from0)
    ensures Unread(json, from, s) && json[..into] == base + s[start..from]
  {
    into, from := into0, from0;
    if json[from] == '\\' {
      CopyChar(json, into, from, s, base, start);
      into, from := into + 1, from + 1;
    }
    CopyChar(json, into, from, s, base, start);
    into, from := into + 1, from + 1;
  }

  lemma LiteralEndStep(s: string, i: nat)
    requires LiteralEnd(s, i) < |s| && At(s, i) != NUL && At(s, i) != '\"'
    ensures var j := if At(s, i) == '\\' then i + 2 else i + 1; j <= LiteralEnd(s, i) == LiteralEnd(s, j)
  {
  }

  /** The branch that copies a string literal. */
  method CopyLiteral(json: array<char>, into0: nat, from0: nat, ghost s: string) returns (into: nat, from: nat)
    requires into0 <= from0 < |s| && NUL !in s && Unread(json, from0, s) && LiteralEnd(s, from0 + 1) < |s|
    modifies json
    ensures from == LiteralEnd(s, from0 + 1) + 1 && into == into0 + (from - from0) <= from <= |s|
    ensures Unread(json, from, s) && json[..into] == old(json[..into0]) + s[from0..from]
  {
    ghost var e, base := LiteralEnd(s, from0 + 1), json[..into0];
    into, from := into0, from0;
    assert base + s[from0..from0] == base;
    CopyChar(json, into, from, s, base, from0);
    into, from := into + 1, from + 1;
    while json[from] != NUL && json[from] != '\"'
      invariant from0 < from <= e == LiteralEnd(s, from) && into == into0 + (from - from0)
      invariant Unread(json, from, s) && json[..into] == base + s[from0..from]
      decreases e - from
    {
      LiteralEndStep(s, from);
      into, from := CopyPart(json, into, from, s, base, from0);
    }
    CopyChar(json, into, from, s, base, from0);
    into, from := into + 1, from + 1;
  }

  /** What has been written, and what will be, is the minified text. */
  ghost predicate Minifying(json: array<char>, into: nat, from: nat, s: string, goal: string)
    requires NUL !in s
    reads json
  {
    into <= from && Unread(json, from, s) && Then(json[..into], Minify(s, from)) == Text(goal)
  }

  /** What becomes of the text from `i` on, by the character there. */
  lemma MinifyCases(s: string, i: nat)
    requires NUL !in s && i < |s|
    ensures IsSpace(s[i]) ==> Minify(s, i) == Minify(s, i + 1)
    ensures s[i] == '/' && At(s, i + 1) == '/' ==> Minify(s, i) == Minify(s, LineEnd(s, i + 2))
    ensures s[i] == '/' && At(s, i + 1) == '*' ==> Minify(s, i) == Minify(s, CommentEnd(s, i + 1) + 2)
    ensures s[i] == '\"' && LiteralEnd(s, i + 1) >= |s| ==> Minify(s, i) == Overrun
    ensures s[i] == '\"' && LiteralEnd(s, i + 1) < |s| ==>
      Minify(s, i) == Then(s[i..LiteralEnd(s, i + 1) + 1], Minify(s, LiteralEnd(s, i + 1) + 1))
    ensures !IsSpace(s[i]) && s[i] != '\"' && (s[i] == '/' ==> At(s, i + 1) != '/' && At(s, i + 1) != '*') ==>
      Minify(s, i) == Then([s[i]], Minify(s, i + 1))
  {
  }

  lemma WithinText(s: string, i: nat)
    requires NUL !in s && Minify(s, i).Text?
    ensures i <= |s|
  {
  }

  /** Nothing is written while white space and comments are passed. */
  lemma MinifyingOn(json: array<char>, into: nat, from: nat, s: string, goal: string, next: nat)
    requires NUL !in s && Minifying(json, into, from, s, goal) && Minify(s, from) == Minify(s, next) && from <= next
    ensures Minifying(json, into, next, s, goal)
  {
    WithinText(s, next);
  }

  /** The branch that copies any other character. */
  method CopyOther(json: array<char>, into: nat, from: nat, ghost s: string, ghost goal: string)
    requires NUL !in s && Minifying(json, into, from, s, goal) && from < |s| && Minify(s, from) == Then([s[from]], Minify(s, from + 1))
    modifies json
    ensures Minifying(json, into + 1, from + 1, s, goal)
  {
    hide Minify, Then;
    ghost var base := json[..into];
    ThenThen(base, [s[from]], Minify(s, from + 1));
    json[into] := json[from];
    assert json[..into + 1] == base + [s[from]];
  }

  /** The branch that copies a literal, and what it means for the result. */
  method CopyQuoted(json: array<char>, into0: nat, from0: nat, ghost s: string, ghost goal: string) returns (into: nat, from: nat)
    requires NUL !in s && Minifying(json, into0, from0, s, goal) && from0 < |s| && LiteralEnd(s, from0 + 1) < |s|
    requires Minify(s, from0) == Then(s[from0..LiteralEnd(s, from0 + 1) + 1], Minify(s, LiteralEnd(s, from0 + 1) + 1))
    modifies json
    ensures from > from0 && Minifying(json, into, from, s, goal)
  {
    hide Minify;
    ThenThen(json[..into0], s[from0..LiteralEnd(s, from0 + 1) + 1], Minify(s, LiteralEnd(s, from0 + 1) + 1));
    into, from := CopyLiteral(json, into0, from0, s);
  }

  /** One round of the loop of cJSON_Minify. */
  method MinifyRound(json: array<char>, into0: nat, from0: nat, ghost s: string, ghost goal: string) returns (into: nat, from: nat)
    requires NUL !in s && Minifying(json, into0, from0, s, goal) && from0 < |s|
    modifies json
    ensures from > from0 && Minifying(json, into, from, s, goal)
  {
    hide Minify;
    MinifyCases(s, from0);
    into, from := into0, from0;
    if IsSpace(json[from]) {
      from := from + 1;
      MinifyingOn(json, into, from0, s, goal, from);
    } else if json[from] == '/' && json[from + 1] == '/' {
      from := SkipLine(json, from, s);
      MinifyingOn(json, into, from0, s, goal, from);
    } else if json[from] == '/' && json[from + 1] == '*' {
      from := SkipComment(json, from, s);
      MinifyingOn(json, into, from0, s, goal, from);
    } else if json[from] == '\"' {
      into, from := CopyQuoted(json, into, from, s, goal);
    } else {
      CopyOther(json, into, from, s, goal);
      into, from := into + 1, from + 1;
    }
  }

  /** The branch that skips a comment to the end of the line. */
  method SkipLine(json: array<char>, from0: nat, ghost s: string) returns (from: nat)
    requires NUL !in s && Unread(json, from0, s) && from0 + 1 < |s| && s[from0] == s[from0 + 1] == '/'
    ensures from == LineEnd(s, from0 + 2)
  {
    from := from0;
    while json[from] != NUL && json[from] != '\n'
      invariant from0 <= from <= |s| && (if from < from0 + 2 then true else LineEnd(s, from) == LineEnd(s, from0 + 2))
      decreases |s| - from
    {
      from := from + 1;
    }
  }

  /** The branch that skips a comment of several lines. */
  method SkipComment(json: array<char>, from0: nat, ghost s: string) returns (from: nat)
    requires NUL !in s && Unread(json, from0, s) && from0 + 1 < |s| && s[from0] == '/' && s[from0 + 1] == '*'
    ensures from == CommentEnd(s, from0 + 1) + 2
  {
    from := from0;
    while json[from] != NUL && !(json[from] == '*' && json[from + 1] == '/')
      invariant from0 <= from <= |s| && (from == from0 || CommentEnd(s, from) == CommentEnd(s, from0 + 1))
      decreases |s| - from
    {
      from := from + 1;
    }
    from := from + 2;
  }

  /** cJSON_Minify, of a text whose scan does not run past its end. */
  method MinifyInPlace(json: array<char>, ghost s: string)
    requires CStr(json, s) && Minify(s, 0).Text?
    modifies json
    ensures CStr(json, Minify(s, 0).t)
  {
    ghost var goal := Minify(s, 0).t;
    var into: nat, from: nat := 0, 0;
    assert Unread(json, 0, s) by {
      assert forall k :: 0 <= k < |s| ==> json[k] == json[..|s|][k];
    }
    ThenThen("", "", Minify(s, 0));
    assert json[..0] == "";
    while json[from] != NUL
      invariant Minifying(json, into, from, s, goal)
      decreases |s| - from
    {
      into, from := MinifyRound(json, into, from, s, goal);
    }
    json[into] := NUL;
    MinifiedNoNul(s, 0);
    assert json[..into] + "" == json[..into];
  }

  lemma {:induction false} MinifiedNoNul(s: string, i: nat)
    requires NUL !in s && Minify(s, i).Text?
    ensures NUL !in Minify(s, i).t
    decreases |s| - i
  {
    if i < |s| {
      if IsSpace(s[i]) { MinifiedNoNul(s, i + 1); }
      else if s[i] == '/' && At(s, i + 1) == '/' { MinifiedNoNul(s, LineEnd(s, i + 2)); }
      else if s[i] == '/' && At(s, i + 1) == '*' { MinifiedNoNul(s, CommentEnd(s, i + 1) + 2); }
      else if s[i] == '\"' { MinifiedNoNul(s, LiteralEnd(s, i + 1) + 1); }
      else { MinifiedNoNul(s, i + 1); }
    }
  }
}
