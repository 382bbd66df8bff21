/** Parsing printed text gives back the tree that was printed, and consumes exactly that text. */
module JsonRoundTrip {
  import opened Json

  /** `t` stands in `s` from position `i` on. */
  predicate Has(s: string, i: nat, t: string)
  {
    i + |t| <= |s| && forall k :: 0 <= k < |t| ==> s[i + k] == t[k]
  }

  lemma HasSplit(s: string, i: nat, a: string, b: string)
    requires Has(s, i, a + b)
    ensures Has(s, i, a) && Has(s, i + |a|, b)
  {
    forall k | 0 <= k < |a| ensures s[i + k] == a[k] { assert (a + b)[k] == a[k]; }
    forall k | 0 <= k < |b| ensures s[i + |a| + k] == b[k] { assert (a + b)[|a| + k] == b[k]; }
  }

  lemma HasSplitMany(s: string, i: nat, a: string, b: string, c: string, d: string, e: string, r: string)
    requires Has(s, i, a + (b + (c + (d + (e + r)))))
    ensures Has(s, i, a) && Has(s, i + |a|, b) && Has(s, i + |a| + |b|, c) && Has(s, i + |a| + |b| + |c|, d)
    ensures Has(s, i + |a| + |b| + |c| + |d|, e) && Has(s, i + |a| + |b| + |c| + |d| + |e|, r)
  {
    HasSplit(s, i, a, b + (c + (d + (e + r))));
    HasSplit(s, i + |a|, b, c + (d + (e + r)));
    HasSplit(s, i + |a| + |b|, c, d + (e + r));
    HasSplit(s, i + |a| + |b| + |c|, d, e + r);
    HasSplit(s, i + |a| + |b| + |c| + |d|, e, r);
  }

  lemma HasAt(s: string, i: nat, t: string, k: nat)
    requires Has(s, i, t) && k < |t|
    ensures At(s, i + k) == s[i + k] == t[k]
  {
  }

  // ---------- white space ----------

  predicate IsBlank(t: string) { forall k :: 0 <= k < |t| ==> NUL < t[k] <= 32 as char }

  /** skip passes blanks and stops at what follows them. */
  lemma {:induction false} SkipBlank(s: string, i: nat, t: string)
    requires Has(s, i, t) && IsBlank(t) && (At(s, i + |t|) > 32 as char)
    ensures Skip(s, i) == i + |t|
    decreases |t|
  {
    if t != "" {
      assert s[i] == t[0];
      SkipBlank(s, i + 1, t[1..]);
    }
  }

  // ---------- strings ----------

  lemma HexRoundTrip(d: int)
    requires 0 <= d < 16
    ensures HexValue(HexDigit(d)) == d
  {
  }

  lemma EscapeNotEmpty(c: char)
    ensures EscapeChar(c) != "" && EscapeChar(c)[0] != '\"' && (NUL < c ==> EscapeChar(c)[0] != NUL)
  {
  }

  /** One character: what follows a backslash stands for the character that was escaped. */
  lemma EscapeRoundTrip(s: string, i: nat, c: char)
    requires NUL < c < 256 as char && Has(s, i, EscapeChar(c))
    ensures At(s, i) == '\\' ==> ReadEscape(s, i + 1) == ([c], i + |EscapeChar(c)|)
    ensures At(s, i) != '\\' ==> EscapeChar(c) == [c]
  {
    var t := EscapeChar(c);
    HasAt(s, i, t, 0);
    if |t| > 1 { HasAt(s, i, t, 1); }
    if |t| == 6 {
      HasAt(s, i, t, 2);
      HasAt(s, i, t, 3);
      HasAt(s, i, t, 4);
      HasAt(s, i, t, 5);
      HexRoundTrip(c as int / 16);
      HexRoundTrip(c as int % 16);
      assert ParseHex4(s, i + 2) == c as int;
    }
  }

  /** Reading a body passes one escaped character. */
  lemma BodyStep(s: string, i: nat, c: char)
    requires NUL < c < 256 as char && Has(s, i, EscapeChar(c))
    ensures var rest := ReadBody(s, i + |EscapeChar(c)|); ReadBody(s, i) == ([c] + rest.0, rest.1)
  {
    EscapeNotEmpty(c);
    EscapeRoundTrip(s, i, c);
    HasAt(s, i, EscapeChar(c), 0);
  }

  lemma EscapeText(t: string)
    requires t != ""
    ensures Escape(t) == EscapeChar(t[0]) + Escape(t[1..])
  {
  }

  lemma BodyEnd(s: string, i: nat)
    requires At(s, i) == '\"'
    ensures ReadBody(s, i) == ("", i)
  {
  }

  lemma EscapeEmpty()
    ensures Escape("") == ""
  {
  }

  lemma TailIsCString(t: string)
    requires IsCString(t) && t != ""
    ensures NUL < t[0] < 256 as char && IsCString(t[1..])
  {
  }

  lemma {:induction false} BodyRoundTrip(s: string, i: nat, t: string)
    requires IsCString(t) && Has(s, i, Escape(t)) && At(s, i + |Escape(t)|) == '\"'
    ensures ReadBody(s, i) == (t, i + |Escape(t)|)
    decreases |t|
  {
    hide *;
    if t == "" {
      EscapeEmpty();
      BodyEnd(s, i);
    } else {
      var c, rest := t[0], t[1..];
      TailIsCString(t);
      EscapeText(t);
      HasSplit(s, i, EscapeChar(c), Escape(rest));
      BodyStep(s, i, c);
      BodyRoundTrip(s, i + |EscapeChar(c)|, rest);
      assert t == [c] + rest;
    }
  }

  lemma StringRoundTrip(s: string, i: nat, t: string)
    requires IsCString(t) && Has(s, i, Quote(t))
    ensures At(s, i) == '\"' && ReadString(s, i) == Done(t, i + |Quote(t)|)
  {
    hide *;
    QuoteText(t);
    HasSplit(s, i, "\"" + Escape(t), "\"");
    HasSplit(s, i, "\"", Escape(t));
    HasAt(s, i, "\"", 0);
    HasAt(s, i + 1 + |Escape(t)|, "\"", 0);
    BodyRoundTrip(s, i + 1, t);
    ReadQuoted(s, i, t, i + 1 + |Escape(t)|);
  }

  lemma QuoteText(t: string)
    ensures Quote(t) == ("\"" + Escape(t)) + "\""
  {
  }

  lemma ReadQuoted(s: string, i: nat, t: string, e: nat)
    requires At(s, i) == '\"' && ReadBody(s, i + 1) == (t, e) && At(s, e) == '\"'
    ensures ReadString(s, i) == Done(t, e + 1)
  {
  }

  // ---------- numbers ----------

  /** The value of digits that continue the number `acc`. */
  function Value10(t: string, acc: nat): nat
    requires forall i :: 0 <= i < |t| ==> IsDigit(t[i])
  {
    if t == "" then acc
    else
      assert IsDigit(t[|t| - 1]);
      10 * Value10(t[..|t| - 1], acc) + (t[|t| - 1] as int - '0' as int)
  }

  lemma {:induction false} Value10Front(t: string, acc: nat)
    requires t != "" && forall i :: 0 <= i < |t| ==> IsDigit(t[i])
    ensures Value10(t, acc) == Value10(t[1..], 10 * acc + (t[0] as int - '0' as int))
    decreases |t|
  {
    if |t| > 1 {
      Value10Front(t[..|t| - 1], acc);
      assert t[..|t| - 1][1..] == t[1..][..|t| - 2];
    } else {
      assert t[..0] == "" && t[1..] == "";
    }
  }

  lemma {:induction false} DigitsValue(n: nat)
    ensures Value10(Digits(n), 0) == n
    decreases n
  {
    if n > 0 {
      DigitsValue(n / 10);
      var t := Digits(n);
      assert t[..|t| - 1] == Digits(n / 10);
    }
  }

  lemma {:induction false} ScanRoundTrip(s: string, i: nat, t: string, acc: nat)
    requires forall k :: 0 <= k < |t| ==> IsDigit(t[k])
    requires Has(s, i, t) && !IsDigit(At(s, i + |t|))
    ensures ScanDigits(s, i, acc) == (Value10(t, acc), i + |t|)
    decreases |t|
  {
    if t != "" {
      assert s[i] == t[0];
      Value10Front(t, acc);
      ScanRoundTrip(s, i + 1, t[1..], 10 * acc + (t[0] as int - '0' as int));
    }
  }

  /** What may follow a number without being taken for a part of it. */
  predicate EndsNumber(c: char) { !IsDigit(c) && c != '.' && c != 'e' && c != 'E' }

  lemma WholeRoundTrip(s: string, i: nat, n: nat, t: string)
    requires t == (if n == 0 then "0" else Digits(n)) && Has(s, i, t) && EndsNumber(At(s, i + |t|))
    ensures ReadWhole(s, i) == (n, i + |t|) && IsDigit(At(s, i))
  {
    HasAt(s, i, t, 0);
    if n > 0 {
      ScanRoundTrip(s, i, t, 0);
      DigitsValue(n);
    }
  }

  lemma NoFraction(s: string, i: nat, n: nat)
    requires EndsNumber(At(s, i))
    ensures ReadFraction(s, i, n) == (n, i) && ReadExponent(s, i) == (0, i)
  {
  }

  lemma PlainDecimal(n: nat)
    ensures Decimal(false, n, 0) == n as real && Decimal(true, n, 0) == -(n as real)
  {
    assert Pow10(0) == 1.0;
    assert -1.0 * n as real == -(n as real);
  }

  lemma IntText(n: int)
    ensures n < 0 ==> PrintInt(n) == "-" + Digits(-n)
    ensures n >= 0 ==> PrintInt(n) == if n == 0 then "0" else Digits(n)
  {
  }

  lemma NumberRoundTrip(s: string, i: nat, n: int)
    requires Has(s, i, PrintInt(n)) && EndsNumber(At(s, i + |PrintInt(n)|))
    ensures At(s, i) == '-' || IsDigit(At(s, i))
    ensures ReadNumber(s, i) == (n as real, i + |PrintInt(n)|)
  {
    hide PrintInt, Digits, ReadWhole, ReadFraction, ReadExponent, Decimal, Has, At, EndsNumber;
    IntText(n);
    NoFraction(s, i + |PrintInt(n)|, if n < 0 then -n else n);
    PlainDecimal(if n < 0 then -n else n);
    if n < 0 {
      HasSplit(s, i, "-", Digits(-n));
      HasAt(s, i, "-", 0);
      WholeRoundTrip(s, i + 1, -n, Digits(-n));
    } else {
      WholeRoundTrip(s, i, n, PrintInt(n));
    }
  }

  // ---------- values ----------

  /** The text of a value begins with a character that the parser does not skip. */
  lemma PrintStarts(v: Value, depth: nat, fmt: bool)
    requires Printable(v)
    ensures Print(v, depth, fmt) != "" && Print(v, depth, fmt)[0] > 32 as char
    ensures Print(v, depth, fmt)[0] != ']' && Print(v, depth, fmt)[0] != '}'
  {
    var t := Print(v, depth, fmt);
    match v
    case Number(n) =>
      if n.Floor < 0 { assert t[0] == '-'; }
    case String(s) => assert t[0] == '\"';
    case Array(items) => assert t[0] == '[';
    case Object(fields) => assert t[0] == '{';
    case _ =>
  }

  /** A literal is not mistaken for one of the words. */
  lemma NoWord(s: string, i: nat)
    requires At(s, i) != 'n' && At(s, i) != 'f' && At(s, i) != 't'
    ensures !Matches(s, i, "null") && !Matches(s, i, "false") && !Matches(s, i, "true")
  {
    assert "null"[0] == 'n' && "false"[0] == 'f' && "true"[0] == 't';
    assert At(s, i + 0) == At(s, i);
  }

  lemma WordRoundTrip(s: string, i: nat, b: bool)
    ensures Has(s, i, "null") ==> Parse(s, i) == Done(Null, i + 4)
    ensures Has(s, i, if b then "true" else "false") ==> Parse(s, i) == Done(Bool(b), i + (if b then 4 else 5))
  {
    if Has(s, i, "null") {
      assert Matches(s, i, "null");
    }
    var t := if b then "true" else "false";
    if Has(s, i, t) {
      HasAt(s, i, t, 0);
      assert Matches(s, i, t);
      assert !Matches(s, i, "null") by { assert "null"[0] == 'n' && At(s, i + 0) == At(s, i); }
      if b { assert !Matches(s, i, "false") by { assert "false"[0] == 'f' && At(s, i + 0) == At(s, i); } }
    }
  }

  lemma LeafRoundTrip(v: Value, depth: nat, fmt: bool, s: string, i: nat)
    requires Printable(v) && !v.Array? && !v.Object?
    requires Has(s, i, Print(v, depth, fmt)) && EndsNumber(At(s, i + |Print(v, depth, fmt)|))
    ensures Parse(s, i) == Done(v, i + |Print(v, depth, fmt)|)
  {
    match v
    case Null => WordRoundTrip(s, i, false);
    case Bool(b) => WordRoundTrip(s, i, b);
    case Number(n) =>
      NumberRoundTrip(s, i, n.Floor);
      NoWord(s, i);
    case String(t) =>
      StringRoundTrip(s, i, t);
      NoWord(s, i);
  }

  // ---------- arrays and objects ----------

  lemma SkipNothing(s: string, i: nat)
    requires At(s, i) > 32 as char
    ensures Skip(s, i) == i
  {
  }

  lemma ItemsText(items: Items, depth: nat, fmt: bool)
    requires items.Item?
    ensures PrintItems(items, depth, fmt)
         == Print(items.value, depth, fmt) + (Separator(items.next.NoItem?, fmt) + PrintItems(items.next, depth, fmt))
  {
  }

  lemma ItemsSplit(items: Items, depth: nat, fmt: bool, s: string, i: nat)
    requires items.Item? && Has(s, i, PrintItems(items, depth, fmt))
    ensures var t, sep := Print(items.value, depth, fmt), Separator(items.next.NoItem?, fmt);
      && Has(s, i, t) && Has(s, i + |t|, sep) && Has(s, i + |t| + |sep|, PrintItems(items.next, depth, fmt))
      && |PrintItems(items, depth, fmt)| == |t| + |sep| + |PrintItems(items.next, depth, fmt)|
  {
    hide *;
    ItemsText(items, depth, fmt);
    var t, sep := Print(items.value, depth, fmt), Separator(items.next.NoItem?, fmt);
    HasSplit(s, i, t, sep + PrintItems(items.next, depth, fmt));
    HasSplit(s, i + |t|, sep, PrintItems(items.next, depth, fmt));
  }

  lemma ItemsStart(items: Items, depth: nat, fmt: bool, s: string, i: nat)
    requires items.Item? && PrintableItems(items) && Has(s, i, PrintItems(items, depth, fmt))
    ensures At(s, i) > 32 as char && At(s, i) != ']'
  {
    hide *;
    PrintableItem(items);
    ItemsSplit(items, depth, fmt, s, i);
    PrintStarts(items.value, depth, fmt);
    HasAt(s, i, Print(items.value, depth, fmt), 0);
  }

  lemma SkipOne(s: string, i: nat)
    requires NUL < At(s, i) <= 32 as char
    ensures Skip(s, i) == Skip(s, i + 1)
  {
  }

  lemma SeparatorText(fmt: bool)
    ensures Separator(false, fmt) == (if fmt then ", " else ",") && Separator(true, fmt) == ""
  {
  }

  /** What follows an element of an array: a separator, and the next element after it. */
  lemma AfterItem(items: Items, depth: nat, fmt: bool, s: string, j: nat)
    requires items.Item? && PrintableItems(items)
    requires Has(s, j, Separator(items.next.NoItem?, fmt))
    requires Has(s, j + |Separator(items.next.NoItem?, fmt)|, PrintItems(items.next, depth, fmt))
    requires items.next.NoItem? ==> At(s, j) == ']'
    ensures EndsNumber(At(s, j)) && Skip(s, j) == j
    ensures items.next.Item? ==> At(s, j) == ',' && Skip(s, j + 1) == j + |Separator(false, fmt)|
  {
    hide PrintItems, Print, PrintableItems, Printable, Has, Skip, At;
    PrintableItem(items);
    SeparatorText(fmt);
    if items.next.Item? {
      var k := j + |Separator(false, fmt)|;
      HasAt(s, j, Separator(false, fmt), 0);
      ItemsStart(items.next, depth, fmt, s, k);
      SkipNothing(s, k);
      if fmt {
        HasAt(s, j, ", ", 1);
        SkipOne(s, j + 1);
      }
    }
    SkipNothing(s, j);
  }

  lemma FieldsText(fields: Fields, depth: nat, fmt: bool)
    requires fields.Field?
    ensures PrintFields(fields, depth, fmt) == Indent(depth, fmt) + (Quote(fields.name) + (Colon(fmt)
      + (Print(fields.value, depth, fmt) + (FieldEnd(fields.next.NoField?, fmt) + PrintFields(fields.next, depth, fmt)))))
  {
  }

  lemma FieldsSplit(fields: Fields, depth: nat, fmt: bool, s: string, i: nat)
    requires fields.Field? && Has(s, i, PrintFields(fields, depth, fmt))
    ensures var a, b, c, d := Indent(depth, fmt), Quote(fields.name), Colon(fmt), Print(fields.value, depth, fmt);
      var e := FieldEnd(fields.next.NoField?, fmt);
      && Has(s, i, a) && Has(s, i + |a|, b) && Has(s, i + |a| + |b|, c) && Has(s, i + |a| + |b| + |c|, d)
      && Has(s, i + |a| + |b| + |c| + |d|, e)
      && Has(s, i + |a| + |b| + |c| + |d| + |e|, PrintFields(fields.next, depth, fmt))
      && |PrintFields(fields, depth, fmt)| == |a| + |b| + |c| + |d| + |e| + |PrintFields(fields.next, depth, fmt)|
  {
    hide *;
    FieldsText(fields, depth, fmt);
    var a, b, c, d := Indent(depth, fmt), Quote(fields.name), Colon(fmt), Print(fields.value, depth, fmt);
    var e, r := FieldEnd(fields.next.NoField?, fmt), PrintFields(fields.next, depth, fmt);
    HasSplitMany(s, i, a, b, c, d, e, r);
  }

  /** The fields begin, after some indentation, with a quote. */
  lemma FieldsStart(fields: Fields, depth: nat, fmt: bool, s: string, i: nat)
    requires fields.Field? && Has(s, i, PrintFields(fields, depth, fmt))
    ensures Has(s, i, Indent(depth, fmt)) && At(s, i + |Indent(depth, fmt)|) == '\"'
  {
    hide *;
    FieldsSplit(fields, depth, fmt, s, i);
    QuoteStart(s, i + |Indent(depth, fmt)|, fields.name);
  }

  lemma QuoteStart(s: string, i: nat, t: string)
    requires Has(s, i, Quote(t))
    ensures At(s, i) == '\"'
  {
    HasSplit(s, i, "\"" + Escape(t), "\"");
    HasSplit(s, i, "\"", Escape(t));
    HasAt(s, i, "\"", 0);
  }

  lemma HasJoin(s: string, i: nat, a: string, b: string)
    requires Has(s, i, a) && Has(s, i + |a|, b)
    ensures Has(s, i, a + b)
  {
    forall k | 0 <= k < |a + b| ensures s[i + k] == (a + b)[k] {
      if k >= |a| { assert s[i + |a| + (k - |a|)] == b[k - |a|]; }
    }
  }

  /** skip, over a line break and indentation, to what follows. */
  lemma SkipBreak(s: string, i: nat, fmt: bool, depth: int)
    requires Has(s, i, NewLine(fmt)) && Has(s, i + |NewLine(fmt)|, Indent(depth, fmt))
    requires At(s, i + |NewLine(fmt)| + |Indent(depth, fmt)|) > 32 as char
    ensures Skip(s, i) == i + |NewLine(fmt)| + |Indent(depth, fmt)|
  {
    HasJoin(s, i, NewLine(fmt), Indent(depth, fmt));
    SkipBlank(s, i, NewLine(fmt) + Indent(depth, fmt));
  }

  /** The colon after a name, and the value after it. */
  lemma AfterName(v: Value, depth: nat, fmt: bool, s: string, c: nat)
    requires Printable(v) && Has(s, c, Colon(fmt)) && Has(s, c + |Colon(fmt)|, Print(v, depth, fmt))
    ensures At(s, c) == ':' && Skip(s, c) == c && Skip(s, c + 1) == c + |Colon(fmt)|
  {
    HasAt(s, c, Colon(fmt), 0);
    PrintStarts(v, depth, fmt);
    HasAt(s, c + |Colon(fmt)|, Print(v, depth, fmt), 0);
    if fmt { HasAt(s, c, ":\t", 1); }
  }

  /** What follows the last field: the closing brace, after a line break. */
  lemma AfterLastField(depth: nat, fmt: bool, s: string, j: nat)
    requires Has(s, j, NewLine(fmt)) && Has(s, j + |NewLine(fmt)|, Indent(depth, fmt))
    requires At(s, j + |NewLine(fmt)| + |Indent(depth, fmt)|) == '}'
    ensures EndsNumber(At(s, j)) && Skip(s, j) == j + |NewLine(fmt)| + |Indent(depth, fmt)|
  {
    SkipBreak(s, j, fmt, depth);
    if fmt { HasAt(s, j, "\n", 0); }
  }

  /** What follows another field: a comma, and the next field after a line break. */
  lemma AfterField(fields: Fields, depth: nat, fmt: bool, s: string, j: nat)
    requires fields.Field? && Has(s, j, FieldEnd(false, fmt))
    requires Has(s, j + |FieldEnd(false, fmt)|, PrintFields(fields, depth, fmt))
    ensures EndsNumber(At(s, j)) && At(s, j) == ',' && Skip(s, j) == j
    ensures |FieldEnd(false, fmt)| == 1 + |NewLine(fmt)| && Has(s, j + 1, NewLine(fmt))
  {
    HasSplit(s, j, ",", NewLine(fmt));
    HasAt(s, j, ",", 0);
  }

  // ---------- the round trip ----------

  lemma {:induction false} RoundTrip(v: Value, depth: nat, fmt: bool, s: string, i: nat)
    requires Printable(v) && Has(s, i, Print(v, depth, fmt)) && EndsNumber(At(s, i + |Print(v, depth, fmt)|))
    ensures Parse(s, i) == Done(v, i + |Print(v, depth, fmt)|)
    decreases v, 1
  {
    match v
    case Array(items) => ArrayRoundTrip(items, depth, fmt, s, i);
    case Object(fields) => ObjectRoundTrip(fields, depth, fmt, s, i);
    case _ => LeafRoundTrip(v, depth, fmt, s, i);
  }

  lemma {:induction false} ArrayRoundTrip(items: Items, depth: nat, fmt: bool, s: string, i: nat)
    requires PrintableItems(items) && Has(s, i, Print(Array(items), depth, fmt))
    ensures Parse(s, i) == Done(Array(items), i + |Print(Array(items), depth, fmt)|)
    decreases items, 1, 1
  {
    OpenArray(items, depth, fmt, s, i);
    if items.Item? {
      FullArrayRoundTrip(items, depth, fmt, s, i);
    } else {
      NoWord(s, i);
      SkipNothing(s, i + 1);
    }
  }

  lemma OpenArray(items: Items, depth: nat, fmt: bool, s: string, i: nat)
    requires Has(s, i, Print(Array(items), depth, fmt))
    ensures At(s, i) == '[' && Has(s, i + 1, PrintItems(items, depth + 1, fmt))
    ensures At(s, i + 1 + |PrintItems(items, depth + 1, fmt)|) == ']'
    ensures |Print(Array(items), depth, fmt)| == |PrintItems(items, depth + 1, fmt)| + 2
  {
    var t := PrintItems(items, depth + 1, fmt);
    HasSplit(s, i, "[", t + "]");
    HasSplit(s, i + 1, t, "]");
    HasAt(s, i, "[", 0);
    HasAt(s, i + 1 + |t|, "]", 0);
  }

  lemma {:induction false} FullArrayRoundTrip(items: Items, depth: nat, fmt: bool, s: string, i: nat)
    requires items.Item? && PrintableItems(items) && Has(s, i, Print(Array(items), depth, fmt))
    ensures Parse(s, i) == Done(Array(items), i + |Print(Array(items), depth, fmt)|)
    decreases items, 1, 0
  {
    hide *;
    OpenArray(items, depth, fmt, s, i);
    ItemsStart(items, depth + 1, fmt, s, i + 1);
    SkipNothing(s, i + 1);
    ItemsRoundTrip(items, depth + 1, fmt, s, i + 1, i + 1);
    ParseArrayItems(s, i, items, i + |PrintItems(items, depth + 1, fmt)| + 2);
  }

  lemma ParseArrayItems(s: string, i: nat, items: Items, end: nat)
    requires At(s, i) == '[' && At(s, Skip(s, i + 1)) != ']' && ParseItems(s, Skip(s, i + 1)) == Done(items, end)
    ensures Parse(s, i) == Done(Array(items), end)
  {
    NoWord(s, i);
  }

  lemma ParseLastItem(s: string, i0: nat, v: Value, j: nat)
    requires Parse(s, Skip(s, i0)) == Done(v, j) && At(s, Skip(s, j)) == ']'
    ensures ParseItems(s, i0) == Done(Item(v, NoItem), Skip(s, j) + 1)
  {
  }

  lemma ParseItem(s: string, i0: nat, v: Value, j: nat, next: Items, end: nat)
    requires Parse(s, Skip(s, i0)) == Done(v, j) && At(s, Skip(s, j)) == ','
    requires ParseItems(s, Skip(s, j) + 1) == Done(next, end)
    ensures ParseItems(s, i0) == Done(Item(v, next), end)
  {
  }

  lemma PrintableItem(items: Items)
    requires items.Item? && PrintableItems(items)
    ensures Printable(items.value) && PrintableItems(items.next)
  {
  }

  lemma NoMoreItems(depth: nat, fmt: bool)
    ensures PrintItems(NoItem, depth, fmt) == "" && Separator(true, fmt) == ""
  {
  }

  lemma {:induction false} ItemsRoundTrip(items: Items, depth: nat, fmt: bool, s: string, i0: nat, i: nat)
    requires items.Item? && PrintableItems(items) && Has(s, i, PrintItems(items, depth, fmt))
    requires Skip(s, i0) == i && At(s, i + |PrintItems(items, depth, fmt)|) == ']'
    ensures ParseItems(s, i0) == Done(items, i + |PrintItems(items, depth, fmt)| + 1)
    decreases items, 0
  {
    hide *;
    var v, next := items.value, items.next;
    PrintableItem(items);
    NoMoreItems(depth, fmt);
    var j := i + |Print(v, depth, fmt)|;
    var k := j + |Separator(next.NoItem?, fmt)|;
    ItemsSplit(items, depth, fmt, s, i);
    AfterItem(items, depth, fmt, s, j);
    RoundTrip(v, depth, fmt, s, i);
    if next.NoItem? {
      ParseLastItem(s, i0, v, j);
    } else {
      ItemsRoundTrip(next, depth, fmt, s, j + 1, k);
      ParseItem(s, i0, v, j, next, k + |PrintItems(next, depth, fmt)| + 1);
    }
  }

  lemma {:induction false} ObjectRoundTrip(fields: Fields, depth: nat, fmt: bool, s: string, i: nat)
    requires PrintableFields(fields) && Has(s, i, Print(Object(fields), depth, fmt))
    ensures Parse(s, i) == Done(Object(fields), i + |Print(Object(fields), depth, fmt)|)
    decreases fields, 1, 1
  {
    if fields.NoField? {
      EmptyObjectRoundTrip(depth, fmt, s, i);
    } else {
      FullObjectRoundTrip(fields, depth, fmt, s, i);
    }
  }

  lemma {:induction false} FullObjectRoundTrip(fields: Fields, depth: nat, fmt: bool, s: string, i: nat)
    requires fields.Field? && PrintableFields(fields) && Has(s, i, Print(Object(fields), depth, fmt))
    ensures Parse(s, i) == Done(Object(fields), i + |Print(Object(fields), depth, fmt)|)
    decreases fields, 1, 0
  {
    hide *;
    var body := PrintFields(fields, depth + 1, fmt);
    var b := i + 1 + |NewLine(fmt)|;
    ObjectText(fields, depth, fmt);
    OpenObject(body, depth, fmt, s, i);
    FieldsStart(fields, depth + 1, fmt, s, b);
    SkipBreak(s, i + 1, fmt, depth + 1);
    SkipNothing(s, b + |Indent(depth + 1, fmt)|);
    SkipTwice(s, i + 1);
    FieldsRoundTrip(fields, depth + 1, fmt, s, Skip(s, i + 1), b);
    ParseObjectFields(s, i, fields, b + |body| + |Indent(depth, fmt)| + 1);
  }

  lemma ObjectText(fields: Fields, depth: nat, fmt: bool)
    requires fields.Field?
    ensures Print(Object(fields), depth, fmt)
         == "{" + (NewLine(fmt) + (PrintFields(fields, depth + 1, fmt) + (Indent(depth, fmt) + "}")))
  {
  }

  lemma SkipTwice(s: string, i: nat)
    ensures Skip(s, Skip(s, i)) == Skip(s, i)
    decreases |s| - i
  {
    if At(s, i) != NUL && At(s, i) <= 32 as char { SkipTwice(s, i + 1); }
  }

  lemma EmptyObjectRoundTrip(depth: nat, fmt: bool, s: string, i: nat)
    requires Has(s, i, Print(Object(NoField), depth, fmt))
    ensures Parse(s, i) == Done(Object(NoField), i + |Print(Object(NoField), depth, fmt)|)
  {
    hide *;
    var d: int := depth - 1;
    EmptyObjectText(depth, fmt);
    HasSplit(s, i, "{", NewLine(fmt) + (Indent(d, fmt) + "}"));
    HasSplit(s, i + 1, NewLine(fmt), Indent(d, fmt) + "}");
    HasSplit(s, i + 1 + |NewLine(fmt)|, Indent(d, fmt), "}");
    HasAt(s, i, "{", 0);
    HasAt(s, i + 1 + |NewLine(fmt)| + |Indent(d, fmt)|, "}", 0);
    SkipBreak(s, i + 1, fmt, d);
    ParseEmptyObject(s, i);
  }

  lemma EmptyObjectText(depth: nat, fmt: bool)
    ensures Print(Object(NoField), depth, fmt) == "{" + (NewLine(fmt) + (Indent(depth - 1, fmt) + "}"))
  {
  }

  lemma ParseEmptyObject(s: string, i: nat)
    requires At(s, i) == '{' && At(s, Skip(s, i + 1)) == '}'
    ensures Parse(s, i) == Done(Object(NoField), Skip(s, i + 1) + 1)
  {
    NoWord(s, i);
  }

  /** The parts of the text of an object. */
  lemma OpenObject(body: string, depth: nat, fmt: bool, s: string, i: nat)
    requires Has(s, i, "{" + (NewLine(fmt) + (body + (Indent(depth, fmt) + "}"))))
    ensures At(s, i) == '{' && Has(s, i + 1, NewLine(fmt)) && Has(s, i + 1 + |NewLine(fmt)|, body)
    ensures Has(s, i + 1 + |NewLine(fmt)| + |body|, Indent(depth, fmt))
    ensures At(s, i + 1 + |NewLine(fmt)| + |body| + |Indent(depth, fmt)|) == '}'
  {
    hide *;
    HasSplit(s, i, "{", NewLine(fmt) + (body + (Indent(depth, fmt) + "}")));
    HasSplit(s, i + 1, NewLine(fmt), body + (Indent(depth, fmt) + "}"));
    HasSplit(s, i + 1 + |NewLine(fmt)|, body, Indent(depth, fmt) + "}");
    HasSplit(s, i + 1 + |NewLine(fmt)| + |body|, Indent(depth, fmt), "}");
    HasAt(s, i, "{", 0);
    HasAt(s, i + 1 + |NewLine(fmt)| + |body| + |Indent(depth, fmt)|, "}", 0);
  }

  lemma ParseObjectFields(s: string, i: nat, fields: Fields, end: nat)
    requires At(s, i) == '{' && At(s, Skip(s, i + 1)) != '}' && ParseFields(s, Skip(s, i + 1)) == Done(fields, end)
    ensures Parse(s, i) == Done(Object(fields), end)
  {
    NoWord(s, i);
  }

  lemma ParseLastField(s: string, i0: nat, name: string, v: Value, j: nat)
    requires ParseField(s, i0) == Done((name, v), j) && At(s, Skip(s, j)) == '}'
    ensures ParseFields(s, i0) == Done(Field(name, v, NoField), Skip(s, j) + 1)
  {
  }

  lemma ParseOneMore(s: string, i0: nat, name: string, v: Value, j: nat, next: Fields, end: nat)
    requires ParseField(s, i0) == Done((name, v), j) && At(s, Skip(s, j)) == ','
    requires ParseFields(s, Skip(s, j) + 1) == Done(next, end)
    ensures ParseFields(s, i0) == Done(Field(name, v, next), end)
  {
  }

  lemma ReadField(s: string, i0: nat, q: nat, name: string, c: nat, v: Value, p: nat, j: nat)
    requires Skip(s, i0) == q && ReadString(s, q) == Done(name, c) && Skip(s, c) == c && At(s, c) == ':'
    requires Skip(s, c + 1) == p && Parse(s, p) == Done(v, j)
    ensures ParseField(s, i0) == Done((name, v), j)
  {
  }

  lemma {:induction false} FieldRoundTrip(name: string, v: Value, depth: nat, fmt: bool, s: string, i0: nat, q: nat)
    requires IsCString(name) && Printable(v) && Skip(s, i0) == q && Has(s, q, Quote(name))
    requires Has(s, q + |Quote(name)|, Colon(fmt)) && Has(s, q + |Quote(name)| + |Colon(fmt)|, Print(v, depth, fmt))
    requires EndsNumber(At(s, q + |Quote(name)| + |Colon(fmt)| + |Print(v, depth, fmt)|))
    ensures ParseField(s, i0) == Done((name, v), q + |Quote(name)| + |Colon(fmt)| + |Print(v, depth, fmt)|)
    decreases v, 2
  {
    hide *;
    var c := q + |Quote(name)|;
    var j := c + |Colon(fmt)| + |Print(v, depth, fmt)|;
    StringRoundTrip(s, q, name);
    AfterName(v, depth, fmt, s, c);
    RoundTrip(v, depth, fmt, s, c + |Colon(fmt)|);
    ReadField(s, i0, q, name, c, v, c + |Colon(fmt)|, j);
  }

  lemma PrintableField(fields: Fields)
    requires fields.Field? && PrintableFields(fields)
    ensures IsCString(fields.name) && Printable(fields.value) && PrintableFields(fields.next)
  {
  }

  lemma NoMoreFields(depth: nat, fmt: bool)
    ensures PrintFields(NoField, depth, fmt) == "" && FieldEnd(true, fmt) == NewLine(fmt)
  {
  }

  lemma {:induction false} FieldsRoundTrip(fields: Fields, depth: nat, fmt: bool, s: string, i0: nat, i: nat)
    requires fields.Field? && PrintableFields(fields) && Has(s, i, PrintFields(fields, depth, fmt)) && depth > 0
    requires Skip(s, i0) == i + |Indent(depth, fmt)|
    requires Has(s, i + |PrintFields(fields, depth, fmt)|, Indent(depth - 1, fmt))
    requires At(s, i + |PrintFields(fields, depth, fmt)| + |Indent(depth - 1, fmt)|) == '}'
    ensures ParseFields(s, i0) == Done(fields, i + |PrintFields(fields, depth, fmt)| + |Indent(depth - 1, fmt)| + 1)
    decreases fields, 0
  {
    hide *;
    var name, v, next := fields.name, fields.value, fields.next;
    PrintableField(fields);
    NoMoreFields(depth, fmt);
    var q := i + |Indent(depth, fmt)|;
    var j := q + |Quote(name)| + |Colon(fmt)| + |Print(v, depth, fmt)|;
    FieldsSplit(fields, depth, fmt, s, i);
    if next.NoField? {
      AfterLastField(depth - 1, fmt, s, j);
      FieldRoundTrip(name, v, depth, fmt, s, i0, q);
      ParseLastField(s, i0, name, v, j);
    } else {
      var k := j + 1 + |NewLine(fmt)|;
      AfterField(next, depth, fmt, s, j);
      FieldRoundTrip(name, v, depth, fmt, s, i0, q);
      FieldsStart(next, depth, fmt, s, k);
      SkipBreak(s, j + 1, fmt, depth);
      FieldsRoundTrip(next, depth, fmt, s, j + 1, k);
      ParseOneMore(s, i0, name, v, j, next, k + |PrintFields(next, depth, fmt)| + |Indent(depth - 1, fmt)| + 1);
    }
  }

  /** cJSON_Parse of what cJSON_Print or cJSON_PrintUnformatted printed. */
  lemma ParsePrinted(v: Value, fmt: bool)
    requires Printable(v)
    ensures Parse(Print(v, 0, fmt), Skip(Print(v, 0, fmt), 0)) == Done(v, |Print(v, 0, fmt)|)
  {
    var s := Print(v, 0, fmt);
    PrintStarts(v, 0, fmt);
    SkipNothing(s, 0);
    RoundTrip(v, 0, fmt, s, 0);
  }
}
