/** How printed text is laid out, by small examples. */
module JsonLayout {
  import opened Json
  import opened JsonRoundTrip

  lemma OneChar(c: char)
    requires EscapeChar(c) == [c]
    ensures Quote([c]) == ['\"', c, '\"']
  {
    assert [c][1..] == "";
    assert Escape([c]) == [c] + "" == [c];
  }

  lemma Texts()
    ensures Quote("a") == "\"a\"" && Quote("b") == "\"b\"" && PrintInt(1) == "1"
    ensures Tabs(0) == "" && Tabs(1) == "\t" && Tabs(2) == "\t\t"
  {
    OneChar('a');
    OneChar('b');
    assert Digits(0) == "" && Digits(1) == "" + "1";
    assert "" + "\t" == "\t";
  }

  /** Between the elements of an array there is a comma, and if formatted a space. */
  lemma ArrayLayout(fmt: bool)
    ensures Print(Array(Item(Number(1.0), Item(Null, NoItem))), 1, fmt) == if fmt then "[1, null]" else "[1,null]"
  {
    hide PrintInt, Print, PrintItems;
    Texts();
    assert 1.0.Floor == 1;
    LastItem(Null, fmt, "null");
    assert Print(Number(1.0), 2, fmt) == "1" by { NumberText(1.0, fmt); }
    FirstItem(Number(1.0), Item(Null, NoItem), fmt, "1", "null");
    ArrayText(Item(Number(1.0), Item(Null, NoItem)), fmt);
  }

  lemma NumberText(n: real, fmt: bool)
    ensures Print(Number(n), 2, fmt) == PrintInt(n.Floor)
  {
  }

  lemma LastItem(v: Value, fmt: bool, t: string)
    requires v == Null && t == "null"
    ensures PrintItems(Item(v, NoItem), 2, fmt) == t
  {
    assert PrintItems(NoItem, 2, fmt) == "";
  }

  lemma FirstItem(v: Value, next: Items, fmt: bool, t: string, rest: string)
    requires next.Item? && Print(v, 2, fmt) == t && PrintItems(next, 2, fmt) == rest
    ensures PrintItems(Item(v, next), 2, fmt) == t + ((if fmt then ", " else ",") + rest)
  {
    hide Print;
  }

  lemma ArrayText(items: Items, fmt: bool)
    ensures Print(Array(items), 1, fmt) == "[" + (PrintItems(items, 2, fmt) + "]")
  {
    hide PrintItems;
  }

  lemma NullField(name: string, last: bool, next: Fields, depth: nat)
    requires last == next.NoField?
    ensures PrintFields(Field(name, Null, next), depth, true)
         == Tabs(depth) + (Quote(name) + (":\t" + ("null" + ((if last then "\n" else ",\n") + PrintFields(next, depth, true)))))
  {
    hide Quote, Tabs;
  }

  lemma ObjectText(fields: Fields, depth: nat)
    requires fields.Field?
    ensures Print(Object(fields), depth, true) == "{" + ("\n" + (PrintFields(fields, depth + 1, true) + (Tabs(depth) + "}")))
  {
    hide PrintFields, Tabs;
  }

  lemma NoFields(depth: nat)
    ensures PrintFields(NoField, depth, true) == ""
  {
  }

  lemma LastLine()
    ensures PrintFields(Field("b", Null, NoField), 1, true) == "\t\"b\":\tnull\n"
  {
    hide PrintFields, Quote, Tabs;
    Texts();
    NoFields(1);
    NullField("b", true, NoField, 1);
  }

  lemma TwoLines()
    ensures PrintFields(Field("a", Null, Field("b", Null, NoField)), 1, true) == "\t\"a\":\tnull,\n\t\"b\":\tnull\n"
  {
    hide PrintFields, Quote, Tabs;
    Texts();
    LastLine();
    NullField("a", false, Field("b", Null, NoField), 1);
  }

  lemma DeepLine()
    ensures PrintFields(Field("a", Null, NoField), 2, true) == "\t\t\"a\":\tnull\n"
  {
    hide PrintFields, Quote, Tabs;
    Texts();
    NoFields(2);
    NullField("a", true, NoField, 2);
  }

  /** Formatted, each field of an object is on a line of its own, with a tab for each object around it. */
  lemma ObjectLayout()
    ensures Print(Object(Field("a", Null, Field("b", Null, NoField))), 0, true) == "{\n\t\"a\":\tnull,\n\t\"b\":\tnull\n}"
  {
    hide Print, PrintFields, Tabs, Quote;
    Texts();
    TwoLines();
    ObjectText(Field("a", Null, Field("b", Null, NoField)), 0);
  }

  lemma InnerObjectLayout()
    ensures Print(Object(Field("a", Null, NoField)), 1, true) == "{\n\t\t\"a\":\tnull\n\t}"
  {
    hide Print, PrintFields, Tabs, Quote;
    Texts();
    DeepLine();
    ObjectText(Field("a", Null, NoField), 1);
  }

  /** The closing brace of an empty object stands one tab to the left of where it would stand otherwise. */
  lemma EmptyObjectLayout(depth: nat)
    ensures Print(Object(NoField), depth, true) == "{\n" + (Tabs(depth - 1) + "}") && Print(Object(NoField), depth, false) == "{}"
  {
    hide Tabs;
    assert "{" + ("\n" + (Tabs(depth - 1) + "}")) == "{\n" + (Tabs(depth - 1) + "}");
  }
}
