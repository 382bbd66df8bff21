/** Which texts the parser accepts, and as what: exactly those of the grammar below, for every text.  What numbers and
  string literals are is said in JsonLiterals.
*/
module JsonGrammar {
  import opened Json
  import JsonRoundTrip

  /** From `i` to `j` there is nothing but blanks. */
  predicate Blanks(s: string, i: nat, j: nat)
  {
    i <= j && forall k :: i <= k < j ==> NUL < At(s, k) <= 32 as char
  }

  /** The text from `i` to `j` is a value: a word, a number, a string literal, or values between brackets. */
  ghost predicate IsValue(s: string, i: nat, v: Value, j: nat)
    decreases v
  {
    match v
    case Null => Matches(s, i, "null") && j == i + 4
    case Bool(b) => if b then Matches(s, i, "true") && j == i + 4 else Matches(s, i, "false") && j == i + 5
    case Number(n) => (At(s, i) == '-' || IsDigit(At(s, i))) && ReadNumber(s, i) == (n, j)
    case String(t) => At(s, i) == '\"' && ReadString(s, i) == Done(t, j)
    case Array(items) =>
      At(s, i) == '[' && if items.NoItem? then Closed(s, i + 1, ']', j) else IsItems(s, i + 1, items, j)
    case Object(fields) =>
      At(s, i) == '{' && if fields.NoField? then Closed(s, i + 1, '}', j) else IsFields(s, i + 1, fields, j)
  }

  /** Blanks and a closing bracket. */
  predicate Closed(s: string, i: nat, bracket: char, j: nat) { i < j && Blanks(s, i, j - 1) && At(s, j - 1) == bracket }

  /** Values with commas between them, then the closing bracket. */
  ghost predicate IsItems(s: string, i: nat, items: Items, j: nat)
    requires items.Item?
    decreases items
  {
    exists a: nat, b: nat ::
      && Blanks(s, i, a) && IsValue(s, a, items.value, b)
      && if items.next.NoItem? then Closed(s, b, ']', j)
         else exists c: nat :: Blanks(s, b, c) && At(s, c) == ',' && IsItems(s, c + 1, items.next, j)
  }

  /** A name, a colon and a value. */
  ghost predicate IsField(s: string, i: nat, fields: Fields, j: nat)
    requires fields.Field?
    decreases fields, 0
  {
    exists a: nat, b: nat, c: nat, d: nat ::
      && Blanks(s, i, a) && ReadString(s, a) == Done(fields.name, b)
      && Blanks(s, b, c) && At(s, c) == ':'
      && Blanks(s, c + 1, d) && IsValue(s, d, fields.value, j)
  }

  ghost predicate IsFields(s: string, i: nat, fields: Fields, j: nat)
    requires fields.Field?
    decreases fields, 1
  {
    exists b: nat ::
      && IsField(s, i, fields, b)
      && if fields.next.NoField? then Closed(s, b, '}', j)
         else exists c: nat :: Blanks(s, b, c) && At(s, c) == ',' && IsFields(s, c + 1, fields.next, j)
  }

  // ---------- blanks ----------

  lemma {:induction false} SkipsBlanks(s: string, i: nat)
    ensures Blanks(s, i, Skip(s, i)) && !(NUL < At(s, Skip(s, i)) <= 32 as char)
    decreases |s| - i
  {
    if At(s, i) != NUL && At(s, i) <= 32 as char { SkipsBlanks(s, i + 1); }
  }

  lemma {:induction false} BlanksSkipped(s: string, i: nat, j: nat)
    requires Blanks(s, i, j) && !(NUL < At(s, j) <= 32 as char)
    ensures Skip(s, i) == j
    decreases j - i
  {
    if i < j { BlanksSkipped(s, i + 1, j); }
  }

  // ---------- what is accepted is in the grammar ----------

  lemma LeafAccepted(s: string, i: nat)
    requires Parse(s, i).Done? && At(s, i) != '[' && At(s, i) != '{'
    ensures IsValue(s, i, Parse(s, i).value, Parse(s, i).end)
  {
    hide Matches, ReadNumber, ReadString, ParseArray, ParseObject, IsItems, IsFields, Closed;
  }

  lemma BracketNoWord(s: string, i: nat)
    requires At(s, i) == '[' || At(s, i) == '{'
    ensures Parse(s, i) == if At(s, i) == '[' then ParseArray(s, i) else ParseObject(s, i)
  {
    hide ReadNumber, ReadString, ParseArray, ParseObject, Matches;
    JsonRoundTrip.NoWord(s, i);
  }

  lemma ArrayIs(s: string, i: nat, items: Items, j: nat)
    requires At(s, i) == '[' && if items.NoItem? then Closed(s, i + 1, ']', j) else IsItems(s, i + 1, items, j)
    ensures IsValue(s, i, Array(items), j)
  {
    hide IsItems, IsFields, Closed, ReadNumber, ReadString, Matches;
  }

  lemma ObjectIs(s: string, i: nat, fields: Fields, j: nat)
    requires At(s, i) == '{' && if fields.NoField? then Closed(s, i + 1, '}', j) else IsFields(s, i + 1, fields, j)
    ensures IsValue(s, i, Object(fields), j)
  {
    hide IsItems, IsFields, Closed, ReadNumber, ReadString, Matches;
  }

  lemma ItemsIs(s: string, i: nat, items: Items, j: nat, a: nat, b: nat, c: nat)
    requires items.Item? && Blanks(s, i, a) && IsValue(s, a, items.value, b)
    requires if items.next.NoItem? then Closed(s, b, ']', j)
             else Blanks(s, b, c) && At(s, c) == ',' && IsItems(s, c + 1, items.next, j)
    ensures IsItems(s, i, items, j)
  {
    hide IsValue, Closed, Blanks;
  }

  lemma FieldIs(s: string, i: nat, fields: Fields, j: nat, a: nat, b: nat, c: nat, d: nat)
    requires fields.Field? && Blanks(s, i, a) && ReadString(s, a) == Done(fields.name, b)
    requires Blanks(s, b, c) && At(s, c) == ':' && Blanks(s, c + 1, d) && IsValue(s, d, fields.value, j)
    ensures IsField(s, i, fields, j)
  {
    hide IsValue, Blanks, ReadString;
  }

  lemma FieldsIs(s: string, i: nat, fields: Fields, j: nat, b: nat, c: nat)
    requires fields.Field? && IsField(s, i, fields, b)
    requires if fields.next.NoField? then Closed(s, b, '}', j)
             else Blanks(s, b, c) && At(s, c) == ',' && IsFields(s, c + 1, fields.next, j)
    ensures IsFields(s, i, fields, j)
  {
    hide IsField, Closed, Blanks;
  }

  lemma BlanksJoin(s: string, i: nat, j: nat, k: nat)
    requires Blanks(s, i, j) && Blanks(s, j, k)
    ensures Blanks(s, i, k)
  {
  }

  lemma ClosedIs(s: string, i: nat, bracket: char, j: nat)
    requires Blanks(s, i, j) && At(s, j) == bracket
    ensures Closed(s, i, bracket, j + 1)
  {
  }

  lemma MoreBlanks(s: string, i: nat, j: nat, items: Items, k: nat)
    requires Blanks(s, i, j) && items.Item? && IsItems(s, j, items, k)
    ensures IsItems(s, i, items, k)
  {
    hide IsValue, Closed, Blanks;
    var a: nat, b: nat :|
      && Blanks(s, j, a) && IsValue(s, a, items.value, b)
      && if items.next.NoItem? then Closed(s, b, ']', k)
         else exists c: nat :: Blanks(s, b, c) && At(s, c) == ',' && IsItems(s, c + 1, items.next, k);
    BlanksJoin(s, i, j, a);
  }

  lemma MoreFieldBlanks(s: string, i: nat, j: nat, fields: Fields, k: nat)
    requires Blanks(s, i, j) && fields.Field? && IsField(s, j, fields, k)
    ensures IsField(s, i, fields, k)
  {
    hide IsValue, Blanks, ReadString;
    var a: nat, b: nat, c: nat, d: nat :|
      && Blanks(s, j, a) && ReadString(s, a) == Done(fields.name, b)
      && Blanks(s, b, c) && At(s, c) == ':'
      && Blanks(s, c + 1, d) && IsValue(s, d, fields.value, k);
    BlanksJoin(s, i, j, a);
    FieldIs(s, i, fields, k, a, b, c, d);
  }

  lemma MoreFieldsBlanks(s: string, i: nat, j: nat, fields: Fields, k: nat)
    requires Blanks(s, i, j) && fields.Field? && IsFields(s, j, fields, k)
    ensures IsFields(s, i, fields, k)
  {
    hide IsField, Closed, Blanks;
    var b: nat :|
      && IsField(s, j, fields, b)
      && if fields.next.NoField? then Closed(s, b, '}', k)
         else exists c: nat :: Blanks(s, b, c) && At(s, c) == ',' && IsFields(s, c + 1, fields.next, k);
    MoreFieldBlanks(s, i, j, fields, b);
  }

  // ---------- the steps of the parser ----------

  lemma ArraySteps(s: string, i: nat)
    requires At(s, i) == '['
    ensures var j := Skip(s, i + 1);
      && i < |s| && j > i
      && if At(s, j) == ']' then ParseArray(s, i) == Done(Array(NoItem), j + 1)
         else ParseArray(s, i) == if ParseItems(s, j).Fail? then Fail else Done(Array(ParseItems(s, j).value), ParseItems(s, j).end)
  {
    hide ParseItems, Skip;
  }

  lemma ItemsSteps(s: string, i: nat)
    ensures var v := Parse(s, Skip(s, i));
      && (v.Fail? ==> ParseItems(s, i) == Fail)
      && (v.Done? ==>
        var j := Skip(s, v.end);
        ParseItems(s, i) ==
          if At(s, j) == ',' then
            if ParseItems(s, j + 1).Fail? then Fail
            else Done(Item(v.value, ParseItems(s, j + 1).value), ParseItems(s, j + 1).end)
          else if At(s, j) == ']' then Done(Item(v.value, NoItem), j + 1)
          else Fail)
  {
    hide Parse, Skip;
  }

  lemma ObjectSteps(s: string, i: nat)
    requires At(s, i) == '{'
    ensures var j := Skip(s, i + 1);
      && i < |s| && j > i
      && if At(s, j) == '}' then ParseObject(s, i) == Done(Object(NoField), j + 1)
         else ParseObject(s, i) == if ParseFields(s, j).Fail? then Fail else Done(Object(ParseFields(s, j).value), ParseFields(s, j).end)
  {
    hide ParseFields, Skip;
  }

  lemma FieldsSteps(s: string, i: nat)
    ensures var f := ParseField(s, i);
      && (f.Fail? ==> ParseFields(s, i) == Fail)
      && (f.Done? ==>
        var j := Skip(s, f.end);
        ParseFields(s, i) ==
          if At(s, j) == ',' then
            if ParseFields(s, j + 1).Fail? then Fail
            else Done(Field(f.value.0, f.value.1, ParseFields(s, j + 1).value), ParseFields(s, j + 1).end)
          else if At(s, j) == '}' then Done(Field(f.value.0, f.value.1, NoField), j + 1)
          else Fail)
  {
    hide ParseField, Skip;
  }

  lemma ValueGrows(s: string, i: nat)
    ensures Parse(s, i).Done? ==> i < Parse(s, i).end
    ensures ParseField(s, i).Done? ==> i < ParseField(s, i).end
    ensures i <= Skip(s, i)
  {
  }

  lemma {:induction false} AcceptedIsValue(s: string, i: nat)
    requires Parse(s, i).Done?
    ensures IsValue(s, i, Parse(s, i).value, Parse(s, i).end)
    decreases Left(s, i), 1
  {
    hide Parse, ParseArray, ParseObject, ParseItems, ParseFields, IsValue, IsItems, IsFields, Closed, Blanks, Skip;
    var j := Skip(s, i + 1);
    SkipsBlanks(s, i + 1);
    if At(s, i) == '[' {
      BracketNoWord(s, i);
      ArraySteps(s, i);
      if At(s, j) == ']' {
        ClosedIs(s, i + 1, ']', j);
        ArrayIs(s, i, NoItem, j + 1);
      } else {
        AcceptedIsItems(s, j);
        MoreBlanks(s, i + 1, j, ParseItems(s, j).value, ParseItems(s, j).end);
        ArrayIs(s, i, ParseItems(s, j).value, ParseItems(s, j).end);
      }
    } else if At(s, i) == '{' {
      BracketNoWord(s, i);
      ObjectSteps(s, i);
      if At(s, j) == '}' {
        ClosedIs(s, i + 1, '}', j);
        ObjectIs(s, i, NoField, j + 1);
      } else {
        AcceptedIsFields(s, j);
        MoreFieldsBlanks(s, i + 1, j, ParseFields(s, j).value, ParseFields(s, j).end);
        ObjectIs(s, i, ParseFields(s, j).value, ParseFields(s, j).end);
      }
    } else {
      LeafAccepted(s, i);
    }
  }

  lemma {:induction false} AcceptedIsItems(s: string, i: nat)
    requires ParseItems(s, i).Done?
    ensures ParseItems(s, i).value.Item? && IsItems(s, i, ParseItems(s, i).value, ParseItems(s, i).end)
    decreases Left(s, i), 2
  {
    hide Parse, ParseItems, IsValue, IsItems, Closed, Blanks, Skip;
    var a := Skip(s, i);
    SkipsBlanks(s, i);
    ItemsSteps(s, i);
    ValueGrows(s, i);
    ValueGrows(s, a);
    AcceptedIsValue(s, a);
    var b := Parse(s, a).end;
    var c := Skip(s, b);
    ValueGrows(s, b);
    SkipsBlanks(s, b);
    if At(s, c) == ',' { AcceptedIsItems(s, c + 1); } else { ClosedIs(s, b, ']', c); }
    ItemsIs(s, i, ParseItems(s, i).value, ParseItems(s, i).end, a, b, c);
  }

  /** The value that the field at `i` holds is there. */
  lemma FieldSteps(s: string, i: nat)
    requires ParseField(s, i).Done?
    ensures var a := Skip(s, i);
      var name := ReadString(s, a);
      && name.Done? && name.value == ParseField(s, i).value.0
      && var c := Skip(s, name.end);
        && At(s, c) == ':' && i <= a < name.end <= c
        && var d := Skip(s, c + 1);
          d > c && Parse(s, d) == Done(ParseField(s, i).value.1, ParseField(s, i).end)
  {
    hide Parse, ReadString, Skip;
    SkipGrows(s, i);
    SkipGrows(s, ReadString(s, Skip(s, i)).end);
    SkipGrows(s, Skip(s, ReadString(s, Skip(s, i)).end) + 1);
  }

  lemma SkipGrows(s: string, i: nat)
    ensures i <= Skip(s, i)
  {
  }

  lemma {:induction false} AcceptedIsField(s: string, i: nat, fields: Fields)
    requires ParseField(s, i).Done? && fields.Field? && (fields.name, fields.value) == ParseField(s, i).value
    ensures IsField(s, i, fields, ParseField(s, i).end)
    decreases Left(s, i), 2
  {
    hide Parse, ParseField, ReadString, IsValue, IsField, Blanks, Skip;
    FieldSteps(s, i);
    var a := Skip(s, i);
    var b := ReadString(s, a).end;
    var c := Skip(s, b);
    var d := Skip(s, c + 1);
    SkipsBlanks(s, i);
    SkipsBlanks(s, b);
    SkipsBlanks(s, c + 1);
    AcceptedIsValue(s, d);
    FieldIs(s, i, fields, ParseField(s, i).end, a, b, c, d);
  }

  lemma {:induction false} AcceptedIsFields(s: string, i: nat)
    requires ParseFields(s, i).Done?
    ensures ParseFields(s, i).value.Field? && IsFields(s, i, ParseFields(s, i).value, ParseFields(s, i).end)
    decreases Left(s, i), 3
  {
    hide ParseField, ParseFields, IsField, IsFields, Closed, Blanks, Skip;
    FieldsSteps(s, i);
    ValueGrows(s, i);
    var b := ParseField(s, i).end;
    var c := Skip(s, b);
    SkipGrows(s, b);
    SkipsBlanks(s, b);
    AcceptedIsField(s, i, ParseFields(s, i).value);
    if At(s, c) == ',' { AcceptedIsFields(s, c + 1); } else { ClosedIs(s, b, '}', c); }
    FieldsIs(s, i, ParseFields(s, i).value, ParseFields(s, i).end, b, c);
  }

  // ---------- what is in the grammar is accepted ----------

  lemma WordAt(s: string, i: nat, w: string)
    requires Matches(s, i, w) && w != ""
    ensures At(s, i) == w[0]
  {
    assert At(s, i + 0) == w[0];
  }

  lemma ValueStarts(s: string, i: nat, v: Value, j: nat)
    requires IsValue(s, i, v, j)
    ensures At(s, i) > 32 as char && At(s, i) != ']' && At(s, i) != '}'
  {
    hide Matches, ReadNumber, ReadString, IsItems, IsFields, Closed, At;
    if v.Null? { WordAt(s, i, "null"); }
    if v.Bool? { WordAt(s, i, if v.b then "true" else "false"); }
  }

  lemma LeafParsed(s: string, i: nat, v: Value, j: nat)
    requires IsValue(s, i, v, j) && !v.Array? && !v.Object?
    ensures Parse(s, i) == Done(v, j)
  {
    hide Matches, ReadNumber, ReadString, ParseArray, ParseObject, At;
    if v.Null? { WordAt(s, i, "null"); }
    if v.Bool? { WordAt(s, i, if v.b then "true" else "false"); }
    if Matches(s, i, "null") { WordAt(s, i, "null"); }
    if Matches(s, i, "true") { WordAt(s, i, "true"); }
    if Matches(s, i, "false") { WordAt(s, i, "false"); }
  }

  lemma SkipsTo(s: string, i: nat, j: nat)
    requires Blanks(s, i, j) && At(s, j) > 32 as char
    ensures Skip(s, i) == j && Skip(s, j) == j
  {
    hide Skip;
    BlanksSkipped(s, i, j);
    BlanksSkipped(s, j, j);
  }

  lemma ClosedAt(s: string, i: nat, bracket: char, j: nat)
    requires Closed(s, i, bracket, j) && bracket > 32 as char
    ensures j > 0 && Skip(s, i) == j - 1 && At(s, j - 1) == bracket
  {
    hide Skip, Blanks;
    SkipsTo(s, i, j - 1);
  }

  lemma {:induction false} ValueParsed(s: string, i: nat, v: Value, j: nat)
    requires IsValue(s, i, v, j)
    ensures Parse(s, i) == Done(v, j)
    decreases v, 0
  {
    hide Parse, ParseArray, ParseObject, ParseItems, ParseFields, IsItems, IsFields, Closed, Skip, Matches, ReadNumber, ReadString;
    match v
    case Array(items) =>
      BracketNoWord(s, i);
      ArraySteps(s, i);
      if items.NoItem? { ClosedAt(s, i + 1, ']', j); } else { ItemsParsed(s, i + 1, items, j); }
    case Object(fields) =>
      BracketNoWord(s, i);
      ObjectSteps(s, i);
      if fields.NoField? { ClosedAt(s, i + 1, '}', j); } else { FieldsParsed(s, i + 1, fields, j); }
    case _ => LeafParsed(s, i, v, j);
  }

  lemma {:induction false} ItemsParsed(s: string, i: nat, items: Items, j: nat)
    requires items.Item? && IsItems(s, i, items, j)
    ensures ParseItems(s, i) == Done(items, j) && ParseItems(s, Skip(s, i)) == Done(items, j) && At(s, Skip(s, i)) != ']'
    decreases items, 0
  {
    hide Parse, ParseItems, IsValue, Closed, Blanks, Skip, At;
    var a: nat, b: nat :|
      && Blanks(s, i, a) && IsValue(s, a, items.value, b)
      && if items.next.NoItem? then Closed(s, b, ']', j)
         else exists c: nat :: Blanks(s, b, c) && At(s, c) == ',' && IsItems(s, c + 1, items.next, j);
    ValueStarts(s, a, items.value, b);
    SkipsTo(s, i, a);
    ValueParsed(s, a, items.value, b);
    ItemsSteps(s, i);
    ItemsSteps(s, a);
    if items.next.NoItem? {
      ClosedAt(s, b, ']', j);
    } else {
      var c: nat :| Blanks(s, b, c) && At(s, c) == ',' && IsItems(s, c + 1, items.next, j);
      SkipsTo(s, b, c);
      ItemsParsed(s, c + 1, items.next, j);
    }
  }

  lemma FieldIsParsed(s: string, i: nat, name: string, v: Value, j: nat, a: nat, b: nat, c: nat, d: nat)
    requires Skip(s, i) == a && Skip(s, a) == a && ReadString(s, a) == Done(name, b) && Skip(s, b) == c && At(s, c) == ':'
    requires Skip(s, c + 1) == d && Parse(s, d) == Done(v, j)
    ensures ParseField(s, i) == Done((name, v), j) && ParseField(s, a) == Done((name, v), j)
  {
    hide Parse, ReadString, Skip;
  }

  lemma StringStarts(s: string, i: nat)
    requires ReadString(s, i).Done?
    ensures At(s, i) == '\"'
  {
  }

  lemma {:induction false} FieldParsed(s: string, i: nat, fields: Fields, j: nat)
    requires fields.Field? && IsField(s, i, fields, j)
    ensures ParseField(s, i) == Done((fields.name, fields.value), j)
    ensures ParseField(s, Skip(s, i)) == Done((fields.name, fields.value), j) && At(s, Skip(s, i)) == '\"'
    decreases fields, 0
  {
    hide Parse, ParseField, ReadString, IsValue, Blanks, Skip, At;
    var a: nat, b: nat, c: nat, d: nat :|
      && Blanks(s, i, a) && ReadString(s, a) == Done(fields.name, b)
      && Blanks(s, b, c) && At(s, c) == ':'
      && Blanks(s, c + 1, d) && IsValue(s, d, fields.value, j);
    StringStarts(s, a);
    SkipsTo(s, i, a);
    SkipsTo(s, b, c);
    ValueStarts(s, d, fields.value, j);
    SkipsTo(s, c + 1, d);
    ValueParsed(s, d, fields.value, j);
    FieldIsParsed(s, i, fields.name, fields.value, j, a, b, c, d);
  }

  lemma {:induction false} FieldsParsed(s: string, i: nat, fields: Fields, j: nat)
    requires fields.Field? && IsFields(s, i, fields, j)
    ensures ParseFields(s, i) == Done(fields, j) && ParseFields(s, Skip(s, i)) == Done(fields, j) && At(s, Skip(s, i)) != '}'
    decreases fields, 1
  {
    hide ParseField, ParseFields, IsField, Closed, Blanks, Skip, At;
    var b: nat :|
      && IsField(s, i, fields, b)
      && if fields.next.NoField? then Closed(s, b, '}', j)
         else exists c: nat :: Blanks(s, b, c) && At(s, c) == ',' && IsFields(s, c + 1, fields.next, j);
    FieldParsed(s, i, fields, b);
    FieldsSteps(s, i);
    FieldsSteps(s, Skip(s, i));
    if fields.next.NoField? {
      ClosedAt(s, b, '}', j);
    } else {
      var c: nat :| Blanks(s, b, c) && At(s, c) == ',' && IsFields(s, c + 1, fields.next, j);
      SkipsTo(s, b, c);
      FieldsParsed(s, c + 1, fields.next, j);
    }
  }

  /** The parser accepts exactly the grammar, on every text: nothing else between brackets, no missing or trailing
      comma, no missing colon. */
  lemma ParsesIff(s: string, i: nat, v: Value, j: nat)
    ensures Parse(s, i) == Done(v, j) <==> IsValue(s, i, v, j)
  {
    hide Parse, IsValue;
    if Parse(s, i) == Done(v, j) { AcceptedIsValue(s, i); }
    if IsValue(s, i, v, j) { ValueParsed(s, i, v, j); }
  }
}
