/** The parser of cJSON as it runs: moving pointers, loops, and one recursion per nested value.
  Every method returns what the function of the same job in Json says.
*/
module JsonParse {
  import opened Json

  /** skip */
  method SkipBlanks(s: string, i: nat) returns (j: nat)
    ensures j == Skip(s, i)
  {
    j := i;
    while At(s, j) != NUL && At(s, j) <= 32 as char
      invariant Skip(s, j) == Skip(s, i)
      decreases |s| - j
    {
      j := j + 1;
    }
  }

  /** The loop over digits, entered when there is one. */
  method ParseDigits(s: string, i: nat, acc: nat) returns (n: nat, j: nat)
    requires IsDigit(At(s, i))
    ensures (n, j) == ScanDigits(s, i, acc)
  {
    n, j := acc, i;
    while true
      invariant ScanDigits(s, j, n) == ScanDigits(s, i, acc) && IsDigit(At(s, j))
      decreases |s| - j
    {
      n := n * 10 + (At(s, j) as int - '0' as int);
      j := j + 1;
      if !IsDigit(At(s, j)) { return; }
    }
  }

  /** parse_number */
  method ParseNumber(s: string, i: nat) returns (value: real, num: nat)
    ensures (value, num) == ReadNumber(s, i)
  {
    var n: nat, negative, scale: int, exp := 0, false, 0, 0;
    num := i;
    if At(s, num) == '-' { negative := true; num := num + 1; }
    ghost var whole := ReadWhole(s, num);
    if At(s, num) == '0' { num := num + 1; }
    if '1' <= At(s, num) <= '9' { n, num := ParseDigits(s, num, n); }
    assert whole == (n, num);
    if At(s, num) == '.' && IsDigit(At(s, num + 1)) {
      var point := num;
      n, num := ParseDigits(s, num + 1, n);
      scale := -(num - point - 1);
    }
    ghost var all := ReadFraction(s, whole.1, whole.0);
    assert all == (n, num);
    exp, num := ParseExponent(s, num);
    value := Decimal(negative, n, scale + exp);
  }

  /** The exponent part of parse_number: subscale times signsubscale. */
  method ParseExponent(s: string, i: nat) returns (exp: int, num: nat)
    ensures (exp, num) == ReadExponent(s, i)
  {
    var subscale, signsubscale: int := 0, 1;
    num := i;
    if At(s, num) == 'e' || At(s, num) == 'E' {
      num := num + 1;
      if At(s, num) == '+' { num := num + 1; }
      else if At(s, num) == '-' { signsubscale := -1; num := num + 1; }
      if IsDigit(At(s, num)) { subscale, num := ParseDigits(s, num, 0); }
    }
    exp := subscale * signsubscale;
    assert exp == if signsubscale == 1 then subscale else 0 - subscale;
  }

  // ---------- the size of a string literal ----------

  predicate EndsLiteral(c: char) { c == '\"' || c == NUL }

  /** A literal whose every backslash has something behind it, and whose every \u four hexadecimal digits. */
  predicate WellFormed(s: string, i: nat)
    decreases |s| - i
  {
    if EndsLiteral(At(s, i)) then true
    else if At(s, i) == '\\' then
      At(s, i + 1) != NUL && (At(s, i + 1) == 'u' ==> FourHex(s, i + 2)) && WellFormed(s, i + 2)
    else WellFormed(s, i + 1)
  }

  predicate FourHex(s: string, i: nat)
  {
    HexValue(At(s, i)) >= 0 && HexValue(At(s, i + 1)) >= 0 && HexValue(At(s, i + 2)) >= 0 && HexValue(At(s, i + 3)) >= 0
  }

  /** How much the parser counts for the body of a literal, and where it stops counting. */
  function Count(s: string, i: nat): (r: (nat, nat))
    decreases |s| - i
  {
    if EndsLiteral(At(s, i)) then (0, i)
    else
      var rest := Count(s, if At(s, i) == '\\' then i + 2 else i + 1);
      (1 + rest.0, rest.1)
  }

  /** The first loop of parse_string */
  method CountLiteral(s: string, i: nat) returns (len: nat)
    ensures len == Count(s, i).0
  {
    var ptr := i;
    len := 0;
    while At(s, ptr) != '\"' && At(s, ptr) != NUL
      invariant len + Count(s, ptr).0 == Count(s, i).0
      decreases |s| - ptr
    {
      len := len + 1;
      if At(s, ptr) == '\\' { ptr := ptr + 1; }
      ptr := ptr + 1;
    }
  }

  lemma HexIsPlain(s: string, i: nat)
    requires HexValue(At(s, i)) >= 0
    ensures Count(s, i) == (1 + Count(s, i + 1).0, Count(s, i + 1).1) && WellFormed(s, i) == WellFormed(s, i + 1)
  {
  }

  lemma FourPlain(s: string, i: nat)
    requires FourHex(s, i)
    ensures Count(s, i) == (4 + Count(s, i + 4).0, Count(s, i + 4).1) && WellFormed(s, i) == WellFormed(s, i + 4)
  {
    hide Count, WellFormed, HexValue;
    HexIsPlain(s, i);
    HexIsPlain(s, i + 1);
    HexIsPlain(s, i + 2);
    HexIsPlain(s, i + 3);
  }

  lemma BackslashStep(s: string, i: nat)
    requires At(s, i) == '\\'
    ensures Count(s, i) == (1 + Count(s, i + 2).0, Count(s, i + 2).1)
    ensures WellFormed(s, i) ==> At(s, i + 1) != NUL && (At(s, i + 1) == 'u' ==> FourHex(s, i + 2)) && WellFormed(s, i + 2)
    ensures ReadBody(s, i)
         == (ReadEscape(s, i + 1).0 + ReadBody(s, ReadEscape(s, i + 1).1).0, ReadBody(s, ReadEscape(s, i + 1).1).1)
  {
    hide FourHex, ReadEscape, HexValue;
  }

  lemma PlainStep(s: string, i: nat)
    requires !EndsLiteral(At(s, i)) && At(s, i) != '\\'
    ensures Count(s, i) == (1 + Count(s, i + 1).0, Count(s, i + 1).1) && WellFormed(s, i) == WellFormed(s, i + 1)
    ensures i < |s| && ReadBody(s, i) == ([s[i]] + ReadBody(s, i + 1).0, ReadBody(s, i + 1).1)
  {
    hide FourHex, ReadEscape;
  }

  /** A \u escape, with its second half if there is one: it stands for no more than is counted for it. */
  lemma UnicodeFits(s: string, i: nat)
    requires At(s, i) == '\\' && At(s, i + 1) == 'u' && WellFormed(s, i)
    ensures var e := ReadUnicode(s, i + 1);
      WellFormed(s, e.1) && Count(s, e.1).0 + |e.0| <= Count(s, i).0 && Count(s, e.1).1 == Count(s, i).1
  {
    hide Count, WellFormed, HexValue, ParseHex4, ReadBody, FourHex, ReadEscape;
    BackslashStep(s, i);
    FourPlain(s, i + 2);
    if At(s, i + 6) == '\\' && At(s, i + 7) == 'u' {
      BackslashStep(s, i + 6);
      FourPlain(s, i + 8);
    }
  }

  /** Whatever else stands behind a backslash stands for one character. */
  lemma EscapeFits(s: string, i: nat)
    requires At(s, i) == '\\' && WellFormed(s, i)
    ensures var e := ReadEscape(s, i + 1);
      WellFormed(s, e.1) && Count(s, e.1).0 + |e.0| <= Count(s, i).0 && Count(s, e.1).1 == Count(s, i).1
  {
    hide Count, WellFormed, ReadUnicode, ReadBody, FourHex;
    if At(s, i + 1) == 'u' { UnicodeFits(s, i); } else { BackslashStep(s, i); }
  }

  /** The text of a well-formed literal has no more characters than were counted for it, and ends where the
      count ended. */
  lemma {:induction false} LiteralFits(s: string, i: nat)
    requires WellFormed(s, i)
    ensures |ReadBody(s, i).0| <= Count(s, i).0 && ReadBody(s, i).1 == Count(s, i).1
    decreases |s| - i
  {
    hide WellFormed, Count, ReadBody, ReadEscape;
    if EndsLiteral(At(s, i)) {
      NothingCounted(s, i);
    } else if At(s, i) == '\\' {
      EscapeFits(s, i);
      BackslashStep(s, i);
      LiteralFits(s, ReadEscape(s, i + 1).1);
    } else {
      PlainStep(s, i);
      LiteralFits(s, i + 1);
    }
  }

  lemma NothingCounted(s: string, i: nat)
    requires EndsLiteral(At(s, i))
    ensures Count(s, i) == (0, i) && ReadBody(s, i) == ("", i)
  {
  }

  /** parse_string, and the size of the buffer it allocates, but for the NUL. */
  method ParseString(s: string, i: nat) returns (r: Read<string>, len: nat)
    ensures r == ReadString(s, i)
    ensures r.Done? && WellFormed(s, i + 1) ==> |r.value| <= len
    ensures r.Done? ==> len == Count(s, i + 1).0
  {
    if At(s, i) != '\"' { return Fail, 0; }
    len := CountLiteral(s, i + 1);
    r := ParseBody(s, i + 1);
    if WellFormed(s, i + 1) { LiteralFits(s, i + 1); }
  }

  /** The second loop of parse_string */
  method ParseBody(s: string, i: nat) returns (r: Read<string>)
    ensures r == Done(ReadBody(s, i).0, if At(s, ReadBody(s, i).1) == '\"' then ReadBody(s, i).1 + 1 else ReadBody(s, i).1)
  {
    var ptr, out := i, "";
    assert "" + ReadBody(s, ptr).0 == ReadBody(s, ptr).0;
    while At(s, ptr) != '\"' && At(s, ptr) != NUL
      invariant var rest := ReadBody(s, ptr); ReadBody(s, i) == (out + rest.0, rest.1)
      decreases |s| - ptr
    {
      ghost var rest := ReadBody(s, ptr);
      if At(s, ptr) != '\\' {
        Shift(out, [s[ptr]], ReadBody(s, ptr + 1).0);
        out := out + [s[ptr]];
        ptr := ptr + 1;
      } else {
        var e := ReadEscape(s, ptr + 1);
        Shift(out, e.0, ReadBody(s, e.1).0);
        out := out + e.0;
        ptr := e.1;
      }
    }
    assert out + "" == out;
    if At(s, ptr) == '\"' { ptr := ptr + 1; }
    return Done(out, ptr);
  }

  lemma Shift(a: string, b: string, c: string)
    ensures a + (b + c) == (a + b) + c
  {
  }

  /** The list of the values `vs`, followed by `next`. */
  function Chain(vs: seq<Value>, next: Items): Items
  {
    if vs == [] then next else Chain(vs[..|vs| - 1], Item(vs[|vs| - 1], next))
  }

  /** What is read when `vs` have been read already. */
  function AfterItems(vs: seq<Value>, rest: Read<Items>): Read<Items>
  {
    if rest.Fail? then Fail else Done(Chain(vs, rest.value), rest.end)
  }

  function ChainFields(fs: seq<(string, Value)>, next: Fields): Fields
  {
    if fs == [] then next else ChainFields(fs[..|fs| - 1], Field(fs[|fs| - 1].0, fs[|fs| - 1].1, next))
  }

  function AfterFields(fs: seq<(string, Value)>, rest: Read<Fields>): Read<Fields>
  {
    if rest.Fail? then Fail else Done(ChainFields(fs, rest.value), rest.end)
  }

  /** parse_value */
  method ParseValue(s: string, i: nat) returns (r: Read<Value>)
    ensures r == Parse(s, i)
    decreases Left(s, i), 1
  {
    if Matches(s, i, "null") { return Done(Null, i + 4); }
    if Matches(s, i, "false") { return Done(Bool(false), i + 5); }
    if Matches(s, i, "true") { return Done(Bool(true), i + 4); }
    if At(s, i) == '\"' {
      var t, _ := ParseString(s, i);
      return if t.Fail? then Fail else Done(String(t.value), t.end);
    }
    if At(s, i) == '-' || IsDigit(At(s, i)) {
      var n, j := ParseNumber(s, i);
      return Done(Number(n), j);
    }
    if At(s, i) == '[' { r := ParseArrayText(s, i); return; }
    if At(s, i) == '{' { r := ParseObjectText(s, i); return; }
    return Fail;
  }

  /** parse_array */
  method ParseArrayText(s: string, i: nat) returns (r: Read<Value>)
    ensures r == if At(s, i) == '[' then ParseArray(s, i) else Fail
    decreases Left(s, i), 0
  {
    hide Parse, Skip, Chain;
    if At(s, i) != '[' { return Fail; }
    var value := SkipBlanks(s, i + 1);
    if At(s, value) == ']' { return Done(Array(NoItem), value + 1); }
    ghost var start := value;
    var items: seq<Value> := [];
    AfterNoItems(ParseItems(s, start));
    while true
      invariant i < value && i < |s| && ParseItems(s, start) == AfterItems(items, ParseItems(s, value))
      decreases Left(s, value)
    {
      ghost var from := value;
      value := SkipBlanks(s, value);
      var v := ParseValue(s, value);
      if v.Fail? { return Fail; }
      value := SkipBlanks(s, v.end);
      if At(s, value) != ',' {
        if At(s, value) != ']' { return Fail; }
        assert ParseItems(s, from) == Done(Item(v.value, NoItem), value + 1);
        ChainLast(items, v.value);
        return Done(Array(Chain(items + [v.value], NoItem)), value + 1);
      }
      ChainOne(s, items, from, v, value);
      items := items + [v.value];
      value := value + 1;
    }
  }

  lemma ChainOne(s: string, items: seq<Value>, i: nat, v: Read<Value>, j: nat)
    requires v == Parse(s, Skip(s, i)) && v.Done? && j == Skip(s, v.end) && At(s, j) == ','
    ensures AfterItems(items, ParseItems(s, i)) == AfterItems(items + [v.value], ParseItems(s, j + 1))
  {
    hide Parse, Skip, Chain;
    ChainLast(items, v.value);
  }

  lemma AfterNoItems(rest: Read<Items>)
    ensures AfterItems([], rest) == rest
  {
  }

  lemma ChainLast(items: seq<Value>, v: Value)
    ensures forall next :: Chain(items + [v], next) == Chain(items, Item(v, next))
  {
    assert (items + [v])[..|items|] == items;
  }

  /** The part of the loop of parse_object that reads a name and a value. */
  method ParseOneField(s: string, i: nat) returns (r: Read<(string, Value)>)
    ensures r == ParseField(s, i)
    decreases Left(s, i), 2
  {
    var value := SkipBlanks(s, i);
    var name, _ := ParseString(s, value);
    if name.Fail? { return Fail; }
    value := SkipBlanks(s, name.end);
    if At(s, value) != ':' { return Fail; }
    value := SkipBlanks(s, value + 1);
    var v := ParseValue(s, value);
    return if v.Fail? then Fail else Done((name.value, v.value), v.end);
  }

  /** parse_object */
  method ParseObjectText(s: string, i: nat) returns (r: Read<Value>)
    ensures r == if At(s, i) == '{' then ParseObject(s, i) else Fail
    decreases Left(s, i), 0
  {
    hide ParseField, Skip, ChainFields;
    if At(s, i) != '{' { return Fail; }
    var value := SkipBlanks(s, i + 1);
    if At(s, value) == '}' { return Done(Object(NoField), value + 1); }
    ghost var start := value;
    var fields: seq<(string, Value)> := [];
    AfterNoFields(ParseFields(s, start));
    while true
      invariant i < value && i < |s| && ParseFields(s, start) == AfterFields(fields, ParseFields(s, value))
      decreases Left(s, value)
    {
      ghost var from := value;
      var f := ParseOneField(s, value);
      if f.Fail? { return Fail; }
      value := SkipBlanks(s, f.end);
      ChainLastField(fields, f.value);
      if At(s, value) != ',' {
        if At(s, value) != '}' { return Fail; }
        return Done(Object(ChainFields(fields + [f.value], NoField)), value + 1);
      }
      ChainOneField(s, fields, from, f, value);
      fields := fields + [f.value];
      value := value + 1;
    }
  }

  lemma AfterNoFields(rest: Read<Fields>)
    ensures AfterFields([], rest) == rest
  {
  }

  lemma ChainLastField(fields: seq<(string, Value)>, f: (string, Value))
    ensures forall next :: ChainFields(fields + [f], next) == ChainFields(fields, Field(f.0, f.1, next))
  {
    assert (fields + [f])[..|fields|] == fields;
  }

  lemma ChainOneField(s: string, fields: seq<(string, Value)>, i: nat, f: Read<(string, Value)>, j: nat)
    requires f == ParseField(s, i) && f.Done? && j == Skip(s, f.end) && At(s, j) == ','
    ensures AfterFields(fields, ParseFields(s, i)) == AfterFields(fields + [f.value], ParseFields(s, j + 1))
  {
    hide ParseField, Skip, ChainFields;
    ChainLastField(fields, f.value);
  }
}
