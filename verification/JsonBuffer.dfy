/** The printer of cJSON that writes into one growing buffer.  It prints the same text as the printer
  that allocates a buffer for every value, whatever the initial size.
*/
module JsonBuffer {
  import opened Json
  import opened JsonPrint

  /** The least power of two that is not less than `x`. */
  function Pow2Gt(x: int): (r: int)
    ensures r >= x && r >= 1
    ensures r > 1 ==> r / 2 < x
  {
    if x <= 1 then 1 else 2 * Pow2Gt((x + 1) / 2)
  }

  class PrintBuffer {
    var buffer: array<char>
    var offset: nat

    constructor (prebuffer: nat)
      requires prebuffer > 0
      ensures fresh(buffer) && buffer.Length == prebuffer && offset == 0
    {
      buffer := new char[prebuffer];
      offset := 0;
    }

    /** The buffer is the old one, or a new one. */
    twostate predicate Moved()
      reads this
    {
      buffer == old(buffer) || fresh(buffer)
    }

    /** The buffer begins with `t`, up to the offset. */
    ghost predicate Filled(t: string)
      reads this, buffer
    {
      offset == |t| <= buffer.Length && buffer[..offset] == t
    }

    /** The buffer begins with the C string `base + t`, and the offset is somewhere in `t`. */
    ghost predicate Shows(base: string, t: string)
      reads this, buffer
    {
      && |base| <= offset <= |base| + |t| < buffer.Length
      && buffer[..|base| + |t|] == base + t && buffer[|base| + |t|] == NUL
    }

    /** ensure */
    method Ensure(needed: nat, ghost base: string) returns (ptr: nat)
      requires Filled(base)
      modifies this`buffer
      ensures Moved() && Filled(base) && ptr == offset == |base| && ptr + needed <= buffer.Length
    {
      ptr := offset;
      if offset + needed <= buffer.Length { return; }
      var newsize := Pow2Gt(offset + needed);
      var newbuffer := new char[newsize];
      var old_ := buffer;
      var n := Put(newbuffer, 0, old_[..]);
      assert newbuffer[..n][..offset] == base;
      buffer := newbuffer;
    }

    /** update */
    method Update(ghost base: string, ghost t: string)
      requires Shows(base, t) && NUL !in t
      modifies this`offset
      ensures Filled(base + t)
    {
      ghost var end := |base| + |t|;
      forall k | offset <= k < end ensures buffer[k] != NUL {
        assert buffer[..end][k] == t[k - |base|];
      }
      var k := offset;
      while buffer[k] != NUL
        invariant offset <= k <= end
        decreases end - k
      {
        k := k + 1;
      }
      offset := k;
    }

    /** Text that is made room for, written and passed; `nul` says whether a NUL is put after it. */
    method Emit(t: string, nul: bool, ghost base: string)
      requires Filled(base)
      modifies this, buffer
      ensures Moved() && Filled(base + t)
    {
      var ptr := Ensure(|t| + (if nul then 1 else 0), base);
      ptr := Put(buffer, ptr, t);
      if nul { buffer[ptr] := NUL; }
      offset := ptr;
    }

    /** Text that is made room for and written with its NUL, but not passed. */
    method Write(t: string, needed: nat, ghost base: string) returns (out: nat)
      requires Filled(base) && |t| < needed
      modifies this, buffer
      ensures Moved() && Shows(base, t) && out == offset == old(offset)
    {
      out := Ensure(needed, base);
      var ptr := Put(buffer, out, t);
      buffer[ptr] := NUL;
    }

    // ---------- values ----------

    /** print_value with a printbuffer.  What it returns is used only for the outermost value. */
    method PrintInto(v: Value, depth: nat, fmt: bool, ghost base: string) returns (out: nat)
      requires Printable(v) && Filled(base)
      modifies this, buffer
      ensures Moved() && Shows(base, Print(v, depth, fmt))
      ensures depth == 0 && old(offset) == 0 ==> out == 0
      decreases Weight(v), 1
    {
      match v
      case Null => out := Write("null", 5, base);
      case Bool(b) =>
        if b { out := Write("true", 5, base); } else { out := Write("false", 6, base); }
      case Number(n) =>
        IntFits(n.Floor);
        if n == 0.0 { out := Write("0", 2, base); } else { out := Write(PrintInt(n.Floor), 21, base); }
      case String(str) => out := WriteString(str, base);
      case Array(items) => out := ArrayInto(items, depth, fmt, base);
      case Object(fields) => out := ObjectInto(fields, depth, fmt, base);
    }

    /** print_string_ptr with a printbuffer */
    method WriteString(str: string, ghost base: string) returns (out: nat)
      requires IsCString(str) && Filled(base)
      modifies this, buffer
      ensures Moved() && Shows(base, Quote(str)) && out == offset == old(offset)
    {
      var flag := NeedsEscaping(str);
      if !flag {
        EscapeNothing(str);
        out := Write("\"" + str + "\"", |str| + 3, base);
      } else {
        var len := EscapedLength(str);
        out := Write(Quote(str), len + 3, base);
      }
    }

    /** One element of an array, and the separator after it. */
    method ItemInto(items: Items, depth: nat, fmt: bool, ghost base: string)
      requires items.Item? && PrintableItems(items) && Filled(base)
      modifies this, buffer
      ensures Moved() && Filled(base + (Print(items.value, depth, fmt) + Separator(items.next.NoItem?, fmt)))
      decreases Weight(items.value), 2
    {
      ghost var t := Print(items.value, depth, fmt);
      var ignored := PrintInto(items.value, depth, fmt, base);
      PrintNoNul(items.value, depth, fmt);
      Update(base, t);
      if items.next.Item? {
        Emit(if fmt then ", " else ",", true, base + t);
      }
      Assoc(base, t, Separator(items.next.NoItem?, fmt));
    }

    /** print_array with a printbuffer */
    method ArrayInto(items: Items, depth: nat, fmt: bool, ghost base: string) returns (out: nat)
      requires PrintableItems(items) && Filled(base)
      modifies this, buffer
      ensures Moved() && Shows(base, Print(Array(items), depth, fmt)) && out == old(offset)
      decreases 1 + ItemsWeight(items), 0
    {
      if items.NoItem? {
        ArrayText(items, depth, fmt);
        out := Write("[]", 3, base);
        return;
      }
      out := offset;
      Emit("[", false, base);
      ItemsInto(items, depth + 1, fmt, base + "[");
      ArrayText(items, depth, fmt);
      CloseBracket(base, "[" + PrintItems(items, depth + 1, fmt));
    }

    /** The loop of print_array. */
    method ItemsInto(items: Items, depth: nat, fmt: bool, ghost base: string)
      requires PrintableItems(items) && Filled(base)
      modifies this, buffer
      ensures Moved() && Filled(base + PrintItems(items, depth, fmt))
      decreases ItemsWeight(items), 3
    {
      var child := items;
      ghost var done := base;
      while child.Item?
        invariant PrintableItems(child) && ItemsWeight(child) <= ItemsWeight(items) && Moved()
        invariant Filled(done) && done + PrintItems(child, depth, fmt) == base + PrintItems(items, depth, fmt)
        decreases child
      {
        ghost var t, sep, rest := Print(child.value, depth, fmt), Separator(child.next.NoItem?, fmt), PrintItems(child.next, depth, fmt);
        ItemInto(child, depth, fmt, done);
        PieceFits(t, sep, rest, PrintItems(child, depth, fmt));
        Assoc(done, t + sep, rest);
        done := done + (t + sep);
        child := child.next;
      }
      assert done + "" == done;
    }

    /** The closing bracket of an array. */
    method CloseBracket(ghost base: string, ghost t: string)
      requires Filled(base + t)
      modifies this, buffer
      ensures Moved() && Shows(base, t + "]")
    {
      var out := Write("]", 2, base + t);
      Assoc(base, t, "]");
    }

    /** The name of a field, and the colon. */
    method NameInto(name: string, depth: nat, fmt: bool, ghost base: string)
      requires IsCString(name) && Filled(base)
      modifies this, buffer
      ensures Moved() && Filled(base + (Indent(depth, fmt) + (Quote(name) + Colon(fmt))))
    {
      ghost var at := base;
      if fmt {
        Emit(Tabs(depth), false, base);
        at := base + Tabs(depth);
      }
      var ignored := WriteString(name, at);
      QuoteNoNul(name);
      Update(at, Quote(name));
      Emit(if fmt then ":\t" else ":", false, at + Quote(name));
      JoinName(base, Indent(depth, fmt), Quote(name), Colon(fmt));
    }

    static lemma JoinName(o: string, a: string, b: string, c: string)
      ensures ((o + a) + b) + c == o + (a + (b + c)) && (a == "" ==> o + a == o)
    {
      Assoc(o + a, b, c);
      Assoc(o, a, b + c);
    }

    /** The value of a field, and what ends it. */
    method EntryInto(v: Value, last: bool, depth: nat, fmt: bool, ghost base: string)
      requires Printable(v) && Filled(base)
      modifies this, buffer
      ensures Moved() && Filled(base + (Print(v, depth, fmt) + FieldEnd(last, fmt)))
      decreases Weight(v), 2
    {
      ghost var t := Print(v, depth, fmt);
      var ignored := PrintInto(v, depth, fmt, base);
      PrintNoNul(v, depth, fmt);
      Update(base, t);
      Emit((if last then "" else ",") + (if fmt then "\n" else ""), true, base + t);
      Assoc(base, t, FieldEnd(last, fmt));
    }

    /** The loop of print_object. */
    method FieldsInto(fields: Fields, depth: nat, fmt: bool, ghost base: string)
      requires PrintableFields(fields) && Filled(base)
      modifies this, buffer
      ensures Moved() && Filled(base + PrintFields(fields, depth, fmt))
      decreases FieldsWeight(fields), 3
    {
      var child := fields;
      ghost var done := base;
      while child.Field?
        invariant PrintableFields(child) && FieldsWeight(child) <= FieldsWeight(fields) && Moved()
        invariant Filled(done) && done + PrintFields(child, depth, fmt) == base + PrintFields(fields, depth, fmt)
        decreases child
      {
        ghost var a, b, c := Indent(depth, fmt), Quote(child.name), Colon(fmt);
        ghost var d, e, r := Print(child.value, depth, fmt), FieldEnd(child.next.NoField?, fmt), PrintFields(child.next, depth, fmt);
        NameInto(child.name, depth, fmt, done);
        EntryInto(child.value, child.next.NoField?, depth, fmt, done + (a + (b + c)));
        JoinStep(done, a, b, c, d, e, r);
        done := (done + (a + (b + c))) + (d + e);
        child := child.next;
      }
      assert done + "" == done;
    }

    static lemma JoinStep(o: string, a: string, b: string, c: string, d: string, e: string, r: string)
      ensures ((o + (a + (b + c))) + (d + e)) + r == o + (a + (b + (c + (d + (e + r)))))
    {
      JoinField(o, a, b, c, d, e);
      Join6(a, b, c, d, e, r);
      Assoc(o, a + (b + (c + (d + e))), r);
    }

    /** The end of an object: its indentation and the closing brace. */
    method CloseBrace(depth: nat, fmt: bool, ghost base: string, ghost t: string)
      requires Filled(base + t)
      modifies this, buffer
      ensures Moved() && Shows(base, (t + Indent(depth, fmt)) + "}")
    {
      var out := Write((if fmt then Tabs(depth) else "") + "}", if fmt then depth + 2 else 2, base + t);
      Assoc(t, Indent(depth, fmt), "}");
      Assoc(base, t, Indent(depth, fmt) + "}");
    }

    /** An object without fields. */
    method EmptyInto(depth: nat, fmt: bool, ghost base: string) returns (out: nat)
      requires Filled(base)
      modifies this, buffer
      ensures Moved() && Shows(base, Print(Object(NoField), depth, fmt)) && out == old(offset)
    {
      out := Write("{" + ((if fmt then "\n" else "") + ((if fmt then Tabs(depth - 1) else "") + "}")),
                   if fmt then depth + 4 else 3, base);
    }

    /** print_object with a printbuffer.  When it formats, the loop that indents the closing brace
        reuses the variable that holds the start of the object, which is then returned. */
    method ObjectInto(fields: Fields, depth0: nat, fmt: bool, ghost base: string) returns (out: nat)
      requires PrintableFields(fields) && Filled(base)
      modifies this, buffer
      ensures Moved() && Shows(base, Print(Object(fields), depth0, fmt))
      ensures out == if fmt && fields.Field? then depth0 else old(offset)
      decreases 1 + FieldsWeight(fields), 0
    {
      if fields.NoField? { out := EmptyInto(depth0, fmt, base); return; }
      hide Print, PrintFields, Indent, Tabs;
      out := offset;
      var depth := depth0 + 1;
      Emit("{" + (if fmt then "\n" else ""), true, base);
      FieldsInto(fields, depth, fmt, base + ("{" + NewLine(fmt)));
      ghost var t := ("{" + NewLine(fmt)) + PrintFields(fields, depth, fmt);
      Assoc(base, "{" + NewLine(fmt), PrintFields(fields, depth, fmt));
      CloseBrace(depth - 1, fmt, base, t);
      if fmt { out := depth - 1; }
      ObjectText(fields, depth0, fmt);
    }
  }

  /** cJSON_PrintBuffered: the C string at the index returned is the text that the other printer makes. */
  method PrintBuffered(item: Value, prebuffer: nat, fmt: bool) returns (buffer: array<char>, out: nat)
    requires Printable(item) && prebuffer > 0
    ensures out == 0 && CStr(buffer, Print(item, 0, fmt))
  {
    var p := new PrintBuffer(prebuffer);
    assert p.buffer[..0] == "";
    out := p.PrintInto(item, 0, fmt, "");
    PrintNoNul(item, 0, fmt);
    buffer := p.buffer;
    assert "" + Print(item, 0, fmt) == Print(item, 0, fmt);
  }
}
