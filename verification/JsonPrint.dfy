/** The printer of cJSON that allocates a buffer of computed size for every value.  Writing past the
  end of a buffer is an array access out of bounds, which the verifier rules out.
*/
module JsonPrint {
  import opened Json

  /** `a` holds the C string `t`. */
  predicate CStr(a: array<char>, t: string)
    reads a
  {
    |t| < a.Length && a[..|t|] == t && a[|t|] == NUL && NUL !in t
  }

  lemma NoNulInside(a: array<char>, t: string)
    requires CStr(a, t)
    ensures forall k :: 0 <= k < |t| ==> a[k] != NUL
  {
    forall k | 0 <= k < |t| ensures a[k] != NUL {
      assert a[..|t|][k] in t;
    }
  }

  /** strlen */
  method StrLen(a: array<char>, ghost t: string) returns (n: nat)
    requires CStr(a, t)
    ensures n == |t|
  {
    NoNulInside(a, t);
    n := 0;
    while a[n] != NUL
      invariant n <= |t|
      decreases |t| - n
    {
      n := n + 1;
    }
  }

  /** A run of assignments through a moving pointer. */
  method Put(out: array<char>, ptr: nat, t: string) returns (next: nat)
    requires ptr + |t| <= out.Length
    modifies out
    ensures next == ptr + |t| && out[..next] == old(out[..ptr]) + t
  {
    var i := 0;
    while i < |t|
      invariant 0 <= i <= |t| && out[..ptr + i] == old(out[..ptr]) + t[..i]
    {
      out[ptr + i] := t[i];
      i := i + 1;
    }
    assert t[..i] == t;
    next := ptr + i;
  }

  /** strlen and memcpy of a C string, without its NUL. */
  method PutCString(out: array<char>, ptr: nat, src: array<char>, ghost t: string) returns (next: nat)
    requires CStr(src, t) && src != out && ptr + |t| <= out.Length
    modifies out
    ensures next == ptr + |t| && out[..next] == old(out[..ptr]) + t
  {
    var n := StrLen(src, t);
    next := Put(out, ptr, src[..n]);
  }

  /** cJSON_strdup */
  method StrDup(t: string) returns (out: array<char>)
    requires NUL !in t
    ensures fresh(out) && out.Length == |t| + 1 && CStr(out, t)
  {
    out := new char[|t| + 1];
    var ptr := Put(out, 0, t);
    out[ptr] := NUL;
    assert out[..|t|] == t;
  }

  // ---------- strings and numbers ----------

  predicate NeedsEscape(c: char) { EscapeChar(c) != [c] }

  lemma {:induction false} EscapeNothing(str: string)
    requires forall i :: 0 <= i < |str| ==> !NeedsEscape(str[i])
    ensures Escape(str) == str
    decreases |str|
  {
    if str != "" {
      EscapeNothing(str[1..]);
      assert str == [str[0]] + str[1..];
    }
  }

  lemma {:induction false} EscapeAppend(a: string, b: string)
    ensures Escape(a + b) == Escape(a) + Escape(b)
    decreases |a|
  {
    if a == "" {
      assert a + b == b;
    } else {
      assert (a + b)[1..] == a[1..] + b;
      EscapeAppend(a[1..], b);
    }
  }

  lemma EscapeOne(str: string, i: int)
    requires 0 <= i < |str|
    ensures Escape(str[..i + 1]) == Escape(str[..i]) + EscapeChar(str[i])
  {
    EscapeAppend(str[..i], [str[i]]);
    assert str[..i + 1] == str[..i] + [str[i]];
    assert Escape([str[i]]) == EscapeChar(str[i]) + Escape([]);
  }

  lemma {:induction false} EscapeNoNul(str: string)
    requires IsCString(str)
    ensures NUL !in Escape(str)
    decreases |str|
  {
    if str != "" {
      EscapeNoNul(str[1..]);
      assert NUL !in EscapeChar(str[0]);
    }
  }

  lemma QuoteNoNul(str: string)
    requires IsCString(str)
    ensures NUL !in Quote(str)
  {
    EscapeNoNul(str);
  }

  /** The first pass of print_string_ptr: does any character need escaping? */
  method NeedsEscaping(str: string) returns (flag: bool)
    requires IsCString(str)
    ensures flag <==> exists i :: 0 <= i < |str| && NeedsEscape(str[i])
  {
    flag := false;
    var i := 0;
    while i < |str|
      invariant 0 <= i <= |str| && (flag <==> exists k :: 0 <= k < i && NeedsEscape(str[k]))
    {
      if str[i] < 32 as char || str[i] == '\"' || str[i] == '\\' { flag := true; }
      i := i + 1;
    }
  }

  /** The second pass: the length of the escaped text. */
  method EscapedLength(str: string) returns (len: nat)
    requires IsCString(str)
    ensures len == |Escape(str)|
  {
    len := 0;
    var i := 0;
    while i < |str|
      invariant 0 <= i <= |str| && len == |Escape(str[..i])|
    {
      var token := str[i];
      EscapeOne(str, i);
      len := len + 1;
      if token == '\"' || token == '\\' || token as int == 8 || token as int == 12
         || token == '\n' || token == '\r' || token == '\t' {
        len := len + 1;
      } else if token < 32 as char {
        len := len + 5;
      }
      i := i + 1;
    }
    assert str[..i] == str;
  }

  /** The third pass: writes the escaped text. */
  method PutEscaped(out: array<char>, ptr: nat, str: string) returns (next: nat)
    requires IsCString(str) && ptr + |Escape(str)| <= out.Length
    modifies out
    ensures next == ptr + |Escape(str)| && out[..next] == old(out[..ptr]) + Escape(str)
  {
    hide Escape, EscapeChar, IsCString, NeedsEscape;
    next := ptr;
    var i := 0;
    EscapeNothing(str[..0]);
    while i < |str|
      invariant 0 <= i <= |str| && next == ptr + |Escape(str[..i])| <= out.Length
      invariant out[..next] == old(out[..ptr]) + Escape(str[..i])
    {
      EscapeOne(str, i);
      EscapePrefix(str, i + 1);
      next := Put(out, next, EscapeChar(str[i]));
      i := i + 1;
    }
    assert str[..i] == str;
  }

  lemma EscapePrefix(str: string, i: int)
    requires 0 <= i <= |str|
    ensures |Escape(str[..i])| <= |Escape(str)|
  {
    EscapeAppend(str[..i], str[i..]);
    assert str[..i] + str[i..] == str;
  }

  /** The end of a text: its last character and the NUL. */
  method Close(out: array<char>, ptr: nat, c: char, ghost t: string)
    requires ptr + 2 <= out.Length && out[..ptr] == t && NUL !in t && c != NUL
    modifies out
    ensures CStr(out, t + [c])
  {
    var next := Put(out, ptr, [c]);
    out[next] := NUL;
  }

  /** The case in which nothing needs escaping. */
  method PrintPlain(str: string) returns (out: array<char>)
    requires IsCString(str) && forall i :: 0 <= i < |str| ==> !NeedsEscape(str[i])
    ensures fresh(out) && out.Length == |Quote(str)| + 1 && CStr(out, Quote(str))
  {
    hide Escape, EscapeChar, NeedsEscape, IsCString;
    QuoteNoNul(str);
    EscapeNothing(str);
    out := new char[|str| + 3];
    var ptr := Put(out, 0, "\"");
    ptr := Put(out, ptr, str);
    Close(out, ptr, '\"', "\"" + str);
  }

  /** print_string_ptr without a printbuffer: the buffer is exactly as long as the text and its NUL. */
  method PrintStringPtr(str: string) returns (out: array<char>)
    requires IsCString(str)
    ensures fresh(out) && out.Length == |Quote(str)| + 1 && CStr(out, Quote(str))
  {
    QuoteNoNul(str);
    var flag := NeedsEscaping(str);
    if !flag { out := PrintPlain(str); return; }
    var len := EscapedLength(str);
    out := new char[len + 3];
    var ptr := Put(out, 0, "\"");
    ptr := PutEscaped(out, ptr, str);
    Close(out, ptr, '\"', "\"" + Escape(str));
  }

  lemma TenthBelow(n: nat, p: nat)
    requires n < 10 * p
    ensures n / 10 < p
  {
  }

  lemma {:induction false} DigitsBound(n: nat, k: nat)
    requires n < Power10(k)
    ensures |Digits(n)| <= k
    decreases k
  {
    if n > 0 {
      var p := Power10(k - 1);
      assert n < 10 * p;
      TenthBelow(n, p);
      DigitsBound(n / 10, k - 1);
    }
  }

  function Power10(k: nat): nat { if k == 0 then 1 else 10 * Power10(k - 1) }

  lemma IntFits(n: int)
    requires INT_MIN <= n <= INT_MAX
    ensures |PrintInt(n)| <= 11 && NUL !in PrintInt(n)
  {
    assert Power10(10) == 10000000000;
    if n < 0 { DigitsBound(-n, 10); } else { DigitsBound(n, 10); }
  }

  /** print_number, of a 32-bit integer, without a printbuffer. */
  method PrintNumber(d: real) returns (out: array<char>)
    requires d == d.Floor as real && INT_MIN <= d.Floor <= INT_MAX
    ensures fresh(out) && CStr(out, PrintInt(d.Floor))
  {
    IntFits(d.Floor);
    var t := PrintInt(d.Floor);
    if d == 0.0 { out := new char[2]; } else { out := new char[21]; }
    var ptr := Put(out, 0, t);
    out[ptr] := NUL;
    assert out[..|t|] == t;
  }

  // ---------- arrays ----------

  /** The elements from the `k`-th on. */
  function Suffix(items: Items, k: nat): Items
  {
    if k == 0 || items.NoItem? then items else Suffix(items.next, k - 1)
  }

  function Count(items: Items): nat { if items.NoItem? then 0 else 1 + Count(items.next) }

  lemma {:induction false} SuffixStep(items: Items, k: nat)
    requires k < Count(items)
    ensures Suffix(items, k).Item? && Suffix(items, k + 1) == Suffix(items, k).next
    ensures Count(Suffix(items, k)) == Count(items) - k
    ensures PrintableItems(items) ==> PrintableItems(Suffix(items, k))
    decreases k
  {
    if k > 0 { SuffixStep(items.next, k - 1); }
  }

  // ---------- how deep the recursion goes ----------

  function Weight(v: Value): nat
  {
    match v
    case Array(items) => 1 + ItemsWeight(items)
    case Object(fields) => 1 + FieldsWeight(fields)
    case _ => 1
  }

  function ItemsWeight(items: Items): nat { if items.NoItem? then 0 else Weight(items.value) + ItemsWeight(items.next) }

  function FieldsWeight(fields: Fields): nat { if fields.NoField? then 0 else Weight(fields.value) + FieldsWeight(fields.next) }

  // ---------- the texts of the elements, and the array composed of them ----------

  /** The text of element `k`. */
  function EntryText(items: Items, k: nat, depth: nat, fmt: bool): string
  {
    if Suffix(items, k).Item? then Print(Suffix(items, k).value, depth, fmt) else ""
  }

  /** `entries` are the texts of the first elements. */
  ghost predicate Entries(entries: seq<array<char>>, items: Items, depth: nat, fmt: bool)
    reads entries
  {
    |entries| <= Count(items) && forall k :: 0 <= k < |entries| ==> CStr(entries[k], EntryText(items, k, depth, fmt))
  }

  /** The first loop of print_array */
  method CountItems(items: Items) returns (n: nat)
    ensures n == Count(items)
  {
    n := 0;
    var child := items;
    while child.Item?
      invariant n + Count(child) == Count(items)
      decreases child
    {
      n := n + 1;
      child := child.next;
    }
  }

  lemma NoSuffix(items: Items)
    ensures Suffix(items, Count(items)).NoItem?
  {
    if items.Item? { NoSuffix(items.next); }
  }

  /** How much room element `k` takes, and how much the computed length reserves for it. */
  lemma EntryRoom(items: Items, k: nat, depth: nat, fmt: bool)
    requires k < Count(items)
    ensures PrintItems(Suffix(items, k), depth, fmt) ==
      EntryText(items, k, depth, fmt) + (Separator(k + 1 == Count(items), fmt) + PrintItems(Suffix(items, k + 1), depth, fmt))
    ensures |Separator(k + 1 == Count(items), fmt)| <= 2
  {
    SuffixStep(items, k);
    if k + 1 < Count(items) { SuffixStep(items, k + 1); } else { NoSuffix(items); }
  }

  /** The text of a value, in a buffer of its own. */
  method PrintValue(v: Value, depth: nat, fmt: bool) returns (out: array<char>)
    requires Printable(v)
    ensures fresh(out) && CStr(out, Print(v, depth, fmt))
    decreases Weight(v), 1
  {
    match v
    case Null => out := StrDup("null");
    case Bool(b) => out := StrDup(if b then "true" else "false");
    case Number(n) => out := PrintNumber(n);
    case String(str) => out := PrintStringPtr(str);
    case Array(items) => out := PrintArray(items, depth, fmt);
    case Object(fields) => out := PrintObject(fields, depth, fmt);
  }

  /** The elements before `child`, the `i`-th, have been printed, and `len` reserves room for them. */
  ghost predicate Collecting(entries: seq<array<char>>, len: nat, child: Items, items: Items, depth: nat, fmt: bool)
    reads entries
  {
    && Entries(entries, items, depth, fmt) && child == Suffix(items, |entries|)
    && |entries| + Count(child) == Count(items) && ItemsWeight(child) <= ItemsWeight(items) && PrintableItems(child)
    && len + |PrintItems(child, depth, fmt)| >= 5 + |PrintItems(items, depth, fmt)|
  }

  lemma CollectStep(entries: seq<array<char>>, len: nat, child: Items, items: Items, depth: nat, fmt: bool, ret: array<char>)
    requires Collecting(entries, len, child, items, depth, fmt) && child.Item?
    requires CStr(ret, Print(child.value, depth, fmt))
    ensures Collecting(entries + [ret], len + |Print(child.value, depth, fmt)| + 2 + (if fmt then 1 else 0), child.next, items, depth, fmt)
  {
    hide PrintItems, Print, EntryText, Separator, CStr, Suffix;
    var k := |entries|;
    SuffixStep(items, k);
    EntryRoom(items, k, depth, fmt);
    EntryOf(items, k, depth, fmt);
    ChildOf(child);
  }

  lemma EntryOf(items: Items, k: nat, depth: nat, fmt: bool)
    ensures Suffix(items, k).Item? ==> EntryText(items, k, depth, fmt) == Print(Suffix(items, k).value, depth, fmt)
  {
  }

  lemma ChildOf(child: Items)
    requires child.Item? && PrintableItems(child)
    ensures PrintableItems(child.next) && ItemsWeight(child.next) <= ItemsWeight(child) && Count(child) == 1 + Count(child.next)
  {
  }

  lemma CollectEnds(entries: seq<array<char>>, len: nat, child: Items, items: Items, depth: nat, fmt: bool)
    ensures PrintableItems(items) ==> Collecting([], 5, items, items, depth, fmt)
    ensures Collecting(entries, len, child, items, depth, fmt) && child.NoItem? ==>
      Entries(entries, items, depth, fmt) && |entries| == Count(items) && len >= 5 + |PrintItems(items, depth, fmt)|
    ensures Collecting(entries, len, child, items, depth, fmt) && child.Item? ==>
      Printable(child.value) && Weight(child.value) <= ItemsWeight(items)
  {
  }

  /** The second loop of print_array: prints all elements and computes the length. */
  method CollectItems(items: Items, depth: nat, fmt: bool) returns (entries: seq<array<char>>, len: nat)
    requires PrintableItems(items)
    ensures Entries(entries, items, depth, fmt) && |entries| == Count(items)
    ensures forall k :: 0 <= k < |entries| ==> fresh(entries[k])
    ensures len >= 5 + |PrintItems(items, depth, fmt)|
    decreases ItemsWeight(items), 2
  {
    hide *;
    entries, len := [], 5;
    var child := items;
    CollectEnds(entries, len, child, items, depth, fmt);
    while child.Item?
      invariant Collecting(entries, len, child, items, depth, fmt)
      invariant forall k :: 0 <= k < |entries| ==> fresh(entries[k])
      decreases child
    {
      CollectEnds(entries, len, child, items, depth, fmt);
      var ret := PrintValue(child.value, depth, fmt);
      CollectStep(entries, len, child, items, depth, fmt, ret);
      entries := entries + [ret];
      var n := StrLen(ret, Print(child.value, depth, fmt));
      len := len + n + 2 + (if fmt then 1 else 0);
      child := child.next;
    }
    CollectEnds(entries, len, child, items, depth, fmt);
  }

  // ---------- printed text is a C string ----------

  lemma {:induction false} PrintNoNul(v: Value, depth: nat, fmt: bool)
    requires Printable(v)
    ensures NUL !in Print(v, depth, fmt)
    decreases v
  {
    match v
    case Number(n) => IntFits(n.Floor);
    case String(str) => QuoteNoNul(str);
    case Array(items) => ItemsNoNul(items, depth + 1, fmt);
    case Object(fields) => FieldsNoNul(fields, depth + 1, fmt);
    case _ =>
  }

  lemma {:induction false} ItemsNoNul(items: Items, depth: nat, fmt: bool)
    requires PrintableItems(items)
    ensures NUL !in PrintItems(items, depth, fmt)
    decreases items
  {
    if items.Item? {
      PrintNoNul(items.value, depth, fmt);
      ItemsNoNul(items.next, depth, fmt);
    }
  }

  lemma {:induction false} FieldsNoNul(fields: Fields, depth: nat, fmt: bool)
    requires PrintableFields(fields)
    ensures NUL !in PrintFields(fields, depth, fmt)
    decreases fields
  {
    if fields.Field? {
      QuoteNoNul(fields.name);
      PrintNoNul(fields.value, depth, fmt);
      FieldsNoNul(fields.next, depth, fmt);
    }
  }

  // ---------- composing ----------

  /** `rest` is missing of `text`, which comes after `start`; there is room for it and `extra` characters. */
  ghost predicate Composed(out: array<char>, ptr: nat, start: string, rest: string, text: string, extra: nat)
    reads out
  {
    ptr <= out.Length && ptr + |rest| + extra <= out.Length && out[..ptr] + rest == start + text
  }

  lemma ComposedStep(was: string, start: string, piece: string, rest: string, whole: string, text: string)
    requires was + whole == start + text && whole == piece + rest
    ensures (was + piece) + rest == start + text
  {
    Assoc(was, piece, rest);
  }

  /** One round of composing an array: an element and the separator after it. */
  method PutItem(out: array<char>, ptr: nat, entry: array<char>, last: bool, fmt: bool, ghost t: string) returns (next: nat)
    requires CStr(entry, t) && entry != out && ptr + |t| + |Separator(last, fmt)| < out.Length
    modifies out
    ensures next == ptr + |t| + |Separator(last, fmt)| && out[..next] == old(out[..ptr]) + (t + Separator(last, fmt))
  {
    next := PutCString(out, ptr, entry, t);
    if !last {
      next := Put(out, next, ",");
      if fmt { next := Put(out, next, " "); }
      out[next] := NUL;
    }
  }

  /** The elements before the `i`-th are in place. */
  ghost predicate ItemsDone(out: array<char>, ptr: nat, items: Items, i: nat, depth: nat, fmt: bool)
    reads out
  {
    Composed(out, ptr, "[", PrintItems(Suffix(items, i), depth, fmt), PrintItems(items, depth, fmt), 2)
  }

  method ComposeItem(out: array<char>, ptr: nat, entries: seq<array<char>>, i: nat, ghost items: Items, ghost depth: nat, fmt: bool)
    returns (next: nat)
    requires Entries(entries, items, depth, fmt) && i < |entries| == Count(items) && out !in entries
    requires ItemsDone(out, ptr, items, i, depth, fmt)
    modifies out
    ensures ItemsDone(out, next, items, i + 1, depth, fmt) && Entries(entries, items, depth, fmt)
  {
    ghost var last := i + 1 == |entries|;
    ghost var t, rest := EntryText(items, i, depth, fmt), PrintItems(Suffix(items, i + 1), depth, fmt);
    EntryRoom(items, i, depth, fmt);
    PieceFits(t, Separator(last, fmt), rest, PrintItems(Suffix(items, i), depth, fmt));
    ComposedStep(out[..ptr], "[", t + Separator(last, fmt), rest, PrintItems(Suffix(items, i), depth, fmt), PrintItems(items, depth, fmt));
    next := PutItem(out, ptr, entries[i], i == |entries| - 1, fmt, t);
  }

  lemma PieceFits(a: string, b: string, rest: string, whole: string)
    requires whole == a + (b + rest)
    ensures whole == (a + b) + rest && |whole| == |a| + |b| + |rest|
  {
    Assoc(a, b, rest);
  }

  /** The loop that composes an array of its elements. */
  method ComposeItems(out: array<char>, ptr: nat, entries: seq<array<char>>, ghost items: Items, ghost depth: nat, fmt: bool)
    returns (next: nat)
    requires Entries(entries, items, depth, fmt) && |entries| == Count(items) && out !in entries
    requires ItemsDone(out, ptr, items, 0, depth, fmt)
    modifies out
    ensures next + 2 <= out.Length && out[..next] == "[" + PrintItems(items, depth, fmt)
  {
    next := ptr;
    var i := 0;
    while i < |entries|
      invariant 0 <= i <= |entries| && Entries(entries, items, depth, fmt) && ItemsDone(out, next, items, i, depth, fmt)
    {
      next := ComposeItem(out, next, entries, i, items, depth, fmt);
      i := i + 1;
    }
    NoSuffix(items);
  }

  /** print_array without a printbuffer */
  method PrintArray(items: Items, depth: nat, fmt: bool) returns (out: array<char>)
    requires PrintableItems(items)
    ensures fresh(out) && CStr(out, Print(Array(items), depth, fmt))
    decreases 1 + ItemsWeight(items), 0
  {
    hide Print, PrintItems, CStr;
    ghost var text := PrintItems(items, depth + 1, fmt);
    var numentries := CountItems(items);
    if numentries == 0 {
      ArrayText(items, depth, fmt);
      out := StrDup("[]");
      return;
    }
    var entries, len := CollectItems(items, depth + 1, fmt);
    out := new char[len];
    var ptr := Put(out, 0, "[");
    out[ptr] := NUL;
    ptr := ComposeItems(out, ptr, entries, items, depth + 1, fmt);
    ItemsNoNul(items, depth + 1, fmt);
    Close(out, ptr, ']', "[" + text);
    ArrayText(items, depth, fmt);
  }

  lemma ArrayText(items: Items, depth: nat, fmt: bool)
    ensures Print(Array(items), depth, fmt) == ("[" + PrintItems(items, depth + 1, fmt)) + "]"
    ensures items.NoItem? ==> Print(Array(items), depth, fmt) == "[]"
  {
    Assoc("[", PrintItems(items, depth + 1, fmt), "]");
  }

  // ---------- objects ----------

  function FieldSuffix(fields: Fields, k: nat): Fields
  {
    if k == 0 || fields.NoField? then fields else FieldSuffix(fields.next, k - 1)
  }

  function FieldCount(fields: Fields): nat { if fields.NoField? then 0 else 1 + FieldCount(fields.next) }

  lemma {:induction false} FieldSuffixStep(fields: Fields, k: nat)
    requires k < FieldCount(fields)
    ensures FieldSuffix(fields, k).Field? && FieldSuffix(fields, k + 1) == FieldSuffix(fields, k).next
    ensures FieldCount(FieldSuffix(fields, k)) == FieldCount(fields) - k
    ensures PrintableFields(fields) ==> PrintableFields(FieldSuffix(fields, k))
    decreases k
  {
    if k > 0 { FieldSuffixStep(fields.next, k - 1); }
  }

  lemma NoFieldSuffix(fields: Fields)
    ensures FieldSuffix(fields, FieldCount(fields)).NoField?
  {
    if fields.Field? { NoFieldSuffix(fields.next); }
  }

  function NameText(fields: Fields, k: nat): string
  {
    if FieldSuffix(fields, k).Field? then Quote(FieldSuffix(fields, k).name) else ""
  }

  function ValueText(fields: Fields, k: nat, depth: nat, fmt: bool): string
  {
    if FieldSuffix(fields, k).Field? then Print(FieldSuffix(fields, k).value, depth, fmt) else ""
  }

  /** The text of a field in its place. */
  function FieldText(name: string, value: string, last: bool, depth: nat, fmt: bool): string
  {
    Indent(depth, fmt) + (name + (Colon(fmt) + (value + FieldEnd(last, fmt))))
  }

  lemma FieldRoom(fields: Fields, k: nat, depth: nat, fmt: bool)
    requires k < FieldCount(fields)
    ensures PrintFields(FieldSuffix(fields, k), depth, fmt) ==
      FieldText(NameText(fields, k), ValueText(fields, k, depth, fmt), k + 1 == FieldCount(fields), depth, fmt)
      + PrintFields(FieldSuffix(fields, k + 1), depth, fmt)
  {
    FieldSuffixStep(fields, k);
    if k + 1 < FieldCount(fields) { FieldSuffixStep(fields, k + 1); } else { NoFieldSuffix(fields); }
    Join6(Indent(depth, fmt), NameText(fields, k), Colon(fmt), ValueText(fields, k, depth, fmt),
          FieldEnd(k + 1 == FieldCount(fields), fmt), PrintFields(FieldSuffix(fields, k + 1), depth, fmt));
  }

  lemma Join6(a: string, b: string, c: string, d: string, e: string, r: string)
    ensures a + (b + (c + (d + (e + r)))) == (a + (b + (c + (d + e)))) + r
  {
    Assoc(d, e, r);
    Assoc(c, d + e, r);
    Assoc(b, c + (d + e), r);
    Assoc(a, b + (c + (d + e)), r);
  }

  lemma FieldLength(name: string, value: string, last: bool, depth: nat, fmt: bool)
    ensures |FieldText(name, value, last, depth, fmt)| <= |value| + |name| + 2 + (if fmt then 2 + depth else 0)
  {
  }

  /** `names` and `entries` are the texts of the names and values of the first fields. */
  ghost predicate FieldEntries(names: seq<array<char>>, entries: seq<array<char>>, fields: Fields, depth: nat, fmt: bool)
    reads names, entries
  {
    && |names| == |entries| <= FieldCount(fields)
    && (forall k :: 0 <= k < |names| ==> CStr(names[k], NameText(fields, k)))
    && (forall k :: 0 <= k < |entries| ==> CStr(entries[k], ValueText(fields, k, depth, fmt)))
  }

  /** The first loop of print_object */
  method CountFields(fields: Fields) returns (n: nat)
    ensures n == FieldCount(fields)
  {
    n := 0;
    var child := fields;
    while child.Field?
      invariant n + FieldCount(child) == FieldCount(fields)
      decreases child
    {
      n := n + 1;
      child := child.next;
    }
  }

  ghost predicate CollectingFields(names: seq<array<char>>, entries: seq<array<char>>, len: nat, child: Fields, fields: Fields,
                                   depth: nat, fmt: bool)
    reads names, entries
  {
    && FieldEntries(names, entries, fields, depth, fmt) && child == FieldSuffix(fields, |entries|)
    && |entries| + FieldCount(child) == FieldCount(fields) && FieldsWeight(child) <= FieldsWeight(fields) && PrintableFields(child)
    && len + |PrintFields(child, depth, fmt)| >= 7 + (if fmt then depth else 0) + |PrintFields(fields, depth, fmt)|
  }

  lemma CollectFieldStep(names: seq<array<char>>, entries: seq<array<char>>, len: nat, child: Fields, fields: Fields,
                         depth: nat, fmt: bool, str: array<char>, ret: array<char>)
    requires CollectingFields(names, entries, len, child, fields, depth, fmt) && child.Field?
    requires CStr(str, Quote(child.name)) && CStr(ret, Print(child.value, depth, fmt))
    ensures CollectingFields(names + [str], entries + [ret],
      len + |Print(child.value, depth, fmt)| + |Quote(child.name)| + 2 + (if fmt then 2 + depth else 0), child.next, fields, depth, fmt)
  {
    hide FieldText, PrintFields, Print, Quote, Indent;
    var k := |entries|;
    FieldSuffixStep(fields, k);
    FieldRoom(fields, k, depth, fmt);
    FieldLength(NameText(fields, k), ValueText(fields, k, depth, fmt), k + 1 == FieldCount(fields), depth, fmt);
  }

  lemma CollectFieldsEnds(names: seq<array<char>>, entries: seq<array<char>>, len: nat, child: Fields, fields: Fields,
                          depth: nat, fmt: bool)
    ensures PrintableFields(fields) ==> CollectingFields([], [], 7 + (if fmt then depth else 0), fields, fields, depth, fmt)
    ensures CollectingFields(names, entries, len, child, fields, depth, fmt) && child.NoField? ==>
      && FieldEntries(names, entries, fields, depth, fmt) && |names| == |entries| == FieldCount(fields)
      && len >= 7 + (if fmt then depth else 0) + |PrintFields(fields, depth, fmt)|
    ensures CollectingFields(names, entries, len, child, fields, depth, fmt) && child.Field? ==>
      IsCString(child.name) && Printable(child.value) && Weight(child.value) <= FieldsWeight(fields) && |names| == |entries|
  {
  }

  /** The second loop of print_object: prints all names and values and computes the length. */
  method CollectFields(fields: Fields, depth: nat, fmt: bool) returns (names: seq<array<char>>, entries: seq<array<char>>, len: nat)
    requires PrintableFields(fields)
    ensures FieldEntries(names, entries, fields, depth, fmt) && |names| == |entries| == FieldCount(fields)
    ensures forall k :: 0 <= k < |entries| ==> fresh(entries[k])
    ensures forall k :: 0 <= k < |names| ==> fresh(names[k])
    ensures len >= 7 + (if fmt then depth else 0) + |PrintFields(fields, depth, fmt)|
    decreases FieldsWeight(fields), 2
  {
    hide *;
    names, entries, len := [], [], 7;
    if fmt { len := len + depth; }
    var child := fields;
    CollectFieldsEnds(names, entries, len, child, fields, depth, fmt);
    while child.Field?
      invariant CollectingFields(names, entries, len, child, fields, depth, fmt)
      invariant forall k :: 0 <= k < |entries| ==> fresh(entries[k])
      invariant forall k :: 0 <= k < |names| ==> fresh(names[k])
      decreases child
    {
      CollectFieldsEnds(names, entries, len, child, fields, depth, fmt);
      var str := PrintStringPtr(child.name);
      var ret := PrintValue(child.value, depth, fmt);
      CollectFieldStep(names, entries, len, child, fields, depth, fmt, str, ret);
      names, entries := names + [str], entries + [ret];
      var n := StrLen(ret, Print(child.value, depth, fmt));
      var m := StrLen(str, Quote(child.name));
      len := len + n + m + 2 + (if fmt then 2 + depth else 0);
      child := child.next;
    }
    CollectFieldsEnds(names, entries, len, child, fields, depth, fmt);
  }

  /** for (i = 0; i < n; i++) *ptr++ = '\t'; */
  method PutTabs(out: array<char>, ptr: nat, n: int) returns (next: nat)
    requires ptr + |Tabs(n)| <= out.Length
    modifies out
    ensures next == ptr + |Tabs(n)| && out[..next] == old(out[..ptr]) + Tabs(n)
  {
    next := ptr;
    var i := 0;
    while i < n
      invariant 0 <= i && (n >= 0 ==> i <= n) && (n < 0 ==> i == 0)
      invariant next == ptr + i && out[..next] == old(out[..ptr]) + Tabs(i)
    {
      out[next] := '\t';
      next := next + 1;
      i := i + 1;
    }
  }

  /** The first half of a field: its name, and the colon. */
  method PutName(out: array<char>, ptr: nat, name: array<char>, depth: nat, fmt: bool, ghost nt: string) returns (next: nat)
    requires CStr(name, nt) && name != out && ptr + |Indent(depth, fmt)| + |nt| + |Colon(fmt)| <= out.Length
    modifies out
    ensures next == ptr + |Indent(depth, fmt)| + |nt| + |Colon(fmt)|
    ensures out[..next] == old(out[..ptr]) + (Indent(depth, fmt) + (nt + Colon(fmt)))
  {
    hide Indent, Colon, Tabs, CStr;
    ghost var base := out[..ptr];
    next := PutIndent(out, ptr, depth, fmt);
    next := PutCString(out, next, name, nt);
    next := PutColon(out, next, fmt);
    Assoc(base + Indent(depth, fmt), nt, Colon(fmt));
    Assoc(base, Indent(depth, fmt), nt + Colon(fmt));
  }

  method PutIndent(out: array<char>, ptr: nat, depth: nat, fmt: bool) returns (next: nat)
    requires ptr + |Indent(depth, fmt)| <= out.Length
    modifies out
    ensures next == ptr + |Indent(depth, fmt)| && out[..next] == old(out[..ptr]) + Indent(depth, fmt)
  {
    next := ptr;
    if fmt { next := PutTabs(out, next, depth); }
  }

  method PutColon(out: array<char>, ptr: nat, fmt: bool) returns (next: nat)
    requires ptr + |Colon(fmt)| <= out.Length
    modifies out
    ensures next == ptr + |Colon(fmt)| && out[..next] == old(out[..ptr]) + Colon(fmt)
  {
    next := Put(out, ptr, ":");
    if fmt { next := Put(out, next, "\t"); }
  }

  /** The second half of a field: its value, and what ends it. */
  method PutEntry(out: array<char>, ptr: nat, entry: array<char>, last: bool, fmt: bool, ghost vt: string) returns (next: nat)
    requires CStr(entry, vt) && entry != out && ptr + |vt| + |FieldEnd(last, fmt)| < out.Length
    modifies out
    ensures next == ptr + |vt| + |FieldEnd(last, fmt)|
    ensures out[..next] == old(out[..ptr]) + (vt + FieldEnd(last, fmt))
  {
    next := PutCString(out, ptr, entry, vt);
    if !last { next := Put(out, next, ","); }
    if fmt { next := Put(out, next, "\n"); }
    out[next] := NUL;
  }

  lemma JoinField(o: string, a: string, b: string, c: string, d: string, e: string)
    ensures (o + (a + (b + c))) + (d + e) == o + (a + (b + (c + (d + e))))
  {
    Assoc(o, a + (b + c), d + e);
    Assoc(a, b + c, d + e);
    Assoc(b, c, d + e);
  }

  /** One round of composing an object: a field in its place. */
  method PutField(out: array<char>, ptr: nat, name: array<char>, entry: array<char>, last: bool, depth: nat, fmt: bool,
                  ghost nt: string, ghost vt: string) returns (next: nat)
    requires CStr(name, nt) && CStr(entry, vt) && name != out && entry != out
    requires ptr + |FieldText(nt, vt, last, depth, fmt)| < out.Length
    modifies out
    ensures next == ptr + |FieldText(nt, vt, last, depth, fmt)|
    ensures out[..next] == old(out[..ptr]) + FieldText(nt, vt, last, depth, fmt)
  {
    JoinField(out[..ptr], Indent(depth, fmt), nt, Colon(fmt), vt, FieldEnd(last, fmt));
    next := PutName(out, ptr, name, depth, fmt, nt);
    next := PutEntry(out, next, entry, last, fmt, vt);
  }

  /** The fields before the `i`-th are in place. */
  ghost predicate FieldsDone(out: array<char>, ptr: nat, fields: Fields, i: nat, depth: nat, fmt: bool, extra: nat)
    reads out
  {
    Composed(out, ptr, "{" + NewLine(fmt), PrintFields(FieldSuffix(fields, i), depth, fmt), PrintFields(fields, depth, fmt), extra)
  }

  method ComposeField(out: array<char>, ptr: nat, names: seq<array<char>>, entries: seq<array<char>>, i: nat,
                      ghost fields: Fields, depth: nat, fmt: bool, ghost extra: nat) returns (next: nat)
    requires FieldEntries(names, entries, fields, depth, fmt) && i < |entries| == FieldCount(fields)
    requires out !in names && out !in entries && extra > 0 && FieldsDone(out, ptr, fields, i, depth, fmt, extra)
    modifies out
    ensures FieldsDone(out, next, fields, i + 1, depth, fmt, extra) && FieldEntries(names, entries, fields, depth, fmt)
  {
    hide FieldText;
    ghost var last := i + 1 == |entries|;
    ghost var nt, vt := NameText(fields, i), ValueText(fields, i, depth, fmt);
    ghost var rest := PrintFields(FieldSuffix(fields, i + 1), depth, fmt);
    FieldRoom(fields, i, depth, fmt);
    ComposedStep(out[..ptr], "{" + NewLine(fmt), FieldText(nt, vt, last, depth, fmt), rest,
                 PrintFields(FieldSuffix(fields, i), depth, fmt), PrintFields(fields, depth, fmt));
    next := PutField(out, ptr, names[i], entries[i], i == |entries| - 1, depth, fmt, nt, vt);
  }

  /** The loop that composes an object of its fields. */
  method ComposeFields(out: array<char>, ptr: nat, names: seq<array<char>>, entries: seq<array<char>>,
                       ghost fields: Fields, depth: nat, fmt: bool, ghost extra: nat) returns (next: nat)
    requires FieldEntries(names, entries, fields, depth, fmt) && |entries| == FieldCount(fields)
    requires out !in names && out !in entries && extra > 0 && FieldsDone(out, ptr, fields, 0, depth, fmt, extra)
    modifies out
    ensures next + extra <= out.Length && out[..next] == ("{" + NewLine(fmt)) + PrintFields(fields, depth, fmt)
  {
    next := ptr;
    var i := 0;
    while i < |entries|
      invariant 0 <= i <= |entries| && FieldEntries(names, entries, fields, depth, fmt)
      invariant FieldsDone(out, next, fields, i, depth, fmt, extra)
    {
      next := ComposeField(out, next, names, entries, i, fields, depth, fmt, extra);
      i := i + 1;
    }
    NoFieldSuffix(fields);
  }

  /** The object without fields. */
  method PrintEmptyObject(depth: nat, fmt: bool) returns (out: array<char>)
    ensures fresh(out) && CStr(out, Print(Object(NoField), depth, fmt))
  {
    out := new char[if fmt then depth + 4 else 3];
    var ptr := Put(out, 0, "{");
    if fmt {
      ptr := Put(out, ptr, "\n");
      ptr := PutTabs(out, ptr, depth - 1);
    }
    ghost var t := "{" + (NewLine(fmt) + Indent(depth - 1, fmt));
    Close(out, ptr, '}', t);
    assert t + "}" == "{" + (NewLine(fmt) + (Indent(depth - 1, fmt) + "}"));
  }

  /** The beginning of an object with fields ... */
  method OpenObject(out: array<char>, fmt: bool) returns (ptr: nat)
    requires |"{" + NewLine(fmt)| < out.Length
    modifies out
    ensures ptr == |"{" + NewLine(fmt)| && out[..ptr] == "{" + NewLine(fmt)
  {
    ptr := Put(out, 0, "{");
    if fmt { ptr := Put(out, ptr, "\n"); }
    out[ptr] := NUL;
  }

  /** ... and its end. */
  method CloseObject(out: array<char>, ptr0: nat, depth: nat, fmt: bool, ghost t: string)
    requires ptr0 + |Indent(depth, fmt)| + 2 <= out.Length && out[..ptr0] == t && NUL !in t
    modifies out
    ensures CStr(out, (t + Indent(depth, fmt)) + "}")
  {
    var ptr := ptr0;
    if fmt { ptr := PutTabs(out, ptr, depth); }
    Close(out, ptr, '}', t + Indent(depth, fmt));
  }

  /** print_object without a printbuffer */
  method PrintObject(fields: Fields, depth0: nat, fmt: bool) returns (out: array<char>)
    requires PrintableFields(fields)
    ensures fresh(out) && CStr(out, Print(Object(fields), depth0, fmt))
    decreases 1 + FieldsWeight(fields), 0
  {
    hide Print, PrintFields, FieldText, CStr;
    var numentries := CountFields(fields);
    if numentries == 0 { out := PrintEmptyObject(depth0, fmt); return; }
    var depth := depth0 + 1;
    var names, entries, len := CollectFields(fields, depth, fmt);
    out := new char[len];
    var ptr := OpenObject(out, fmt);
    ptr := ComposeFields(out, ptr, names, entries, fields, depth, fmt, if fmt then depth + 1 else 2);
    FieldsNoNul(fields, depth, fmt);
    ObjectText(fields, depth0, fmt);
    CloseObject(out, ptr, depth - 1, fmt, ("{" + NewLine(fmt)) + PrintFields(fields, depth, fmt));
  }

  lemma ObjectText(fields: Fields, depth: nat, fmt: bool)
    requires FieldCount(fields) != 0
    ensures Print(Object(fields), depth, fmt)
         == ((("{" + NewLine(fmt)) + PrintFields(fields, depth + 1, fmt)) + Indent(depth, fmt)) + "}"
  {
    JoinObject("{", NewLine(fmt), PrintFields(fields, depth + 1, fmt), Indent(depth, fmt), "}");
  }

  lemma JoinObject(a: string, b: string, c: string, d: string, e: string)
    ensures (((a + b) + c) + d) + e == a + (b + (c + (d + e)))
  {
    Assoc((a + b) + c, d, e);
    Assoc(a + b, c, d + e);
    Assoc(a, b, c + (d + e));
  }
}
