/** JSON trees and their text: what the printers print and what the parser reads, as functions.

  Text is a C string: reading at or past the end yields NUL.
*/
module Json {
  /** A value; the elements of an array and the fields of an object are linked through next. */
  datatype Value =
    | Null
    | Bool(b: bool)
    | Number(n: real)
    | String(s: string)
    | Array(items: Items)
    | Object(fields: Fields)

  datatype Items = NoItem | Item(value: Value, next: Items)

  datatype Fields = NoField | Field(name: string, value: Value, next: Fields)

  const NUL: char := 0 as char

  lemma Assoc(a: string, b: string, c: string)
    ensures (a + b) + c == a + (b + c)
  {
  }

  // ---------- what can be printed ----------

  const INT_MIN: int := -0x8000_0000
  const INT_MAX: int := 0x7FFF_FFFF

  /** The bytes of a C string. */
  predicate IsCString(s: string) { forall i :: 0 <= i < |s| ==> NUL < s[i] < 256 as char }

  /** Numbers are 32-bit integers and strings hold no NUL. */
  predicate Printable(v: Value)
  {
    match v
    case Number(n) => n == n.Floor as real && INT_MIN <= n.Floor <= INT_MAX
    case String(s) => IsCString(s)
    case Array(items) => PrintableItems(items)
    case Object(fields) => PrintableFields(fields)
    case _ => true
  }

  predicate PrintableItems(items: Items)
  {
    items.Item? ==> Printable(items.value) && PrintableItems(items.next)
  }

  predicate PrintableFields(fields: Fields)
  {
    fields.Field? ==> IsCString(fields.name) && Printable(fields.value) && PrintableFields(fields.next)
  }

  // ---------- printing ----------

  function Digit(d: int): (c: char)
    requires 0 <= d <= 9
    ensures '0' <= c <= '9' && c as int - '0' as int == d
  {
    ('0' as int + d) as char
  }

  /** %d of a positive number */
  function Digits(n: nat): (t: string)
    ensures n > 0 ==> t != [] && '1' <= t[0] <= '9'
    ensures forall i :: 0 <= i < |t| ==> '0' <= t[i] <= '9'
  {
    if n == 0 then "" else Digits(n / 10) + [Digit(n % 10)]
  }

  function PrintInt(n: int): string
  {
    if n == 0 then "0" else if n < 0 then "-" + Digits(-n) else Digits(n)
  }

  /** A digit of %x */
  function HexDigit(d: int): char
    requires 0 <= d < 16
  {
    if d < 10 then ('0' as int + d) as char else ('a' as int + d - 10) as char
  }

  function EscapeChar(c: char): string
  {
    if c > 31 as char && c != '\"' && c != '\\' then [c]
    else if c == '\\' then "\\\\"
    else if c == '\"' then "\\\""
    else if c as int == 8 then "\\b"
    else if c as int == 12 then "\\f"
    else if c == '\n' then "\\n"
    else if c == '\r' then "\\r"
    else if c == '\t' then "\\t"
    else ['\\', 'u', '0', '0', HexDigit(c as int / 16), HexDigit(c as int % 16)]
  }

  function Escape(s: string): string
  {
    if s == "" then "" else EscapeChar(s[0]) + Escape(s[1..])
  }

  function Quote(s: string): string { "\"" + Escape(s) + "\"" }

  function Tabs(n: int): (t: string)
    ensures |t| == (if n < 0 then 0 else n) && forall i :: 0 <= i < |t| ==> t[i] == '\t'
  {
    if n <= 0 then "" else Tabs(n - 1) + "\t"
  }

  /** What stands between the elements of an array. */
  function Separator(last: bool, fmt: bool): string { if last then "" else if fmt then ", " else "," }

  function Indent(depth: int, fmt: bool): string { if fmt then Tabs(depth) else "" }

  function NewLine(fmt: bool): string { if fmt then "\n" else "" }

  function Colon(fmt: bool): string { if fmt then ":\t" else ":" }

  /** What stands after a field of an object. */
  function FieldEnd(last: bool, fmt: bool): string { if last then NewLine(fmt) else "," + NewLine(fmt) }

  /** print_value: formatted or not, at a nesting depth. */
  function Print(v: Value, depth: nat, fmt: bool): string
  {
    match v
    case Null => "null"
    case Bool(b) => if b then "true" else "false"
    case Number(n) => PrintInt(n.Floor)
    case String(s) => Quote(s)
    case Array(items) => "[" + (PrintItems(items, depth + 1, fmt) + "]")
    case Object(fields) =>
      if fields.NoField? then "{" + (NewLine(fmt) + (Indent(depth - 1, fmt) + "}"))
      else "{" + (NewLine(fmt) + (PrintFields(fields, depth + 1, fmt) + (Indent(depth, fmt) + "}")))
  }

  function PrintItems(items: Items, depth: nat, fmt: bool): string
  {
    match items
    case NoItem => ""
    case Item(v, next) => Print(v, depth, fmt) + (Separator(next.NoItem?, fmt) + PrintItems(next, depth, fmt))
  }

  function PrintFields(fields: Fields, depth: nat, fmt: bool): string
  {
    match fields
    case NoField => ""
    case Field(name, v, next) =>
      Indent(depth, fmt) + (Quote(name) + (Colon(fmt)
      + (Print(v, depth, fmt) + (FieldEnd(next.NoField?, fmt) + PrintFields(next, depth, fmt)))))
  }

  // ---------- reading ----------

  function At(s: string, i: nat): char { if i < |s| then s[i] else NUL }

  datatype Read<T> = Fail | Done(value: T, end: nat)

  /** skip */
  function Skip(s: string, i: nat): (j: nat)
    ensures i <= j
    decreases |s| - i
  {
    if At(s, i) != NUL && At(s, i) <= 32 as char then Skip(s, i + 1) else i
  }

  predicate IsDigit(c: char) { '0' <= c <= '9' }

  /** The digits from `i` on, as a number that continues `acc`. */
  function ScanDigits(s: string, i: nat, acc: nat): (r: (nat, nat))
    ensures i <= r.1
    decreases |s| - i
  {
    if IsDigit(At(s, i)) then ScanDigits(s, i + 1, 10 * acc + (At(s, i) as int - '0' as int)) else (acc, i)
  }

  function Pow10(e: int): real
    decreases if e < 0 then -e else e
  {
    if e == 0 then 1.0 else if e > 0 then 10.0 * Pow10(e - 1) else Pow10(e + 1) / 10.0
  }

  /** The digits before the point, and where they end. */
  function ReadWhole(s: string, i: nat): (r: (nat, nat))
    ensures i <= r.1
  {
    var j := if At(s, i) == '0' then i + 1 else i;
    if '1' <= At(s, j) <= '9' then ScanDigits(s, j, 0) else (0, j)
  }

  /** The digits after the point, if any, which continue the number `whole`. */
  function ReadFraction(s: string, i: nat, whole: nat): (r: (nat, nat))
    ensures i <= r.1
  {
    if At(s, i) == '.' && IsDigit(At(s, i + 1)) then ScanDigits(s, i + 1, whole) else (whole, i)
  }

  /** The exponent, if any. */
  function ReadExponent(s: string, i: nat): (r: (int, nat))
    ensures i <= r.1
  {
    if At(s, i) == 'e' || At(s, i) == 'E' then
      var neg, j := At(s, i + 1) == '-', if At(s, i + 1) == '+' || At(s, i + 1) == '-' then i + 2 else i + 1;
      var e := ScanDigits(s, j, 0);
      var m: int := e.0;
      (if neg then -m else m, e.1)
    else (0, i)
  }

  /** sign * n * 10^e */
  function Decimal(negative: bool, n: nat, e: int): real
  {
    (if negative then -1.0 else 1.0) * n as real * Pow10(e)
  }

  /** parse_number */
  function ReadNumber(s: string, i: nat): (r: (real, nat))
    ensures i <= r.1
  {
    var j := if At(s, i) == '-' then i + 1 else i;
    var whole := ReadWhole(s, j);
    var all := ReadFraction(s, whole.1, whole.0);
    var scale := if all.1 == whole.1 then 0 else -(all.1 - whole.1 - 1);
    var exp := ReadExponent(s, all.1);
    (Decimal(j != i, all.0, scale + exp.0), exp.1)
  }

  function HexValue(c: char): (v: int)
    ensures -1 <= v < 16
  {
    if '0' <= c <= '9' then c as int - '0' as int
    else if 'A' <= c <= 'F' then 10 + c as int - 'A' as int
    else if 'a' <= c <= 'f' then 10 + c as int - 'a' as int
    else -1
  }

  /** parse_hex4: 0 unless there are four hexadecimal digits. */
  function ParseHex4(s: string, i: nat): (h: nat)
    ensures h < 0x10000
  {
    var a, b, c, d := HexValue(At(s, i)), HexValue(At(s, i + 1)), HexValue(At(s, i + 2)), HexValue(At(s, i + 3));
    if a < 0 || b < 0 || c < 0 || d < 0 then 0 else 4096 * a + 256 * b + 16 * c + d
  }

  /** The UTF-8 encoding of a code point. */
  function Utf8(uc: nat): string
    requires uc < 0x110000
  {
    if uc < 0x80 then [uc as char]
    else if uc < 0x800 then [(0xC0 + uc / 64) as char, (0x80 + uc % 64) as char]
    else if uc < 0x10000 then [(0xE0 + uc / 4096) as char, (0x80 + uc / 64 % 64) as char, (0x80 + uc % 64) as char]
    else [(0xF0 + uc / 262144) as char, (0x80 + uc / 4096 % 64) as char, (0x80 + uc / 64 % 64) as char, (0x80 + uc % 64) as char]
  }

  /** What a \u escape stands for, and where it ends; `i` is the position of the u. */
  function ReadUnicode(s: string, i: nat): (r: (string, nat))
    ensures i < r.1
  {
    var uc := ParseHex4(s, i + 1);
    if 0xDC00 <= uc <= 0xDFFF || uc == 0 then ("", i + 5)
    else if 0xD800 <= uc <= 0xDBFF then
      if At(s, i + 5) != '\\' || At(s, i + 6) != 'u' then ("", i + 5)
      else
        var uc2 := ParseHex4(s, i + 7);
        if uc2 < 0xDC00 || uc2 > 0xDFFF then ("", i + 11)
        else (Utf8(0x10000 + (uc - 0xD800) * 0x400 + (uc2 - 0xDC00)), i + 11)
    else (Utf8(uc), i + 5)
  }

  /** What an escape stands for, and where it ends; `i` is the position after the backslash. */
  function ReadEscape(s: string, i: nat): (r: (string, nat))
    ensures i < r.1
  {
    var c := At(s, i);
    if c == 'b' then ([8 as char], i + 1)
    else if c == 'f' then ([12 as char], i + 1)
    else if c == 'n' then ("\n", i + 1)
    else if c == 'r' then ("\r", i + 1)
    else if c == 't' then ("\t", i + 1)
    else if c == 'u' then ReadUnicode(s, i)
    else ([c], i + 1)
  }

  /** The body of a string literal, and the position of what ends it. */
  function ReadBody(s: string, i: nat): (r: (string, nat))
    ensures i <= r.1
    decreases |s| - i
  {
    if At(s, i) == '\"' || At(s, i) == NUL then ("", i)
    else
      var first := if At(s, i) == '\\' then ReadEscape(s, i + 1) else ([s[i]], i + 1);
      var rest := ReadBody(s, first.1);
      (first.0 + rest.0, rest.1)
  }

  /** parse_string */
  function ReadString(s: string, i: nat): (r: Read<string>)
    ensures r.Done? ==> i < r.end
  {
    if At(s, i) != '\"' then Fail
    else
      var body := ReadBody(s, i + 1);
      Done(body.0, if At(s, body.1) == '\"' then body.1 + 1 else body.1)
  }

  /** strncmp(value, word, strlen(word)) == 0 */
  predicate Matches(s: string, i: nat, word: string)
  {
    forall k :: 0 <= k < |word| ==> At(s, i + k) == word[k]
  }

  function Left(s: string, i: nat): nat { if i <= |s| then |s| - i else 0 }

  /** parse_value */
  function Parse(s: string, i: nat): (r: Read<Value>)
    ensures r.Done? ==> i < r.end
    decreases Left(s, i), 1
  {
    if Matches(s, i, "null") then Done(Null, i + 4)
    else if Matches(s, i, "false") then Done(Bool(false), i + 5)
    else if Matches(s, i, "true") then Done(Bool(true), i + 4)
    else if At(s, i) == '\"' then
      var r := ReadString(s, i);
      if r.Fail? then Fail else Done(String(r.value), r.end)
    else if At(s, i) == '-' || IsDigit(At(s, i)) then
      var r := ReadNumber(s, i);
      Done(Number(r.0), r.1)
    else if At(s, i) == '[' then ParseArray(s, i)
    else if At(s, i) == '{' then ParseObject(s, i)
    else Fail
  }

  /** parse_array */
  function ParseArray(s: string, i: nat): (r: Read<Value>)
    requires At(s, i) == '['
    ensures r.Done? ==> i < r.end
    decreases Left(s, i), 0
  {
    var j := Skip(s, i + 1);
    if At(s, j) == ']' then Done(Array(NoItem), j + 1)
    else
      var r := ParseItems(s, j);
      if r.Fail? then Fail else Done(Array(r.value), r.end)
  }

  /** The elements of an array from `i` on, up to and including the closing bracket. */
  function ParseItems(s: string, i: nat): (r: Read<Items>)
    ensures r.Done? ==> i < r.end
    decreases Left(s, i), 2
  {
    var v := Parse(s, Skip(s, i));
    if v.Fail? then Fail
    else
      var j := Skip(s, v.end);
      if At(s, j) == ',' then
        var next := ParseItems(s, j + 1);
        if next.Fail? then Fail else Done(Item(v.value, next.value), next.end)
      else if At(s, j) == ']' then Done(Item(v.value, NoItem), j + 1)
      else Fail
  }

  /** parse_object */
  function ParseObject(s: string, i: nat): (r: Read<Value>)
    requires At(s, i) == '{'
    ensures r.Done? ==> i < r.end
    decreases Left(s, i), 0
  {
    var j := Skip(s, i + 1);
    if At(s, j) == '}' then Done(Object(NoField), j + 1)
    else
      var r := ParseFields(s, j);
      if r.Fail? then Fail else Done(Object(r.value), r.end)
  }

  /** One field: its name, a colon, its value. */
  function ParseField(s: string, i: nat): (r: Read<(string, Value)>)
    ensures r.Done? ==> i < r.end
    decreases Left(s, i), 2
  {
    var name := ReadString(s, Skip(s, i));
    if name.Fail? then Fail
    else
      var c := Skip(s, name.end);
      if At(s, c) != ':' then Fail
      else
        var v := Parse(s, Skip(s, c + 1));
        if v.Fail? then Fail else Done((name.value, v.value), v.end)
  }

  /** The fields of an object from `i` on, up to and including the closing brace. */
  function ParseFields(s: string, i: nat): (r: Read<Fields>)
    ensures r.Done? ==> i < r.end
    decreases Left(s, i), 3
  {
    var f := ParseField(s, i);
    if f.Fail? then Fail
    else
      var j := Skip(s, f.end);
      if At(s, j) == ',' then
        var next := ParseFields(s, j + 1);
        if next.Fail? then Fail else Done(Field(f.value.0, f.value.1, next.value), next.end)
      else if At(s, j) == '}' then Done(Field(f.value.0, f.value.1, NoField), j + 1)
      else Fail
  }
}
