/** What the parser makes of the literals of RFC 8259: numbers with fraction and exponent (section 6) and strings with
  all their escapes (section 7), stated with a decoder for UTF-8 (RFC 3629) and with arithmetic of their own.
*/
module JsonLiterals {
  import opened Json
  import opened JsonRoundTrip

  // ---------- UTF-8 ----------

  predicate Follows(c: char) { 0x80 <= c as int < 0xC0 }

  /** The code point that the bytes `u` encode in the shortest form, or -1. */
  function DecodeUtf8(u: string): int
  {
    if |u| == 1 && u[0] as int < 0x80 then u[0] as int
    else if |u| == 2 && 0xC0 <= u[0] as int < 0xE0 && Follows(u[1]) then
      AtLeast(0x80, 64 * (u[0] as int - 0xC0) + (u[1] as int - 0x80))
    else if |u| == 3 && 0xE0 <= u[0] as int < 0xF0 && Follows(u[1]) && Follows(u[2]) then
      AtLeast(0x800, 4096 * (u[0] as int - 0xE0) + 64 * (u[1] as int - 0x80) + (u[2] as int - 0x80))
    else if |u| == 4 && 0xF0 <= u[0] as int < 0xF8 && Follows(u[1]) && Follows(u[2]) && Follows(u[3]) then
      AtLeast(0x10000,
              262144 * (u[0] as int - 0xF0) + 4096 * (u[1] as int - 0x80) + 64 * (u[2] as int - 0x80) + (u[3] as int - 0x80))
    else -1
  }

  /** Longer forms of small code points are not valid, nor are surrogates. */
  function AtLeast(min: int, cp: int): int { if min <= cp && IsScalar(cp) then cp else -1 }

  predicate IsScalar(cp: int) { 0 <= cp < 0xD800 || 0xE000 <= cp < 0x110000 }

  lemma TwoBytes(a: nat, b: nat)
    requires a < 32 && b < 64 && 64 * a + b >= 0x80
    ensures DecodeUtf8([(0xC0 + a) as char, (0x80 + b) as char]) == 64 * a + b
  {
  }

  lemma ThreeBytes(a: nat, b: nat, c: nat)
    requires a < 16 && b < 64 && c < 64 && 4096 * a + 64 * b + c >= 0x800 && IsScalar(4096 * a + 64 * b + c)
    ensures DecodeUtf8([(0xE0 + a) as char, (0x80 + b) as char, (0x80 + c) as char]) == 4096 * a + 64 * b + c
  {
  }

  lemma FourBytes(a: nat, b: nat, c: nat, d: nat)
    requires a < 8 && b < 64 && c < 64 && d < 64
    requires 0x10000 <= 262144 * a + 4096 * b + 64 * c + d < 0x110000
    ensures DecodeUtf8([(0xF0 + a) as char, (0x80 + b) as char, (0x80 + c) as char, (0x80 + d) as char])
         == 262144 * a + 4096 * b + 64 * c + d
  {
  }

  /** A number in parts of six bits. */
  lemma Sixes(n: nat)
    ensures 64 * (n / 64) + n % 64 == n
    ensures 64 * (n / 4096) + n / 64 % 64 == n / 64
    ensures 64 * (n / 262144) + n / 4096 % 64 == n / 4096
  {
    assert n / 4096 == n / 64 / 64 && n / 262144 == n / 4096 / 64;
  }

  lemma Utf8Decodes(cp: nat)
    requires IsScalar(cp)
    ensures DecodeUtf8(Utf8(cp)) == cp
  {
    hide DecodeUtf8;
    Sixes(cp);
    if cp < 0x80 {
      OneByte(cp);
    } else if cp < 0x800 {
      TwoBytes(cp / 64, cp % 64);
    } else if cp < 0x10000 {
      ThreeBytes(cp / 4096, cp / 64 % 64, cp % 64);
    } else {
      FourBytes(cp / 262144, cp / 4096 % 64, cp / 64 % 64, cp % 64);
    }
  }

  lemma OneByte(a: nat)
    requires a < 0x80
    ensures DecodeUtf8([a as char]) == a
  {
  }

  // ---------- hexadecimal digits ----------

  /** `c` is the digit `d`, in either case. */
  predicate IsHex(c: char, d: int) { 0 <= d < 16 && (c == "0123456789abcdef"[d] || c == "0123456789ABCDEF"[d]) }

  lemma HexValueIs(c: char, d: int)
    requires IsHex(c, d)
    ensures HexValue(c) == d
  {
  }

  predicate IsHex4(t: string, n: nat)
  {
    |t| == 4 && IsHex(t[0], n / 4096) && IsHex(t[1], n / 256 % 16) && IsHex(t[2], n / 16 % 16) && IsHex(t[3], n % 16)
  }

  lemma Quotients(n: nat)
    ensures n / 256 == n / 16 / 16 && n / 4096 == n / 256 / 16
  {
  }

  lemma Sixteens(n: nat)
    ensures n == 16 * (n / 16) + n % 16
  {
  }

  lemma Nibbles(n: nat)
    ensures 4096 * (n / 4096) + 256 * (n / 256 % 16) + 16 * (n / 16 % 16) + n % 16 == n
  {
    Quotients(n);
    Sixteens(n);
    Sixteens(n / 16);
    Sixteens(n / 256);
  }

  lemma HexRead(s: string, i: nat, t: string, k: nat, d: int)
    requires Has(s, i, t) && k < |t| && IsHex(t[k], d)
    ensures HexValue(At(s, i + k)) == d
  {
    hide IsHex, HexValue;
    HasAt(s, i, t, k);
    HexValueIs(t[k], d);
  }

  lemma Hex4Read(s: string, i: nat, t: string, n: nat)
    requires Has(s, i, t) && IsHex4(t, n)
    ensures ParseHex4(s, i) == n
  {
    hide IsHex, HexValue, Has, At;
    HexRead(s, i, t, 0, n / 4096);
    HexRead(s, i, t, 1, n / 256 % 16);
    HexRead(s, i, t, 2, n / 16 % 16);
    HexRead(s, i, t, 3, n % 16);
    Nibbles(n);
  }

  // ---------- escapes ----------

  /** The escape of a code point: one of four digits, or one for each half of the surrogate pair. */
  predicate UnicodeText(t: string, cp: nat)
  {
    if cp < 0x10000 then |t| == 6 && t[..2] == "\\u" && IsHex4(t[2..], cp)
    else
      && |t| == 12 && t[..2] == "\\u" && t[6..8] == "\\u"
      && IsHex4(t[2..6], 0xD800 + (cp - 0x10000) / 0x400) && IsHex4(t[8..], 0xDC00 + (cp - 0x10000) % 0x400)
  }

  lemma PartOf(s: string, i: nat, t: string, a: nat, b: nat)
    requires Has(s, i, t) && a <= b <= |t|
    ensures Has(s, i + a, t[a..b])
  {
    forall k | 0 <= k < b - a ensures s[i + a + k] == t[a..b][k] { assert s[i + (a + k)] == t[a + k]; }
  }

  /** The \u escape of a code point is read as its UTF-8 encoding. */
  lemma UnicodeRead(s: string, i: nat, t: string, cp: nat)
    requires IsScalar(cp) && cp > 0 && UnicodeText(t, cp) && Has(s, i, t)
    ensures At(s, i) == '\\'
    ensures DecodeUtf8(ReadEscape(s, i + 1).0) == cp && ReadEscape(s, i + 1).1 == i + |t|
  {
    hide DecodeUtf8, Utf8, ParseHex4, IsHex4, Has;
    HasAt(s, i, t, 0);
    HasAt(s, i, t, 1);
    assert t[0] == t[..2][0] && t[1] == t[..2][1];
    Utf8Decodes(cp);
    if cp < 0x10000 {
      PartOf(s, i, t, 2, 6);
      assert t[2..6] == t[2..];
      Hex4Read(s, i + 2, t[2..], cp);
    } else {
      PartOf(s, i, t, 2, 6);
      PartOf(s, i, t, 8, 12);
      assert t[8..12] == t[8..];
      Hex4Read(s, i + 2, t[2..6], 0xD800 + (cp - 0x10000) / 0x400);
      Hex4Read(s, i + 8, t[8..], 0xDC00 + (cp - 0x10000) % 0x400);
      HasAt(s, i, t, 6);
      HasAt(s, i, t, 7);
      assert t[6] == t[6..8][0] && t[7] == t[6..8][1];
    }
  }

  // ---------- strings ----------

  /** The pieces of a string literal; `text` is how a \u escape is written.  Some that RFC 8259 does not allow are
      accepted: a backslash before any other character, which then stands for itself, and \u escapes that are no
      character or have no four digits, which stand for nothing. */
  datatype Piece =
    | Plain(c: char)
    | Short(c: char)
    | Unicode(cp: nat, text: string)
    | Lost(n: nat, text: string)                    // NUL, or the second half of a pair alone
    | LostPair(n: nat, m: nat, text: string)        // a first half, and then no second half
    | LostHalf(n: nat, text: string)                // a first half before anything else
    | Broken(text: string)                          // without four hexadecimal digits, whatever the four are

  predicate IsHigh(n: nat) { 0xD800 <= n < 0xDC00 }

  predicate IsLow(n: nat) { 0xDC00 <= n < 0xE000 }

  predicate IsPiece(p: Piece)
  {
    match p
    case Plain(c) => c != '\"' && c != '\\' && c != NUL
    case Short(c) => c != 'u' && c != NUL
    case Unicode(cp, text) => IsScalar(cp) && cp > 0 && UnicodeText(text, cp)
    case Lost(n, text) => (n == 0 || IsLow(n)) && UnicodeText(text, n)
    case LostPair(n, m, text) =>
      && IsHigh(n) && !IsLow(m) && |text| == 12
      && text[..2] == "\\u" && IsHex4(text[2..6], n) && text[6..8] == "\\u" && IsHex4(text[8..], m)
    case LostHalf(n, text) => IsHigh(n) && UnicodeText(text, n)
    case Broken(text) =>
      |text| == 6 && text[..2] == "\\u" && exists k :: 2 <= k < 6 && NoHex(text[k])
  }

  predicate NoHex(c: char) { forall d :: 0 <= d < 16 ==> !IsHex(c, d) }

  function PieceText(p: Piece): string
  {
    match p
    case Plain(c) => [c]
    case Short(c) => ['\\', c]
    case Unicode(_, text) => text
    case Lost(_, text) => text
    case LostPair(_, _, text) => text
    case LostHalf(_, text) => text
    case Broken(text) => text
  }

  predicate StartsUnicode(t: string) { |t| >= 2 && t[0] == '\\' && t[1] == 'u' }

  /** A first half alone is one that no \u follows. */
  predicate ArePieces(ps: seq<Piece>)
  {
    && (forall k :: 0 <= k < |ps| ==> IsPiece(ps[k]))
    && (forall k :: 0 <= k < |ps| - 1 && ps[k].LostHalf? ==> !StartsUnicode(PieceText(ps[k + 1])))
  }

  /** The bytes `u` are what the piece stands for. */
  predicate StandsFor(p: Piece, u: string)
  {
    match p
    case Plain(c) => u == [c]
    case Short(c) =>
      |u| == 1 &&
      (match c
       case 'b' => u[0] as int == 0x08
       case 'f' => u[0] as int == 0x0C
       case 'n' => u[0] as int == 0x0A
       case 'r' => u[0] as int == 0x0D
       case 't' => u[0] as int == 0x09
       case _ => u[0] == c)
    case Unicode(cp, _) => DecodeUtf8(u) == cp
    case _ => u == ""
  }

  function Texts(ps: seq<Piece>): string { if ps == [] then "" else PieceText(ps[0]) + Texts(ps[1..]) }

  function Flat(us: seq<string>): string { if us == [] then "" else us[0] + Flat(us[1..]) }

  /** A \u escape of four digits. */
  lemma EscapeAt(s: string, i: nat, t: string, n: nat)
    requires n < 0x10000 && UnicodeText(t, n) && Has(s, i, t)
    ensures At(s, i) == '\\' && At(s, i + 1) == 'u' && ParseHex4(s, i + 2) == n && |t| == 6
  {
    hide ParseHex4, IsHex4, Has;
    HasAt(s, i, t, 0);
    HasAt(s, i, t, 1);
    assert t[0] == t[..2][0] && t[1] == t[..2][1];
    PartOf(s, i, t, 2, 6);
    assert t[2..6] == t[2..];
    Hex4Read(s, i + 2, t[2..], n);
  }

  lemma LostRead(s: string, i: nat, p: Piece)
    requires IsPiece(p) && (p.Lost? || p.LostPair? || p.LostHalf? || p.Broken?) && Has(s, i, PieceText(p))
    requires p.LostHalf? ==> !(At(s, i + 6) == '\\' && At(s, i + 7) == 'u')
    ensures At(s, i) == '\\' && ReadEscape(s, i + 1) == ("", i + |PieceText(p)|)
  {
    hide ParseHex4, IsHex4, Has, At, Utf8;
    var t := PieceText(p);
    if p.LostPair? {
      PartOf(s, i, t, 0, 6);
      assert t[0..6][..2] == t[..2] && t[0..6][2..] == t[2..6];
      EscapeAt(s, i, t[0..6], p.n);
      PartOf(s, i, t, 6, 12);
      assert t[6..12][..2] == t[6..8] && t[6..12][2..] == t[8..];
      Hex4Small(t[8..], p.m);
      EscapeAt(s, i + 6, t[6..12], p.m);
    } else if p.Broken? {
      BrokenRead(s, i, t);
    } else {
      EscapeAt(s, i, t, p.n);
    }
  }

  lemma NoHexValue(c: char)
    requires NoHex(c)
    ensures HexValue(c) < 0
  {
    if HexValue(c) >= 0 { HexValueBack(c); }
  }

  lemma HexValueBack(c: char)
    requires HexValue(c) >= 0
    ensures IsHex(c, HexValue(c))
  {
  }

  lemma BrokenRead(s: string, i: nat, t: string)
    requires IsPiece(Broken(t)) && Has(s, i, t)
    ensures At(s, i) == '\\' && ReadEscape(s, i + 1) == ("", i + 6)
  {
    hide Has, At, Utf8, HexValue, NoHex;
    HasAt(s, i, t, 0);
    HasAt(s, i, t, 1);
    assert t[0] == t[..2][0] && t[1] == t[..2][1];
    var k :| 2 <= k < 6 && NoHex(t[k]);
    HasAt(s, i, t, k);
    NoHexValue(t[k]);
    assert ParseHex4(s, i + 2) == 0;
  }

  lemma Hex4Small(t: string, n: nat)
    requires IsHex4(t, n)
    ensures n < 0x10000
  {
  }

  lemma PieceRead(s: string, i: nat, p: Piece) returns (u: string)
    requires IsPiece(p) && Has(s, i, PieceText(p))
    requires p.LostHalf? ==> !(At(s, i + 6) == '\\' && At(s, i + 7) == 'u')
    ensures StandsFor(p, u) && ReadBody(s, i) == (u + ReadBody(s, i + |PieceText(p)|).0, ReadBody(s, i + |PieceText(p)|).1)
  {
    hide Has, UnicodeText, DecodeUtf8, ReadUnicode, IsHex4;
    match p
    case Plain(c) =>
      HasAt(s, i, [c], 0);
      u := [c];
    case Short(c) =>
      HasAt(s, i, ['\\', c], 0);
      HasAt(s, i, ['\\', c], 1);
      u := ReadEscape(s, i + 1).0;
    case Unicode(cp, text) =>
      UnicodeRead(s, i, text, cp);
      u := ReadEscape(s, i + 1).0;
    case _ =>
      LostRead(s, i, p);
      u := "";
  }

  lemma PieceNotEmpty(p: Piece)
    requires IsPiece(p)
    ensures PieceText(p) != "" && (PieceText(p)[0] == '\\' ==> |PieceText(p)| > 1)
  {
    hide IsHex4;
  }

  lemma HalfAlone(s: string, i: nat, ps: seq<Piece>)
    requires ArePieces(ps) && ps != [] && ps[0].LostHalf?
    requires Has(s, i + 6, Texts(ps[1..])) && (At(s, i + 6 + |Texts(ps[1..])|) == '\"' || At(s, i + 6 + |Texts(ps[1..])|) == NUL)
    ensures !(At(s, i + 6) == '\\' && At(s, i + 7) == 'u')
  {
    hide Has, At, UnicodeText, IsHex4;
    if |ps| > 1 {
      var next := PieceText(ps[1]);
      assert ps[1..][0] == ps[1];
      PieceNotEmpty(ps[1]);
      HasSplit(s, i + 6, next, Texts(ps[1..][1..]));
      HasAt(s, i + 6, next, 0);
      if |next| > 1 { HasAt(s, i + 6, next, 1); }
    }
  }

  lemma {:induction false} PiecesRead(s: string, i: nat, ps: seq<Piece>) returns (us: seq<string>)
    requires ArePieces(ps) && Has(s, i, Texts(ps)) && (At(s, i + |Texts(ps)|) == '\"' || At(s, i + |Texts(ps)|) == NUL)
    ensures |us| == |ps| && forall k :: 0 <= k < |ps| ==> StandsFor(ps[k], us[k])
    ensures ReadBody(s, i) == (Flat(us), i + |Texts(ps)|)
    decreases |ps|
  {
    hide Has, IsPiece, StandsFor, PieceText, ReadBody, At, StartsUnicode;
    if ps == [] {
      us := [];
      BodyOver(s, i);
    } else {
      HasSplit(s, i, PieceText(ps[0]), Texts(ps[1..]));
      if ps[0].LostHalf? {
        HalfLength(ps[0]);
        HalfAlone(s, i, ps);
      }
      var u := PieceRead(s, i, ps[0]);
      var rest := PiecesRead(s, i + |PieceText(ps[0])|, ps[1..]);
      us := [u] + rest;
      assert us[1..] == rest;
    }
  }

  lemma HalfLength(p: Piece)
    requires IsPiece(p) && p.LostHalf?
    ensures |PieceText(p)| == 6
  {
  }

  lemma BodyOver(s: string, i: nat)
    requires At(s, i) == '\"' || At(s, i) == NUL
    ensures ReadBody(s, i) == ("", i)
  {
  }

  /** A string literal is read as what it stands for, piece by piece, wherever it is; if it is not closed it ends with
      the text. */
  lemma StringRead(s: string, i: nat, ps: seq<Piece>, closed: bool) returns (us: seq<string>)
    requires ArePieces(ps) && Has(s, i, ("\"" + Texts(ps)) + (if closed then "\"" else ""))
    requires !closed ==> i + 1 + |Texts(ps)| == |s|
    ensures |us| == |ps| && forall k :: 0 <= k < |ps| ==> StandsFor(ps[k], us[k])
    ensures ReadString(s, i) == Done(Flat(us), i + 1 + |Texts(ps)| + (if closed then 1 else 0))
  {
    hide Has, IsPiece, StandsFor, Texts, Flat, ReadBody, ReadString, ArePieces;
    HasSplit(s, i, "\"" + Texts(ps), if closed then "\"" else "");
    HasSplit(s, i, "\"", Texts(ps));
    HasAt(s, i, "\"", 0);
    if closed { HasAt(s, i + 1 + |Texts(ps)|, "\"", 0); }
    us := PiecesRead(s, i + 1, ps);
    ReadBoth(s, i, Flat(us), i + 1 + |Texts(ps)|);
  }

  lemma ReadBoth(s: string, i: nat, t: string, e: nat)
    requires At(s, i) == '\"' && ReadBody(s, i + 1) == (t, e)
    ensures ReadString(s, i) == Done(t, if At(s, e) == '\"' then e + 1 else e)
  {
  }

  // ---------- numbers ----------

  datatype Sign = NoSign | Plus | Minus

  function SignOf(s: Sign): string { if s.NoSign? then "" else if s.Plus? then "+" else "-" }

  datatype Exponent = NoExponent | Exponent(e: char, sign: Sign, digits: string)

  datatype Num = Num(negative: bool, whole: string, fraction: string, exponent: Exponent)

  predicate AllDigits(t: string) { forall k :: 0 <= k < |t| ==> IsDigit(t[k]) }

  predicate IsExponent(x: Exponent)
  {
    x.Exponent? ==> (x.e == 'e' || x.e == 'E') && AllDigits(x.digits)
  }

  /** Digits of which the first is not 0. */
  predicate IsPositive(t: string) { t != "" && AllDigits(t) && t[0] != '0' }

  predicate IsWhole(t: string) { t == "" || t == "0" || IsPositive(t) || (t[0] == '0' && IsPositive(t[1..])) }

  /** What the parser takes for a number.  The digits before the point may be missing, and may begin with one 0; the
      digits of the exponent may be missing. */
  predicate IsNum(x: Num)
  {
    && IsWhole(x.whole) && AllDigits(x.fraction) && IsExponent(x.exponent)
  }

  /** The numbers of RFC 8259. */
  predicate IsRfcNum(x: Num)
  {
    IsNum(x) && (x.whole == "0" || IsPositive(x.whole)) && (x.exponent.Exponent? ==> x.exponent.digits != "")
  }

  function FractionText(t: string): string { if t == "" then "" else "." + t }

  function ExponentText(x: Exponent): string { if x.NoExponent? then "" else [x.e] + (SignOf(x.sign) + x.digits) }

  function SignText(negative: bool): string { if negative then "-" else "" }

  function NumText(x: Num): string { SignText(x.negative) + (x.whole + (FractionText(x.fraction) + ExponentText(x.exponent))) }

  /** 10 to the power of `n` */
  function Ten(n: nat): (r: real)
    ensures r > 0.0
  {
    if n == 0 then 1.0 else 10.0 * Ten(n - 1)
  }

  function Scaled(x: Exponent, r: real): real
    requires IsExponent(x)
  {
    if x.NoExponent? then r
    else if x.sign.Minus? then r / Ten(Value10(x.digits, 0))
    else r * Ten(Value10(x.digits, 0))
  }

  lemma WholeDigits(t: string)
    requires IsWhole(t)
    ensures AllDigits(t)
  {
    if t != "" && t[0] == '0' && t != "0" {
      forall k | 0 <= k < |t| ensures IsDigit(t[k]) { if k > 0 { assert t[k] == t[1..][k - 1]; } }
    }
  }

  /** The number that is written; missing digits count as 0. */
  function NumValue(x: Num): real
    requires IsNum(x)
  {
    WholeDigits(x.whole);
    var m := Value10(x.whole, 0) as real + Value10(x.fraction, 0) as real / Ten(|x.fraction|);
    Scaled(x.exponent, if x.negative then -m else m)
  }

  // ---------- powers of ten ----------

  lemma {:induction false} PowTen(n: nat)
    ensures Pow10(n) == Ten(n) && Pow10(0 - n) == 1.0 / Ten(n)
    decreases n
  {
    if n > 0 { PowTen(n - 1); }
  }

  lemma PowNext(e: int)
    ensures Pow10(e + 1) == 10.0 * Pow10(e)
  {
  }

  lemma {:induction false} PowShift(e: int, k: nat)
    ensures Pow10(e - k) * Ten(k) == Pow10(e)
    decreases k
  {
    hide Pow10, Ten;
    TenNext(k);
    if k == 0 {
      assert Pow10(e - k) * 1.0 == Pow10(e);
    } else {
      PowShift(e, k - 1);
      PowNext(e - k);
      TimesTen(Pow10(e - k), Ten(k - 1));
    }
  }

  lemma TenNext(k: nat)
    ensures Ten(0) == 1.0 && (k > 0 ==> Ten(k) == 10.0 * Ten(k - 1))
  {
  }

  lemma TimesTen(a: real, b: real)
    ensures a * (10.0 * b) == (10.0 * a) * b
  {
  }

  /** Digits that continue a number. */
  lemma {:induction false} ContinueValue(t: string, acc: nat)
    requires AllDigits(t)
    ensures Value10(t, acc) as real == acc as real * Ten(|t|) + Value10(t, 0) as real
    decreases |t|
  {
    hide Ten, Value10;
    TenNext(|t|);
    if t == "" {
      NoDigits(acc);
      NoDigits(0);
      assert acc as real * 1.0 == acc as real;
    } else {
      ContinueValue(t[..|t| - 1], acc);
      TimesTen(acc as real, Ten(|t| - 1));
      LastDigit(t, acc);
      LastDigit(t, 0);
    }
  }

  lemma NoDigits(acc: nat)
    ensures Value10("", acc) == acc
  {
  }

  lemma LastDigit(t: string, acc: nat)
    requires t != "" && AllDigits(t)
    ensures Value10(t, acc) == 10 * Value10(t[..|t| - 1], acc) + (t[|t| - 1] as int - '0' as int)
  {
  }

  // ---------- numbers as they are read ----------

  lemma PositiveFirst(t: string)
    requires IsPositive(t)
    ensures '1' <= t[0] <= '9'
  {
  }

  lemma PositiveRead(s: string, i: nat, t: string)
    requires (t == "" || IsPositive(t)) && Has(s, i, t) && !('1' <= At(s, i + |t|) <= '9')
    requires t != "" ==> !IsDigit(At(s, i + |t|))
    ensures var r: (nat, nat) := if '1' <= At(s, i) <= '9' then ScanDigits(s, i, 0) else (0, i);
      r == (if t == "" then 0 else Value10(t, 0), i + |t|)
  {
    hide Value10;
    if t != "" {
      HasAt(s, i, t, 0);
      PositiveFirst(t);
      ScanRoundTrip(s, i, t, 0);
    }
  }

  lemma ZeroFirst(t: string)
    requires AllDigits(t)
    ensures AllDigits("0" + t) && Value10("0" + t, 0) == Value10(t, 0)
  {
    var z := "0" + t;
    assert z[1..] == t && IsDigit(z[0]);
    forall k | 0 <= k < |z| ensures IsDigit(z[k]) { if k > 0 { assert z[k] == t[k - 1]; } }
    Value10Front(z, 0);
  }

  /** What follows the digits before the point: after none, or after a single 0, that can be a 0. */
  predicate EndsWhole(t: string, c: char) { !('1' <= c <= '9') && (t == "" || t == "0" || c != '0') && (t == "" ==> c != '0') }

  lemma ZeroRead(s: string, i: nat, rest: string)
    requires (rest == "" || IsPositive(rest)) && Has(s, i, "0" + rest)
    requires !('1' <= At(s, i + 1 + |rest|) <= '9') && (rest != "" ==> !IsDigit(At(s, i + 1 + |rest|)))
    ensures ReadWhole(s, i) == (if rest == "" then 0 else Value10(rest, 0), i + 1 + |rest|)
  {
    hide Value10, Has, ScanDigits, IsPositive, At;
    HasSplit(s, i, "0", rest);
    HasAt(s, i, "0", 0);
    PositiveRead(s, i + 1, rest);
  }

  lemma NonZeroRead(s: string, i: nat, t: string)
    requires (t == "" || IsPositive(t)) && Has(s, i, t) && !('1' <= At(s, i + |t|) <= '9')
    requires if t == "" then At(s, i) != '0' else !IsDigit(At(s, i + |t|))
    ensures ReadWhole(s, i) == (if t == "" then 0 else Value10(t, 0), i + |t|)
  {
    hide Value10, Has, ScanDigits;
    if t != "" {
      HasAt(s, i, t, 0);
      PositiveFirst(t);
    }
    PositiveRead(s, i, t);
  }

  lemma WholeRead(s: string, i: nat, t: string)
    requires IsWhole(t)
    requires Has(s, i, t) && EndsWhole(t, At(s, i + |t|))
    ensures AllDigits(t) && ReadWhole(s, i) == (Value10(t, 0), i + |t|)
  {
    hide Value10, Has, ReadWhole, At, IsPositive, IsWhole, EndsWhole;
    WholeDigits(t);
    WholeCases(t, At(s, i + |t|));
    NoDigits(0);
    if t != "" && t[0] == '0' {
      ZeroFirst(t[1..]);
      ZeroRead(s, i, t[1..]);
    } else {
      NonZeroRead(s, i, t);
    }
  }

  lemma WholeCases(t: string, c: char)
    requires IsWhole(t) && EndsWhole(t, c)
    ensures t != "" && t[0] == '0' ==> t == "0" + t[1..] && AllDigits(t[1..]) && (t[1..] == "" || IsPositive(t[1..]))
    ensures t != "" && t[0] == '0' ==> !('1' <= c <= '9') && (t[1..] != "" ==> !IsDigit(c))
    ensures t == "" || t[0] != '0' ==>
      (t == "" || IsPositive(t)) && !('1' <= c <= '9') && if t == "" then c != '0' else !IsDigit(c)
  {
  }

  lemma FractionRead(s: string, i: nat, t: string, whole: nat)
    requires AllDigits(t) && Has(s, i, FractionText(t))
    requires if t == "" then !(At(s, i) == '.' && IsDigit(At(s, i + 1))) else !IsDigit(At(s, i + |FractionText(t)|))
    ensures ReadFraction(s, i, whole) == (Value10(t, whole), i + |FractionText(t)|)
  {
    hide Has, ScanDigits, Value10;
    NoDigits(whole);
    if t != "" {
      HasSplit(s, i, ".", t);
      HasAt(s, i, ".", 0);
      HasAt(s, i + 1, t, 0);
      ScanRoundTrip(s, i + 1, t, whole);
    }
  }

  /** The exponent that is written. */
  function Power(x: Exponent): int
    requires IsExponent(x)
  {
    if x.NoExponent? then 0 else
    var n: int := Value10(x.digits, 0);
    if x.sign.Minus? then -n else n
  }

  /** What follows the exponent: no digit, and after the mark alone no sign. */
  predicate EndsExponent(x: Exponent, c: char)
  {
    if x.NoExponent? then c != 'e' && c != 'E' else !IsDigit(c) && (x.sign.NoSign? && x.digits == "" ==> c != '+' && c != '-')
  }

  lemma ExponentAt(s: string, i: nat, x: Exponent)
    requires x.Exponent? && IsExponent(x) && Has(s, i, ExponentText(x)) && EndsExponent(x, At(s, i + |ExponentText(x)|))
    ensures At(s, i) == x.e && Has(s, i + 1 + |SignOf(x.sign)|, x.digits)
    ensures At(s, i + 1) == '+' <==> x.sign.Plus?
    ensures At(s, i + 1) == '-' <==> x.sign.Minus?
  {
    hide *;
    var sign := SignOf(x.sign);
    ExponentShape(x);
    HasSplit(s, i, [x.e], sign + x.digits);
    HasSplit(s, i + 1, sign, x.digits);
    HasAt(s, i, [x.e], 0);
    ExponentSign(s, i + 1, x);
  }

  lemma ExponentShape(x: Exponent)
    requires x.Exponent?
    ensures ExponentText(x) == [x.e] + (SignOf(x.sign) + x.digits)
    ensures |ExponentText(x)| == 1 + |SignOf(x.sign)| + |x.digits|
  {
  }

  lemma ExponentSign(s: string, k: nat, x: Exponent)
    requires x.Exponent? && IsExponent(x) && Has(s, k, SignOf(x.sign)) && Has(s, k + |SignOf(x.sign)|, x.digits)
    requires EndsExponent(x, At(s, k + |SignOf(x.sign)| + |x.digits|))
    ensures At(s, k) == '+' <==> x.sign.Plus?
    ensures At(s, k) == '-' <==> x.sign.Minus?
  {
    hide Has, At;
    if !x.sign.NoSign? { HasAt(s, k, SignOf(x.sign), 0); }
    else if x.digits != "" { HasAt(s, k, x.digits, 0); }
  }

  lemma ExponentRead(s: string, i: nat, x: Exponent)
    requires IsExponent(x) && Has(s, i, ExponentText(x)) && EndsExponent(x, At(s, i + |ExponentText(x)|))
    ensures ReadExponent(s, i) == (Power(x), i + |ExponentText(x)|)
  {
    hide Value10, Has, At, ScanDigits;
    if x.Exponent? {
      ExponentAt(s, i, x);
      var j := i + 1 + |SignOf(x.sign)|;
      assert i + |ExponentText(x)| == j + |x.digits|;
      ScanRoundTrip(s, j, x.digits, 0);
    }
  }

  /** The arithmetic of parse_number gives the number that is written. */
  lemma DecimalIs(x: Num)
    requires IsNum(x)
    ensures Decimal(x.negative, Value10(x.fraction, Value10(x.whole, 0)), Power(x.exponent) - |x.fraction|) == NumValue(x)
  {
    hide Value10, Pow10, Ten, Power, Scaled, IsExponent;
    var w, f, e, n := Value10(x.whole, 0), Value10(x.fraction, 0), Power(x.exponent), |x.fraction|;
    ContinueValue(x.fraction, w);
    PowShift(e, n);
    Spread(w as real, f as real, Ten(n), Pow10(e - n));
    var m := w as real + f as real / Ten(n);
    ScaledIs(x.exponent, if x.negative then -m else m);
    Signed(x.negative, Value10(x.fraction, w), e - n, m * Pow10(e));
    Negated(m, Pow10(e));
  }

  lemma Signed(negative: bool, n: nat, e: int, r: real)
    requires n as real * Pow10(e) == r
    ensures Decimal(negative, n, e) == if negative then -r else r
  {
    hide Pow10;
    var a, p := n as real, Pow10(e);
    assert 1.0 * a * p == a * p;
    assert -1.0 * a * p == -(a * p);
  }

  lemma Negated(m: real, p: real)
    ensures (-m) * p == -(m * p)
  {
  }

  lemma Spread(w: real, f: real, ten: real, p: real)
    requires ten > 0.0
    ensures (w * ten + f) * p == (w + f / ten) * (p * ten)
  {
    assert f / ten * ten == f;
  }

  lemma ScaledIs(x: Exponent, r: real)
    requires IsExponent(x)
    ensures Scaled(x, r) == r * Pow10(Power(x))
  {
    hide Value10, Pow10, Ten;
    PowTen(0);
    TenNext(0);
    if x.Exponent? {
      PowTen(Value10(x.digits, 0));
      Inverse(r, Ten(Value10(x.digits, 0)));
    }
  }

  lemma Inverse(r: real, t: real)
    requires t > 0.0
    ensures r / t == r * (1.0 / t)
  {
  }

  /** What stands behind a number, from position `k` on, does not go on it. */
  predicate Stops(s: string, k: nat, x: Num)
  {
    && EndsExponent(x.exponent, At(s, k))
    && (x.exponent.NoExponent? && x.fraction != "" ==> !IsDigit(At(s, k)))
    && (x.exponent.NoExponent? && x.fraction == "" ==>
      EndsWhole(x.whole, At(s, k)) && !(At(s, k) == '.' && IsDigit(At(s, k + 1))))
  }

  /** Every number is read as what is written, wherever it is, before anything that does not go on it. */
  lemma NumberRead(s: string, i: nat, x: Num)
    requires IsNum(x) && NumText(x) != "" && Has(s, i, NumText(x)) && Stops(s, i + |NumText(x)|, x)
    ensures ReadNumber(s, i) == (NumValue(x), i + |NumText(x)|)
  {
    hide Has, At, Value10, ReadWhole, ReadFraction, ReadExponent, ReadNumber, Decimal, NumValue, Power, IsExponent, Stops;
    hide FractionText, ExponentText, EndsWhole, EndsExponent, IsPositive;
    var a, b, c := SignText(x.negative), FractionText(x.fraction), ExponentText(x.exponent);
    HasSplit(s, i, a, x.whole + (b + c));
    HasSplit(s, i + |a|, x.whole, b + c);
    var j := i + |a| + |x.whole|;
    HasSplit(s, j, b, c);
    WholeDigits(x.whole);
    SignAt(s, i, x);
    Behind(s, j, x);
    WholeRead(s, i + |a|, x.whole);
    FractionRead(s, j, x.fraction, Value10(x.whole, 0));
    ExponentRead(s, j + |b|, x.exponent);
    DecimalIs(x);
    Assembled(s, i, x, j, j + |b|);
  }

  lemma SignAt(s: string, i: nat, x: Num)
    requires IsNum(x) && NumText(x) != "" && Has(s, i, NumText(x))
    ensures At(s, i) == '-' <==> x.negative
  {
    hide Has, At;
    WholeDigits(x.whole);
    HasAt(s, i, NumText(x), 0);
  }

  /** What stands behind the whole part, and behind the fraction. */
  lemma Behind(s: string, i: nat, x: Num)
    requires IsNum(x) && AllDigits(x.whole)
    requires Has(s, i, FractionText(x.fraction)) && Has(s, i + |FractionText(x.fraction)|, ExponentText(x.exponent))
    requires Stops(s, i + |FractionText(x.fraction)| + |ExponentText(x.exponent)|, x)
    ensures EndsWhole(x.whole, At(s, i))
    ensures var k := i + |FractionText(x.fraction)|;
      && (if x.fraction == "" then !(At(s, i) == '.' && IsDigit(At(s, i + 1))) else !IsDigit(At(s, k)))
      && EndsExponent(x.exponent, At(s, k + |ExponentText(x.exponent)|))
  {
    hide Has, At;
    var f, e := FractionText(x.fraction), ExponentText(x.exponent);
    if x.exponent.Exponent? { HasAt(s, i + |f|, e, 0); }
    if x.fraction != "" { HasAt(s, i, f, 0); }
  }

  lemma Assembled(s: string, i: nat, x: Num, j: nat, k: nat)
    requires IsNum(x) && (At(s, i) == '-' <==> x.negative)
    requires ReadWhole(s, i + |SignText(x.negative)|) == (Value10(x.whole, 0), j)
    requires ReadFraction(s, j, Value10(x.whole, 0)) == (Value10(x.fraction, Value10(x.whole, 0)), k)
    requires k == j + |FractionText(x.fraction)|
    ensures var e := ReadExponent(s, k);
      ReadNumber(s, i) == (Decimal(x.negative, Value10(x.fraction, Value10(x.whole, 0)), e.0 - |x.fraction|), e.1)
  {
    hide At, Value10, ReadWhole, ReadFraction, ReadExponent, Decimal;
  }

  // ---------- what is printed ----------

  /** In RFC 8259 control characters are escaped. */
  predicate IsRfcPiece(p: Piece)
  {
    && IsPiece(p) && (p.Plain? || p.Short? || p.Unicode?)
    && (p.Plain? ==> p.c >= 32 as char) && (p.Short? ==> p.c in "\"\\/bfnrt")
  }

  lemma HexDigitIs(d: int)
    requires 0 <= d < 16
    ensures IsHex(HexDigit(d), d)
  {
  }

  lemma EscapeKinds(c: char)
    requires NUL < c < 256 as char
    ensures var t := EscapeChar(c);
      || (t == [c] && c >= 32 as char && c != '\"' && c != '\\')
      || (|t| == 2 && t[0] == '\\' && t[1] in "\"\\bfnrt")
      || (c < 32 as char && t == ['\\', 'u', '0', '0', HexDigit(c as int / 16), HexDigit(c as int % 16)])
  {
  }

  lemma SmallText(n: nat)
    requires n < 256
    ensures UnicodeText(['\\', 'u', '0', '0', HexDigit(n / 16), HexDigit(n % 16)], n)
  {
    hide IsHex, HexDigit;
    var t := ['\\', 'u', '0', '0', HexDigit(n / 16), HexDigit(n % 16)];
    assert t[..2] == "\\u" && t[2..] == ['0', '0', HexDigit(n / 16), HexDigit(n % 16)];
    ZeroIsHex();
    HexDigitIs(n / 16);
    HexDigitIs(n % 16);
  }

  lemma ZeroIsHex()
    ensures IsHex('0', 0)
  {
  }

  lemma EscapeIsPiece(c: char) returns (p: Piece)
    requires NUL < c < 256 as char
    ensures IsRfcPiece(p) && PieceText(p) == EscapeChar(c)
  {
    hide EscapeChar, UnicodeText, HexDigit;
    EscapeKinds(c);
    var t := EscapeChar(c);
    if t == [c] {
      p := Plain(c);
    } else if |t| == 2 {
      p := Short(t[1]);
      assert t == ['\\', t[1]];
    } else {
      p := Unicode(c as nat, t);
      SmallText(c as nat);
    }
  }

  /** Every string is printed as a string of RFC 8259. */
  lemma {:induction false} QuoteIsRfc(t: string) returns (ps: seq<Piece>)
    requires IsCString(t)
    ensures (forall k :: 0 <= k < |ps| ==> IsRfcPiece(ps[k])) && Quote(t) == ("\"" + Texts(ps)) + "\""
    decreases |t|
  {
    hide IsRfcPiece, PieceText, EscapeChar;
    ps := EscapePieces(t);
  }

  lemma {:induction false} EscapePieces(t: string) returns (ps: seq<Piece>)
    requires IsCString(t)
    ensures (forall k :: 0 <= k < |ps| ==> IsRfcPiece(ps[k])) && Escape(t) == Texts(ps)
    decreases |t|
  {
    hide IsRfcPiece, PieceText, EscapeChar;
    if t == "" {
      ps := [];
    } else {
      var p := EscapeIsPiece(t[0]);
      var rest := EscapePieces(t[1..]);
      ps := [p] + rest;
      assert ps[1..] == rest;
    }
  }

  lemma PlainNum(negative: bool, t: string)
    ensures NumText(Num(negative, t, "", NoExponent)) == SignText(negative) + t
  {
    assert t + ("" + "") == t;
  }

  lemma IntDigits(n: nat)
    ensures n > 0 ==> IsRfcNum(Num(false, Digits(n), "", NoExponent)) && IsRfcNum(Num(true, Digits(n), "", NoExponent))
    ensures IsRfcNum(Num(false, "0", "", NoExponent))
  {
  }

  /** Every integer is printed as a number of RFC 8259. */
  lemma IntIsRfc(n: int) returns (x: Num)
    ensures IsRfcNum(x) && PrintInt(n) == NumText(x)
  {
    hide Digits, NumText, IsRfcNum, PrintInt;
    IntText(n);
    var t := if n == 0 then "0" else Digits(if n < 0 then -n else n);
    IntDigits(if n < 0 then -n else n);
    x := Num(n < 0, t, "", NoExponent);
    PlainNum(n < 0, t);
    assert "" + t == t;
  }
}
