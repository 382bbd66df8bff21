/** Bit fields across the bytes of a buffer: the helpers with which callbacks pack and unpack coils.
*/
module ModbusBits {
  // ---------- words, bit by bit ----------

  predicate BitOf(w: bv16, j: bv4) { (w >> j) & 1 == 1 }

  function Up(w: bv16, p: bv4): bv16 { w << p }

  function Down(w: bv16, p: bv4): bv16 { w >> p }

  function And(x: bv16, y: bv16): bv16 { x & y }

  function Or(x: bv16, y: bv16): bv16 { x | y }

  function Not(x: bv16): bv16 { !x }

  function Mask(n: bv4): bv16 { (1 << n) - 1 }

  function Wide(b: bv8): bv16 { b as bv16 }

  function Low(w: bv16): bv8 { (w & 0xFF) as bv8 }

  lemma UpBit(w: bv16, p: bv4, j: bv4)
    ensures BitOf(Up(w, p), j) <==> p <= j && BitOf(w, j - p)
  {
  }

  lemma DownBit(w: bv16, p: bv4, j: bv4)
    requires p < 8 && j < 8
    ensures BitOf(Down(w, p), j) <==> BitOf(w, p + j)
  {
  }

  lemma AndBit(x: bv16, y: bv16, j: bv4)
    ensures BitOf(And(x, y), j) <==> BitOf(x, j) && BitOf(y, j)
  {
  }

  lemma OrBit(x: bv16, y: bv16, j: bv4)
    ensures BitOf(Or(x, y), j) <==> BitOf(x, j) || BitOf(y, j)
  {
  }

  lemma NotBit(x: bv16, j: bv4)
    ensures BitOf(Not(x), j) <==> !BitOf(x, j)
  {
  }

  lemma MaskBit(n: bv4, j: bv4)
    ensures BitOf(Mask(n), j) <==> j < n
  {
  }

  lemma WideBit(b: bv8, j: bv4)
    requires j >= 8
    ensures !BitOf(Wide(b), j)
  {
  }

  lemma LowBit(w: bv16, j: bv4)
    requires j < 8
    ensures BitOf(Wide(Low(w)), j) <==> BitOf(w, j)
  {
  }

  lemma HighBit(w: bv16, j: bv4)
    requires j >= 8
    ensures BitOf(Wide(Low(Down(w, 8))), j - 8) <==> BitOf(w, j)
  {
  }

  /** Bytes with the same bits are the same. */
  lemma SameBits(a: bv8, b: bv8)
    requires BitOf(Wide(a), 0) == BitOf(Wide(b), 0) && BitOf(Wide(a), 1) == BitOf(Wide(b), 1)
    requires BitOf(Wide(a), 2) == BitOf(Wide(b), 2) && BitOf(Wide(a), 3) == BitOf(Wide(b), 3)
    requires BitOf(Wide(a), 4) == BitOf(Wide(b), 4) && BitOf(Wide(a), 5) == BitOf(Wide(b), 5)
    requires BitOf(Wide(a), 6) == BitOf(Wide(b), 6) && BitOf(Wide(a), 7) == BitOf(Wide(b), 7)
    ensures a == b
  {
  }

  // ---------- fields in a word ----------

  function Join(lo: bv8, hi: bv8): bv16 { Or(Wide(lo), Up(Wide(hi), 8)) }

  /** The field is cleared and the value put over it; what of the value is too large goes beyond the
      field. */
  function Inserted(w: bv16, p: bv4, n: bv4, v: bv8): bv16 { Or(And(w, Not(Up(Mask(n), p))), Up(Wide(v), p)) }

  function Extracted(w: bv16, p: bv4, n: bv4): bv8 { Low(And(Down(w, p), Mask(n))) }

  lemma JoinBit(lo: bv8, hi: bv8, j: bv4)
    ensures BitOf(Join(lo, hi), j) <==> if j < 8 then BitOf(Wide(lo), j) else BitOf(Wide(hi), j - 8)
  {
    hide Or, Up, Wide, BitOf;
    OrBit(Wide(lo), Up(Wide(hi), 8), j);
    UpBit(Wide(hi), 8, j);
    if j >= 8 { WideBit(lo, j); }
  }

  lemma InsertedBit(w: bv16, p: bv4, n: bv4, v: bv8, j: bv4)
    requires p < 8 && n <= 8
    ensures BitOf(Inserted(w, p, n, v), j) <==>
      if j < p then BitOf(w, j) else BitOf(Wide(v), j - p) || (n <= j - p && BitOf(w, j))
  {
    hide Or, And, Not, Up, Mask, Wide, BitOf;
    OrBit(And(w, Not(Up(Mask(n), p))), Up(Wide(v), p), j);
    AndBit(w, Not(Up(Mask(n), p)), j);
    NotBit(Up(Mask(n), p), j);
    UpBit(Mask(n), p, j);
    MaskBit(n, j - p);
    UpBit(Wide(v), p, j);
  }

  lemma ExtractedBit(w: bv16, p: bv4, n: bv4, j: bv4)
    requires p < 8 && n <= 8 && j < 8
    ensures BitOf(Wide(Extracted(w, p, n)), j) <==> j < n && BitOf(w, p + j)
  {
    hide Low, And, Down, Mask, Wide, BitOf;
    LowBit(And(Down(w, p), Mask(n)), j);
    AndBit(Down(w, p), Mask(n), j);
    DownBit(w, p, j);
    MaskBit(n, j);
  }

  // ---------- fields in a buffer ----------

  /** A small number as a shift count. */
  function Small(n: nat): bv4
    requires n < 16
  {
    n as bv4
  }

  lemma SmallLess(m: nat, n: nat)
    requires m < 16 && n < 16
    ensures m < n <==> Small(m) < Small(n)
    ensures m <= n <==> Small(m) <= Small(n)
  {
  }

  lemma SmallNext(n: nat)
    requires n < 15
    ensures Small(n + 1) == Small(n) + 1
  {
  }

  lemma SmallZero()
    ensures Small(0) == 0
  {
  }

  lemma {:induction false} SmallMinus(m: nat, n: nat)
    requires n <= m < 16
    ensures Small(m) - Small(n) == Small(m - n)
    decreases n
  {
    hide Small;
    if n == 0 {
      SmallZero();
    } else {
      SmallMinus(m, n - 1);
      SmallNext(n - 1);
      SmallNext(m - n);
    }
  }

  /** Bit `k` of a buffer. */
  predicate BitAt(s: seq<bv8>, k: nat)
    requires k < 8 * |s|
  {
    BitOf(Wide(s[k / 8]), Small(k % 8))
  }

  /** The two bytes from which a field is taken must both be there, even if it ends in the first. */
  predicate Inside(s: seq<bv8>, off: nat, n: nat) { n <= 8 && off / 8 + 1 < |s| }

  function WithBits(s: seq<bv8>, off: nat, n: nat, v: bv8): (r: seq<bv8>)
    requires Inside(s, off, n)
    ensures |r| == |s|
  {
    var i := off / 8;
    var w := Inserted(Join(s[i], s[i + 1]), Small(off % 8), Small(n), v);
    s[i := Low(w)][i + 1 := Low(Down(w, 8))]
  }

  function BitsFrom(s: seq<bv8>, off: nat, n: nat): bv8
    requires Inside(s, off, n)
  {
    Extracted(Join(s[off / 8], s[off / 8 + 1]), Small(off % 8), Small(n))
  }

  /** xMBUtilSetBits */
  method SetBits(byteBuf: array<bv8>, bitOffset: nat, nBits: nat, value: bv8)
    requires Inside(byteBuf[..], bitOffset, nBits)
    modifies byteBuf
    ensures byteBuf[..] == WithBits(old(byteBuf[..]), bitOffset, nBits, value)
  {
    hide Up, Not, Or, And, Down, Mask, Low, Wide, Small;
    var byteOffset := bitOffset / 8;
    var nPreBits := bitOffset - byteOffset * 8;
    var val := Up(Wide(value), Small(nPreBits));
    var mask := Up(Mask(Small(nBits)), Small(bitOffset - byteOffset * 8));
    var wordBuf := Wide(byteBuf[byteOffset]);
    wordBuf := Or(wordBuf, Up(Wide(byteBuf[byteOffset + 1]), 8));
    wordBuf := Or(And(wordBuf, Not(mask)), val);
    byteBuf[byteOffset] := Low(wordBuf);
    byteBuf[byteOffset + 1] := Low(Down(wordBuf, 8));
  }

  /** xMBUtilGetBits */
  method GetBits(byteBuf: array<bv8>, bitOffset: nat, nBits: nat) returns (r: bv8)
    requires Inside(byteBuf[..], bitOffset, nBits)
    ensures r == BitsFrom(byteBuf[..], bitOffset, nBits)
  {
    hide Up, Not, Or, And, Down, Mask, Low, Wide, Small;
    var byteOffset := bitOffset / 8;
    var nPreBits := bitOffset - byteOffset * 8;
    var mask := Mask(Small(nBits));
    var wordBuf := Wide(byteBuf[byteOffset]);
    wordBuf := Or(wordBuf, Up(Wide(byteBuf[byteOffset + 1]), 8));
    wordBuf := Down(wordBuf, Small(nPreBits));
    wordBuf := And(wordBuf, mask);
    r := Low(wordBuf);
  }

  /** Bit `j` of the word at byte `i`. */
  lemma WordBit(s: seq<bv8>, i: nat, j: nat)
    requires i + 1 < |s| && j < 16
    ensures BitOf(Join(s[i], s[i + 1]), Small(j)) <==> BitAt(s, 8 * i + j)
  {
    hide Join, BitOf, Wide, Small;
    JoinBit(s[i], s[i + 1], Small(j));
    SmallLess(j, 8);
    Eight();
    if j >= 8 {
      SmallMinus(j, 8);
      assert (8 * i + j) / 8 == i + 1 && (8 * i + j) % 8 == j - 8;
    } else {
      assert (8 * i + j) / 8 == i && (8 * i + j) % 8 == j;
    }
  }

  lemma Eight()
    ensures Small(8) == 8
  {
  }

  /** A word put back at byte `i`. */
  lemma PutWordBit(s: seq<bv8>, i: nat, w: bv16, j: nat)
    requires i + 1 < |s| && j < 16
    ensures BitAt(s[i := Low(w)][i + 1 := Low(Down(w, 8))], 8 * i + j) <==> BitOf(w, Small(j))
  {
    hide BitOf, Wide, Small, Low, Down;
    SmallLess(j, 8);
    Eight();
    if j >= 8 {
      HighBit(w, Small(j));
      SmallMinus(j, 8);
      assert (8 * i + j) / 8 == i + 1 && (8 * i + j) % 8 == j - 8;
    } else {
      LowBit(w, Small(j));
      assert (8 * i + j) / 8 == i && (8 * i + j) % 8 == j;
    }
  }

  /** Setting a field, bit by bit: before the field, and from its eighth bit on, nothing changes; the
      bits of the value are in the field; the rest of the value is put over what follows. */
  lemma WithBitsAt(s: seq<bv8>, off: nat, n: nat, v: bv8, k: nat)
    requires Inside(s, off, n) && k < 8 * |s|
    ensures BitAt(WithBits(s, off, n, v), k) <==>
      if k < off || off + 8 <= k then BitAt(s, k) else BitOf(Wide(v), Small(k - off)) || (off + n <= k && BitAt(s, k))
  {
    hide BitOf, Wide, Small, Low, Down, Inserted, Join;
    var i, p := off / 8, off % 8;
    var w := Inserted(Join(s[i], s[i + 1]), Small(p), Small(n), v);
    if 8 * i <= k < 8 * i + 16 {
      var j := k - 8 * i;
      hide BitAt;
      PutWordBit(s, i, w, j);
      WordBit(s, i, j);
      SmallLess(p, 8);
      SmallLess(8, n);
      Eight();
      InsertedBit(Join(s[i], s[i + 1]), Small(p), Small(n), v, Small(j));
      SmallLess(j, p);
      if p <= j {
        SmallMinus(j, p);
        SmallLess(n, j - p);
        SmallLess(j - p, 8);
        if j - p >= 8 { WideBit(v, Small(j - p)); }
      }
    }
  }

  /** Getting a field, bit by bit. */
  lemma BitsFromAt(s: seq<bv8>, off: nat, n: nat, j: nat)
    requires Inside(s, off, n) && j < 8
    ensures BitOf(Wide(BitsFrom(s, off, n)), Small(j)) <==> j < n && BitAt(s, off + j)
  {
    hide BitOf, Wide, Small, Extracted, Join, BitAt;
    var i, p := off / 8, off % 8;
    SmallLess(p, 8);
    SmallLess(j, 8);
    SmallLess(8, n);
    SmallLess(j, n);
    Eight();
    ExtractedBit(Join(s[i], s[i + 1]), Small(p), Small(n), Small(j));
    SmallMinus(p + j, p);
    WordBit(s, i, p + j);
  }

  /** The bits outside the field stay as they were exactly if the bits of the value that are too many
      for the field are already there. */
  lemma OthersKeptIff(s: seq<bv8>, off: nat, n: nat, v: bv8)
    requires Inside(s, off, n)
    ensures (forall k :: 0 <= k < 8 * |s| && !(off <= k < off + n) ==> BitAt(WithBits(s, off, n, v), k) == BitAt(s, k))
       <==> (forall j :: n <= j < 8 && BitOf(Wide(v), Small(j)) ==> BitAt(s, off + j))
  {
    hide BitOf, Wide, Small, BitAt, WithBits;
    forall k | 0 <= k < 8 * |s|
      ensures BitAt(WithBits(s, off, n, v), k) <==>
        if k < off || off + 8 <= k then BitAt(s, k) else BitOf(Wide(v), Small(k - off)) || (off + n <= k && BitAt(s, k))
    {
      WithBitsAt(s, off, n, v, k);
    }
    if forall k :: 0 <= k < 8 * |s| && !(off <= k < off + n) ==> BitAt(WithBits(s, off, n, v), k) == BitAt(s, k) {
      forall j | n <= j < 8 && BitOf(Wide(v), Small(j)) ensures BitAt(s, off + j) {
        var k := off + j;
        assert BitAt(WithBits(s, off, n, v), k) == BitAt(s, k);
      }
    }
    if forall j :: n <= j < 8 && BitOf(Wide(v), Small(j)) ==> BitAt(s, off + j) {
      forall k | 0 <= k < 8 * |s| && !(off <= k < off + n) ensures BitAt(WithBits(s, off, n, v), k) == BitAt(s, k) {
        if off + n <= k < off + 8 {
          var j := k - off;
          assert BitOf(Wide(v), Small(j)) ==> BitAt(s, off + j);
        }
      }
    }
  }

  /** What was set is got back, cut to the field. */
  lemma SetThenGet(s: seq<bv8>, off: nat, n: nat, v: bv8)
    requires Inside(s, off, n)
    ensures BitsFrom(WithBits(s, off, n, v), off, n) == Low(And(Wide(v), Mask(Small(n))))
  {
    hide BitOf, Wide, Small, BitsFrom, WithBits, Low, And, Mask;
    var a, b := BitsFrom(WithBits(s, off, n, v), off, n), Low(And(Wide(v), Mask(Small(n))));
    forall j | 0 <= j < 8 ensures BitOf(Wide(a), Small(j)) == BitOf(Wide(b), Small(j)) {
      SetThenGetBit(s, off, n, v, j);
    }
    SmallValues();
    SameBits(a, b);
  }

  lemma SetThenGetBit(s: seq<bv8>, off: nat, n: nat, v: bv8, j: nat)
    requires Inside(s, off, n) && j < 8
    ensures BitOf(Wide(BitsFrom(WithBits(s, off, n, v), off, n)), Small(j))
       <==> BitOf(Wide(Low(And(Wide(v), Mask(Small(n))))), Small(j))
  {
    hide BitOf, Wide, Small, BitsFrom, WithBits, Low, And, Mask, BitAt;
    BitsFromAt(WithBits(s, off, n, v), off, n, j);
    WithBitsAt(s, off, n, v, off + j);
    SmallLess(j, 8);
    SmallLess(j, n);
    Eight();
    LowBit(And(Wide(v), Mask(Small(n))), Small(j));
    AndBit(Wide(v), Mask(Small(n)), Small(j));
    MaskBit(Small(n), Small(j));
  }

  lemma SmallValues()
    ensures Small(0) == 0 && Small(1) == 1 && Small(2) == 2 && Small(3) == 3
    ensures Small(4) == 4 && Small(5) == 5 && Small(6) == 6 && Small(7) == 7
  {
  }

  /** A value that is too wide: the second bit of 3 does not stay in a field of one bit. */
  lemma SpillExample()
    ensures Inside([0, 0], 0, 1) && !BitAt([0, 0], 1) && BitAt(WithBits([0, 0], 0, 1, 3), 1)
  {
    hide Inserted, Low, Down, Join, WithBits, BitOf;
    SmallValues();
    SpillBits();
    WithBitsAt([0, 0], 0, 1, 3, 1);
  }

  lemma SpillBits()
    ensures BitOf(Wide(3), 1) && !BitOf(Wide(0), 1)
  {
  }

  function SecondByte(s: seq<bv8>, off: nat, x: bv8): (r: seq<bv8>)
    requires Inside(s, off, 0)
    ensures |r| == |s| && r[off / 8] == s[off / 8]
  {
    s[off / 8 + 1 := x]
  }

  /** The byte behind the first is read even when the field ends in the first; the result depends on it
      exactly if the field does not. */
  lemma SecondByteMattersIff(s: seq<bv8>, off: nat, n: nat)
    requires Inside(s, off, n)
    ensures (forall x: bv8 :: BitsFrom(SecondByte(s, off, x), off, n) == BitsFrom(s, off, n)) <==> off % 8 + n <= 8
  {
    hide BitsFrom, SecondByte, BitAt, Small, BitOf, Wide;
    if off % 8 + n <= 8 {
      forall x: bv8 ensures BitsFrom(SecondByte(s, off, x), off, n) == BitsFrom(s, off, n) {
        FirstByteDecides(s, SecondByte(s, off, x), off, n);
      }
    } else {
      var x := SecondByteMatters(s, off, n);
    }
  }

  lemma SecondByteMatters(s: seq<bv8>, off: nat, n: nat) returns (x: bv8)
    requires Inside(s, off, n) && off % 8 + n > 8
    ensures BitsFrom(SecondByte(s, off, x), off, n) != BitsFrom(s, off, n)
  {
    hide BitsFrom, SecondByte, BitAt, Small, BitOf, Wide;
    var j := 8 - off % 8;
    x := if BitAt(s, off + j) then 0 else 0xFF;
    OtherBits();
    NewByteBit(s, off, x, j);
    BitsFromAt(s, off, n, j);
    BitsFromAt(SecondByte(s, off, x), off, n, j);
  }

  lemma OtherBits()
    ensures !BitOf(Wide(0), Small(0)) && BitOf(Wide(0xFF), Small(0))
  {
    SmallZero();
  }

  lemma NewByteBit(s: seq<bv8>, off: nat, x: bv8, j: nat)
    requires Inside(s, off, 0) && j == 8 - off % 8
    ensures off + j < 8 * |s| && BitAt(SecondByte(s, off, x), off + j) == BitOf(Wide(x), Small(0))
  {
    hide BitOf, Wide, Small;
    assert (off + j) / 8 == off / 8 + 1 && (off + j) % 8 == 0;
  }

  lemma FirstByteDecides(s: seq<bv8>, t: seq<bv8>, off: nat, n: nat)
    requires Inside(s, off, n) && |t| == |s| && off % 8 + n <= 8 && t[off / 8] == s[off / 8]
    ensures BitsFrom(t, off, n) == BitsFrom(s, off, n)
  {
    hide BitsFrom, Small, BitOf, Wide, BitAt;
    var a, b := BitsFrom(t, off, n), BitsFrom(s, off, n);
    forall j | 0 <= j < 8 ensures BitOf(Wide(a), Small(j)) == BitOf(Wide(b), Small(j)) {
      BitsFromAt(s, off, n, j);
      BitsFromAt(t, off, n, j);
      if j < n { SameByteBit(s, t, off, j); }
    }
    SmallValues();
    SameBits(a, b);
  }

  lemma SameByteBit(s: seq<bv8>, t: seq<bv8>, off: nat, j: nat)
    requires off / 8 < |s| == |t| && off % 8 + j < 8 && t[off / 8] == s[off / 8]
    ensures off + j < 8 * |s| && BitAt(t, off + j) == BitAt(s, off + j)
  {
    hide BitOf, Wide, Small;
    assert (off + j) / 8 == off / 8;
  }

  /** Setting a field that ends in the first byte leaves the second as it was, if the value fits. */
  lemma SecondByteKept(s: seq<bv8>, off: nat, n: nat, v: bv8)
    requires Inside(s, off, n) && off % 8 + n <= 8 && forall j :: n <= j < 8 ==> !BitOf(Wide(v), Small(j))
    ensures WithBits(s, off, n, v)[off / 8 + 1] == s[off / 8 + 1]
  {
    hide BitOf, Wide, Small, BitAt, WithBits;
    var i, r := off / 8 + 1, WithBits(s, off, n, v);
    forall j | 0 <= j < 8 ensures BitOf(Wide(r[i]), Small(j)) == BitOf(Wide(s[i]), Small(j)) {
      WithBitsAt(s, off, n, v, 8 * i + j);
      ByteBit(s, i, j);
      ByteBit(r, i, j);
    }
    SmallValues();
    SameBits(r[i], s[i]);
  }

  lemma ByteBit(s: seq<bv8>, i: nat, j: nat)
    requires i < |s| && j < 8
    ensures BitAt(s, 8 * i + j) <==> BitOf(Wide(s[i]), Small(j))
  {
    hide BitOf, Wide, Small;
    assert (8 * i + j) / 8 == i && (8 * i + j) % 8 == j;
  }
}
