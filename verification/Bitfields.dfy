/** Bits, bitfields and flag lists in unsigned words of any width. */
module Bitfields {
  import opened Bits

  /** The width in which C++ evaluates a shift of a type: integral promotion widens what is narrower than int. */
  function Promoted(width: nat): nat {
    if width < 32 then 32 else width
  }

  /** A shift of a word of this width by k is defined. */
  predicate Defined(width: nat, k: nat) {
    k < Promoted(width)
  }

  // ---------------------------------------------------------------- single bits

  /** The source admits bit == width; for a type narrower than int that changes nothing. */
  method SetBit(width: nat, bitfield: nat, bit: nat, value: bool) returns (r: nat)
    requires bitfield < Pow2(width) && bit <= width && Defined(width, bit)
    ensures r < Pow2(width)
    ensures forall i :: 0 <= i < width ==> Bit(r, i) == if i == bit then value else Bit(bitfield, i)
  {
    var mask := ShiftLeft(width, 1, bit);
    r := And(bitfield, Not(width, mask));
    AndSmall(bitfield, Not(width, mask));
    ghost var cleared := r;
    if value {
      r := Or(r, mask);
      ShiftLeftBit(width, 1, bit, 0);
      OrSmall(width, cleared, mask);
    }
    forall i | 0 <= i < width
      ensures Bit(r, i) == if i == bit then value else Bit(bitfield, i)
    {
      ShiftLeftBit(width, 1, bit, i);
      if i > bit { NoHighBits(1, 1, i - bit); }
      AndBit(bitfield, Not(width, mask), i);
      NotBit(width, mask, i);
      OrBit(cleared, mask, i);
    }
  }

  method CheckBit(width: nat, bitfield: nat, bit: nat) returns (isSet: bool)
    requires bitfield < Pow2(width) && bit <= width && Defined(width, bit)
    ensures isSet == Bit(bitfield, bit)
  {
    var mask := ShiftLeft(width, 1, bit);
    isSet := And(bitfield, mask) != 0;
    OnlyBit(width, bitfield, bit);
  }

  /** A word masked with one bit is zero exactly when the bit is. */
  lemma OnlyBit(width: nat, bitfield: nat, bit: nat)
    requires bitfield < Pow2(width) && bit <= width
    ensures And(bitfield, ShiftLeft(width, 1, bit)) != 0 <==> Bit(bitfield, bit)
  {
    var mask := ShiftLeft(width, 1, bit);
    var x := And(bitfield, mask);
    AndSmall(bitfield, mask);
    AndBit(bitfield, mask, bit);
    ShiftLeftBit(width, 1, bit, bit);
    if bit == width {
      NoHighBits(width, bitfield, bit);
    }
    if Bit(bitfield, bit) {
      if x == 0 { NoHighBits(0, 0, bit); }
    } else {
      ClearBit(width, bitfield, bit);
    }
  }

  lemma ClearBit(width: nat, bitfield: nat, bit: nat)
    requires bitfield < Pow2(width) && !Bit(bitfield, bit)
    ensures And(bitfield, ShiftLeft(width, 1, bit)) == 0
  {
    var mask := ShiftLeft(width, 1, bit);
    var x := And(bitfield, mask);
    AndSmall(bitfield, mask);
    forall i | 0 <= i < width
      ensures Bit(x, i) == Bit(0, i)
    {
      NoHighBits(0, 0, i);
      AndBit(bitfield, mask, i);
      ShiftLeftBit(width, 1, bit, i);
      if i > bit { NoHighBits(1, 1, i - bit); }
    }
    SameBits(width, x, 0);
  }

  // ---------------------------------------------------------------- fields

  /**
   The word after the n bits from lsb on are replaced by the low bits of v: low part, field and high part put
   together.
   */
  function Write(word: nat, lsb: nat, n: nat, v: nat): nat {
    Low(word, lsb) + Pow2(lsb) * (Low(v, n) + Pow2(n) * ShiftRight(word, lsb + n))
  }

  /** The number held in the n bits from lsb on. */
  function Read(word: nat, lsb: nat, n: nat): nat {
    Low(ShiftRight(word, lsb), n)
  }

  /** Seen bit by bit: the field takes the bits of v, every other bit keeps its value. */
  lemma WriteBit(word: nat, lsb: nat, n: nat, v: nat, i: nat)
    ensures Bit(Write(word, lsb, n, v), i) == if lsb <= i < lsb + n then Bit(v, i - lsb) else Bit(word, i)
  {
    var high := ShiftRight(word, lsb + n);
    LowBit(word, lsb, i);
    ConcatBit(Low(word, lsb), Low(v, n) + Pow2(n) * high, lsb, i);
    if i >= lsb {
      LowBit(v, n, i - lsb);
      ConcatBit(Low(v, n), high, n, i - lsb);
      if i >= lsb + n {
        ShiftRightBit(word, lsb + n, i - lsb - n);
      }
    }
  }

  lemma WriteSmall(width: nat, word: nat, lsb: nat, n: nat, v: nat)
    requires word < Pow2(width) && lsb + n <= width
    ensures Write(word, lsb, n, v) < Pow2(width)
  {
    ShiftRightSmall(word, lsb + n, width);
    Split(word, lsb);
    Split(v, n);
    PartsSmall(width, Low(word, lsb), Low(v, n), ShiftRight(word, lsb + n), lsb, n);
  }

  lemma PartsSmall(width: nat, low: nat, field: nat, high: nat, lsb: nat, n: nat)
    requires lsb + n <= width && low < Pow2(lsb) && field < Pow2(n) && high < Pow2(width - lsb - n)
    ensures low + Pow2(lsb) * (field + Pow2(n) * high) < Pow2(width)
  {
    ConcatSmall(field, high, n, width - lsb - n);
    ConcatSmall(low, field + Pow2(n) * high, lsb, width - lsb);
  }

  method SetBitfield(width: nat, bitfield: nat, lsb: nat, n: nat, valueWidth: nat, value: nat) returns (r: nat)
    requires bitfield < Pow2(width) && valueWidth <= width && value < Pow2(valueWidth)
    requires lsb < width && 0 < n <= valueWidth && lsb + n <= width && Defined(width, n)
    ensures r == Write(bitfield, lsb, n, value) < Pow2(width)
  {
    var mask := Low(Pow2(n) - 1, width);
    var value' := ShiftLeft(width, And(value, mask), lsb);
    r := And(bitfield, Not(width, ShiftLeft(width, mask, lsb)));
    FieldStep(width, bitfield, lsb, n, value);
    r := Or(r, value');
  }

  /** The masked and shifted words of the two assignments put the field in place. */
  lemma {:induction false} FieldStep(width: nat, bitfield: nat, lsb: nat, n: nat, value: nat)
    requires bitfield < Pow2(width) && lsb + n <= width
    ensures var mask := Low(Pow2(n) - 1, width);
            Or(And(bitfield, Not(width, ShiftLeft(width, mask, lsb))), ShiftLeft(width, And(value, mask), lsb))
            == Write(bitfield, lsb, n, value)
    ensures Write(bitfield, lsb, n, value) < Pow2(width)
  {
    MaskFits(n, width);
    var mask := Pow2(n) - 1;
    var r := Or(And(bitfield, Not(width, ShiftLeft(width, mask, lsb))), ShiftLeft(width, And(value, mask), lsb));
    FieldStepSmall(width, bitfield, ShiftLeft(width, mask, lsb), And(value, mask), lsb);
    WriteSmall(width, bitfield, lsb, n, value);
    forall i | 0 <= i < width
      ensures Bit(r, i) == Bit(Write(bitfield, lsb, n, value), i)
    {
      FieldStepBit(width, bitfield, lsb, n, value, i);
    }
    SameBits(width, r, Write(bitfield, lsb, n, value));
  }

  lemma FieldStepSmall(width: nat, bitfield: nat, shifted: nat, masked: nat, lsb: nat)
    requires bitfield < Pow2(width)
    ensures Or(And(bitfield, Not(width, shifted)), ShiftLeft(width, masked, lsb)) < Pow2(width)
  {
    AndSmall(bitfield, Not(width, shifted));
    ShiftLeftBit(width, masked, lsb, 0);
    OrSmall(width, And(bitfield, Not(width, shifted)), ShiftLeft(width, masked, lsb));
  }

  lemma {:induction false} FieldStepBit(width: nat, bitfield: nat, lsb: nat, n: nat, value: nat, i: nat)
    requires i < width
    ensures var mask := Pow2(n) - 1;
            Bit(Or(And(bitfield, Not(width, ShiftLeft(width, mask, lsb))), ShiftLeft(width, And(value, mask), lsb)), i)
            == Bit(Write(bitfield, lsb, n, value), i)
  {
    var mask := Pow2(n) - 1;
    var shifted := ShiftLeft(width, mask, lsb);
    var kept, put := And(bitfield, Not(width, shifted)), ShiftLeft(width, And(value, mask), lsb);
    OrBit(kept, put, i);
    AndBit(bitfield, Not(width, shifted), i);
    NotBit(width, shifted, i);
    ShiftLeftBit(width, mask, lsb, i);
    ShiftLeftBit(width, And(value, mask), lsb, i);
    WriteBit(bitfield, lsb, n, value, i);
    if i >= lsb {
      MaskBit(n, i - lsb);
      AndBit(value, mask, i - lsb);
    }
  }

  method GetBitfield(width: nat, bitfield: nat, lsb: nat, n: nat, valueWidth: nat) returns (r: nat)
    requires bitfield < Pow2(width) && valueWidth <= width
    requires lsb < width && 0 < n <= valueWidth && lsb + n <= width && Defined(width, n)
    ensures r == Read(bitfield, lsb, n) < Pow2(valueWidth)
  {
    var mask := Low(Pow2(n) - 1, width);
    r := And(ShiftRight(bitfield, lsb), mask);
    MaskFits(n, width);
    MaskedIsLow(ShiftRight(bitfield, lsb), n);
    Split(ShiftRight(bitfield, lsb), n);
    Pow2Monotone(n, valueWidth);
    LowSmall(r, valueWidth);
    r := Low(r, valueWidth);
  }

  /** Masking with the n lowest bits keeps these. */
  lemma MaskedIsLow(x: nat, n: nat)
    ensures And(x, Pow2(n) - 1) == Low(x, n)
  {
    AndSmall(x, Pow2(n) - 1);
    Split(x, n);
    forall i | 0 <= i < n
      ensures Bit(And(x, Pow2(n) - 1), i) == Bit(Low(x, n), i)
    {
      AndBit(x, Pow2(n) - 1, i);
      MaskBit(n, i);
      LowBit(x, n, i);
    }
    SameBits(n, And(x, Pow2(n) - 1), Low(x, n));
  }

  /** In numbers: the word divided by the weight of the field's lowest bit, modulo the field's size. */
  lemma ReadIsQuotient(word: nat, lsb: nat, n: nat)
    ensures Read(word, lsb, n) == word / Pow2(lsb) % Pow2(n)
  {
    LowIsMod(word, lsb);
    LowIsMod(ShiftRight(word, lsb), n);
  }

  // ---------------------------------------------------------------- what was written is read

  /** A field reads back as the written number modulo its size, whatever the word was. */
  lemma ReadAfterWrite(word: nat, lsb: nat, n: nat, v: nat)
    ensures Read(Write(word, lsb, n, v), lsb, n) == v % Pow2(n)
  {
    var w := Write(word, lsb, n, v);
    forall i | 0 <= i < n
      ensures Bit(Read(w, lsb, n), i) == Bit(Low(v, n), i)
    {
      LowBit(ShiftRight(w, lsb), n, i);
      ShiftRightBit(w, lsb, i);
      WriteBit(word, lsb, n, v, i + lsb);
      LowBit(v, n, i);
    }
    Split(ShiftRight(w, lsb), n);
    Split(v, n);
    SameBits(n, Read(w, lsb, n), Low(v, n));
    LowIsMod(v, n);
  }

  /** A write leaves every field that it does not overlap as it was. */
  lemma WriteLeavesOthers(word: nat, lsb: nat, n: nat, v: nat, lsb': nat, n': nat)
    requires lsb + n <= lsb' || lsb' + n' <= lsb
    ensures Read(Write(word, lsb, n, v), lsb', n') == Read(word, lsb', n')
  {
    var w := Write(word, lsb, n, v);
    forall i | 0 <= i < n'
      ensures Bit(Read(w, lsb', n'), i) == Bit(Read(word, lsb', n'), i)
    {
      LowBit(ShiftRight(w, lsb'), n', i);
      LowBit(ShiftRight(word, lsb'), n', i);
      ShiftRightBit(w, lsb', i);
      ShiftRightBit(word, lsb', i);
      WriteBit(word, lsb, n, v, i + lsb');
    }
    Split(ShiftRight(w, lsb'), n');
    Split(ShiftRight(word, lsb'), n');
    SameBits(n', Read(w, lsb', n'), Read(word, lsb', n'));
  }

  datatype Field = Field(lsb: nat, n: nat, v: nat)

  predicate Covers(f: Field, i: nat) {
    f.lsb <= i < f.lsb + f.n
  }

  predicate Disjoint(f: Field, g: Field) {
    f.lsb + f.n <= g.lsb || g.lsb + g.n <= f.lsb
  }

  ghost predicate PairwiseDisjoint(fs: seq<Field>) {
    forall i, j :: 0 <= i < j < |fs| ==> Disjoint(fs[i], fs[j])
  }

  function WriteAll(word: nat, fs: seq<Field>): nat {
    if fs == [] then word
    else
      var f := fs[|fs| - 1];
      Write(WriteAll(word, fs[..|fs| - 1]), f.lsb, f.n, f.v)
  }

  lemma {:induction false} WriteAllSmall(width: nat, word: nat, fs: seq<Field>)
    requires word < Pow2(width) && forall f :: f in fs ==> f.lsb + f.n <= width
    ensures WriteAll(word, fs) < Pow2(width)
  {
    if fs != [] {
      var f := fs[|fs| - 1];
      assert f in fs;
      assert forall g :: g in fs[..|fs| - 1] ==> g in fs;
      WriteAllSmall(width, word, fs[..|fs| - 1]);
      WriteSmall(width, WriteAll(word, fs[..|fs| - 1]), f.lsb, f.n, f.v);
    }
  }

  /** Of pairwise disjoint writes, a bit sees the one that covers it. */
  lemma {:induction false} CoveredBit(word: nat, fs: seq<Field>, i: nat, k: nat)
    requires PairwiseDisjoint(fs) && k < |fs| && Covers(fs[k], i)
    ensures Bit(WriteAll(word, fs), i) == Bit(fs[k].v, i - fs[k].lsb)
  {
    var before, last := fs[..|fs| - 1], fs[|fs| - 1];
    WriteBit(WriteAll(word, before), last.lsb, last.n, last.v, i);
    if k < |fs| - 1 {
      assert Disjoint(fs[k], fs[|fs| - 1]);
      CoveredBit(word, before, i, k);
    }
  }

  /** A bit that no write covers stays as it was. */
  lemma {:induction false} UncoveredBit(word: nat, fs: seq<Field>, i: nat)
    requires forall k :: 0 <= k < |fs| ==> !Covers(fs[k], i)
    ensures Bit(WriteAll(word, fs), i) == Bit(word, i)
  {
    if fs != [] {
      var before, last := fs[..|fs| - 1], fs[|fs| - 1];
      WriteBit(WriteAll(word, before), last.lsb, last.n, last.v, i);
      UncoveredBit(word, before, i);
    }
  }

  /** Writes to pairwise disjoint fields can be made in any order. */
  lemma {:induction false} WritesCommute(width: nat, word: nat, fs: seq<Field>, gs: seq<Field>)
    requires word < Pow2(width) && PairwiseDisjoint(fs) && PairwiseDisjoint(gs)
    requires forall f :: f in fs <==> f in gs
    requires forall f :: f in fs ==> f.lsb + f.n <= width
    ensures WriteAll(word, fs) == WriteAll(word, gs)
  {
    WriteAllSmall(width, word, fs);
    WriteAllSmall(width, word, gs);
    forall i | 0 <= i < width
      ensures Bit(WriteAll(word, fs), i) == Bit(WriteAll(word, gs), i)
    {
      if k :| 0 <= k < |fs| && Covers(fs[k], i) {
        assert fs[k] in gs;
        var j :| 0 <= j < |gs| && gs[j] == fs[k];
        CoveredBit(word, fs, i, k);
        CoveredBit(word, gs, i, j);
      } else {
        assert forall j :: 0 <= j < |gs| ==> gs[j] in fs;
        UncoveredBit(word, fs, i);
        UncoveredBit(word, gs, i);
      }
    }
    SameBits(width, WriteAll(word, fs), WriteAll(word, gs));
  }

  // ---------------------------------------------------------------- flag lists

  /** The number whose bits are the flags, the first flag lowest. */
  function Pack(flags: seq<bool>): nat {
    if flags == [] then 0 else (if flags[0] then 1 else 0) + 2 * Pack(flags[1..])
  }

  lemma PackBit(flags: seq<bool>, i: nat)
    ensures Bit(Pack(flags), i) == (i < |flags| && flags[i])
  {
    if flags == [] {
      NoHighBits(0, 0, i);
    } else if i > 0 {
      PackBit(flags[1..], i - 1);
    }
  }

  method SetFlags(width: nat, start: nat, bitfield: nat, flags: seq<bool>) returns (r: nat)
    requires bitfield < Pow2(width) && start < width && |flags| <= width - start
    ensures r == Write(bitfield, start, |flags|, Pack(flags)) < Pow2(width)
  {
    r := bitfield;
    var k := 0;
    while k < |flags|
      invariant k <= |flags| && r < Pow2(width)
      invariant forall i :: 0 <= i < width ==>
                  Bit(r, i) == if start <= i < start + k then flags[i - start] else Bit(bitfield, i)
    {
      r := SetBit(width, r, start + k, flags[k]);
      k := k + 1;
    }
    WriteSmall(width, bitfield, start, |flags|, Pack(flags));
    forall i | 0 <= i < width
      ensures Bit(r, i) == Bit(Write(bitfield, start, |flags|, Pack(flags)), i)
    {
      WriteBit(bitfield, start, |flags|, Pack(flags), i);
      if i >= start { PackBit(flags, i - start); }
    }
    SameBits(width, r, Write(bitfield, start, |flags|, Pack(flags)));
  }

  /** Reads n flags from start on, as long as the source's bit index stays in range. */
  method GetFlags(width: nat, start: nat, bitfield: nat, n: nat) returns (flags: seq<bool>)
    requires bitfield < Pow2(width) && start < width && n <= width
    requires n > 0 ==> start + n - 1 <= width && Defined(width, start + n - 1)
    ensures |flags| == n && forall i :: 0 <= i < n ==> flags[i] == Bit(bitfield, start + i)
  {
    flags := [];
    while |flags| < n
      invariant |flags| <= n && forall i :: 0 <= i < |flags| ==> flags[i] == Bit(bitfield, start + i)
    {
      var flag := CheckBit(width, bitfield, start + |flags|);
      flags := flags + [flag];
    }
  }

  /** Reading flags is reading the field that holds them: the flags written come back. */
  lemma FlagsRoundTrip(word: nat, start: nat, flags: seq<bool>, got: seq<bool>)
    requires |got| == |flags|
    requires forall i :: 0 <= i < |got| ==> got[i] == Bit(Write(word, start, |flags|, Pack(flags)), start + i)
    ensures got == flags
    ensures Read(Write(word, start, |flags|, Pack(flags)), start, |flags|) == Pack(flags)
  {
    forall i | 0 <= i < |flags|
      ensures got[i] == flags[i]
    {
      WriteBit(word, start, |flags|, Pack(flags), start + i);
      PackBit(flags, i);
    }
    ReadAfterWrite(word, start, |flags|, Pack(flags));
    PackSmall(flags);
    LowIsMod(Pack(flags), |flags|);
  }

  lemma PackSmall(flags: seq<bool>)
    ensures Pack(flags) < Pow2(|flags|) && Low(Pack(flags), |flags|) == Pack(flags)
  {
    if flags != [] {
      PackSmall(flags[1..]);
    }
    LowSmall(Pack(flags), |flags|);
  }
}
