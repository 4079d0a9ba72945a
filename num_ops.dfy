/**
 * Alignment and bit-field helpers on unsigned machine words
 * (util/src/num_ops.rs).
 *
 * Each function keeps the source's expression, written with the operators of
 * module Bits. Where the source would panic (a remainder by zero, a
 * subtraction that underflows, a shift by the full word width), the model has
 * a precondition; every other outcome, including `None`, is modelled.
 */
module NumOps {
  import opened Wrappers
  import opened Bits

  const U32_LIMIT: nat := 0x1_0000_0000
  const U64_LIMIT: nat := 0x1_0000_0000_0000_0000
  const U64_MAX: nat := U64_LIMIT - 1

  type u32 = x: int | 0 <= x < 0x1_0000_0000
  type u64 = x: int | 0 <= x < 0x1_0000_0000_0000_0000

  lemma Pow2Of32And64()
    ensures Pow2(8) == 0x100 && Pow2(16) == 0x1_0000
    ensures Pow2(32) == U32_LIMIT && Pow2(64) == U64_LIMIT
  {
    assert Pow2(2) == 4;
    Pow2Add(2, 2);
    Pow2Add(4, 4);
    assert Pow2(8) == 0x100;
    Pow2Add(8, 8);
    assert Pow2(16) == 0x1_0000;
    Pow2Add(16, 16);
    assert Pow2(32) == 0x1_0000_0000;
    Pow2Add(32, 32);
  }

  /** `a.checked_add(b)` on `u64`. */
  function CheckedAdd(a: u64, b: u64): (r: Option<u64>)
    ensures r.Some? <==> a + b <= U64_MAX
    ensures r.Some? ==> r.value == a + b
  {
    if a + b <= U64_MAX then Some(a + b) else None
  }

  /** `a.checked_sub(b)` on `u64`. */
  function CheckedSub(a: u64, b: u64): (r: Option<u64>)
    ensures r.Some? <==> b <= a
    ensures r.Some? ==> r.value + b == a
  {
    if b <= a then Some(a - b) else None
  }

  // ---------------------------------------------------------------------
  // Alignment

  /**
   * `round_up`: the least multiple of `align` that is at least `origin`, or
   * `None` when that multiple does not fit in a `u64`.
   */
  function RoundUp(origin: u64, align: u64): (r: Option<u64>)
    requires align > 0  // `origin % 0` panics
    ensures r == Some(origin) <==> origin % align == 0
    ensures r.Some? ==> r.value % align == 0 && origin <= r.value < origin + align
    ensures r.None? <==> origin % align != 0 && (origin / align + 1) * align > U64_MAX
  {
    var diff := origin % align;
    if diff == 0 then Some(origin)
    else
      assert origin + (align - diff) == (origin / align + 1) * align;
      DivModUnique(origin + (align - diff), align, origin / align + 1, 0);
      CheckedAdd(origin, align - diff)
  }

  /** `round_down`: the greatest multiple of `align` that is at most `origin`; never `None`. */
  function RoundDown(origin: u64, align: u64): (r: Option<u64>)
    requires align > 0  // `origin % 0` panics
    ensures r.Some?
    ensures r == Some(origin) <==> origin % align == 0
    ensures r.value % align == 0 && r.value <= origin < r.value + align
  {
    var diff := origin % align;
    if diff == 0 then Some(origin)
    else
      RemainderBelow(origin, align);
      CheckedSub(origin, diff)
  }

  /** Taking the remainder away from `x` leaves a multiple of `m`, and does not underflow. */
  lemma RemainderBelow(x: nat, m: nat)
    requires m > 0
    ensures x % m <= x && (x - x % m) % m == 0
  {
    var q := x / m;
    assert x == q * m + x % m;
    if q > 0 {
      MulGe(q, m);
    }
    DivModUnique(x - x % m, m, q, 0);
  }

  /** No multiple of `align` lies strictly between `origin` and `RoundUp(origin, align)`. */
  lemma RoundUpIsLeast(origin: u64, align: u64, m: nat)
    requires align > 0 && m % align == 0 && origin <= m
    requires RoundUp(origin, align).Some?
    ensures RoundUp(origin, align).value <= m
  {
    var r := RoundUp(origin, align).value;
    if m < r {
      DivModUnique(r, align, r / align, 0);
      DivModUnique(m, align, m / align, 0);
      assert m / align < r / align;
      MulGe(r / align - m / align, align);
      assert false;
    }
  }

  /** No multiple of `align` lies strictly between `RoundDown(origin, align)` and `origin`. */
  lemma RoundDownIsGreatest(origin: u64, align: u64, m: nat)
    requires align > 0 && m % align == 0 && m <= origin
    ensures m <= RoundDown(origin, align).value
  {
    var r := RoundDown(origin, align).value;
    if m > r {
      DivModUnique(r, align, r / align, 0);
      DivModUnique(m, align, m / align, 0);
      assert m / align > r / align;
      MulGe(m / align - r / align, align);
      assert false;
    }
  }

  /** The worked examples of the source: rounding 1003 and 10001 to multiples of 4 and 100. */
  lemma RoundingExamples()
    ensures RoundUp(1003, 4) == Some(1004) && RoundDown(1003, 4) == Some(1000)
    ensures RoundUp(10001, 100) == Some(10100) && RoundDown(10001, 100) == Some(10000)
  {}

  // ---------------------------------------------------------------------
  // Halves of a 64-bit word

  /** `read_u32`: page 0 is the low half (`value as u32`), page 1 the high half, other pages 0. */
  function ReadU32(value: u64, page: u32): (r: u32)
    ensures page > 1 ==> r == 0
  {
    Pow2Of32And64();
    match page
    case 0 => Low(value, 32)
    case 1 => Shr(value, 32)
    case _ => 0
  }

  /** `write_u32`: page 0 zero-extends, page 1 places `value` in the high half, other pages give 0. */
  function WriteU32(value: u32, page: u32): (r: u64)
    ensures page > 1 ==> r == 0
  {
    Pow2Of32And64();
    match page
    case 0 => value
    case 1 => Shl(value, 32, 64)
    case _ => 0
  }

  /** Page 1 of `write_u32` is `value * 2^32`: nothing is lost by the shift. */
  lemma WriteHighHalf(value: u32)
    ensures WriteU32(value, 1) == Join(value, 0, 32) == value * U32_LIMIT
  {
    Pow2Of32And64();
    JoinBelow(value, 0, 32, 32, 64);
    LowSmall(Join(value, 0, 32), 64);
  }

  /** A 64-bit word is its high half times 2^32 plus its low half. */
  lemma U32Halves(value: u64)
    ensures value == ReadU32(value, 1) * U32_LIMIT + ReadU32(value, 0)
  {
    Pow2Of32And64();
    JoinParts(value, 32);
  }

  /** Writing a half and reading the same half back gives the written value. */
  lemma ReadWriteU32(value: u32, page: u32)
    requires page <= 1
    ensures ReadU32(WriteU32(value, page), page) == value
  {
    Pow2Of32And64();
    if page == 1 {
      WriteHighHalf(value);
      SplitAt(value, 0, 32);
    } else {
      LowSmall(value, 32);
    }
  }

  /** Writing a half leaves the other half zero. */
  lemma WriteU32OtherHalf(value: u32, page: u32)
    requires page <= 1
    ensures ReadU32(WriteU32(value, page), 1 - page) == 0
  {
    Pow2Of32And64();
    if page == 1 {
      WriteHighHalf(value);
      SplitAt(value, 0, 32);
    } else {
      SplitAt(0, value, 32);
      JoinZero(value, 32);
    }
  }

  /** The two halves, written back and or-ed together, rebuild the original word. */
  lemma U32HalvesJoin(value: u64)
    ensures Or(WriteU32(ReadU32(value, 1), 1), WriteU32(ReadU32(value, 0), 0)) == value
  {
    Pow2Of32And64();
    var hi, lo := ReadU32(value, 1), ReadU32(value, 0);
    JoinParts(value, 32);
    WriteHighHalf(hi);
    JoinZero(lo, 32);
    OrSplit(hi, 0, 0, lo, 32);
    OrZero(hi);
    OrZero(lo);
  }

  /** The worked examples of the source for `read_u32` and `write_u32`. */
  lemma HalvesExamples()
    ensures ReadU32(0x2000_1000_0000, 1) == 0x2000
    ensures ReadU32(0x1234_5678_9012_3456, 0) == 0x9012_3456
    ensures ReadU32(0x1234_5678_9012_3456, 1) == 0x1234_5678
    ensures ReadU32(0x1234_5678_9012_3456, 2) == 0
    ensures WriteU32(0x1000_0000, 1) == 0x1000_0000_0000_0000
    ensures WriteU32(0x1234_5678, 0) == 0x1234_5678
    ensures WriteU32(0x1234_5678, 1) == 0x1234_5678_0000_0000
    ensures WriteU32(0x1234_5678, 2) == 0
  {
    Pow2Of32And64();
    assert 0x2000_1000_0000 == Join(0x2000, 0x1000_0000, 32);
    SplitAt(0x2000, 0x1000_0000, 32);
    assert 0x1234_5678_9012_3456 == Join(0x1234_5678, 0x9012_3456, 32);
    SplitAt(0x1234_5678, 0x9012_3456, 32);
    WriteHighHalf(0x1000_0000);
    WriteHighHalf(0x1234_5678);
  }

  // ---------------------------------------------------------------------
  // Bit fields

  /**
   * The word whose bits from `start + length` up are `high`, whose `length`
   * bits from `start` are `field` and whose `start` low bits are `low`.
   */
  function Compose(high: nat, field: nat, low: nat, start: nat, length: nat): (r: nat)
  {
    Join(Join(high, field, length), low, start)
  }

  /** Every word is the composition of its high part, its field and its low part. */
  lemma Decompose(x: nat, start: nat, length: nat)
    ensures x == Compose(Shr(x, start + length), Low(Shr(x, start), length), Low(x, start), start, length)
  {
    JoinParts(x, start);
    JoinParts(Shr(x, start), length);
    ShrShr(x, start, length);
  }

  /** The parts of a composition are recovered by shifting and masking: a word has one decomposition. */
  lemma ComposeParts(high: nat, field: nat, low: nat, start: nat, length: nat)
    requires field < Pow2(length) && low < Pow2(start)
    ensures var x := Compose(high, field, low, start, length);
      && Shr(x, start + length) == high
      && Low(Shr(x, start), length) == field
      && Low(x, start) == low
  {
    var x := Compose(high, field, low, start, length);
    SplitAt(Join(high, field, length), low, start);
    SplitAt(high, field, length);
    ShrShr(x, start, length);
  }

  /** Parts that fit their widths compose to a word of `w` bits. */
  lemma ComposeBelow(high: nat, field: nat, low: nat, start: nat, length: nat, w: nat)
    requires start + length <= w
    requires high < Pow2(w - (start + length)) && field < Pow2(length) && low < Pow2(start)
    ensures Compose(high, field, low, start, length) < Pow2(w)
  {
    JoinBelow(high, field, length, w - (start + length), w - start);
    JoinBelow(Join(high, field, length), low, start, w - start, w);
  }

  /** `&` acts on the three parts of two compositions separately. */
  lemma AndCompose(h1: nat, f1: nat, lo1: nat, h2: nat, f2: nat, lo2: nat, start: nat, length: nat)
    requires f1 < Pow2(length) && f2 < Pow2(length) && lo1 < Pow2(start) && lo2 < Pow2(start)
    ensures And(Compose(h1, f1, lo1, start, length), Compose(h2, f2, lo2, start, length))
         == Compose(And(h1, h2), And(f1, f2), And(lo1, lo2), start, length)
  {
    AndSplit(Join(h1, f1, length), lo1, Join(h2, f2, length), lo2, start);
    AndSplit(h1, f1, h2, f2, length);
  }

  /** `|` acts on the three parts of two compositions separately. */
  lemma OrCompose(h1: nat, f1: nat, lo1: nat, h2: nat, f2: nat, lo2: nat, start: nat, length: nat)
    requires f1 < Pow2(length) && f2 < Pow2(length) && lo1 < Pow2(start) && lo2 < Pow2(start)
    ensures Or(Compose(h1, f1, lo1, start, length), Compose(h2, f2, lo2, start, length))
         == Compose(Or(h1, h2), Or(f1, f2), Or(lo1, lo2), start, length)
  {
    OrSplit(Join(h1, f1, length), lo1, Join(h2, f2, length), lo2, start);
    OrSplit(h1, f1, h2, f2, length);
  }

  /** `(value >> start) & (!0 >> (w - length))` on a `w`-bit word keeps `length` bits from `start`. */
  lemma ExtractIsField(value: nat, start: nat, length: nat, w: nat)
    requires length <= w
    ensures And(Shr(value, start), Shr(Not(0, w), w - length)) == Low(Shr(value, start), length)
  {
    OnesShr(w, length);
    AndLowOnes(Shr(value, start), length);
  }

  /**
   * `extract_u32`: the `length`-bit field of `value` starting at bit `start`,
   * or `None` when the field does not lie within the word.
   */
  function Extract32(value: u32, start: u32, length: u32): (r: Option<u32>)
    requires start <= 32  // `32 - start` underflows otherwise
    requires length > 0   // a shift by 32 otherwise
    ensures r.None? <==> length > 32 - start
    ensures r.Some? ==>
              && r.value < Pow2(length)
              && value == Compose(Shr(value, start + length), r.value, Low(value, start), start, length)
  {
    if length > 32 - start then None
    else
      ExtractIsField(value, start, length, 32);
      Decompose(value, start, length);
      Pow2Le(length, 32);
      Pow2Of32And64();
      Some(And(Shr(value, start), Shr(Not(0, 32), 32 - length)))
  }

  /**
   * `extract_u64`: the `length`-bit field of `value` starting at bit `start`,
   * or `None` when the field does not lie within the word.
   */
  function Extract64(value: u64, start: u32, length: u32): (r: Option<u64>)
    requires start <= 64  // `64 - start` underflows otherwise
    requires length > 0   // a shift by 64 otherwise
    ensures r.None? <==> length > 64 - start
    ensures r.Some? ==>
              && r.value < Pow2(length)
              && value == Compose(Shr(value, start + length), r.value, Low(value, start), start, length)
  {
    if length > 64 - start then None
    else
      ExtractIsField(value, start, length, 64);
      Decompose(value, start, length);
      Pow2Le(length, 64);
      Pow2Of32And64();
      Some(And(Shr(value, start), Shr(Not(0, 64), 64 - length)))
  }

  /** The extracted field is the one the word decomposes into: bits `start ..< start + length`. */
  lemma ExtractIsLowOfShift(value: u32, start: u32, length: u32)
    requires start <= 32 && 0 < length <= 32 - start
    ensures Extract32(value, start, length) == Some(Low(Shr(value, start), length))
  {
    var e := Extract32(value, start, length).value;
    ComposeParts(Shr(value, start + length), e, Low(value, start), start, length);
  }

  /** The worked examples of the source for `extract_u32` and `extract_u64`. */
  lemma ExtractExamples()
    ensures Extract32(0xfffa, 0, 8) == Some(0xfa)
    ensures Extract64(0xfbfb_a0a0_ffff_5a5a, 16, 16) == Some(0xffff)
  {
    Pow2Of32And64();
    var e := Extract32(0xfffa, 0, 8).value;
    assert 0xfffa == Compose(0xff, 0xfa, 0, 0, 8);
    ComposeParts(0xff, 0xfa, 0, 0, 8);
    ComposeParts(Shr(0xfffa, 8), e, Low(0xfffa, 0), 0, 8);
    var g := Extract64(0xfbfb_a0a0_ffff_5a5a, 16, 16).value;
    assert 0xfbfb_a0a0_ffff_5a5a == Compose(0xfbfb_a0a0, 0xffff, 0x5a5a, 16, 16);
    ComposeParts(0xfbfb_a0a0, 0xffff, 0x5a5a, 16, 16);
    ComposeParts(Shr(0xfbfb_a0a0_ffff_5a5a, 32), g, Low(0xfbfb_a0a0_ffff_5a5a, 16), 16, 16);
  }

  /** The source's mask `(!0 >> (w - length)) << start`. */
  function FieldMask(start: nat, length: nat, w: nat): (r: nat)
    requires length <= w
    ensures r < Pow2(w)
  {
    Shl(Shr(Not(0, w), w - length), start, w)
  }

  /** The mask has `length` ones from bit `start` and zeros elsewhere. */
  lemma FieldMaskParts(start: nat, length: nat, w: nat)
    requires start + length <= w
    ensures FieldMask(start, length, w) == Compose(0, Pow2(length) - 1, 0, start, length)
  {
    var ones := Pow2(length) - 1;
    OnesShr(w, length);
    JoinZero(ones, length);
    JoinBelow(ones, 0, start, length, length + start);
    Pow2Le(length + start, w);
    LowSmall(Join(ones, 0, start), w);
  }

  /** The complement of the mask has ones outside the field and zeros within it. */
  lemma NotFieldMaskParts(start: nat, length: nat, w: nat)
    requires start + length <= w
    ensures Not(FieldMask(start, length, w), w)
         == Compose(Pow2(w - (start + length)) - 1, 0, Pow2(start) - 1, start, length)
  {
    var T, B, C := Pow2(w - (start + length)), Pow2(length), Pow2(start);
    FieldMaskParts(start, length, w);
    Pow2Sum(w, w - (start + length), start + length);
    Pow2Sum(start + length, length, start);
    NotMaskArith(T, B, C, Pow2(start + length), Pow2(w));
  }

  lemma NotMaskArith(T: int, B: int, C: int, P: int, W: int)
    requires P == B * C && W == T * P
    ensures ((T - 1) * B + 0) * C + (C - 1) == W - 1 - ((0 * B + (B - 1)) * C + 0)
  {}

  /** `fieldval << start` on a `w`-bit word, split around a field of `length` bits at `start`. */
  lemma ShiftedFieldParts(fieldval: nat, start: nat, length: nat, w: nat)
    requires start + length <= w
    ensures Shl(fieldval, start, w)
         == Compose(Low(Shr(fieldval, length), w - (start + length)), Low(fieldval, length), 0, start, length)
  {
    var shifted := Join(fieldval, 0, start);
    LowSplit(shifted, w, start, w - start);
    SplitAt(fieldval, 0, start);
    LowSplit(fieldval, w - start, length, w - (start + length));
  }

  /** `value & !mask` keeps the high and low parts of `value` and clears the field. */
  lemma KeptParts(value: nat, start: nat, length: nat, w: nat)
    requires start + length <= w && value < Pow2(w)
    ensures And(value, Not(FieldMask(start, length, w), w))
         == Compose(Shr(value, start + length), 0, Low(value, start), start, length)
  {
    var t := w - (start + length);
    var h, f, lo := Shr(value, start + length), Low(Shr(value, start), length), Low(value, start);
    Decompose(value, start, length);
    NotFieldMaskParts(start, length, w);
    AndCompose(h, f, lo, Pow2(t) - 1, 0, Pow2(start) - 1, start, length);
    HighBelow(value, start + length, w);
    KeptPartValues(h, f, lo, t, start);
  }

  /** Part by part: ones keep a part that fits them, and zero clears the field. */
  lemma KeptPartValues(h: nat, f: nat, lo: nat, t: nat, start: nat)
    requires h < Pow2(t) && lo < Pow2(start)
    ensures And(h, Pow2(t) - 1) == h && And(f, 0) == 0 && And(lo, Pow2(start) - 1) == lo
  {
    AndLowOnes(h, t);
    LowSmall(h, t);
    AndZero(f);
    AndLowOnes(lo, start);
    LowSmall(lo, start);
  }

  /** `(fieldval << start) & mask` is the low `length` bits of `fieldval`, moved to the field. */
  lemma PlacedParts(fieldval: nat, start: nat, length: nat, w: nat)
    requires start + length <= w
    ensures And(Shl(fieldval, start, w), FieldMask(start, length, w))
         == Compose(0, Low(fieldval, length), 0, start, length)
  {
    var g, fv := Low(Shr(fieldval, length), w - (start + length)), Low(fieldval, length);
    ShiftedFieldParts(fieldval, start, length, w);
    FieldMaskParts(start, length, w);
    AndCompose(g, fv, 0, 0, Pow2(length) - 1, 0, start, length);
    AndZero(g);
    AndLowOnes(fv, length);
    LowSmall(fv, length);
    AndZero(0);
  }

  /**
   * The source's deposit expression on a `w`-bit word replaces the field and
   * keeps the high and low parts.
   */
  lemma DepositIsReplace(value: nat, start: nat, length: nat, fieldval: nat, w: nat)
    requires start + length <= w && value < Pow2(w)
    ensures var mask := FieldMask(start, length, w);
      Or(And(value, Not(mask, w)), And(Shl(fieldval, start, w), mask))
        == Compose(Shr(value, start + length), Low(fieldval, length), Low(value, start), start, length)
  {
    var h, fv, lo := Shr(value, start + length), Low(fieldval, length), Low(value, start);
    KeptParts(value, start, length, w);
    PlacedParts(fieldval, start, length, w);
    OrCompose(h, 0, lo, 0, fv, 0, start, length);
    OrZero(h);
    OrZero(fv);
    OrZero(lo);
  }

  /**
   * `deposit_u32`: `value` with its `length`-bit field at `start` replaced by
   * the low `length` bits of `fieldval`, or `None` when the field does not lie
   * within the word.
   */
  function Deposit32(value: u32, start: u32, length: u32, fieldval: u32): (r: Option<u32>)
    requires start <= 32  // `32 - start` underflows otherwise
    requires length > 0   // a shift by 32 otherwise
    ensures r.None? <==> length > 32 - start
    ensures r.Some? ==>
              r.value == Compose(Shr(value, start + length), Low(fieldval, length), Low(value, start), start, length)
  {
    if length > 32 - start then None
    else
      Pow2Of32And64();
      DepositIsReplace(value, start, length, fieldval, 32);
      HighBelow(value, start + length, 32);
      ComposeBelow(Shr(value, start + length), Low(fieldval, length), Low(value, start), start, length, 32);
      var mask := FieldMask(start, length, 32);
      Some(Or(And(value, Not(mask, 32)), And(Shl(fieldval, start, 32), mask)))
  }

  /** Depositing leaves every bit outside the field as it was. */
  lemma DepositKeepsOutside(value: u32, start: u32, length: u32, fieldval: u32)
    requires start <= 32 && 0 < length <= 32 - start
    ensures var d := Deposit32(value, start, length, fieldval).value;
      Shr(d, start + length) == Shr(value, start + length) && Low(d, start) == Low(value, start)
  {
    ComposeParts(Shr(value, start + length), Low(fieldval, length), Low(value, start), start, length);
  }

  /** Extracting a field just deposited gives the low `length` bits of what was deposited. */
  lemma ExtractAfterDeposit(value: u32, start: u32, length: u32, fieldval: u32)
    requires start <= 32 && 0 < length <= 32 - start
    ensures Extract32(Deposit32(value, start, length, fieldval).value, start, length) == Some(Low(fieldval, length))
  {
    var d := Deposit32(value, start, length, fieldval).value;
    ComposeParts(Shr(value, start + length), Low(fieldval, length), Low(value, start), start, length);
    ExtractIsLowOfShift(d, start, length);
  }

  /** Depositing a word's own field back leaves the word unchanged. */
  lemma DepositOwnField(value: u32, start: u32, length: u32)
    requires start <= 32 && 0 < length <= 32 - start
    ensures Deposit32(value, start, length, Extract32(value, start, length).value) == Some(value)
  {
    var e := Extract32(value, start, length).value;
    LowSmall(e, length);
  }

  /** The worked example of the source for `deposit_u32`. */
  lemma DepositExample()
    ensures Deposit32(0xffff, 0, 8, 0xbaba) == Some(0xffba)
  {
    Pow2Of32And64();
    SplitAt(0xff, 0xff, 8);
    SplitAt(0xba, 0xba, 8);
  }
}
