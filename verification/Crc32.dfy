/** The CRC-32 of PNG chunks (section 3.4 of RFC 2083), computed bit by bit. */
module Crc32 {
  import opened Bytes
  import opened LinearRegister

  const POLYNOMIAL: bv32 := 0xedb88320
  const ONES: bv32 := 0xffffffff

  function Feedback(c: bv32): bv32 { if c & 1 == 1 then POLYNOMIAL else 0 }

  function ShiftBit(c: bv32): bv32 { c >> 1 }

  function BitStep(c: bv32): bv32 { ShiftBit(c) ^ Feedback(c) }

  function Xor(a: bv32, b: bv32): bv32 { a ^ b }

  const CRC: Algebra<bv32> := Algebra(Xor, 0, BitStep)

  function Nibble(n: nat): bv8
    requires n < 0x10
  {
    n as bv8
  }

  /** The byte as a word. Its halves are converted one by one, which keeps the solver's conversions
      between numbers and bits small. */
  function Symbol(b: Byte): bv32 { ((Nibble(b / 0x10) << 4) | Nibble(b % 0x10)) as bv32 }

  function Symbols(data: seq<Byte>): seq<bv32> {
    seq(|data|, k requires 0 <= k < |data| => Symbol(data[k]))
  }

  function Checksum(data: seq<Byte>): bv32 { CRC.Register(ONES, Symbols(data)) ^ ONES }

  lemma OneBit(fed: bv32, bit: nat)
    ensures var crc := CRC.Steps(fed, bit);
            CRC.Steps(fed, bit + 1) == (crc >> 1) ^ (if crc & 1 == 1 then POLYNOMIAL else 0)
  {
    assert CRC.Steps(fed, bit + 1) == CRC.step(CRC.Steps(fed, bit));
  }

  method ComputeCrc32(data: seq<Byte>) returns (checksum: bv32)
    ensures checksum == Checksum(data)
  {
    ghost var symbols := Symbols(data);
    var crc := ONES;
    for i := 0 to |data|
      invariant crc == CRC.Register(ONES, symbols[..i])
    {
      CRC.RegisterStep(ONES, symbols, i);
      ghost var fed := CRC.plus(crc, symbols[i]);
      assert symbols[i] == Symbol(data[i]);
      crc := crc ^ Symbol(data[i]);
      for bit := 0 to 8
        invariant crc == CRC.Steps(fed, bit)
      {
        OneBit(fed, bit);
        crc := (crc >> 1) ^ (if crc & 1 == 1 then POLYNOMIAL else 0);
      }
    }
    assert symbols[..|data|] == symbols;
    checksum := crc ^ ONES;
  }

  // ------------------------------------------------------------------------------------------
  // One bit: linear, with trivial kernel
  // ------------------------------------------------------------------------------------------

  lemma ShiftIsLinear(a: bv32, b: bv32)
    ensures (a ^ b) >> 1 == (a >> 1) ^ (b >> 1)
  {}

  lemma LowBitIsLinear(a: bv32, b: bv32)
    ensures (a ^ b) & 1 == 1 <==> (a & 1 == 1) != (b & 1 == 1)
  {}

  lemma XorCancels(a: bv32, b: bv32)
    ensures a ^ b == 0 <==> a == b
    ensures (a ^ b) ^ b == a
    ensures a ^ 0 == a
  {}

  lemma FeedbackIsLinear(a: bv32, b: bv32)
    ensures Feedback(a ^ b) == Feedback(a) ^ Feedback(b)
  {
    LowBitIsLinear(a, b);
    XorCancels(POLYNOMIAL, POLYNOMIAL);
  }

  /** The polynomial has its top bit set and a shift clears it, so only zero steps to zero. */
  lemma BitStepKernel(a: bv32)
    ensures BitStep(a) == 0 <==> a == 0
  {}

  lemma XorIsSelfInverse()
    ensures CRC.SelfInverse()
  {
    forall a: bv32, b: bv32
      ensures (Xor(a, b) == 0 <==> a == b) && Xor(Xor(a, b), b) == a
    {
      XorCancels(a, b);
    }
    forall a: bv32
      ensures Xor(a, 0) == a
    {
      XorCancels(a, 0);
    }
  }

  lemma XorAssociates(a: bv32, b: bv32, c: bv32)
    ensures (a ^ b) ^ c == a ^ (b ^ c)
  {}

  lemma XorCommutes(a: bv32, b: bv32)
    ensures a ^ b == b ^ a
  {}

  lemma XorIsAbelian()
    ensures CRC.Abelian()
  {
    forall a: bv32, b: bv32, c: bv32
      ensures Xor(Xor(a, b), c) == Xor(a, Xor(b, c))
    {
      XorAssociates(a, b, c);
    }
    forall a: bv32, b: bv32
      ensures Xor(a, b) == Xor(b, a)
    {
      XorCommutes(a, b);
    }
  }

  lemma ShiftBitIsLinear()
    ensures CRC.IsLinear(ShiftBit)
  {
    forall a: bv32, b: bv32
      ensures ShiftBit(Xor(a, b)) == Xor(ShiftBit(a), ShiftBit(b))
    {
      ShiftIsLinear(a, b);
    }
  }

  lemma FeedbackBitIsLinear()
    ensures CRC.IsLinear(Feedback)
  {
    forall a: bv32, b: bv32
      ensures Feedback(Xor(a, b)) == Xor(Feedback(a), Feedback(b))
    {
      FeedbackIsLinear(a, b);
    }
  }

  lemma BitStepIsLawful()
    ensures CRC.StepIsLinear()
  {
    ShiftBitIsLinear();
    FeedbackBitIsLinear();
    XorIsAbelian();
    CRC.SumIsLinear(ShiftBit, Feedback);
    forall a: bv32
      ensures BitStep(a) == 0 <==> a == 0
    {
      BitStepKernel(a);
    }
  }

  // ------------------------------------------------------------------------------------------
  // Eight bits: undone by a shift while the difference is narrow
  // ------------------------------------------------------------------------------------------

  lemma EightSteps(c: bv32)
    ensures CRC.Steps(c, 8) == BitStep(BitStep(BitStep(BitStep(BitStep(BitStep(BitStep(BitStep(c))))))))
  {
    assert CRC.Steps(c, 1) == BitStep(c);
    assert CRC.Steps(c, 2) == BitStep(BitStep(c));
    assert CRC.Steps(c, 3) == BitStep(BitStep(BitStep(c)));
    assert CRC.Steps(c, 4) == BitStep(BitStep(BitStep(BitStep(c))));
    assert CRC.Steps(c, 5) == BitStep(BitStep(BitStep(BitStep(BitStep(c)))));
    assert CRC.Steps(c, 6) == BitStep(BitStep(BitStep(BitStep(BitStep(BitStep(c))))));
    assert CRC.Steps(c, 7) == BitStep(BitStep(BitStep(BitStep(BitStep(BitStep(BitStep(c)))))));
  }

  lemma EightShifts(c: bv32)
    requires c & 0xff == 0
    ensures BitStep(BitStep(BitStep(BitStep(BitStep(BitStep(BitStep(BitStep(c)))))))) == c >> 8
  {}

  /** A register whose low byte is clear is only shifted by the next eight steps. */
  lemma LowByteClearShifts(c: bv32)
    requires c & 0xff == 0
    ensures CRC.Steps(c, 8) == c >> 8
  {
    EightSteps(c);
    EightShifts(c);
  }

  // ------------------------------------------------------------------------------------------
  // The table-driven form of the appendix of RFC 2083
  // ------------------------------------------------------------------------------------------

  predicate FitsByte(d: bv32) { d < 0x100 }

  function LowByte(c: bv32): bv32 { c & 0xff }

  function AboveLowByte(c: bv32): bv32 { c & 0xffffff00 }

  function ShiftByte(c: bv32): bv32 { c >> 8 }

  lemma LowByteSplits(c: bv32, s: bv32)
    requires FitsByte(s)
    ensures c ^ s == LowByte(c ^ s) ^ AboveLowByte(c)
  {}

  lemma AboveLowByteShifts(c: bv32)
    ensures AboveLowByte(c) & 0xff == 0 && AboveLowByte(c) >> 8 == ShiftByte(c)
  {}

  lemma TableSplits()
    ensures CRC.Splits(FitsByte, LowByte, AboveLowByte, ShiftByte)
  {
    forall a: bv32, s: bv32 | FitsByte(s)
      ensures Xor(a, s) == Xor(LowByte(Xor(a, s)), AboveLowByte(a))
    {
      LowByteSplits(a, s);
    }
    forall a: bv32
      ensures CRC.Steps(AboveLowByte(a), 8) == ShiftByte(a)
    {
      AboveLowByteShifts(a);
      LowByteClearShifts(AboveLowByte(a));
    }
  }

  lemma SymbolFitsByte(b: Byte)
    ensures FitsByte(Symbol(b))
  {}

  /** The bit-by-bit checksum is the one the table-driven sample code computes: the table holds
      eight steps of every byte, and an update looks up the low byte and shifts the rest. */
  lemma TableDrivenAgrees(data: seq<Byte>)
    ensures Checksum(data) == CRC.TableRegister(LowByte, ShiftByte, ONES, Symbols(data)) ^ ONES
  {
    forall k | 0 <= k < |data|
      ensures FitsByte(Symbols(data)[k])
    {
      SymbolFitsByte(data[k]);
    }
    BitStepIsLawful();
    TableSplits();
    CRC.TableAgrees(FitsByte, LowByte, AboveLowByte, ShiftByte, ONES, Symbols(data));
  }

  // ------------------------------------------------------------------------------------------
  // The check value
  // ------------------------------------------------------------------------------------------

  function EightBitSteps(c: bv32): bv32 { BitStep(BitStep(BitStep(BitStep(BitStep(BitStep(BitStep(BitStep(c)))))))) }

  const DIGITS: seq<Byte> := [0x31, 0x32, 0x33, 0x34, 0x35, 0x36, 0x37, 0x38, 0x39]

  /** The k-th digit as a word, and the register once k digits have been absorbed. */
  function Digit(k: nat): bv32 {
    match k
    case 0 => 0x31
    case 1 => 0x32
    case 2 => 0x33
    case 3 => 0x34
    case 4 => 0x35
    case 5 => 0x36
    case 6 => 0x37
    case 7 => 0x38
    case _ => 0x39
  }

  function DigitRegister(k: nat): bv32 {
    match k
    case 0 => 0xffffffff
    case 1 => 0x7c231048
    case 2 => 0xb0acbb32
    case 3 => 0x77b79c2d
    case 4 => 0x641c1f5c
    case 5 => 0x340ac5e3
    case 6 => 0xf68d2c9e
    case 7 => 0xaffc9660
    case 8 => 0x651f2550
    case _ => 0x340bc6d9
  }

  lemma FirstDigitSteps(k: nat)
    requires k < 4
    ensures EightBitSteps(DigitRegister(k) ^ Digit(k)) == DigitRegister(k + 1)
  {}

  lemma LastDigitSteps(k: nat)
    requires 4 <= k < 9
    ensures EightBitSteps(DigitRegister(k) ^ Digit(k)) == DigitRegister(k + 1)
  {}

  lemma StepsAre(before: bv32, s: bv32, after: bv32)
    requires EightBitSteps(before ^ s) == after
    ensures CRC.Steps(CRC.plus(before, s), 8) == after
  {
    EightSteps(before ^ s);
  }

  lemma FirstDigits(k: nat)
    requires k < 4
    ensures CRC.Steps(CRC.plus(DigitRegister(k), Digit(k)), 8) == DigitRegister(k + 1)
  {
    FirstDigitSteps(k);
    StepsAre(DigitRegister(k), Digit(k), DigitRegister(k + 1));
  }

  lemma LastDigits(k: nat)
    requires 4 <= k < 9
    ensures CRC.Steps(CRC.plus(DigitRegister(k), Digit(k)), 8) == DigitRegister(k + 1)
  {
    LastDigitSteps(k);
    StepsAre(DigitRegister(k), Digit(k), DigitRegister(k + 1));
  }

  lemma DigitSymbol(k: nat)
    requires k < 9
    ensures Symbol(DIGITS[k]) == Digit(k)
  {}

  lemma DigitAbsorbed(k: nat)
    requires k < 9
    ensures CRC.Steps(CRC.plus(DigitRegister(k), Symbols(DIGITS)[k]), 8) == DigitRegister(k + 1)
  {
    DigitSymbol(k);
    if k < 4 {
      FirstDigits(k);
    } else {
      LastDigits(k);
    }
  }

  /** The checksum of the digits from 1 to 9 is the value by which implementations of CRC-32 are told
      apart. */
  lemma CheckValue()
    ensures Checksum(DIGITS) == 0xcbf43926
  {
    forall k | 0 <= k < |Symbols(DIGITS)|
      ensures CRC.Steps(CRC.plus(DigitRegister(k), Symbols(DIGITS)[k]), 8) == DigitRegister(k + 1)
    {
      DigitAbsorbed(k);
    }
    CRC.RegisterFollows(Symbols(DIGITS), DigitRegister, 9);
    assert Symbols(DIGITS)[..9] == Symbols(DIGITS);
  }

  /** The value has no more than `32 - 8 * fed` significant bits. */
  predicate Narrow(d: bv32, fed: nat) {
    match fed
    case 0 => true
    case 1 => d < 0x0100_0000
    case 2 => d < 0x0001_0000
    case 3 => d < 0x0000_0100
    case _ => d == 0
  }

  function Widen(d: bv32): bv32 { d << 8 }

  lemma NarrowFits(d: bv32, fed: nat)
    requires 1 <= fed && Narrow(d, fed)
    ensures d < 0x0100_0000
  {}

  lemma WideningIsUndone(d: bv32)
    requires d < 0x0100_0000
    ensures (d << 8) & 0xff == 0 && (d << 8) >> 8 == d
  {}

  lemma WideningLeavesRoom(d: bv32, delta: bv32)
    requires d < 0x0100_0000 && delta < 0x100
    ensures (d << 8) ^ delta == 0 ==> d == 0 && delta == 0
    ensures d < 0x0001_0000 ==> (d << 8) ^ delta < 0x0100_0000
    ensures d < 0x0000_0100 ==> (d << 8) ^ delta < 0x0001_0000
    ensures d == 0 ==> (d << 8) ^ delta < 0x0000_0100
  {}

  lemma WideningUndoesAByte()
    ensures CRC.ShiftsBack(FitsByte, Narrow, Widen)
  {
    forall d: bv32, delta: bv32, fed: nat | 1 <= fed <= 4 && Narrow(d, fed) && FitsByte(delta)
      ensures CRC.Steps(Widen(d), 8) == d
      ensures Narrow(CRC.plus(Widen(d), delta), fed - 1)
      ensures CRC.plus(Widen(d), delta) == CRC.zero ==> d == CRC.zero && delta == CRC.zero
    {
      NarrowFits(d, fed);
      WideningIsUndone(d);
      WideningLeavesRoom(d, delta);
      LowByteClearShifts(Widen(d));
    }
  }

  // ------------------------------------------------------------------------------------------
  // Main result
  // ------------------------------------------------------------------------------------------

  lemma NibbleIsInvertible(n: nat)
    requires n < 0x10
    ensures Nibble(n) < 0x10 && Nibble(n) as nat == n
  {}

  lemma HalvesAdd(p: bv8, q: bv8)
    requires p < 0x10 && q < 0x10
    ensures ((p << 4) | q) as nat == 0x10 * (p as nat) + (q as nat)
  {}

  lemma WideningKeeps(p: bv8)
    ensures (p as bv32) as nat == p as nat
  {}

  lemma SymbolIsTheByte(b: Byte)
    ensures Symbol(b) as nat == b
  {
    var p, q := Nibble(b / 0x10), Nibble(b % 0x10);
    NibbleIsInvertible(b / 0x10);
    NibbleIsInvertible(b % 0x10);
    HalvesAdd(p, q);
    WideningKeeps((p << 4) | q);
  }

  lemma ByteIsInjective(a: Byte, b: Byte)
    ensures Symbol(a) == Symbol(b) <==> a == b
  {
    SymbolIsTheByte(a);
    SymbolIsTheByte(b);
  }

  lemma SmallDelta(a: Byte, b: Byte)
    ensures FitsByte(Symbol(a) ^ Symbol(b))
  {}

  lemma CancelOnes(a: bv32, b: bv32)
    ensures a ^ ONES == b ^ ONES <==> a == b
  {}

  lemma SymbolsAreFaithful(x: seq<Byte>, y: seq<Byte>)
    requires |x| == |y|
    ensures forall j :: 0 <= j < |x| ==> (Symbols(x)[j] == Symbols(y)[j] <==> x[j] == y[j])
    ensures forall j :: 0 <= j < |x| ==> FitsByte(CRC.Deltas(Symbols(x), Symbols(y))[j])
  {
    forall j | 0 <= j < |x|
      ensures Symbols(x)[j] == Symbols(y)[j] <==> x[j] == y[j]
      ensures FitsByte(CRC.Deltas(Symbols(x), Symbols(y))[j])
    {
      ByteIsInjective(x[j], y[j]);
      SmallDelta(x[j], y[j]);
      assert CRC.Deltas(Symbols(x), Symbols(y))[j] == Xor(Symbol(x[j]), Symbol(y[j]));
    }
  }

  /** Two byte strings of equal length that differ, and differ only within four consecutive
      bytes, have different checksums. */
  lemma BurstsAreDetected(x: seq<Byte>, y: seq<Byte>, i: nat)
    requires |x| == |y| && x != y
    requires forall j :: 0 <= j < |x| && !(i <= j < i + 4) ==> x[j] == y[j]
    ensures Checksum(x) != Checksum(y)
  {
    SymbolsAreFaithful(x, y);
    var k :| 0 <= k < |x| && x[k] != y[k];
    assert Symbols(x)[k] != Symbols(y)[k];
    XorIsSelfInverse();
    XorIsAbelian();
    BitStepIsLawful();
    WideningUndoesAByte();
    CRC.BurstsAreDetected(FitsByte, Narrow, Widen, ONES, Symbols(x), Symbols(y), i);
    CancelOnes(CRC.Register(ONES, Symbols(x)), CRC.Register(ONES, Symbols(y)));
  }
}
