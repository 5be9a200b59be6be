/** The checksum of bytecode files (`write_raw` in bytecode/bytecode_writer.cpp, `read_raw` in
    bytecode/bytecode_reader.cpp): a bit at a time, over the bytes of the body. It is the CRC of
    section 8 of RFC 1952. Bit operations are behind small functions, so that proofs about whole
    bodies reason with their laws only. */
module Checksum {
  type byte = bv8

  const POLYNOMIAL: bv32 := 0xEDB88320
  const ALL_ONES: bv32 := 0xFFFF_FFFF

  function Step(c: bv32): bv32 {
    (c >> 1) ^ (if c & 1 == 1 then POLYNOMIAL else 0)
  }

  /** The branch-free form the loops use. */
  function MaskedStep(c: bv32): bv32 {
    (c >> 1) ^ (POLYNOMIAL & (0 - (c & 1)))
  }

  function Steps(c: bv32, n: nat): bv32 {
    if n == 0 then c else Step(Steps(c, n - 1))
  }

  /** Eight steps. */
  function Advance(c: bv32): bv32 {
    Step(Step(Step(Step(Step(Step(Step(Step(c))))))))
  }

  function Mix(c: bv32, b: byte): bv32 {
    c ^ (b as bv32)
  }

  /** The register after one byte. */
  function Feed(c: bv32, b: byte): bv32 {
    Advance(Mix(c, b))
  }

  function Crc(c: bv32, bytes: seq<byte>): bv32
    decreases |bytes|
  {
    if bytes == [] then c else Feed(Crc(c, bytes[..|bytes| - 1]), bytes[|bytes| - 1])
  }

  function Not(c: bv32): bv32 {
    !c
  }

  /** The register starts with all bits set and is inverted at the end. */
  function Sum(body: seq<byte>): bv32 {
    Not(Crc(ALL_ONES, body))
  }

  /** The loop of `write_raw` and `read_raw` over one piece of data. */
  method Update(crc0: bv32, data: seq<byte>) returns (crc: bv32)
    ensures crc == Crc(crc0, data)
  {
    hide Step, MaskedStep, Advance, Mix;
    crc := crc0;
    for i := 0 to |data|
      invariant crc == Crc(crc0, data[..i])
    {
      ghost var before := crc;
      crc := Mix(crc, data[i]);
      for j := 0 to 8
        invariant crc == Steps(Mix(before, data[i]), j)
      {
        MaskedStepIsStep(crc);
        crc := MaskedStep(crc);
      }
      EightSteps(Mix(before, data[i]), 8);
      assert data[..i + 1][..i] == data[..i];
    }
    assert data[..|data|] == data;
  }

  lemma {:induction false} MaskedStepIsStep(c: bv32)
    ensures MaskedStep(c) == Step(c)
  {
    if c & 1 == 1 {
      assert 0 - (c & 1) == ALL_ONES;
    } else {
      LowBit(c);
      assert 0 - (c & 1) == 0;
    }
  }

  lemma {:induction false} LowBit(c: bv32)
    ensures c & 1 == 0 || c & 1 == 1
  {}

  lemma {:induction false} EightSteps(c: bv32, n: nat)
    requires n == 8
    ensures Steps(c, n) == Advance(c)
  {
    hide Step;
    assert Steps(c, n - 4) == Step(Step(Step(Step(c)))) by {
      assert Steps(c, n - 7) == Step(Steps(c, n - 8));
      assert Steps(c, n - 6) == Step(Steps(c, n - 7));
      assert Steps(c, n - 5) == Step(Steps(c, n - 6));
    }
    assert Steps(c, n - 3) == Step(Steps(c, n - 4));
    assert Steps(c, n - 2) == Step(Steps(c, n - 3));
    assert Steps(c, n - 1) == Step(Steps(c, n - 2));
  }

  // ----- chunks do not matter -----

  lemma {:induction false} Chunks(c: bv32, a: seq<byte>, b: seq<byte>)
    ensures Crc(c, a + b) == Crc(Crc(c, a), b)
    decreases |b|
  {
    hide Feed;
    if b == [] {
      assert a + b == a;
    } else {
      var n := |b| - 1;
      assert (a + b)[..|a| + n] == a + b[..n];
      Chunks(c, a, b[..n]);
    }
  }

  // ----- one byte is injective in the register and in the byte -----

  lemma {:induction false} StepInjective(x: bv32, y: bv32)
    requires Step(x) == Step(y)
    ensures x == y
  {}

  lemma {:induction false} AdvanceInjective(x: bv32, y: bv32)
    requires Advance(x) == Advance(y)
    ensures x == y
  {
    hide Step;
    StepInjective(Step(Step(Step(Step(Step(Step(Step(x))))))), Step(Step(Step(Step(Step(Step(Step(y))))))));
    StepInjective(Step(Step(Step(Step(Step(Step(x)))))), Step(Step(Step(Step(Step(Step(y)))))));
    StepInjective(Step(Step(Step(Step(Step(x))))), Step(Step(Step(Step(Step(y))))));
    StepInjective(Step(Step(Step(Step(x)))), Step(Step(Step(Step(y)))));
    StepInjective(Step(Step(Step(x))), Step(Step(Step(y))));
    StepInjective(Step(Step(x)), Step(Step(y)));
    StepInjective(Step(x), Step(y));
    StepInjective(x, y);
  }

  lemma {:induction false} MixInjective(x: bv32, y: bv32, b: byte)
    requires Mix(x, b) == Mix(y, b)
    ensures x == y
  {}

  lemma {:induction false} MixSameRegister(x: bv32, a: byte, b: byte)
    requires Mix(x, a) == Mix(x, b)
    ensures a == b
  {}

  /** One byte: equal results from equal registers mean equal bytes, and from equal bytes equal registers. */
  lemma {:induction false} FeedInjective(x: bv32, y: bv32, a: byte, b: byte)
    requires Feed(x, a) == Feed(y, b)
    ensures x == y <==> a == b
  {
    hide Advance, Mix;
    AdvanceInjective(Mix(x, a), Mix(y, b));
    if a == b {
      MixInjective(x, y, b);
    } else if x == y {
      MixSameRegister(x, a, b);
    }
  }

  lemma {:induction false} CrcInjective(x: bv32, y: bv32, bytes: seq<byte>)
    requires Crc(x, bytes) == Crc(y, bytes)
    ensures x == y
    decreases |bytes|
  {
    hide Feed;
    if bytes != [] {
      var n := |bytes| - 1;
      FeedInjective(Crc(x, bytes[..n]), Crc(y, bytes[..n]), bytes[n], bytes[n]);
      CrcInjective(x, y, bytes[..n]);
    }
  }

  // ----- the table-driven form of RFC 1952, section 8 -----

  function Xor(x: bv32, y: bv32): bv32 {
    x ^ y
  }

  function Left(y: bv32): bv32 {
    y << 1
  }

  function LeftByte(y: bv32): bv32 {
    y << 8
  }

  predicate TopBitClear(y: bv32) {
    y & 0x8000_0000 == 0
  }

  predicate TopByteClear(y: bv32) {
    y & 0xFF00_0000 == 0
  }

  /** Bits above the lowest pass through a step unchanged. */
  lemma {:induction false} StepShifts(x: bv32, y: bv32)
    requires TopBitClear(y)
    ensures Step(Xor(x, Left(y))) == Xor(Step(x), y)
  {
    StepShiftsBits(x, y);
  }

  lemma {:induction false} StepShiftsBits(x: bv32, y: bv32)
    requires y & 0x8000_0000 == 0
    ensures Step(x ^ (y << 1)) == Step(x) ^ y
  {}

  lemma {:induction false} LeftEight(y: bv32)
    requires TopByteClear(y)
    ensures LeftByte(y) == Left(Left(Left(Left(Left(Left(Left(Left(y))))))))
    ensures TopBitClear(y) && TopBitClear(Left(y)) && TopBitClear(Left(Left(y)))
    ensures TopBitClear(Left(Left(Left(y)))) && TopBitClear(Left(Left(Left(Left(y)))))
    ensures TopBitClear(Left(Left(Left(Left(Left(y)))))) && TopBitClear(Left(Left(Left(Left(Left(Left(y)))))))
    ensures TopBitClear(Left(Left(Left(Left(Left(Left(Left(y))))))))
  {}

  lemma {:induction false} AdvanceShifts(x: bv32, y: bv32)
    requires TopByteClear(y)
    ensures Advance(Xor(x, LeftByte(y))) == Xor(Advance(x), y)
  {
    hide Step, Xor, Left, LeftByte, TopBitClear, TopByteClear;
    LeftEight(y);
    StepShifts(x, Left(Left(Left(Left(Left(Left(Left(y))))))));
    StepShifts(Step(x), Left(Left(Left(Left(Left(Left(y)))))));
    StepShifts(Step(Step(x)), Left(Left(Left(Left(Left(y))))));
    StepShifts(Step(Step(Step(x))), Left(Left(Left(Left(y)))));
    StepShifts(Step(Step(Step(Step(x)))), Left(Left(Left(y))));
    StepShifts(Step(Step(Step(Step(Step(x))))), Left(Left(y)));
    StepShifts(Step(Step(Step(Step(Step(Step(x)))))), Left(y));
    StepShifts(Step(Step(Step(Step(Step(Step(Step(x))))))), y);
  }

  /** Entry `n` of the table of RFC 1952. */
  function TableEntry(n: byte): bv32 {
    Advance(n as bv32)
  }

  function LowByte(c: bv32): byte {
    (c & 0xFF) as byte
  }

  function RightByte(c: bv32): bv32 {
    c >> 8
  }

  /** One byte with the table gives the register that eight single steps give. */
  lemma {:induction false} TableDriven(c: bv32, b: byte)
    ensures Feed(c, b) == Xor(TableEntry(LowByte(Mix(c, b))), RightByte(c))
  {
    hide Advance, Mix, Xor, LeftByte, RightByte, LowByte, TopByteClear;
    SplitRegister(c, b);
    AdvanceShifts(Mix(0, LowByte(Mix(c, b))), RightByte(c));
    MixZero(LowByte(Mix(c, b)));
  }

  lemma {:induction false} SplitRegister(c: bv32, b: byte)
    ensures Mix(c, b) == Xor(Mix(0, LowByte(Mix(c, b))), LeftByte(RightByte(c)))
    ensures TopByteClear(RightByte(c))
  {}

  lemma {:induction false} MixZero(b: byte)
    ensures Mix(0, b) == b as bv32
  {}

  // ----- four consecutive bytes -----

  /** Little-endian words of one to four bytes. */
  function Word1(b0: byte): bv32 {
    Mix(0, b0)
  }

  function Word2(b0: byte, b1: byte): bv32 {
    Xor(Word1(b0), LeftByte(Word1(b1)))
  }

  function Word3(b0: byte, b1: byte, b2: byte): bv32 {
    Xor(Word1(b0), LeftByte(Word2(b1, b2)))
  }

  function Word4(b0: byte, b1: byte, b2: byte, b3: byte): bv32 {
    Xor(Word1(b0), LeftByte(Word3(b1, b2, b3)))
  }

  predicate TopTwoClear(y: bv32) {
    y & 0xFFFF_0000 == 0
  }

  predicate TopThreeClear(y: bv32) {
    y & 0xFFFF_FF00 == 0
  }

  lemma {:induction false} WordsFit(b0: byte, b1: byte, b2: byte)
    ensures TopThreeClear(Word1(b0)) && TopTwoClear(Word2(b0, b1)) && TopByteClear(Word3(b0, b1, b2))
    ensures TopByteClear(Word1(b0)) && TopByteClear(Word2(b0, b1))
  {
    hide Word1, TopThreeClear, TopTwoClear, TopByteClear, Xor, LeftByte;
    Word1Fits(b0);
    Word1Fits(b1);
    Word1Fits(b2);
    JoinTwo(Word1(b0), Word1(b1));
    JoinTwo(Word1(b1), Word1(b2));
    JoinThree(Word1(b0), Word2(b1, b2));
  }

  lemma {:induction false} Word1Fits(b: byte)
    ensures TopThreeClear(Word1(b)) && TopByteClear(Word1(b))
  {}

  lemma {:induction false} JoinTwo(x: bv32, y: bv32)
    requires TopThreeClear(x) && TopThreeClear(y)
    ensures TopTwoClear(Xor(x, LeftByte(y))) && TopByteClear(Xor(x, LeftByte(y)))
  {}

  lemma {:induction false} JoinThree(x: bv32, y: bv32)
    requires TopThreeClear(x) && TopTwoClear(y)
    ensures TopByteClear(Xor(x, LeftByte(y)))
  {}

  lemma {:induction false} XorAssociates(x: bv32, y: bv32, z: bv32)
    ensures Xor(x, Xor(y, z)) == Xor(Xor(x, y), z)
  {}

  lemma {:induction false} MixFirst(c: bv32, b: byte, y: bv32)
    ensures Xor(c, Xor(Word1(b), y)) == Xor(Mix(c, b), y)
  {
    hide Xor, Mix, Word1;
    XorAssociates(c, Word1(b), y);
    MixLast(c, b);
  }

  lemma {:induction false} MixLast(c: bv32, b: byte)
    ensures Xor(c, Word1(b)) == Mix(c, b)
  {}

  /** Feeding four bytes is feeding one 32-bit word. */
  lemma {:induction false} FeedWord(c: bv32, b0: byte, b1: byte, b2: byte, b3: byte)
    ensures Feed(Feed(Feed(Feed(c, b0), b1), b2), b3)
         == Advance(Advance(Advance(Advance(Xor(c, Word4(b0, b1, b2, b3))))))
  {
    hide Advance, Mix, Xor, LeftByte, TopByteClear, TopTwoClear, TopThreeClear, Word1;
    var s1 := Feed(c, b0);
    var s2 := Feed(s1, b1);
    var s3 := Feed(s2, b2);
    WordsFit(b1, b2, b3);
    WordsFit(b2, b3, b3);
    WordsFit(b3, b3, b3);
    MixFirst(c, b0, LeftByte(Word3(b1, b2, b3)));
    AdvanceShifts(Mix(c, b0), Word3(b1, b2, b3));
    MixFirst(s1, b1, LeftByte(Word2(b2, b3)));
    AdvanceShifts(Mix(s1, b1), Word2(b2, b3));
    MixFirst(s2, b2, LeftByte(Word1(b3)));
    AdvanceShifts(Mix(s2, b2), Word1(b3));
    MixLast(s3, b3);
  }

  lemma {:induction false} FourBytes(c: bv32, a: seq<byte>)
    requires |a| == 4
    ensures Crc(c, a) == Feed(Feed(Feed(Feed(c, a[0]), a[1]), a[2]), a[3])
  {
    hide Feed;
    assert a[..3][..2] == a[..2] && a[..2][..1] == a[..1] && a[..1][..0] == [];
    assert Crc(c, a) == Feed(Crc(c, a[..3]), a[3]);
    assert Crc(c, a[..3]) == Feed(Crc(c, a[..2]), a[2]);
    assert Crc(c, a[..2]) == Feed(Crc(c, a[..1]), a[1]);
    assert Crc(c, a[..1]) == Feed(c, a[0]);
  }

  // ----- bit by bit -----

  function BitValue(b: bool): bv32 {
    if b then 1 else 0
  }

  function FeedBit(c: bv32, b: bool): bv32 {
    Step(Xor(c, BitValue(b)))
  }

  function CrcBits(c: bv32, bits: seq<bool>): bv32
    decreases |bits|
  {
    if bits == [] then c else FeedBit(CrcBits(c, bits[..|bits| - 1]), bits[|bits| - 1])
  }

  /** The bits of a byte, the lowest first, as they go into the register. */
  function ByteBits(b: byte): (bits: seq<bool>)
    ensures |bits| == 8
  {
    [b & 0x01 != 0, b & 0x02 != 0, b & 0x04 != 0, b & 0x08 != 0,
     b & 0x10 != 0, b & 0x20 != 0, b & 0x40 != 0, b & 0x80 != 0]
  }

  function Bits(bytes: seq<byte>): (bits: seq<bool>)
    ensures |bits| == 8 * |bytes|
    decreases |bytes|
  {
    if bytes == [] then [] else Bits(bytes[..|bytes| - 1]) + ByteBits(bytes[|bytes| - 1])
  }

  lemma {:induction false} BitsChunks(c: bv32, x: seq<bool>, y: seq<bool>)
    ensures CrcBits(c, x + y) == CrcBits(CrcBits(c, x), y)
    decreases |y|
  {
    hide FeedBit;
    if y == [] {
      assert x + y == x;
    } else {
      var n := |y| - 1;
      assert (x + y)[..|x| + n] == x + y[..n];
      BitsChunks(c, x, y[..n]);
    }
  }

  /** A word whose lowest bit goes in first: the step moves the others down. */
  lemma {:induction false} FeedFirstBit(c: bv32, y: bv32, b: bool)
    requires TopBitClear(y)
    ensures Step(Xor(c, Xor(BitValue(b), Left(y)))) == Xor(FeedBit(c, b), y)
  {
    hide Step, Xor, Left, TopBitClear, BitValue;
    XorAssociates(c, BitValue(b), Left(y));
    StepShifts(Xor(c, BitValue(b)), y);
  }

  /** The bits of a byte, put together from the highest down. */
  lemma {:induction false} JoinBits(b: byte, t7: bv32, t6: bv32, t5: bv32, t4: bv32, t3: bv32, t2: bv32, t1: bv32)
    requires t7 == Xor(BitValue(b & 0x80 != 0), Left(0)) && t6 == Xor(BitValue(b & 0x40 != 0), Left(t7))
    requires t5 == Xor(BitValue(b & 0x20 != 0), Left(t6)) && t4 == Xor(BitValue(b & 0x10 != 0), Left(t5))
    requires t3 == Xor(BitValue(b & 0x08 != 0), Left(t4)) && t2 == Xor(BitValue(b & 0x04 != 0), Left(t3))
    requires t1 == Xor(BitValue(b & 0x02 != 0), Left(t2))
    ensures Xor(BitValue(b & 0x01 != 0), Left(t1)) == b as bv32
    ensures TopBitClear(0) && TopBitClear(t7) && TopBitClear(t6) && TopBitClear(t5) && TopBitClear(t4)
    ensures TopBitClear(t3) && TopBitClear(t2) && TopBitClear(t1)
  {}

  lemma {:induction false} EightBits(c: bv32, bits: seq<bool>)
    requires |bits| == 8
    ensures CrcBits(c, bits) == FeedBit(FeedBit(FeedBit(FeedBit(FeedBit(FeedBit(FeedBit(FeedBit(c,
              bits[0]), bits[1]), bits[2]), bits[3]), bits[4]), bits[5]), bits[6]), bits[7])
  {
    hide FeedBit;
    var x, y := bits[..4], bits[4..];
    assert x + y == bits;
    BitsChunks(c, x, y);
    FourBits(c, x);
    FourBits(CrcBits(c, x), y);
  }

  lemma {:induction false} FourBits(c: bv32, bits: seq<bool>)
    requires |bits| == 4
    ensures CrcBits(c, bits) == FeedBit(FeedBit(FeedBit(FeedBit(c, bits[0]), bits[1]), bits[2]), bits[3])
  {
    hide FeedBit;
    assert bits[..3][..2] == bits[..2] && bits[..2][..1] == bits[..1] && bits[..1][..0] == [];
    assert CrcBits(c, bits) == FeedBit(CrcBits(c, bits[..3]), bits[3]);
    assert CrcBits(c, bits[..3]) == FeedBit(CrcBits(c, bits[..2]), bits[2]);
    assert CrcBits(c, bits[..2]) == FeedBit(CrcBits(c, bits[..1]), bits[1]);
    assert CrcBits(c, bits[..1]) == FeedBit(c, bits[0]);
  }

  /** Eight bits fed one by one, when each of the words left over has its top bit clear. */
  lemma {:induction false} FeedTails(c: bv32, b0: bool, b1: bool, b2: bool, b3: bool, b4: bool, b5: bool, b6: bool, b7: bool,
                                     t1: bv32, t2: bv32, t3: bv32, t4: bv32, t5: bv32, t6: bv32, t7: bv32)
    requires t7 == Xor(BitValue(b7), Left(0)) && t6 == Xor(BitValue(b6), Left(t7)) && t5 == Xor(BitValue(b5), Left(t6))
    requires t4 == Xor(BitValue(b4), Left(t5)) && t3 == Xor(BitValue(b3), Left(t4)) && t2 == Xor(BitValue(b2), Left(t3))
    requires t1 == Xor(BitValue(b1), Left(t2))
    requires TopBitClear(0) && TopBitClear(t7) && TopBitClear(t6) && TopBitClear(t5) && TopBitClear(t4)
    requires TopBitClear(t3) && TopBitClear(t2) && TopBitClear(t1)
    ensures Advance(Xor(c, Xor(BitValue(b0), Left(t1))))
         == FeedBit(FeedBit(FeedBit(FeedBit(FeedBit(FeedBit(FeedBit(FeedBit(c, b0), b1), b2), b3), b4), b5), b6), b7)
  {
    hide Step, Xor, Left, BitValue, FeedBit, TopBitClear;
    var c1 := FeedBit(c, b0);
    var c2 := FeedBit(c1, b1);
    var c3 := FeedBit(c2, b2);
    var c4 := FeedBit(c3, b3);
    var c5 := FeedBit(c4, b4);
    var c6 := FeedBit(c5, b5);
    var c7 := FeedBit(c6, b6);
    FeedFirstBit(c, t1, b0);
    FeedFirstBit(c1, t2, b1);
    FeedFirstBit(c2, t3, b2);
    FeedFirstBit(c3, t4, b3);
    FeedFirstBit(c4, t5, b4);
    FeedFirstBit(c5, t6, b5);
    FeedFirstBit(c6, t7, b6);
    FeedFirstBit(c7, 0, b7);
    XorNothing(FeedBit(c7, b7));
  }

  /** A byte is fed as its bits are. */
  lemma {:induction false} FeedBits(c: bv32, b: byte)
    ensures Feed(c, b) == CrcBits(c, ByteBits(b))
  {
    hide Step, Xor, Left, BitValue, FeedBit, TopBitClear, Mix, CrcBits, Advance;
    var t7 := Xor(BitValue(b & 0x80 != 0), Left(0));
    var t6 := Xor(BitValue(b & 0x40 != 0), Left(t7));
    var t5 := Xor(BitValue(b & 0x20 != 0), Left(t6));
    var t4 := Xor(BitValue(b & 0x10 != 0), Left(t5));
    var t3 := Xor(BitValue(b & 0x08 != 0), Left(t4));
    var t2 := Xor(BitValue(b & 0x04 != 0), Left(t3));
    var t1 := Xor(BitValue(b & 0x02 != 0), Left(t2));
    JoinBits(b, t7, t6, t5, t4, t3, t2, t1);
    FeedTails(c, b & 0x01 != 0, b & 0x02 != 0, b & 0x04 != 0, b & 0x08 != 0, b & 0x10 != 0, b & 0x20 != 0, b & 0x40 != 0, b & 0x80 != 0,
              t1, t2, t3, t4, t5, t6, t7);
    MixWord(c, b);
    EightBits(c, ByteBits(b));
  }

  lemma {:induction false} MixWord(c: bv32, b: byte)
    ensures Mix(c, b) == Xor(c, b as bv32)
  {}

  lemma {:induction false} XorNothing(c: bv32)
    ensures Xor(c, 0) == c
  {}

  /** The bytes of a body are fed bit by bit. */
  lemma {:induction false} CrcOfBits(c: bv32, bytes: seq<byte>)
    ensures Crc(c, bytes) == CrcBits(c, Bits(bytes))
    decreases |bytes|
  {
    hide Feed, CrcBits, ByteBits;
    if bytes == [] {
      NoBits(c);
    } else {
      var n := |bytes| - 1;
      CrcOfBits(c, bytes[..n]);
      FeedBits(Crc(c, bytes[..n]), bytes[n]);
      BitsChunks(c, Bits(bytes[..n]), ByteBits(bytes[n]));
    }
  }

  // ----- bursts -----

  /** A bit is injective in the register. */
  lemma {:induction false} BitsInjective(x: bv32, y: bv32, bits: seq<bool>)
    requires CrcBits(x, bits) == CrcBits(y, bits)
    ensures x == y
    decreases |bits|
  {
    if bits != [] {
      hide Step, Xor;
      var n := |bits| - 1;
      StepInjective(Xor(CrcBits(x, bits[..n]), BitValue(bits[n])), Xor(CrcBits(y, bits[..n]), BitValue(bits[n])));
      XorCancels(CrcBits(x, bits[..n]), CrcBits(y, bits[..n]), BitValue(bits[n]));
      BitsInjective(x, y, bits[..n]);
    }
  }

  lemma {:induction false} XorCancels(x: bv32, y: bv32, z: bv32)
    requires Xor(x, z) == Xor(y, z)
    ensures x == y
  {}

  /** The powers of two, from 2^31 down. */
  function Power(j: nat): bv32 {
    if j == 0 then 0x8000_0000 else Half(Power(j - 1))
  }

  function Half(x: bv32): bv32 {
    x >> 1
  }

  lemma {:induction false} PowerSmall(j: nat)
    ensures Power(j) <= 0x8000_0000
    decreases j
  {
    if j > 0 {
      PowerSmall(j - 1);
      HalfSmaller(Power(j - 1));
    }
  }

  lemma {:induction false} HalfSmaller(x: bv32)
    ensures Half(x) <= x
  {}

  function Sixteenth(x: bv32): bv32 {
    x >> 4
  }

  lemma {:induction false} SixteenthIs(x: bv32)
    ensures Sixteenth(x) == Half(Half(Half(Half(x))))
  {}

  lemma {:induction false} FourHalves(j: nat)
    ensures Power(j + 4) == Sixteenth(Power(j))
  {
    hide Half, Sixteenth;
    assert Power(j + 1) == Half(Power(j)) && Power(j + 2) == Half(Power(j + 1));
    assert Power(j + 3) == Half(Power(j + 2)) && Power(j + 4) == Half(Power(j + 3));
    SixteenthIs(Power(j));
  }

  lemma {:induction false} LastPower()
    ensures Power(31) == 1
  {
    hide Half, Sixteenth;
    FourHalves(0);
    FourHalves(4);
    FourHalves(8);
    FourHalves(12);
    FourHalves(16);
    FourHalves(20);
    FourHalves(24);
    assert Power(31) == Half(Half(Half(Power(28))));
    LastHalves();
  }

  lemma {:induction false} LastHalves()
    ensures Half(Half(Half(Sixteenth(Sixteenth(Sixteenth(Sixteenth(Sixteenth(Sixteenth(Sixteenth(0x8000_0000)))))))))) == 1
  {}

  lemma {:induction false} XorCommutes(x: bv32, y: bv32)
    ensures Xor(x, y) == Xor(y, x)
  {}

  lemma {:induction false} XorTwice(x: bv32, y: bv32)
    ensures Xor(x, Xor(x, y)) == y
  {}

  lemma {:induction false} XorSwap(x: bv32, y: bv32, a: bv32, b: bv32)
    ensures Xor(Xor(x, a), Xor(y, b)) == Xor(Xor(x, y), Xor(a, b))
  {
    hide Xor;
    XorAssociates(x, a, Xor(y, b));
    XorAssociates(a, y, b);
    XorCommutes(a, y);
    XorAssociates(y, a, b);
    XorAssociates(x, y, Xor(a, b));
  }

  /** Steps that end less than half the register apart began twice as far apart. */
  lemma {:induction false} StepApart(u: bv32, v: bv32)
    requires TopBitClear(Xor(Step(u), Step(v)))
    ensures Xor(u, v) == Left(Xor(Step(u), Step(v)))
  {
    hide Step, Xor, Left, TopBitClear;
    var e := Xor(Step(u), Step(v));
    StepShifts(u, e);
    XorTwice(Step(u), Step(v));
    StepInjective(Xor(u, Left(e)), v);
    XorTwice(u, Left(e));
  }

  /** Before a bit goes in, two registers differ in at most one bit position more than after it. */
  lemma {:induction false} ApartBefore(x: bv32, y: bv32, a: bool, b: bool, limit: bv32)
    requires Small(limit) && Less(Xor(FeedBit(x, a), FeedBit(y, b)), Half(limit))
    ensures Less(Xor(x, y), limit)
  {
    hide Step, Xor, Half, Left, TopBitClear, BitValue, Less, Small;
    var u, v := Xor(x, BitValue(a)), Xor(y, BitValue(b));
    var e := Xor(Step(u), Step(v));
    LowHalf(e, limit);
    StepApart(u, v);
    XorSwap(x, y, BitValue(a), BitValue(b));
    BitsApart(a, b);
    DoubleLess(Xor(x, y), Xor(BitValue(a), BitValue(b)), e, limit);
  }

  predicate Small(limit: bv32) {
    limit <= 0x8000_0000
  }

  predicate Less(x: bv32, limit: bv32) {
    x < limit
  }

  lemma {:induction false} LowHalf(e: bv32, limit: bv32)
    requires Small(limit) && Less(e, Half(limit))
    ensures TopBitClear(e)
  {}

  lemma {:induction false} BitsApart(a: bool, b: bool)
    ensures Xor(BitValue(a), BitValue(b)) == if a == b then 0 else 1
  {}

  lemma {:induction false} DoubleLess(d: bv32, t: bv32, e: bv32, limit: bv32)
    requires Small(limit) && Less(e, Half(limit)) && (t == 0 || t == 1) && Xor(d, t) == Left(e)
    ensures Less(d, limit)
  {}

  lemma {:induction false} PowerHalves(j: nat)
    requires j > 0
    ensures Power(j) == Half(Power(j - 1)) && Small(Power(j)) && Small(Power(j - 1))
  {
    PowerSmall(j);
    PowerSmall(j - 1);
  }

  lemma {:induction false} NotApart(x: bv32)
    ensures Less(Xor(x, x), Power(31))
  {
    LastPower();
    XorSelf(x);
  }

  lemma {:induction false} XorSelf(x: bv32)
    ensures Xor(x, x) == 0
  {}

  lemma {:induction false} NoBits(c: bv32)
    ensures CrcBits(c, []) == c
  {}

  /** Registers that `n` bits bring together, for `n` at most 31, are apart in the last `n` bits at most. */
  lemma {:induction false} ApartAtMost(x: bv32, y: bv32, a: seq<bool>, b: seq<bool>)
    requires |a| == |b| <= 31 && CrcBits(x, a) == CrcBits(y, b)
    ensures Less(Xor(x, y), Power(31 - |a|))
    decreases |a|
  {
    hide *;
    if a == [] {
      NoBits(x);
      NoBits(y);
      NotApart(x);
    } else {
      var j := 32 - |a|;
      FirstBit(x, a);
      FirstBit(y, b);
      ApartAtMost(FeedBit(x, a[0]), FeedBit(y, b[0]), a[1..], b[1..]);
      PowerHalves(j);
      ApartBefore(x, y, a[0], b[0], Power(j - 1));
    }
  }

  lemma {:induction false} FirstBit(c: bv32, bits: seq<bool>)
    requires bits != []
    ensures CrcBits(c, bits) == CrcBits(FeedBit(c, bits[0]), bits[1..])
  {
    hide FeedBit;
    assert bits == [bits[0]] + bits[1..];
    BitsChunks(c, [bits[0]], bits[1..]);
    assert [bits[0]][..0] == [];
  }

  /** One register, up to 32 bits: different bits give different registers. */
  lemma {:induction false} BurstInjective(c: bv32, a: seq<bool>, b: seq<bool>)
    requires |a| == |b| <= 32 && CrcBits(c, a) == CrcBits(c, b)
    ensures a == b
    decreases |a|
  {
    hide FeedBit, Xor;
    if a != [] {
      FirstBit(c, a);
      FirstBit(c, b);
      var x, y := FeedBit(c, a[0]), FeedBit(c, b[0]);
      if a[0] == b[0] {
        BurstInjective(x, a[1..], b[1..]);
        assert a == [a[0]] + a[1..] && b == [b[0]] + b[1..];
      } else {
        ApartAtMost(x, y, a[1..], b[1..]);
        TooFar(c, a[0], b[0], 31 - |a[1..]|);
      }
    }
  }

  lemma {:induction false} TooFar(c: bv32, a: bool, b: bool, j: nat)
    requires a != b
    ensures !Less(Xor(FeedBit(c, a), FeedBit(c, b)), Power(j))
  {
    hide FeedBit, Xor;
    PowerSmall(j);
    DifferentBits(c, a, b);
  }

  lemma {:induction false} SameRest(c: bv32)
    ensures (c ^ 1) >> 1 == c >> 1
  {}

  lemma {:induction false} LowFlips(c: bv32)
    ensures (c ^ 1) & 1 == 1 <==> c & 1 != 1
  {}

  lemma {:induction false} XorBoth(x: bv32, p: bv32)
    ensures (x ^ p) ^ (x ^ 0) == p && (x ^ 0) ^ (x ^ p) == p
  {}

  /** Registers that differ in the lowest bit are a polynomial apart after the step. */
  lemma {:induction false} OtherLowBit(c: bv32)
    ensures Xor(Step(c), Step(Xor(c, 1))) == POLYNOMIAL
  {
    SameRest(c);
    LowFlips(c);
    XorBoth(c >> 1, POLYNOMIAL);
  }

  /** The highest bit of the register tells which of two bits went in. */
  lemma {:induction false} DifferentBits(c: bv32, a: bool, b: bool)
    requires a != b
    ensures Xor(FeedBit(c, a), FeedBit(c, b)) >= 0x8000_0000
  {
    hide Step, Xor;
    OtherLowBit(c);
    XorNothing(c);
    XorCommutes(Step(c), Step(Xor(c, 1)));
  }

  /** `b` differs from `a` at most in 32 consecutive bits, from bit number `p` on. */
  ghost predicate WithinBurst(a: seq<byte>, b: seq<byte>, p: nat) {
    && |a| == |b|
    && forall i :: 0 <= i < |Bits(a)| && !(p <= i < p + 32) ==> Bits(a)[i] == Bits(b)[i]
  }

  lemma {:induction false} BitsSame(a: seq<byte>, b: seq<byte>)
    requires Bits(a) == Bits(b)
    ensures a == b
    decreases |a|
  {
    hide ByteBits;
    assert |a| == |b|;
    if a != [] {
      var n := |a| - 1;
      var x, y := Bits(a[..n]), Bits(b[..n]);
      assert Bits(a)[..8 * n] == x && Bits(b)[..8 * n] == y;
      assert Bits(a)[8 * n..] == ByteBits(a[n]) && Bits(b)[8 * n..] == ByteBits(b[n]);
      BitsSame(a[..n], b[..n]);
      ByteBitsSame(a[n], b[n]);
      assert a == a[..n] + [a[n]] && b == b[..n] + [b[n]];
    }
  }

  lemma {:induction false} ByteBitsSame(a: byte, b: byte)
    requires ByteBits(a) == ByteBits(b)
    ensures a == b
  {
    var x, y := ByteBits(a), ByteBits(b);
    assert x[0] == y[0] && x[1] == y[1] && x[2] == y[2] && x[3] == y[3];
    assert x[4] == y[4] && x[5] == y[5] && x[6] == y[6] && x[7] == y[7];
    MaskedBits(a, b);
  }

  lemma {:induction false} MaskedBits(a: byte, b: byte)
    requires (a & 0x01 != 0) == (b & 0x01 != 0) && (a & 0x02 != 0) == (b & 0x02 != 0)
    requires (a & 0x04 != 0) == (b & 0x04 != 0) && (a & 0x08 != 0) == (b & 0x08 != 0)
    requires (a & 0x10 != 0) == (b & 0x10 != 0) && (a & 0x20 != 0) == (b & 0x20 != 0)
    requires (a & 0x40 != 0) == (b & 0x40 != 0) && (a & 0x80 != 0) == (b & 0x80 != 0)
    ensures a == b
  {}

  /** Three stretches of bits, of which only the middle one differs. */
  lemma {:induction false} MiddleInjective(x: seq<bool>, a: seq<bool>, b: seq<bool>, z: seq<bool>)
    requires |a| == |b| <= 32 && CrcBits(ALL_ONES, x + a + z) == CrcBits(ALL_ONES, x + b + z)
    ensures a == b
  {
    hide CrcBits;
    BitsChunks(ALL_ONES, x + a, z);
    BitsChunks(ALL_ONES, x + b, z);
    BitsInjective(CrcBits(ALL_ONES, x + a), CrcBits(ALL_ONES, x + b), z);
    BitsChunks(ALL_ONES, x, a);
    BitsChunks(ALL_ONES, x, b);
    BurstInjective(CrcBits(ALL_ONES, x), a, b);
  }

  /** A change confined to 32 consecutive bits, wherever they begin, always changes the checksum. */
  lemma {:induction false} BurstDetected(a: seq<byte>, b: seq<byte>, p: nat)
    requires WithinBurst(a, b, p)
    ensures Sum(a) == Sum(b) <==> a == b
  {
    hide Crc, CrcBits, Not, Bits;
    if Sum(a) == Sum(b) {
      NotInjective(Crc(ALL_ONES, a), Crc(ALL_ONES, b));
      CrcOfBits(ALL_ONES, a);
      CrcOfBits(ALL_ONES, b);
      var x, y := Bits(a), Bits(b);
      BitsLength(a, b);
      var lo := if p < |x| then p else |x|;
      var hi := if p + 32 < |x| then p + 32 else |x|;
      assert x == x[..lo] + x[lo..hi] + x[hi..] && y == x[..lo] + y[lo..hi] + x[hi..];
      MiddleInjective(x[..lo], x[lo..hi], y[lo..hi], x[hi..]);
      BitsSame(a, b);
    }
  }

  lemma {:induction false} BitsLength(a: seq<byte>, b: seq<byte>)
    requires |a| == |b|
    ensures |Bits(a)| == |Bits(b)|
  {}

  /** `b` differs from `a` at most in the four bytes from `p` on. */
  ghost predicate WithinFourBytes(a: seq<byte>, b: seq<byte>, p: nat) {
    |a| == |b| && forall i :: 0 <= i < |a| && !(p <= i < p + 4) ==> a[i] == b[i]
  }

  lemma {:induction false} BitOf(bytes: seq<byte>, i: nat)
    requires i < 8 * |bytes|
    ensures Bits(bytes)[i] == ByteBits(bytes[i / 8])[i % 8]
    decreases |bytes|
  {
    hide ByteBits;
    var n := |bytes| - 1;
    if i < 8 * n {
      BitOf(bytes[..n], i);
    } else {
      assert i / 8 == n && i % 8 == i - 8 * n;
    }
  }

  /** Four consecutive bytes are such a stretch. */
  lemma {:induction false} FourBytesDetected(a: seq<byte>, b: seq<byte>, p: nat)
    requires WithinFourBytes(a, b, p)
    ensures WithinBurst(a, b, 8 * p) && (Sum(a) == Sum(b) <==> a == b)
  {
    hide Sum, Bits, ByteBits;
    BitsLength(a, b);
    CountBits(a);
    forall i | 0 <= i < |Bits(a)| && !(8 * p <= i < 8 * p + 32) ensures Bits(a)[i] == Bits(b)[i] {
      BitOf(a, i);
      BitOf(b, i);
    }
    BurstDetected(a, b, 8 * p);
  }

  lemma {:induction false} CountBits(a: seq<byte>)
    ensures |Bits(a)| == 8 * |a|
  {}

  lemma {:induction false} NotInjective(x: bv32, y: bv32)
    requires Not(x) == Not(y)
    ensures x == y
  {}

  /** Five bytes are too many: these two bodies differ and have the same checksum. */
  lemma {:induction false} FiveBytesCollide()
    ensures Sum([0, 0, 0, 0, 0]) == Sum([0x01, 0x96, 0x30, 0x07, 0x77])
  {
    hide Crc, Not, Feed, Xor, Word4, Advance;
    var a: seq<byte> := [0, 0, 0, 0];
    var b: seq<byte> := [0x96, 0x30, 0x07, 0x77];
    assert [0, 0, 0, 0, 0] == [0] + a && [0x01, 0x96, 0x30, 0x07, 0x77] == [0x01] + b;
    Chunks(ALL_ONES, [0], a);
    Chunks(ALL_ONES, [0x01], b);
    OneByte(ALL_ONES, 0);
    OneByte(ALL_ONES, 0x01);
    var x, y := Feed(ALL_ONES, 0), Feed(ALL_ONES, 0x01);
    FourBytes(x, a);
    FourBytes(y, b);
    FeedWord(x, 0, 0, 0, 0);
    FeedWord(y, 0x96, 0x30, 0x07, 0x77);
    CollidingWords();
  }

  lemma {:induction false} CollidingWords()
    ensures Xor(Feed(ALL_ONES, 0), Word4(0, 0, 0, 0)) == Xor(Feed(ALL_ONES, 0x01), Word4(0x96, 0x30, 0x07, 0x77))
  {}

  // ----- which checksum it is -----

  lemma {:induction false} ByteMore(bytes: seq<byte>, b: byte)
    ensures Crc(ALL_ONES, bytes + [b]) == Feed(Crc(ALL_ONES, bytes), b)
  {
    hide Feed;
    assert (bytes + [b])[..|bytes|] == bytes;
  }

  lemma {:induction false} DigitSteps()
    ensures Feed(0xFFFFFFFF, 0x31) == 0x7C231048
    ensures Feed(0x7C231048, 0x32) == 0xB0ACBB32
    ensures Feed(0xB0ACBB32, 0x33) == 0x77B79C2D
    ensures Feed(0x77B79C2D, 0x34) == 0x641C1F5C
    ensures Feed(0x641C1F5C, 0x35) == 0x340AC5E3
    ensures Feed(0x340AC5E3, 0x36) == 0xF68D2C9E
    ensures Feed(0xF68D2C9E, 0x37) == 0xAFFC9660
    ensures Feed(0xAFFC9660, 0x38) == 0x651F2550
    ensures Feed(0x651F2550, 0x39) == 0x340BC6D9
  {}

  /** The checksum of nothing, and the check value of the CRC of RFC 1952: the checksum of the digits 1 to 9. */
  lemma {:induction false} CheckValue()
    ensures Sum([]) == 0
    ensures Sum([0x31, 0x32, 0x33, 0x34, 0x35, 0x36, 0x37, 0x38, 0x39]) == 0xCBF43926
  {
    hide Feed, Crc;
    var digits: seq<byte> := [0x31, 0x32, 0x33, 0x34, 0x35, 0x36, 0x37, 0x38, 0x39];
    NoBytes(ALL_ONES);
    assert digits[..0] == [];
    DigitSteps();
    ByteMore(digits[..0], 0x31);
    assert digits[..0] + [0x31] == digits[..1];
    ByteMore(digits[..1], 0x32);
    assert digits[..1] + [0x32] == digits[..2];
    ByteMore(digits[..2], 0x33);
    assert digits[..2] + [0x33] == digits[..3];
    ByteMore(digits[..3], 0x34);
    assert digits[..3] + [0x34] == digits[..4];
    ByteMore(digits[..4], 0x35);
    assert digits[..4] + [0x35] == digits[..5];
    ByteMore(digits[..5], 0x36);
    assert digits[..5] + [0x36] == digits[..6];
    ByteMore(digits[..6], 0x37);
    assert digits[..6] + [0x37] == digits[..7];
    ByteMore(digits[..7], 0x38);
    assert digits[..7] + [0x38] == digits[..8];
    ByteMore(digits[..8], 0x39);
    assert digits[..8] + [0x39] == digits[..9];
    assert digits[..9] == digits;
  }

  lemma {:induction false} NoBytes(c: bv32)
    ensures Crc(c, []) == c
  {}

  lemma {:induction false} AdvanceOnes()
    ensures Advance(Advance(Advance(Advance(ALL_ONES)))) == 0xDEBB20E3
  {
    assert Advance(ALL_ONES) == 0x2DFD1072;
    assert Advance(0x2DFD1072) == 0xBE26ED00;
    assert Advance(0xBE26ED00) == 0x00BE26ED;
  }

  lemma {:induction false} XorNot(c: bv32)
    ensures Xor(c, Not(c)) == ALL_ONES
  {}

  lemma {:induction false} OneByte(c: bv32, b: byte)
    ensures Crc(c, [b]) == Feed(c, b)
  {
    hide Feed;
    assert [b][..0] == [];
  }
}
